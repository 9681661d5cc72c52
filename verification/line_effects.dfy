/**
  What `Job.read` does with each kind of line `Job.qsub_string` writes. A line is a
  fixed prefix followed by an attribute's value and a newline; as long as the value
  cannot be mistaken for part of a directive (no newline, no `=`, no `$`, and no `-`
  followed by one of the option letters `read` looks for), every token the rules search
  for lies in the fixed prefix, so the line sets exactly the attribute it was written for.
*/
module LineEffects {
  import opened Optional
  import opened Text
  import opened Decimal
  import opened JobRecord
  import opened Parser

  /** The letters of the options `read` finds with `re.search`: `-N`, `-A`, `-a`, `-q`. */
  predicate IsFlagLetter(c: char) {
    c == 'N' || c == 'A' || c == 'a' || c == 'q'
  }

  /** A value that cannot be mistaken for part of a directive when written after a prefix. */
  predicate Inert(v: string) {
    forall i :: 0 <= i < |v| ==>
      && v[i] != '\n' && v[i] != '=' && v[i] != '$'
      && (v[i] == '-' && i + 1 < |v| ==> !IsFlagLetter(v[i + 1]))
  }

  /** A value that a pattern `-X\s+(.*)\s` gives back whole: inert, and not starting with whitespace. */
  predicate Captures(v: string) {
    Inert(v) && (v == [] || !IsSpace(v[0]))
  }

  /** The tokens whose position decides what `read` does with a line. */
  predicate IsKeyToken(tok: string) {
    || tok == "-N" || tok == "-A" || tok == "-a" || tok == "-q"
    || tok == "walltime=" || tok == "pmem=" || tok == "nodes=" || tok == "auto="
  }

  /** A key token found in a line made of a prefix, an inert value and a newline ends within the prefix. */
  lemma TokenEnd(p: string, v: string, tok: string, i: nat)
    requires Inert(v) && p != [] && p[|p| - 1] != '-'
    requires IsKeyToken(tok) && StartsAt(p + v + "\n", i, tok)
    ensures i + |tok| <= |p|
  {
    var l := p + v + "\n";
    var last := |tok| - 1;
    CharAt(l, i, tok, last);
    CharAt(l, i, tok, 0);
    if tok[last] != '=' {
      CharAt(l, i, tok, 1);
    }
  }

  /** In a line made of a prefix, an inert value and a newline, the key tokens only occur in the prefix. */
  lemma TokenInPrefix(p: string, v: string, tok: string)
    requires Inert(v) && p != [] && p[|p| - 1] != '-'
    requires IsKeyToken(tok)
    ensures forall i: nat :: StartsAt(p + v + "\n", i, tok) ==> StartsAt(p, i, tok)
  {
    var l := p + v + "\n";
    forall i: nat | StartsAt(l, i, tok)
      ensures StartsAt(p, i, tok)
    {
      TokenEnd(p, v, tok, i);
      assert l[i..i + |tok|] == p[i..i + |tok|];
    }
  }

  /** The first and last characters of `t` never line up in `s`, so `t` does not occur there. */
  predicate Lacks(s: string, t: string)
    requires |t| > 0
  {
    forall i :: 0 <= i && i + |t| <= |s| ==> s[i] != t[0] || s[i + |t| - 1] != t[|t| - 1]
  }

  /** `p` holds none of the key tokens, except possibly the one of the attribute `f` when `f` is given. */
  predicate LacksKeys(p: string, f: Option<Field>) {
    && (f == Some(Name) || Lacks(p, "-N"))
    && (f == Some(Account) || Lacks(p, "-A"))
    && (f == Some(Exetime) || Lacks(p, "-a"))
    && (f == Some(Queue) || Lacks(p, "-q"))
    && (f == Some(Walltime) || Lacks(p, "walltime="))
    && (f == Some(Pmem) || Lacks(p, "pmem="))
    && Lacks(p, "nodes=") && Lacks(p, "auto=")
  }

  /** The character `c` occurs in `p` at position `k` only (nowhere when `k` is negative). */
  predicate Only(p: string, c: char, k: int) {
    forall i :: 0 <= i < |p| && p[i] == c ==> i == k
  }

  /** A token whose first character occurs once in `p` is lacking if it does not end where it should. */
  lemma LacksByFirst(p: string, tok: string, k: int)
    requires |tok| > 0 && Only(p, tok[0], k)
    requires 0 <= k && k + |tok| <= |p| ==> p[k + |tok| - 1] != tok[|tok| - 1]
    ensures Lacks(p, tok)
  {
  }

  /** A token whose last character occurs once in `p` is lacking if it does not start where it should. */
  lemma LacksByLast(p: string, tok: string, k: int)
    requires |tok| > 0 && Only(p, tok[|tok| - 1], k)
    requires 0 <= k - |tok| + 1 && k < |p| ==> p[k - |tok| + 1] != tok[0]
    ensures Lacks(p, tok)
  {
  }

  /** A key token missing from the prefix is missing from the line. */
  lemma Quiet(p: string, v: string, tok: string)
    requires Inert(v) && p != [] && p[|p| - 1] != '-'
    requires IsKeyToken(tok) && Lacks(p, tok)
    ensures !Occurs(p + v + "\n", tok)
  {
    NotAt(p, tok);
    TokenInPrefix(p, v, tok);
  }

  /** On a value line with no key token no rule matches. */
  lemma QuietRules(p: string, v: string)
    requires Inert(v) && p != [] && p[0] != '-' && p[|p| - 1] != '-'
    requires LacksKeys(p, None)
    ensures var l := p + v + "\n";
      (forall g :: Capture(g, l).None?) && NodesPpn(l).None? && Search(l, "auto=", Spaces(0)).None?
  {
    var l := p + v + "\n";
    Quiet(p, v, "-N");
    Quiet(p, v, "-A");
    Quiet(p, v, "-a");
    Quiet(p, v, "-q");
    Quiet(p, v, "walltime=");
    Quiet(p, v, "pmem=");
    Quiet(p, v, "nodes=");
    Quiet(p, v, "auto=");
    assert l[0] == p[0];
  }

  /** A line on which no rule matches changes nothing. */
  lemma IdleLine(st: ScanState, l: string)
    requires forall g :: Capture(g, l).None?
    requires NodesPpn(l).None? && Search(l, "auto=", Spaces(0)).None?
    ensures ApplyLine(st, l) == Going(st)
  {
    ResourceIdle(st, l);
  }

  /** The value line with no key token: nothing changes. */
  lemma QuietLine(st: ScanState, p: string, v: string)
    requires Inert(v) && p != [] && p[0] != '-' && p[|p| - 1] != '-'
    requires LacksKeys(p, None)
    ensures ApplyLine(st, p + v + "\n") == Going(st)
  {
    QuietRules(p, v);
    IdleLine(st, p + v + "\n");
  }

  /** The group of `tok\s+(.*)\s` or `tok(.*)\s` on a line written as the prefix, the value and a newline. */
  lemma GroupOfValue(p: string, v: string, lead: Lead)
    requires Inert(v) && p != []
    requires lead == Direct || (lead == Spaces(1) && p[|p| - 1] == ' ' && (v == [] || !IsSpace(v[0])))
    ensures lead == Direct ==> GroupAt(p + v + "\n", |p|, lead) == Some(v)
    ensures lead != Direct ==> GroupAt(p + v + "\n", |p| - 1, lead) == Some(v)
  {
    var l := p + v + "\n";
    assert l[|l| - 1] == '\n';
    if lead == Direct {
      assert LastSpace(l, |p|) == Some(|l| - 1);
      assert l[|p|..|l| - 1] == v;
    } else {
      var j := |p| - 1;
      if v == [] {
        assert SpaceRun(l, j + 2) == 0;
        assert SpaceRun(l, j) == 2;
      } else {
        assert l[j + 1] == v[0];
        assert SpaceRun(l, j) == 1;
        assert LastSpace(l, j + 1) == Some(|l| - 1);
        assert l[j + 1..|l| - 1] == v;
      }
    }
  }

  /** The resource rules find nothing on a line without `walltime=`, `nodes=` and `pmem=` matches. */
  lemma ResourceIdle(st: ScanState, l: string)
    requires Capture(Walltime, l).None? && Capture(Pmem, l).None? && NodesPpn(l).None?
    ensures ResourceRules(st, l) == Going(st)
  {
  }

  /** On a line where only the rule for `f` matches, every other capturing rule leaves the state
      alone, and the rule for `f` assigns the captured value. */
  lemma RulesOnly(l: string, f: Field, v: string)
    requires Capture(f, l) == Some(v)
    requires forall g :: g != f ==> Capture(g, l).None?
    ensures forall g, x :: g != f ==> Rule(g, x, l) == x
    ensures forall x :: Rule(f, x, l) == Assign(f, x, v)
  {
  }

  /** When no rule from the resource rules on matches, the capturing rules of a `#PBS` line come
      down to the first three. */
  lemma QuietBack(st: ScanState, l: string)
    requires Capture(Walltime, l).None? && Capture(Pmem, l).None? && NodesPpn(l).None?
    requires Capture(Queue, l).None? && Capture(Email, l).None? && Capture(Message, l).None?
    requires Capture(Priority, l).None?
    ensures PbsRules(st, l) == Going(Rule(Exetime, Rule(Account, Rule(Name, st, l), l), l))
  {
    ResourceIdle(Rule(Exetime, Rule(Account, Rule(Name, st, l), l), l), l);
  }

  /** When no rule up to the resource rules matches, the capturing rules of a `#PBS` line come
      down to the last four. */
  lemma QuietFront(st: ScanState, l: string)
    requires Capture(Name, l).None? && Capture(Account, l).None? && Capture(Exetime, l).None?
    requires Capture(Walltime, l).None? && Capture(Pmem, l).None? && NodesPpn(l).None?
    ensures PbsRules(st, l) == Going(Rule(Priority, Rule(Message, Rule(Email, Rule(Queue, st, l), l), l), l))
  {
    ResourceIdle(st, l);
  }

  /** The capturing rules of a `#PBS` line when only the rule for `f`, applied before the resource
      rules, matches. */
  lemma PbsRulesEarly(st: ScanState, l: string, f: Field, v: string)
    requires f == Name || f == Account || f == Exetime
    requires Capture(f, l) == Some(v)
    requires forall g :: g != f ==> Capture(g, l).None?
    requires NodesPpn(l).None?
    ensures PbsRules(st, l) == Going(Assign(f, st, v))
  {
    QuietBack(st, l);
    RulesOnly(l, f, v);
    assert Rule(Exetime, Rule(Account, Rule(Name, st, l), l), l) == Assign(f, st, v);
  }

  /** The capturing rules of a `#PBS` line when only the rule for `f`, applied after the resource
      rules, matches. */
  lemma PbsRulesLate(st: ScanState, l: string, f: Field, v: string)
    requires f == Queue || f == Email || f == Message || f == Priority
    requires Capture(f, l) == Some(v)
    requires forall g :: g != f ==> Capture(g, l).None?
    requires NodesPpn(l).None?
    ensures PbsRules(st, l) == Going(Assign(f, st, v))
  {
    QuietFront(st, l);
    RulesOnly(l, f, v);
    assert Rule(Priority, Rule(Message, Rule(Email, Rule(Queue, st, l), l), l), l) == Assign(f, st, v);
  }

  /** A `#PBS` line on which only the rule for `f`, an attribute outside `-l`, matches. */
  lemma ApplyOnlyPlain(st: ScanState, l: string, f: Field, v: string)
    requires LeadOf(f) != Direct
    requires HasPbs(l) && Capture(f, l) == Some(v)
    requires forall g :: g != f ==> Capture(g, l).None?
    requires NodesPpn(l).None? && Search(l, "auto=", Spaces(0)).None?
    ensures ApplyLine(st, l) == Going(Assign(f, st, v))
  {
    var a := Assign(f, st, v);
    if f == Name || f == Account || f == Exetime {
      PbsRulesEarly(st, l, f, v);
    } else {
      PbsRulesLate(st, l, f, v);
    }
    assert AutoRule(a, l) == Going(a);
  }

  /** A `#PBS -l` line on which only the rule for `f`, `walltime` or `pmem`, matches. */
  lemma ApplyOnlyResource(st: ScanState, l: string, f: Field, v: string)
    requires LeadOf(f) == Direct && HasResourceFlag(l)
    requires HasPbs(l) && Capture(f, l) == Some(v)
    requires forall g :: g != f ==> Capture(g, l).None?
    requires NodesPpn(l).None? && Search(l, "auto=", Spaces(0)).None?
    ensures ApplyLine(st, l) == Going(Assign(f, st, v))
  {
    var a := Assign(f, st, v);
    assert NodesRule(st, l) == Going(st) && NodesRule(a, l) == Going(a);
    assert AutoRule(a, l) == Going(a);
    assert ResourceRules(st, l) == Going(a);
  }

  /** A `#PBS` line on which only the rule for `f` matches sets `f` and nothing else. */
  lemma ApplyOnly(st: ScanState, l: string, f: Field, v: string)
    requires HasPbs(l) && Capture(f, l) == Some(v)
    requires LeadOf(f) == Direct ==> HasResourceFlag(l)
    requires forall g :: g != f ==> Capture(g, l).None?
    requires NodesPpn(l).None? && Search(l, "auto=", Spaces(0)).None?
    ensures ApplyLine(st, l) == Going(Assign(f, st, v))
  {
    if LeadOf(f) == Direct {
      ApplyOnlyResource(st, l, f, v);
    } else {
      ApplyOnlyPlain(st, l, f, v);
    }
  }

  /** Every key token but the one of `f` is missing from the line. */
  lemma OthersQuiet(p: string, v: string, f: Field)
    requires Inert(v) && p != [] && p[|p| - 1] != '-' && p[0] == '#'
    requires LacksKeys(p, Some(f))
    ensures var l := p + v + "\n";
      && (forall g :: g != f ==> Capture(g, l).None?)
      && NodesPpn(l).None? && Search(l, "auto=", Spaces(0)).None?
  {
    var l := p + v + "\n";
    if f != Name { Quiet(p, v, "-N"); }
    if f != Account { Quiet(p, v, "-A"); }
    if f != Exetime { Quiet(p, v, "-a"); }
    if f != Queue { Quiet(p, v, "-q"); }
    if f != Walltime { Quiet(p, v, "walltime="); }
    if f != Pmem { Quiet(p, v, "pmem="); }
    Quiet(p, v, "nodes=");
    Quiet(p, v, "auto=");
    assert l[0] == '#';
  }

  /** The rule for `f` captures the value, the first occurrence of its token being in the prefix. */
  lemma CaptureOwn(p: string, v: string, f: Field, k: nat)
    requires !Anchored(f)
    requires Inert(v) && p != []
    requires StartsAt(p, k, Token(f)) && forall i :: 0 <= i < k ==> p[i] != Token(f)[0]
    requires LeadOf(f) == Direct ==> k + |Token(f)| == |p|
    requires LeadOf(f) != Direct ==> k + |Token(f)| + 1 == |p| && p[|p| - 1] == ' ' && (v == [] || !IsSpace(v[0]))
    ensures Capture(f, p + v + "\n") == Some(v)
  {
    var l := p + v + "\n";
    var tok := Token(f);
    assert StartsAt(l, k, tok) by {
      assert l[k..k + |tok|] == p[k..k + |tok|];
    }
    forall i | 0 <= i < k
      ensures !StartsAt(l, i, tok)
    {
      if StartsAt(l, i, tok) {
        CharAt(l, i, tok, 0);
        assert false;
      }
    }
    GroupOfValue(p, v, LeadOf(f));
    SearchFirst(l, tok, LeadOf(f), k);
  }

  /** A value line whose prefix holds the token of `f` and no other key token sets `f` to the value. */
  lemma SetLine(st: ScanState, p: string, v: string, f: Field, k: nat)
    requires !Anchored(f)
    requires Inert(v) && p != [] && p[|p| - 1] != '-' && StartsAt(p, 0, "#PBS")
    requires LacksKeys(p, Some(f))
    requires StartsAt(p, k, Token(f)) && forall i :: 0 <= i < k ==> p[i] != Token(f)[0]
    requires LeadOf(f) == Direct ==> k + |Token(f)| == |p| && StartsAt(p, 0, "#PBS -l ")
    requires LeadOf(f) != Direct ==> k + |Token(f)| + 1 == |p| && p[|p| - 1] == ' ' && (v == [] || !IsSpace(v[0]))
    ensures ApplyLine(st, p + v + "\n") == Going(Assign(f, st, v))
  {
    PbsGuard(p, v);
    if LeadOf(f) == Direct {
      ResourceGuard(p, v);
    }
    OthersQuiet(p, v, f);
    CaptureOwn(p, v, f, k);
    ApplyOnly(st, p + v + "\n", f, v);
  }

  /** A line that starts with `#PBS` is a `#PBS` line whatever follows. */
  lemma PbsGuard(p: string, v: string)
    requires StartsAt(p, 0, "#PBS")
    ensures HasPbs(p + v + "\n") && p[0] == '#'
  {
    var l := p + v + "\n";
    assert StartsAt(l, 0, "#PBS") by {
      assert l[..4] == p[..4];
    }
    CharAt(p, 0, "#PBS", 0);
  }

  /** A line that starts with `#PBS -l ` has the `-l` flag whatever follows. */
  lemma ResourceGuard(p: string, v: string)
    requires StartsAt(p, 0, "#PBS -l ")
    ensures HasResourceFlag(p + v + "\n")
  {
    var l := p + v + "\n";
    assert l[..8] == p[..8];
    CharAt(l, 0, "#PBS -l ", 4);
    CharAt(l, 0, "#PBS -l ", 7);
    assert StartsAt(l, 5, "-l") by {
      assert l[5..7] == l[..8][5..7];
    }
  }

  /** No line without `$` is the `cd $PBS_O_WORKDIR` line. */
  lemma NoAnchor(p: string, v: string)
    requires Inert(v) && '$' !in p
    ensures !IsAnchor(p + v + "\n")
  {
    var l := p + v + "\n";
    AnchorNeedsDollar(l);
    assert '$' !in l;
  }

  // ---------------------------------------------------------------------------
  // The lines of a submit script

  /** The key tokens of a `#PBS -X ` prefix: `-X` itself at most, where `-` is the only dash
      and no `=` occurs. */
  lemma OptionPrefix(p: string, f: Option<Field>)
    requires |p| == 8 && Only(p, '-', 5) && Only(p, '=', -1)
    requires f.Some? ==> Token(f.value) == p[5..7]
    requires f.None? ==> !IsFlagLetter(p[6])
    requires p[6] == 'N' ==> f == Some(Name)
    requires p[6] == 'A' ==> f == Some(Account)
    requires p[6] == 'a' ==> f == Some(Exetime)
    requires p[6] == 'q' ==> f == Some(Queue)
    ensures LacksKeys(p, f)
  {
    if f != Some(Name) { LacksByFirst(p, "-N", 5); }
    if f != Some(Account) { LacksByFirst(p, "-A", 5); }
    if f != Some(Exetime) { LacksByFirst(p, "-a", 5); }
    if f != Some(Queue) { LacksByFirst(p, "-q", 5); }
    LacksByLast(p, "walltime=", -1);
    LacksByLast(p, "pmem=", -1);
    LacksByLast(p, "nodes=", -1);
    LacksByLast(p, "auto=", -1);
  }

  /** Where the dash, the `=` and the `$` are in a `#PBS -X ` prefix. */
  lemma OptionPrefixChars(p: string, f: Field)
    requires p == "#PBS " + Token(f) + " "
    requires f == Name || f == Account || f == Exetime || f == Queue
    ensures |p| == 8 && Only(p, '-', 5) && Only(p, '=', -1) && '$' !in p
    ensures StartsAt(p, 0, "#PBS") && StartsAt(p, 5, Token(f)) && Token(f) == p[5..7]
  {
  }

  /** `#PBS -X <value>` for the option `-X` of `f`, which the line sets. */
  lemma OptionLine(st: ScanState, p: string, v: string, f: Field)
    requires Captures(v) && p == "#PBS " + Token(f) + " "
    requires f == Name || f == Account || f == Exetime || f == Queue
    ensures ApplyLine(st, p + v + "\n") == Going(Assign(f, st, v))
    ensures !IsAnchor(p + v + "\n")
  {
    OptionPrefixChars(p, f);
    OptionPrefix(p, Some(f));
    SetLine(st, p, v, f, 5);
    NoAnchor(p, v);
  }

  /** The key tokens of `#PBS -l walltime=`: `walltime=` only. */
  lemma WalltimePrefix(p: string)
    requires p == "#PBS -l walltime="
    ensures LacksKeys(p, Some(Walltime)) && '$' !in p
    ensures StartsAt(p, 0, "#PBS -l ") && StartsAt(p, 0, "#PBS") && StartsAt(p, 8, Token(Walltime))
    ensures p[|p| - 1] == '=' && 8 + |Token(Walltime)| == |p| && forall i :: 0 <= i < 8 ==> p[i] != 'w'
  {
    WalltimeChars(p);
    LacksByFirst(p, "-N", 5);
    LacksByFirst(p, "-A", 5);
    LacksByFirst(p, "-a", 5);
    LacksByFirst(p, "-q", 5);
    LacksByLast(p, "pmem=", 16);
    LacksByLast(p, "nodes=", 16);
    LacksByLast(p, "auto=", 16);
  }

  /** Where the dash, the `=` and the tokens are in `#PBS -l walltime=`. */
  lemma WalltimeChars(p: string)
    requires p == "#PBS -l walltime="
    ensures Only(p, '-', 5) && Only(p, '=', 16) && '$' !in p
    ensures StartsAt(p, 0, "#PBS -l ") && StartsAt(p, 0, "#PBS") && StartsAt(p, 8, Token(Walltime))
    ensures p[|p| - 1] == '=' && 8 + |Token(Walltime)| == |p| && forall i :: 0 <= i < 8 ==> p[i] != 'w'
  {
  }

  /** The key tokens of `#PBS -l pmem=`: `pmem=` only. */
  lemma PmemPrefix(p: string)
    requires p == "#PBS -l pmem="
    ensures LacksKeys(p, Some(Pmem)) && '$' !in p
    ensures StartsAt(p, 0, "#PBS -l ") && StartsAt(p, 0, "#PBS") && StartsAt(p, 8, Token(Pmem))
    ensures p[|p| - 1] == '=' && 8 + |Token(Pmem)| == |p| && forall i :: 0 <= i < 8 ==> p[i] != 'p'
  {
    PmemChars(p);
    LacksByFirst(p, "-N", 5);
    LacksByFirst(p, "-A", 5);
    LacksByFirst(p, "-a", 5);
    LacksByFirst(p, "-q", 5);
    LacksByLast(p, "walltime=", 12);
    LacksByLast(p, "nodes=", 12);
    LacksByLast(p, "auto=", 12);
  }

  /** Where the dash, the `=` and the tokens are in `#PBS -l pmem=`. */
  lemma PmemChars(p: string)
    requires p == "#PBS -l pmem="
    ensures Only(p, '-', 5) && Only(p, '=', 12) && '$' !in p
    ensures StartsAt(p, 0, "#PBS -l ") && StartsAt(p, 0, "#PBS") && StartsAt(p, 8, Token(Pmem))
    ensures p[|p| - 1] == '=' && 8 + |Token(Pmem)| == |p| && forall i :: 0 <= i < 8 ==> p[i] != 'p'
  {
  }

  /** The key tokens of a `#PBS -l <resource>=` prefix: its own resource token only. */
  lemma ResourcePrefix(p: string, f: Field)
    requires f == Walltime || f == Pmem
    requires p == "#PBS -l " + Token(f)
    ensures LacksKeys(p, Some(f)) && '$' !in p
    ensures StartsAt(p, 0, "#PBS -l ") && StartsAt(p, 0, "#PBS") && StartsAt(p, 8, Token(f))
    ensures p[|p| - 1] == '=' && 8 + |Token(f)| == |p| && forall i :: 0 <= i < 8 ==> p[i] != Token(f)[0]
  {
    if f == Walltime {
      WalltimePrefix(p);
    } else {
      PmemPrefix(p);
    }
  }

  /** `#PBS -l <resource>=<value>` for `walltime` or `pmem`, which the line sets. */
  lemma ResourceLine(st: ScanState, p: string, v: string, f: Field)
    requires Inert(v) && p == "#PBS -l " + Token(f)
    requires f == Walltime || f == Pmem
    ensures ApplyLine(st, p + v + "\n") == Going(Assign(f, st, v))
    ensures !IsAnchor(p + v + "\n")
  {
    ResourcePrefix(p, f);
    SetLine(st, p, v, f, 8);
    NoAnchor(p, v);
  }

  /** A prefix with no `=` and no dash before an option letter holds no key token. */
  lemma PlainPrefix(p: string, k: int)
    requires Only(p, '-', k) && Only(p, '=', -1)
    requires 0 <= k < |p| - 1 ==> !IsFlagLetter(p[k + 1])
    ensures LacksKeys(p, None)
  {
    LacksByFirst(p, "-N", k);
    LacksByFirst(p, "-A", k);
    LacksByFirst(p, "-a", k);
    LacksByFirst(p, "-q", k);
    LacksByLast(p, "walltime=", -1);
    LacksByLast(p, "pmem=", -1);
    LacksByLast(p, "nodes=", -1);
    LacksByLast(p, "auto=", -1);
  }

  /** `#PBS -l qos=` holds no key token. */
  lemma QosPrefix(p: string)
    requires p == "#PBS -l qos="
    ensures LacksKeys(p, None) && '$' !in p
  {
    QosChars(p);
    LacksByFirst(p, "-N", 5);
    LacksByFirst(p, "-A", 5);
    LacksByFirst(p, "-a", 5);
    LacksByFirst(p, "-q", 5);
    LacksByLast(p, "walltime=", 11);
    LacksByLast(p, "pmem=", 11);
    LacksByLast(p, "nodes=", 11);
    LacksByLast(p, "auto=", 11);
  }

  /** Where the dash and the `=` are in `#PBS -l qos=`. */
  lemma QosChars(p: string)
    requires p == "#PBS -l qos="
    ensures Only(p, '-', 5) && Only(p, '=', 11) && '$' !in p
  {
  }

  /** `#PBS -l qos=<queue>`: `read` has no rule for `qos`, so the line changes nothing. */
  lemma QosLine(st: ScanState, v: string)
    requires Inert(v)
    ensures ApplyLine(st, "#PBS -l qos=" + v + "\n") == Going(st)
    ensures !IsAnchor("#PBS -l qos=" + v + "\n")
  {
    var p := "#PBS -l qos=";
    QosPrefix(p);
    QuietLine(st, p, v);
    NoAnchor(p, v);
  }

  /** `#PBS -M`, `#PBS -m` and `#PBS -p` lines: their rules use `re.match`, which never matches
      a line starting with `#PBS`, so they change nothing. */
  lemma UnreadLine(st: ScanState, p: string, v: string)
    requires Inert(v) && (p == "#PBS -M " || p == "#PBS -m " || p == "#PBS -p ")
    ensures ApplyLine(st, p + v + "\n") == Going(st)
    ensures !IsAnchor(p + v + "\n")
  {
    assert Only(p, '-', 5) && Only(p, '=', -1) && '$' !in p;
    PlainPrefix(p, 5);
    QuietLine(st, p, v);
    NoAnchor(p, v);
  }

  /** A fixed line with no key token changes nothing. */
  lemma FixedLine(st: ScanState, l: string, k: int)
    requires l != [] && l[0] != '-' && Only(l, '-', k) && k < |l| - 1 && Only(l, '=', -1) && Only(l, '\n', -1)
    requires 0 <= k < |l| - 1 ==> !IsFlagLetter(l[k + 1])
    ensures ApplyLine(st, l + "\n") == Going(st)
  {
    PlainPrefix(l, k);
    QuietLine(st, l, "");
    assert l + "" + "\n" == l + "\n";
  }

  /** The blank line changes nothing and is not the `cd` line. */
  lemma BlankLine()
    ensures Ordinary("")
  {
    assert "" + "\n" == "\n";
    assert !Occurs("\n", "#PBS");
    assert !Occurs("\n", "auto=");
  }

  /** `#auto=True` or `#auto=False` sets `auto` and its entry in the `optional` dictionary. */
  lemma AutoLine(st: ScanState, b: bool)
    ensures var l := "#auto=" + ShowBool(b) + "\n";
      && ApplyLine(st, l) == Going(st.(job := st.job.(auto := b), optional := st.optional[Auto := ShowBool(b)]))
      && !IsAnchor(l)
  {
    var v := ShowBool(b);
    var l := "#auto=" + v + "\n";
    assert Only(l, '#', 0) && Only(l, '$', -1);
    LacksByFirst(l, "#PBS", 0);
    NotAt(l, "#PBS");
    AnchorNeedsDollar(l);
    assert l[1..6] == "auto=";
    assert StartsAt(l, 1, "auto=");
    assert !StartsAt(l, 0, "auto=");
    assert SpaceRun(l, 6) == 0;
    assert LastSpace(l, 6) == Some(|l| - 1);
    assert l[6..|l| - 1] == v;
    SearchFirst(l, "auto=", Spaces(0), 1);
  }

  /** `cat $PBS_NODEFILE`: the one fixed line with a `$`, which is not `cd $PBS_O_WORKDIR`. */
  lemma NodefileLine()
    ensures Ordinary("cat $PBS_NODEFILE")
  {
    var l := "cat $PBS_NODEFILE";
    assert Only(l, '-', -1) && Only(l, '=', -1) && Only(l, '\n', -1);
    forall st
      ensures ApplyLine(st, l + "\n") == Going(st)
    {
      FixedLine(st, l, -1);
    }
    var t := l + "\n";
    assert Only(t, 'c', 0);
    LacksByFirst(t, "cd", 0);
    NotAt(t, "cd");
    assert forall i :: 0 <= i < |l| ==> l[i] != '\n';
  }

  /** `cd $PBS_O_WORKDIR` changes nothing by itself and ends the directives. */
  lemma WorkdirLine(st: ScanState)
    ensures ApplyLine(st, "cd $PBS_O_WORKDIR" + "\n") == Going(st)
    ensures IsAnchor("cd $PBS_O_WORKDIR" + "\n")
  {
    var l := "cd $PBS_O_WORKDIR";
    assert Only(l, '-', -1) && Only(l, '=', -1) && Only(l, '\n', -1);
    FixedLine(st, l, -1);
    var t := l + "\n";
    assert StartsAt(t, 0, "cd");
    assert SpaceRun(t, 3) == 0;
    assert SpaceRun(t, 2) == 1;
    assert StartsAt(t, 3, "$PBS_O_WORKDIR");
    assert AnchorRest(t, 2);
  }

  /** A decimal integer as `"{0}".format` writes it: digits, with a minus sign in front at most. */
  predicate Numeral(s: string) {
    s != [] && forall i :: 0 <= i < |s| ==> IsDigit(s[i]) || (i == 0 && s[i] == '-')
  }

  /** Where the `=` and the `-` of a `nodes=<n>:ppn=<p>` line are. */
  lemma CountsLineChars(n: string, q: string)
    requires Numeral(n) && Numeral(q)
    ensures var l := "#PBS -l nodes=" + n + ":ppn=" + q + "\n";
      && (forall i :: 0 <= i < |l| && l[i] == '=' ==> i == 13 || i == 18 + |n|)
      && (forall i :: 0 <= i < |l| - 1 && l[i] == '-' ==> !IsFlagLetter(l[i + 1]))
      && (forall i :: 0 <= i < |l| && l[i] == '$' ==> false)
      && (forall i :: 0 <= i < |l| && l[i] == 'w' ==> false)
      && (forall i :: 14 <= i < 14 + |n| ==> IsDigit(l[i]) || l[i] == '-')
      && l[14 + |n|..19 + |n|] == ":ppn=" && l[14..14 + |n|] == n && l[19 + |n|..|l| - 1] == q
  {
    var p := "#PBS -l nodes=";
    var l := p + n + ":ppn=" + q + "\n";
    assert Only(p, '=', 13) && Only(p, '-', 5) && Only(p, '$', -1) && Only(p, 'w', -1) && p[6] == 'l';
    forall i | 0 <= i < |l|
      ensures l[i] == if i < 14 then p[i] else if i < 14 + |n| then n[i - 14]
                     else if i < 19 + |n| then ":ppn="[i - 14 - |n|]
                     else if i < 19 + |n| + |q| then q[i - 19 - |n|] else '\n'
    {
    }
  }

  /** On a `nodes=<n>:ppn=<p>` line none of the option tokens occurs. */
  lemma CountsLineFlags(n: string, q: string)
    requires Numeral(n) && Numeral(q)
    ensures var l := "#PBS -l nodes=" + n + ":ppn=" + q + "\n";
      !Occurs(l, "-N") && !Occurs(l, "-A") && !Occurs(l, "-a") && !Occurs(l, "-q")
  {
    var l := "#PBS -l nodes=" + n + ":ppn=" + q + "\n";
    CountsLineChars(n, q);
    forall tok | tok in ["-N", "-A", "-a", "-q"]
      ensures !Occurs(l, tok)
    {
      NotAt(l, tok);
    }
  }

  /** On a `nodes=<n>:ppn=<p>` line neither `walltime=`, `pmem=` nor `auto=` occurs, nor `cd $PBS_O_WORKDIR`. */
  lemma CountsLineOthers(n: string, q: string)
    requires Numeral(n) && Numeral(q)
    ensures var l := "#PBS -l nodes=" + n + ":ppn=" + q + "\n";
      !Occurs(l, "walltime=") && !Occurs(l, "pmem=") && !Occurs(l, "auto=") && !IsAnchor(l)
  {
    var l := "#PBS -l nodes=" + n + ":ppn=" + q + "\n";
    CountsLineChars(n, q);
    var m := 14 + |n|;
    assert l[m] == ':' && l[9] == 'o' && l[m - 1] != 'n';
    NotAt(l, "walltime=");
    NotAt(l, "pmem=");
    NotAt(l, "auto=");
    AnchorNeedsDollar(l);
  }

  /** On a `nodes=<n>:ppn=<p>` line `nodes=` first occurs at 8. */
  lemma CountsLineNodes(n: string, q: string)
    ensures var l := "#PBS -l nodes=" + n + ":ppn=" + q + "\n";
      StartsAt(l, 8, "nodes=") && (forall i :: 0 <= i < 8 ==> !StartsAt(l, i, "nodes="))
  {
    var l := "#PBS -l nodes=" + n + ":ppn=" + q + "\n";
    assert l[..14] == "#PBS -l nodes=";
    assert StartsAt(l, 8, "nodes=") by {
      assert l[8..14] == l[..14][8..14];
    }
    forall i | 0 <= i < 8
      ensures !StartsAt(l, i, "nodes=")
    {
      if StartsAt(l, i, "nodes=") {
        CharAt(l, i, "nodes=", 5);
        assert false;
      }
    }
  }

  /** On a `nodes=<n>:ppn=<p>` line no key token occurs but `nodes=`, and that one first at 8. */
  lemma CountsLineTokens(n: string, q: string)
    requires Numeral(n) && Numeral(q)
    ensures var l := "#PBS -l nodes=" + n + ":ppn=" + q + "\n";
      && !Occurs(l, "-N") && !Occurs(l, "-A") && !Occurs(l, "-a") && !Occurs(l, "-q")
      && !Occurs(l, "walltime=") && !Occurs(l, "pmem=") && !Occurs(l, "auto=") && !IsAnchor(l)
      && StartsAt(l, 8, "nodes=") && (forall i :: 0 <= i < 8 ==> !StartsAt(l, i, "nodes="))
  {
    CountsLineFlags(n, q);
    CountsLineOthers(n, q);
    CountsLineNodes(n, q);
  }

  /** A `nodes=<n>:ppn=<p>` line is a `#PBS` line with the `-l` flag. */
  lemma CountsLinePrefix(n: string, q: string)
    ensures var l := "#PBS -l nodes=" + n + ":ppn=" + q + "\n";
      HasPbs(l) && HasResourceFlag(l) && l[0] == '#'
  {
    var l := "#PBS -l nodes=" + n + ":ppn=" + q + "\n";
    assert l[..8] == "#PBS -l ";
    assert StartsAt(l, 0, "#PBS") by {
      assert l[..4] == l[..8][..4];
    }
    assert StartsAt(l, 5, "-l") by {
      assert l[5..7] == l[..8][5..7];
    }
    assert IsSpace(l[4]) && IsSpace(l[7]);
  }

  /** On a `nodes=<n>:ppn=<p>` line the last `:ppn=` followed by whitespace is the one written. */
  lemma CountsLinePpn(n: string, q: string)
    requires Numeral(n) && Numeral(q)
    ensures var l := "#PBS -l nodes=" + n + ":ppn=" + q + "\n";
      LastPpn(l, 14, |l|) == Some(14 + |n|) && LastSpace(l, 19 + |n|) == Some(|l| - 1)
  {
    var l := "#PBS -l nodes=" + n + ":ppn=" + q + "\n";
    CountsLineChars(n, q);
    var m := 14 + |n|;
    assert StartsAt(l, m, ":ppn=");
    assert LastSpace(l, m + 5) == Some(|l| - 1) by {
      assert IsSpace(l[|l| - 1]);
    }
    forall r | m < r < |l| && StartsAt(l, r, ":ppn=")
      ensures false
    {
      CharAt(l, r, ":ppn=", 4);
    }
  }

  /** `nodes=(.*):ppn=(.*)\s` on a `nodes=<n>:ppn=<p>` line gives back the two numerals. */
  lemma CountsLineGroups(n: string, q: string)
    requires Numeral(n) && Numeral(q)
    ensures NodesPpn("#PBS -l nodes=" + n + ":ppn=" + q + "\n") == Some((n, q))
  {
    var l := "#PBS -l nodes=" + n + ":ppn=" + q + "\n";
    CountsLinePpn(n, q);
    CountsLineChars(n, q);
    assert PpnGroups(l, 14) == Some((n, q));
    CountsLineTokens(n, q);
    NodesPpnFromSkips(l, 0, 8);
  }

  /** No capturing rule and no `auto=` rule matches a `nodes=<n>:ppn=<p>` line. */
  lemma CountsLineQuiet(n: string, q: string)
    requires Numeral(n) && Numeral(q)
    ensures var l := "#PBS -l nodes=" + n + ":ppn=" + q + "\n";
      (forall g :: Capture(g, l).None?) && Search(l, "auto=", Spaces(0)).None?
  {
    CountsLinePrefix(n, q);
    CountsLineTokens(n, q);
  }

  /** A `#PBS -l` line on which only the node-count rule matches, with counts `int()` accepts. */
  lemma ApplyCounts(st: ScanState, l: string, a: string, b: string, n: int, p: int)
    requires HasPbs(l) && HasResourceFlag(l) && forall g :: Capture(g, l).None?
    requires NodesPpn(l) == Some((a, b)) && ParseInt(a) == Some(n) && ParseInt(b) == Some(p)
    requires Search(l, "auto=", Spaces(0)).None?
    ensures ApplyLine(st, l) == Going(st.(job := st.job.(nodes := n, ppn := p),
                                          required := st.required[Nodes := Found(ShowInt(n))][Ppn := Found(ShowInt(p))]))
  {
    var s3 := Rule(Exetime, Rule(Account, Rule(Name, st, l), l), l);
    assert s3 == st;
    var r := st.(job := st.job.(nodes := n, ppn := p),
                 required := st.required[Nodes := Found(ShowInt(n))][Ppn := Found(ShowInt(p))]);
    assert NodesRule(st, l) == Going(r);
    assert ResourceRules(st, l) == Going(r);
    assert PbsRules(st, l) == Going(r);
  }

  /** `#PBS -l nodes=<n>:ppn=<p>` sets both counts and their entries in the `required` dictionary. */
  lemma CountsLine(st: ScanState, n: int, p: int)
    ensures var l := "#PBS -l nodes=" + ShowInt(n) + ":ppn=" + ShowInt(p) + "\n";
      && ApplyLine(st, l) == Going(st.(job := st.job.(nodes := n, ppn := p),
                                       required := st.required[Nodes := Found(ShowInt(n))][Ppn := Found(ShowInt(p))]))
      && !IsAnchor(l)
  {
    var sn, sp := ShowInt(n), ShowInt(p);
    var l := "#PBS -l nodes=" + sn + ":ppn=" + sp + "\n";
    CountsLinePrefix(sn, sp);
    CountsLineQuiet(sn, sp);
    CountsLineTokens(sn, sp);
    CountsLineGroups(sn, sp);
    ParseShowInt(n);
    ParseShowInt(p);
    ApplyCounts(st, l, sn, sp, n, p);
  }

  /** A fixed line with no key token, no `$` and no newline: read as an ordinary line that changes nothing. */
  ghost predicate Ordinary(l: string) {
    && '\n' !in l && !IsAnchor(l + "\n")
    && forall st :: ApplyLine(st, l + "\n") == Going(st)
  }

  lemma FixedOrdinary(l: string, k: int)
    requires l != [] && l[0] != '-' && Only(l, '-', k) && k < |l| - 1 && Only(l, '=', -1) && Only(l, '\n', -1)
    requires 0 <= k < |l| - 1 ==> !IsFlagLetter(l[k + 1])
    requires '$' !in l
    ensures Ordinary(l)
  {
    assert forall i :: 0 <= i < |l| ==> l[i] != '\n';
    forall st
      ensures ApplyLine(st, l + "\n") == Going(st)
    {
      FixedLine(st, l, k);
    }
    NoAnchor(l, "");
    assert l + "" + "\n" == l + "\n";
  }

  lemma ShebangLine()
    ensures Ordinary("#!/bin/sh")
  {
    var l := "#!/bin/sh";
    assert Only(l, '-', -1) && Only(l, '=', -1) && Only(l, '\n', -1) && '$' !in l;
    FixedOrdinary(l, -1);
  }

  lemma ShellLine()
    ensures Ordinary("#PBS -S /bin/sh")
  {
    var l := "#PBS -S /bin/sh";
    assert Only(l, '-', 5) && Only(l, '=', -1) && Only(l, '\n', -1) && '$' !in l;
    FixedOrdinary(l, 5);
  }

  lemma ExportLine()
    ensures Ordinary("#PBS -V")
  {
    var l := "#PBS -V";
    assert Only(l, '-', 5) && Only(l, '=', -1) && Only(l, '\n', -1) && '$' !in l;
    FixedOrdinary(l, 5);
  }

  lemma EchoLine()
    ensures Ordinary("echo \"I ran on:\"")
  {
    var l := "echo \"I ran on:\"";
    assert Only(l, '-', -1) && Only(l, '=', -1) && Only(l, '\n', -1) && '$' !in l;
    FixedOrdinary(l, -1);
  }
}
