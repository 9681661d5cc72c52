/**
  The pieces of text handling that `Job.read` relies on, as string functions:
  `StringIO.readline`, and the handful of regular expressions it applies to each
  line, each one written out for its own pattern rather than through a regex engine.

  A "line" here is what `readline` returns: the text up to and including the next
  newline, so a newline can only be its last character (the very last line of a
  script may have none). On such strings the regex `.` (any character but a newline)
  is any character but that final one.
*/
module Text {
  import opened Optional

  /** Python 2's `\s` on byte strings: space, tab, newline, carriage return, vertical tab, form feed. */
  predicate IsSpace(c: char) {
    c == ' ' || c == '\t' || c == '\n' || c == '\r' || c == '\U{000B}' || c == '\U{000C}'
  }

  /** `t` occurs in `s` at position `i`. */
  predicate StartsAt(s: string, i: nat, t: string) {
    i + |t| <= |s| && s[i..i + |t|] == t
  }

  /** `t` occurs somewhere in `s` (`re.search` of a literal). */
  predicate Occurs(s: string, t: string) {
    exists i :: 0 <= i <= |s| && StartsAt(s, i, t)
  }

  lemma CharAt(s: string, i: nat, t: string, o: nat)
    requires StartsAt(s, i, t) && o < |t|
    ensures s[i + o] == t[o]
  {
    assert s[i..i + |t|][o] == t[o];
  }

  /** A token cannot occur where its first and last characters never line up. */
  lemma NotAt(s: string, t: string)
    requires |t| > 0
    requires forall i :: 0 <= i && i + |t| <= |s| ==> s[i] != t[0] || s[i + |t| - 1] != t[|t| - 1]
    ensures !Occurs(s, t)
  {
    forall i | 0 <= i <= |s| && StartsAt(s, i, t)
      ensures false
    {
      CharAt(s, i, t, 0);
      CharAt(s, i, t, |t| - 1);
    }
  }

  /** What occurs in a piece of a text occurs in the text. */
  lemma OccursInPieces(s: string, e: nat, t: string)
    requires e <= |s|
    ensures Occurs(s[..e], t) ==> Occurs(s, t)
    ensures Occurs(s[e..], t) ==> Occurs(s, t)
  {
    if Occurs(s[..e], t) {
      var i :| 0 <= i <= |s[..e]| && StartsAt(s[..e], i, t);
      assert s[..e][i..i + |t|] == s[i..i + |t|];
      assert StartsAt(s, i, t);
    }
    if Occurs(s[e..], t) {
      var i :| 0 <= i <= |s[e..]| && StartsAt(s[e..], i, t);
      assert s[e..][i..i + |t|] == s[e + i..e + i + |t|];
      assert StartsAt(s, e + i, t);
    }
  }

  // ---------------------------------------------------------------------------
  // `readline`

  /** The end of the line that starts at `p`: just past the next newline, or the end of the text. */
  function LineEndFrom(t: string, p: nat): (e: nat)
    requires p <= |t|
    ensures p <= e <= |t|
    ensures p < |t| ==> p < e
    ensures forall q :: p <= q < e - 1 ==> t[q] != '\n'
    ensures e < |t| ==> t[e - 1] == '\n'
    decreases |t| - p
  {
    if p == |t| then p
    else if t[p] == '\n' then p + 1
    else LineEndFrom(t, p + 1)
  }

  /** `StringIO.readline()` on the unread text `t` returns `t[..LineEnd(t)]`. */
  function LineEnd(t: string): (e: nat)
    ensures e <= |t|
    ensures t != [] ==> 0 < e
    ensures forall q :: 0 <= q < e - 1 ==> t[q] != '\n'
    ensures e < |t| ==> t[e - 1] == '\n'
  {
    LineEndFrom(t, 0)
  }

  /** A line followed by more text is read back as exactly that line and its newline. */
  lemma LineEndOfLine(l: string, r: string)
    requires '\n' !in l
    ensures LineEnd(l + "\n" + r) == |l| + 1
    ensures (l + "\n" + r)[..|l| + 1] == l + "\n"
    ensures (l + "\n" + r)[|l| + 1..] == r
  {
    var t := l + "\n" + r;
    assert t[|l|] == '\n';
    assert forall q :: 0 <= q < |l| ==> t[q] == l[q];
  }

  // ---------------------------------------------------------------------------
  // The pieces of the patterns `X\s+(.*)\s`, `X(.*)\s` and `auto=\s*(.*)\s`

  /** The length of the run of whitespace starting at `j`. */
  function SpaceRun(s: string, j: nat): (k: nat)
    requires j <= |s|
    ensures j + k <= |s|
    ensures forall p :: j <= p < j + k ==> IsSpace(s[p])
    ensures j + k == |s| || !IsSpace(s[j + k])
    decreases |s| - j
  {
    if j < |s| && IsSpace(s[j]) then 1 + SpaceRun(s, j + 1) else 0
  }

  /** The last whitespace position in `[lo, hi)`. */
  function LastSpaceBelow(s: string, lo: nat, hi: nat): (r: Option<nat>)
    requires hi <= |s|
    ensures r.Some? ==> lo <= r.value < hi && IsSpace(s[r.value])
    ensures r.Some? ==> forall p :: r.value < p < hi ==> !IsSpace(s[p])
    ensures r.None? ==> forall p :: lo <= p < hi ==> !IsSpace(s[p])
    decreases hi
  {
    if hi <= lo then None
    else if IsSpace(s[hi - 1]) then Some(hi - 1)
    else LastSpaceBelow(s, lo, hi - 1)
  }

  /** The last whitespace position at or after `lo`. */
  function LastSpace(s: string, lo: nat): Option<nat>
    requires lo <= |s|
  {
    LastSpaceBelow(s, lo, |s|)
  }

  /** What stands between the literal part of a pattern and its group `(.*)`:
      nothing, or `\s*` (`Spaces(0)`), or `\s+` (`Spaces(1)`). */
  datatype Lead = Direct | Spaces(min: nat)

  /**
    The group of `lead(.*)\s` when the match starts at `j`, as Python's backtracking
    matcher picks it: the leading whitespace run is taken whole, the group then runs
    to the last whitespace character of the line; when no whitespace is left after the
    run, the run gives its last character back and the group is empty.
  */
  function GroupAt(s: string, j: nat, lead: Lead): Option<string>
    requires j <= |s|
  {
    match lead
    case Direct =>
      (match LastSpace(s, j)
       case Some(e) => Some(s[j..e])
       case None => None)
    case Spaces(min) =>
      var k := SpaceRun(s, j);
      if k < min then None
      else
        match LastSpace(s, j + k)
        case Some(e) => Some(s[j + k..e])
        case None => if k > min then Some("") else None
  }

  /** `re.search(tok + lead + "(.*)\s", s)` from position `i` on: the group of the first place that matches. */
  function SearchFrom(s: string, tok: string, lead: Lead, i: nat): (r: Option<string>)
    ensures r.Some? ==> Occurs(s, tok)
    decreases |s| - i
  {
    if i + |tok| > |s| then None
    else if StartsAt(s, i, tok) && GroupAt(s, i + |tok|, lead).Some? then GroupAt(s, i + |tok|, lead)
    else SearchFrom(s, tok, lead, i + 1)
  }

  /** `re.search(tok + lead + "(.*)\s", s).group(1)`, or None when there is no match. */
  function Search(s: string, tok: string, lead: Lead): (r: Option<string>)
    ensures r.Some? ==> Occurs(s, tok)
  {
    SearchFrom(s, tok, lead, 0)
  }

  /** `re.match(tok + lead + "(.*)\s", s).group(1)`: the same pattern, anchored at the start of the line. */
  function Match(s: string, tok: string, lead: Lead): (r: Option<string>)
    ensures r.Some? ==> StartsAt(s, 0, tok)
  {
    if StartsAt(s, 0, tok) then GroupAt(s, |tok|, lead) else None
  }

  /** The first occurrence of the token at which the rest of the pattern matches decides the search;
      earlier occurrences where it does not match are skipped. */
  lemma {:induction false} SearchFirst(s: string, tok: string, lead: Lead, i0: nat)
    requires StartsAt(s, i0, tok)
    requires forall i :: 0 <= i < i0 ==> !(StartsAt(s, i, tok) && GroupAt(s, i + |tok|, lead).Some?)
    requires GroupAt(s, i0 + |tok|, lead).Some?
    ensures Search(s, tok, lead) == GroupAt(s, i0 + |tok|, lead)
  {
    SearchFromSkips(s, tok, lead, 0, i0);
  }

  lemma {:induction false} SearchFromSkips(s: string, tok: string, lead: Lead, i: nat, i0: nat)
    requires i <= i0
    requires StartsAt(s, i0, tok)
    requires forall p :: i <= p < i0 ==> !(StartsAt(s, p, tok) && GroupAt(s, p + |tok|, lead).Some?)
    requires GroupAt(s, i0 + |tok|, lead).Some?
    ensures SearchFrom(s, tok, lead, i) == GroupAt(s, i0 + |tok|, lead)
    decreases i0 - i
  {
    if i < i0 {
      SearchFromSkips(s, tok, lead, i + 1, i0);
    }
  }

  // ---------------------------------------------------------------------------
  // `nodes=(.*):ppn=(.*)\s`

  /** The last place `p` in `[j, hi)` where `:ppn=` occurs with whitespace somewhere after it:
      the greedy first group backs off to it. */
  function LastPpn(s: string, j: nat, hi: nat): (r: Option<nat>)
    requires hi <= |s|
    ensures r.Some? ==> j <= r.value < hi && StartsAt(s, r.value, ":ppn=") && LastSpace(s, r.value + 5).Some?
    ensures r.Some? ==> forall p :: r.value < p < hi ==> !(StartsAt(s, p, ":ppn=") && LastSpace(s, p + 5).Some?)
    ensures r.None? ==> forall p :: j <= p < hi ==> !(StartsAt(s, p, ":ppn=") && LastSpace(s, p + 5).Some?)
    decreases hi
  {
    if hi <= j then None
    else if StartsAt(s, hi - 1, ":ppn=") && LastSpace(s, hi - 1 + 5).Some? then Some(hi - 1)
    else LastPpn(s, j, hi - 1)
  }

  /** The two groups of `(.*):ppn=(.*)\s` when the match starts at `j`. */
  function PpnGroups(s: string, j: nat): Option<(string, string)>
    requires j <= |s|
  {
    match LastPpn(s, j, |s|)
    case None => None
    case Some(p) => Some((s[j..p], s[p + 5..LastSpace(s, p + 5).value]))
  }

  function NodesPpnFrom(s: string, i: nat): (r: Option<(string, string)>)
    ensures r.Some? ==> Occurs(s, "nodes=")
    decreases |s| - i
  {
    if i + 6 > |s| then None
    else if StartsAt(s, i, "nodes=") && PpnGroups(s, i + 6).Some? then PpnGroups(s, i + 6)
    else NodesPpnFrom(s, i + 1)
  }

  /** `re.search("nodes=(.*):ppn=(.*)\s", s)`: its two groups, or None. */
  function NodesPpn(s: string): (r: Option<(string, string)>)
    ensures r.Some? ==> Occurs(s, "nodes=")
  {
    NodesPpnFrom(s, 0)
  }

  lemma {:induction false} NodesPpnFromSkips(s: string, i: nat, i0: nat)
    requires i <= i0
    requires StartsAt(s, i0, "nodes=") && PpnGroups(s, i0 + 6).Some?
    requires forall p :: i <= p < i0 ==> !StartsAt(s, p, "nodes=")
    ensures NodesPpnFrom(s, i) == PpnGroups(s, i0 + 6)
    decreases i0 - i
  {
    if i < i0 {
      NodesPpnFromSkips(s, i + 1, i0);
    }
  }

  // ---------------------------------------------------------------------------
  // The guards

  /** `re.search("#PBS", line)` */
  predicate HasPbs(s: string) {
    Occurs(s, "#PBS")
  }

  /** `re.search("\s-l\s", line)` */
  predicate HasResourceFlag(s: string) {
    exists i :: 1 <= i <= |s| && StartsAt(s, i, "-l") && IsSpace(s[i - 1]) && i + 2 < |s| && IsSpace(s[i + 2])
  }

  /** What follows `cd` in `cd\s+\$PBS_O_WORKDIR\s+`, from position `j`. */
  predicate AnchorRest(s: string, j: nat)
    requires j <= |s|
  {
    var k := SpaceRun(s, j);
    k >= 1 && StartsAt(s, j + k, "$PBS_O_WORKDIR") && j + k + 14 < |s| && IsSpace(s[j + k + 14])
  }

  /** `re.search("cd\s+\$PBS_O_WORKDIR\s+", line)`: the line that ends the directives. */
  predicate IsAnchor(s: string) {
    exists i :: 0 <= i <= |s| && StartsAt(s, i, "cd") && AnchorRest(s, i + 2)
  }

  lemma AnchorNeedsDollar(s: string)
    ensures IsAnchor(s) ==> '$' in s
  {
    if IsAnchor(s) {
      var i :| 0 <= i <= |s| && StartsAt(s, i, "cd") && AnchorRest(s, i + 2);
      var k := SpaceRun(s, i + 2);
      CharAt(s, i + 2 + k, "$PBS_O_WORKDIR", 0);
    }
  }
}
