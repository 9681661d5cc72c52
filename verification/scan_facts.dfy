/**
  How `Job.read`'s loop treats a script line by line: each line before the
  `cd $PBS_O_WORKDIR` line goes through every rule, the last line that sets an
  attribute decides it, an error stops the scan whatever follows, and nothing after
  the `cd` line is read as a directive.
*/
module ScanFacts {
  import opened Optional
  import opened Text
  import opened Decimal
  import opened JobRecord
  import opened Serializer
  import opened Parser
  import opened RoundTrip
  import opened ReadFacts

  /** Lines (without newlines) of which none is the `cd $PBS_O_WORKDIR` line. */
  predicate Plain(ls: seq<string>) {
    forall i :: 0 <= i < |ls| ==> '\n' !in ls[i] && !IsAnchor(ls[i] + "\n")
  }

  /** Every rule but the anchor one, applied to each line in turn, stopping at the first error. */
  function Apply(ls: seq<string>, st: ScanState): Progress {
    if ls == [] then Going(st)
    else
      match ApplyLine(st, ls[0] + "\n")
      case Halted(s, err) => Halted(s, err)
      case Going(s) => Apply(ls[1..], s)
  }

  /** The first of the lines is read as it is written; an error on it ends the scan. */
  lemma ScanHead(ls: seq<string>, r: string, st: ScanState)
    requires ls != [] && Plain(ls)
    ensures ApplyLine(st, ls[0] + "\n").Halted? ==> Scan(Unlines(ls) + r, st) == ApplyLine(st, ls[0] + "\n")
    ensures ApplyLine(st, ls[0] + "\n").Going? ==>
      Scan(Unlines(ls) + r, st) == Scan(Unlines(ls[1..]) + r, ApplyLine(st, ls[0] + "\n").st)
    ensures Plain(ls[1..])
  {
    var t := Unlines(ls) + r;
    assert t == ls[0] + "\n" + (Unlines(ls[1..]) + r);
    LineEndOfLine(ls[0], Unlines(ls[1..]) + r);
    forall i | 0 <= i < |ls[1..]|
      ensures '\n' !in ls[1..][i] && !IsAnchor(ls[1..][i] + "\n")
    {
      assert ls[1..][i] == ls[i + 1];
    }
  }

  /** Lines before the anchor are read one after the other; an error on one of them ends the scan,
      whatever text follows them. */
  lemma {:induction false} ScanPlain(ls: seq<string>, r: string, st: ScanState)
    requires Plain(ls)
    ensures Apply(ls, st).Halted? ==> Scan(Unlines(ls) + r, st) == Apply(ls, st)
    ensures Apply(ls, st).Going? ==> Scan(Unlines(ls) + r, st) == Scan(r, Apply(ls, st).st)
  {
    if ls != [] {
      ScanHead(ls, r, st);
      match ApplyLine(st, ls[0] + "\n")
      case Halted(s, err) =>
      case Going(s) =>
        ScanPlain(ls[1..], r, s);
    } else {
      assert Unlines(ls) + r == r;
    }
  }

  /** The scan stops at the first `cd $PBS_O_WORKDIR` line: the command is exactly the text after
      that line, and nothing in that text is read as a directive. */
  lemma StopsAtAnchor(ls: seq<string>, a: string, rest: string, st: ScanState)
    requires Plain(ls) && '\n' !in a && IsAnchor(a + "\n")
    requires Apply(ls, st).Going? && ApplyLine(Apply(ls, st).st, a + "\n").Going?
    ensures Scan(Unlines(ls) + (a + "\n" + rest), st)
         == Going(AtAnchor(ApplyLine(Apply(ls, st).st, a + "\n").st, rest))
  {
    ScanPlain(ls, a + "\n" + rest, st);
    LineEndOfLine(a, rest);
  }

  /** Whatever follows the `cd` line, the attributes other than the command are the same; so is the
      verdict of the intended check, which tells a missing entry from a found one. The check as
      written does compare the command with "Not Found" (see `Sentinel.CommandNotFound`). */
  lemma AfterAnchorIgnored(init: JobFields, ls: seq<string>, a: string, rest1: string, rest2: string)
    requires Plain(ls) && '\n' !in a && IsAnchor(a + "\n")
    requires Apply(ls, Reset(init)).Going? && ApplyLine(Apply(ls, Reset(init)).st, a + "\n").Going?
    ensures var r1 := ReadSpec(init, Unlines(ls) + (a + "\n" + rest1));
            var r2 := ReadSpec(init, Unlines(ls) + (a + "\n" + rest2));
      && r1.job.command == Some(rest1) && r2.job.command == Some(rest2)
      && r1.job.(command := None) == r2.job.(command := None)
      && (r1.outcome.Succeeded? <==> r2.outcome.Succeeded?)
  {
    var s := ApplyLine(Apply(ls, Reset(init)).st, a + "\n").st;
    StopsAtAnchor(ls, a, rest1, Reset(init));
    StopsAtAnchor(ls, a, rest2, Reset(init));
    AnchorVerdict(s, rest1, rest2);
  }

  /** The command does not decide whether every required entry was found. */
  lemma AnchorVerdict(s: ScanState, rest1: string, rest2: string)
    ensures Complete(AtAnchor(s, rest1).required) <==> Complete(AtAnchor(s, rest2).required)
  {
    var q1 := AtAnchor(s, rest1).required;
    var q2 := AtAnchor(s, rest2).required;
    assert q1.Keys == q2.Keys;
    assert forall k :: k in q1 ==> (q1[k].Found? <==> q2[k].Found?);
  }

  /** One capturing rule: it sets its own attribute when its pattern matches and keeps every other. */
  lemma RuleValue(g: Field, st: ScanState, l: string, f: Field)
    ensures Value(f, Rule(g, st, l).job) == if g == f && Capture(f, l).Some? then Capture(f, l) else Value(f, st.job)
  {
  }

  /** The node-count rule leaves every captured attribute alone. */
  lemma NodesRuleKeeps(st: ScanState, l: string, f: Field)
    ensures Value(f, NodesRule(st, l).st.job) == Value(f, st.job)
  {
    match NodesPpn(l)
    case None =>
    case Some((g1, g2)) =>
      match ParseInt(g1)
      case None =>
      case Some(n) =>
        match ParseInt(g2)
        case None =>
        case Some(p) =>
  }

  /** The rules for `-N`, `-A` and `-a`. */
  lemma FirstRulesValue(st: ScanState, l: string, f: Field)
    ensures var r := Rule(Exetime, Rule(Account, Rule(Name, st, l), l), l);
      && (f == Name || f == Account || f == Exetime ==> Capture(f, l).Some? ==> Value(f, r.job) == Capture(f, l))
      && (f != Name && f != Account && f != Exetime ==> Value(f, r.job) == Value(f, st.job))
      && (Capture(f, l).None? ==> Value(f, r.job) == Value(f, st.job))
  {
    var s1 := Rule(Name, st, l);
    var s2 := Rule(Account, s1, l);
    RuleValue(Name, st, l, f);
    RuleValue(Account, s1, l, f);
    RuleValue(Exetime, s2, l, f);
  }

  /** The rules under `-l`: walltime, node counts, memory. */
  lemma ResourceRulesValue(st: ScanState, l: string, f: Field)
    requires ResourceRules(st, l).Going?
    ensures f == Walltime || f == Pmem ==> Capture(f, l).Some? ==> Value(f, ResourceRules(st, l).st.job) == Capture(f, l)
    ensures f != Walltime && f != Pmem ==> Value(f, ResourceRules(st, l).st.job) == Value(f, st.job)
    ensures Capture(f, l).None? ==> Value(f, ResourceRules(st, l).st.job) == Value(f, st.job)
  {
    var w := Rule(Walltime, st, l);
    RuleValue(Walltime, st, l, f);
    NodesRuleKeeps(w, l, f);
    RuleValue(Pmem, NodesRule(w, l).st, l, f);
  }

  /** The rules for `-q`, `-M`, `-m` and `-p`. */
  lemma LastRulesValue(st: ScanState, l: string, f: Field)
    ensures var r := Rule(Priority, Rule(Message, Rule(Email, Rule(Queue, st, l), l), l), l);
      && (f == Queue || f == Email || f == Message || f == Priority ==> Capture(f, l).Some? ==> Value(f, r.job) == Capture(f, l))
      && (f != Queue && f != Email && f != Message && f != Priority ==> Value(f, r.job) == Value(f, st.job))
      && (Capture(f, l).None? ==> Value(f, r.job) == Value(f, st.job))
  {
    var q1 := Rule(Queue, st, l);
    var q2 := Rule(Email, q1, l);
    var q3 := Rule(Message, q2, l);
    RuleValue(Queue, st, l, f);
    RuleValue(Email, q1, l, f);
    RuleValue(Message, q2, l, f);
    RuleValue(Priority, q3, l, f);
  }

  /** The `#PBS` rules of a line, in order. */
  lemma PbsRulesValue(st: ScanState, l: string, f: Field, v: string)
    requires PbsRules(st, l).Going?
    requires Capture(f, l) == Some(v) && (LeadOf(f) == Direct ==> HasResourceFlag(l))
    ensures Value(f, PbsRules(st, l).st.job) == Some(v)
  {
    var s3 := Rule(Exetime, Rule(Account, Rule(Name, st, l), l), l);
    var p := if HasResourceFlag(l) then ResourceRules(s3, l) else Going(s3);
    assert p.Going?;
    FirstRulesValue(st, l, f);
    if HasResourceFlag(l) {
      ResourceRulesValue(s3, l, f);
    }
    LastRulesValue(p.st, l, f);
  }

  /** A line that gets through every rule got through the `#PBS` rules, and the `auto=` rule after
      them changes no captured attribute. */
  lemma AutoAfterPbs(st: ScanState, l: string, f: Field)
    requires HasPbs(l) && ApplyLine(st, l).Going?
    ensures PbsRules(st, l).Going?
    ensures Value(f, ApplyLine(st, l).st.job) == Value(f, PbsRules(st, l).st.job)
  {
  }

  /** On a `#PBS` line that gets through every rule, each attribute whose rule applies takes the
      value that rule captures: the rules are tried one after the other, not as alternatives,
      and each sets only its own attribute. */
  lemma LineSets(st: ScanState, l: string, f: Field, v: string)
    requires HasPbs(l) && ApplyLine(st, l).Going?
    requires Capture(f, l) == Some(v) && (LeadOf(f) == Direct ==> HasResourceFlag(l))
    ensures Value(f, ApplyLine(st, l).st.job) == Some(v)
  {
    AutoAfterPbs(st, l, f);
    PbsRulesValue(st, l, f, v);
  }

  /** The rule for `f` takes effect on the line: the line has `#PBS`, the pattern matches, and for
      the walltime and the memory `-l` stands between whitespace. */
  predicate SetsField(l: string, f: Field) {
    HasPbs(l) && Capture(f, l).Some? && (LeadOf(f) == Direct ==> HasResourceFlag(l))
  }

  /** The `#PBS` rules keep an attribute whose rule does not take effect. */
  lemma PbsRulesKeep(st: ScanState, l: string, f: Field)
    requires PbsRules(st, l).Going?
    requires Capture(f, l).None? || (LeadOf(f) == Direct && !HasResourceFlag(l))
    ensures Value(f, PbsRules(st, l).st.job) == Value(f, st.job)
  {
    var s3 := Rule(Exetime, Rule(Account, Rule(Name, st, l), l), l);
    var p := if HasResourceFlag(l) then ResourceRules(s3, l) else Going(s3);
    assert p.Going?;
    FirstRulesValue(st, l, f);
    if HasResourceFlag(l) {
      ResourceRulesValue(s3, l, f);
    }
    LastRulesValue(p.st, l, f);
  }

  /** A line on which the rule for `f` does not take effect keeps `f`. */
  lemma LineKeeps(st: ScanState, l: string, f: Field)
    requires !SetsField(l, f) && ApplyLine(st, l).Going?
    ensures Value(f, ApplyLine(st, l).st.job) == Value(f, st.job)
  {
    if HasPbs(l) {
      AutoAfterPbs(st, l, f);
      PbsRulesKeep(st, l, f);
    }
  }

  /** Lines applied after others, when the first ones get through. */
  lemma ApplyPrefix(ps: seq<string>, x: string, st: ScanState)
    requires Apply(ps + [x], st).Going?
    ensures Apply(ps, st).Going? && Apply(ps + [x], st) == ApplyLine(Apply(ps, st).st, x + "\n")
  {
    ApplyAppend(ps, x, st);
  }

  /** Some lines followed by more, seen as all but the last line, then the last. */
  lemma SplitLast(ps: seq<string>, later: seq<string>)
    requires later != []
    ensures ps + later == (ps + later[..|later| - 1]) + [later[|later| - 1]]
  {
    assert later == later[..|later| - 1] + [later[|later| - 1]];
  }

  /** A line on which the rule for `f` takes effect, applied after others, sets `f`. */
  lemma SetsOnAppend(ps: seq<string>, l: string, st: ScanState, f: Field, v: string)
    requires SetsField(l + "\n", f) && Capture(f, l + "\n") == Some(v)
    requires Apply(ps + [l], st).Going?
    ensures Value(f, Apply(ps + [l], st).st.job) == Some(v)
  {
    ApplyPrefix(ps, l, st);
    LineSets(Apply(ps, st).st, l + "\n", f, v);
  }

  /** A line on which it does not, applied after others, keeps `f`. */
  lemma KeepsOnAppend(ps: seq<string>, x: string, st: ScanState, f: Field)
    requires !SetsField(x + "\n", f) && Apply(ps + [x], st).Going?
    ensures Apply(ps, st).Going? && Value(f, Apply(ps + [x], st).st.job) == Value(f, Apply(ps, st).st.job)
  {
    ApplyPrefix(ps, x, st);
    LineKeeps(Apply(ps, st).st, x + "\n", f);
  }

  /** The last line that sets an attribute decides its value: the lines after it on which its rule
      does not take effect leave it alone. */
  lemma {:induction false} LastLineWins(ls: seq<string>, l: string, later: seq<string>, st: ScanState, f: Field, v: string)
    requires SetsField(l + "\n", f) && Capture(f, l + "\n") == Some(v)
    requires forall i :: 0 <= i < |later| ==> !SetsField(later[i] + "\n", f)
    requires Apply(ls + [l] + later, st).Going?
    ensures Value(f, Apply(ls + [l] + later, st).st.job) == Some(v)
    decreases |later|
  {
    if later == [] {
      assert ls + [l] + later == ls + [l];
      SetsOnAppend(ls, l, st, f, v);
    } else {
      var front, x := later[..|later| - 1], later[|later| - 1];
      var ps := ls + [l] + front;
      SplitLast(ls + [l], later);
      assert Apply(ps, st).Going? && Value(f, Apply(ps + [x], st).st.job) == Value(f, Apply(ps, st).st.job) by {
        KeepsOnAppend(ps, x, st, f);
      }
      assert Value(f, Apply(ps, st).st.job) == Some(v) by {
        assert forall i :: 0 <= i < |front| ==> front[i] == later[i];
        LastLineWins(ls, l, front, st, f, v);
      }
    }
  }

  /** The same, with the `cd` line applied last. */
  lemma {:induction false} LastLineWinsAtAnchor(ls: seq<string>, l: string, later: seq<string>, a: string, st: ScanState, f: Field, v: string)
    requires SetsField(l + "\n", f) && Capture(f, l + "\n") == Some(v)
    requires forall i :: 0 <= i < |later| ==> !SetsField(later[i] + "\n", f)
    requires !SetsField(a + "\n", f) && Apply(ls + [l] + later + [a], st).Going?
    ensures Value(f, Apply(ls + [l] + later + [a], st).st.job) == Some(v)
  {
    ApplyPrefix(ls + [l] + later, a, st);
    LastLineWins(ls, l, later, st, f, v);
    LineKeeps(Apply(ls + [l] + later, st).st, a + "\n", f);
  }

  /** A script that gets through every line up to and including `cd $PBS_O_WORKDIR`: the job `read`
      leaves is the one those lines build, with the text after the `cd` line as the command. */
  lemma ScriptJob(init: JobFields, ps: seq<string>, a: string, rest: string)
    requires Plain(ps) && '\n' !in a && IsAnchor(a + "\n")
    requires Apply(ps + [a], Reset(init)).Going?
    ensures ReadSpec(init, Unlines(ps) + (a + "\n" + rest)).job == Apply(ps + [a], Reset(init)).st.job.(command := Some(rest))
  {
    ApplyPrefix(ps, a, Reset(init));
    StopsAtAnchor(ps, a, rest, Reset(init));
  }

  /** In a whole script, the last line before `cd $PBS_O_WORKDIR` on which the rule for an attribute
      takes effect decides the attribute `read` leaves. */
  lemma {:induction false} ScriptLastLineWins(init: JobFields, ls: seq<string>, l: string, later: seq<string>, a: string, rest: string,
                           f: Field, v: string)
    requires Plain(ls + [l] + later) && '\n' !in a && IsAnchor(a + "\n")
    requires SetsField(l + "\n", f) && Capture(f, l + "\n") == Some(v)
    requires forall i :: 0 <= i < |later| ==> !SetsField(later[i] + "\n", f)
    requires !SetsField(a + "\n", f)
    requires Apply(ls + [l] + later + [a], Reset(init)).Going?
    ensures Value(f, ReadSpec(init, Unlines(ls + [l] + later) + (a + "\n" + rest)).job) == Some(v)
  {
    LastLineWinsAtAnchor(ls, l, later, a, Reset(init), f, v);
    ScriptJob(init, ls + [l] + later, a, rest);
  }

  // ---------------------------------------------------------------------------
  // The node counts and `auto`

  /** The node-count rule takes effect on the line. */
  predicate SetsCounts(l: string) {
    HasPbs(l) && HasResourceFlag(l) && NodesPpn(l).Some?
  }

  /** A capturing rule changes neither the counts nor `auto`. */
  lemma RuleCounts(f: Field, st: ScanState, l: string)
    ensures Rule(f, st, l).job.nodes == st.job.nodes && Rule(f, st, l).job.ppn == st.job.ppn
    ensures Rule(f, st, l).job.auto == st.job.auto
  {
  }

  /** The node-count rule, when it goes on, sets the counts to what `int()` makes of its groups. */
  lemma NodesRuleCounts(st: ScanState, l: string)
    requires NodesRule(st, l).Going?
    ensures NodesRule(st, l).st.job.auto == st.job.auto
    ensures NodesPpn(l).None? ==> NodesRule(st, l).st.job.nodes == st.job.nodes && NodesRule(st, l).st.job.ppn == st.job.ppn
    ensures NodesPpn(l).Some? ==>
      Some(NodesRule(st, l).st.job.nodes) == ParseInt(NodesPpn(l).value.0)
      && Some(NodesRule(st, l).st.job.ppn) == ParseInt(NodesPpn(l).value.1)
  {
  }

  /** The rules under `-l`, when they go on. */
  lemma ResourceRulesCounts(st: ScanState, l: string)
    requires ResourceRules(st, l).Going?
    ensures ResourceRules(st, l).st.job.auto == st.job.auto
    ensures NodesPpn(l).None? ==>
      ResourceRules(st, l).st.job.nodes == st.job.nodes && ResourceRules(st, l).st.job.ppn == st.job.ppn
    ensures NodesPpn(l).Some? ==>
      Some(ResourceRules(st, l).st.job.nodes) == ParseInt(NodesPpn(l).value.0)
      && Some(ResourceRules(st, l).st.job.ppn) == ParseInt(NodesPpn(l).value.1)
  {
    var w := Rule(Walltime, st, l);
    RuleCounts(Walltime, st, l);
    assert NodesRule(w, l).Going?;
    NodesRuleCounts(w, l);
    RuleCounts(Pmem, NodesRule(w, l).st, l);
  }

  /** The `#PBS` rules change the counts only through the node-count rule, and never `auto`. */
  lemma PbsRulesCounts(st: ScanState, l: string)
    requires PbsRules(st, l).Going?
    ensures PbsRules(st, l).st.job.auto == st.job.auto
    ensures !(HasResourceFlag(l) && NodesPpn(l).Some?) ==>
      PbsRules(st, l).st.job.nodes == st.job.nodes && PbsRules(st, l).st.job.ppn == st.job.ppn
    ensures HasResourceFlag(l) && NodesPpn(l).Some? ==>
      Some(PbsRules(st, l).st.job.nodes) == ParseInt(NodesPpn(l).value.0)
      && Some(PbsRules(st, l).st.job.ppn) == ParseInt(NodesPpn(l).value.1)
  {
    var s1 := Rule(Name, st, l);
    var s2 := Rule(Account, s1, l);
    var s3 := Rule(Exetime, s2, l);
    RuleCounts(Name, st, l);
    RuleCounts(Account, s1, l);
    RuleCounts(Exetime, s2, l);
    var p := if HasResourceFlag(l) then ResourceRules(s3, l) else Going(s3);
    assert p.Going?;
    if HasResourceFlag(l) {
      ResourceRulesCounts(s3, l);
    }
    var q1 := Rule(Queue, p.st, l);
    var q2 := Rule(Email, q1, l);
    var q3 := Rule(Message, q2, l);
    RuleCounts(Queue, p.st, l);
    RuleCounts(Email, q1, l);
    RuleCounts(Message, q2, l);
    RuleCounts(Priority, q3, l);
    assert PbsRules(st, l) == Going(Rule(Priority, q3, l));
  }

  /** The `auto=` rule, when it goes on, keeps the counts. */
  lemma AutoRuleCounts(st: ScanState, l: string)
    requires AutoRule(st, l).Going?
    ensures AutoRule(st, l).st.job.nodes == st.job.nodes && AutoRule(st, l).st.job.ppn == st.job.ppn
  {
  }

  /** A line on which the node-count rule does not take effect keeps the counts; one on which it
      does sets them to what `int()` makes of its two groups. */
  lemma LineCounts(st: ScanState, l: string)
    requires ApplyLine(st, l).Going?
    ensures !SetsCounts(l) ==> ApplyLine(st, l).st.job.nodes == st.job.nodes && ApplyLine(st, l).st.job.ppn == st.job.ppn
    ensures SetsCounts(l) ==>
      Some(ApplyLine(st, l).st.job.nodes) == ParseInt(NodesPpn(l).value.0)
      && Some(ApplyLine(st, l).st.job.ppn) == ParseInt(NodesPpn(l).value.1)
  {
    var p := if HasPbs(l) then PbsRules(st, l) else Going(st);
    assert p.Going?;
    if HasPbs(l) {
      PbsRulesCounts(st, l);
    }
    AutoRuleCounts(p.st, l);
  }

  /** The last line that sets the node counts decides them. */
  lemma {:induction false} LastCountsWin(ls: seq<string>, l: string, later: seq<string>, st: ScanState, g1: string, g2: string)
    requires SetsCounts(l + "\n") && NodesPpn(l + "\n") == Some((g1, g2))
    requires forall i :: 0 <= i < |later| ==> !SetsCounts(later[i] + "\n")
    requires Apply(ls + [l] + later, st).Going?
    ensures Some(Apply(ls + [l] + later, st).st.job.nodes) == ParseInt(g1)
    ensures Some(Apply(ls + [l] + later, st).st.job.ppn) == ParseInt(g2)
    decreases |later|
  {
    if later == [] {
      assert ls + [l] + later == ls + [l];
      ApplyPrefix(ls, l, st);
      LineCounts(Apply(ls, st).st, l + "\n");
    } else {
      var front, x := later[..|later| - 1], later[|later| - 1];
      SplitLast(ls + [l], later);
      ApplyPrefix(ls + [l] + front, x, st);
      LastCountsWin(ls, l, front, st, g1, g2);
      LineCounts(Apply(ls + [l] + front, st).st, x + "\n");
    }
  }

  /** The `auto=` rule takes effect on the line. */
  predicate SetsAuto(l: string) {
    Search(l, "auto=", Spaces(0)).Some?
  }

  /** What a line that gets through every rule does to `auto`: nothing without `auto=`; with it, the
      first character of the value decides. */
  lemma LineAuto(st: ScanState, l: string)
    requires ApplyLine(st, l).Going?
    ensures !SetsAuto(l) ==> ApplyLine(st, l).st.job.auto == st.job.auto
    ensures SetsAuto(l) ==> var v := Search(l, "auto=", Spaces(0)).value;
      v != [] && (ApplyLine(st, l).st.job.auto <==> v[0] == 't' || v[0] == 'T' || v[0] == '1')
  {
    var p := if HasPbs(l) then PbsRules(st, l) else Going(st);
    assert p.Going? && ApplyLine(st, l) == AutoRule(p.st, l);
    if HasPbs(l) {
      PbsRulesCounts(st, l);
    }
    AutoRuleAuto(p.st, l);
  }

  /** The `auto=` rule, when it goes on: nothing without `auto=`; with it, the first character of
      the value decides. */
  lemma AutoRuleAuto(st: ScanState, l: string)
    requires AutoRule(st, l).Going?
    ensures !SetsAuto(l) ==> AutoRule(st, l).st.job.auto == st.job.auto
    ensures SetsAuto(l) ==> var v := Search(l, "auto=", Spaces(0)).value;
      v != [] && (AutoRule(st, l).st.job.auto <==> v[0] == 't' || v[0] == 'T' || v[0] == '1')
  {
  }

  /** The last line with `auto=` decides `auto`. */
  lemma {:induction false} LastAutoWins(ls: seq<string>, l: string, later: seq<string>, st: ScanState, v: string)
    requires Search(l + "\n", "auto=", Spaces(0)) == Some(v)
    requires forall i :: 0 <= i < |later| ==> !SetsAuto(later[i] + "\n")
    requires Apply(ls + [l] + later, st).Going?
    ensures v != [] && (Apply(ls + [l] + later, st).st.job.auto <==> v[0] == 't' || v[0] == 'T' || v[0] == '1')
    decreases |later|
  {
    if later == [] {
      assert ls + [l] + later == ls + [l];
      ApplyPrefix(ls, l, st);
      LineAuto(Apply(ls, st).st, l + "\n");
    } else {
      var front, x := later[..|later| - 1], later[|later| - 1];
      SplitLast(ls + [l], later);
      ApplyPrefix(ls + [l] + front, x, st);
      LastAutoWins(ls, l, front, st, v);
      LineAuto(Apply(ls + [l] + front, st).st, x + "\n");
    }
  }

  /** The same, with the `cd` line applied last. */
  lemma {:induction false} LastCountsWinAtAnchor(ls: seq<string>, l: string, later: seq<string>, a: string, st: ScanState, g1: string, g2: string)
    requires SetsCounts(l + "\n") && NodesPpn(l + "\n") == Some((g1, g2))
    requires forall i :: 0 <= i < |later| ==> !SetsCounts(later[i] + "\n")
    requires !SetsCounts(a + "\n") && Apply(ls + [l] + later + [a], st).Going?
    ensures Some(Apply(ls + [l] + later + [a], st).st.job.nodes) == ParseInt(g1)
    ensures Some(Apply(ls + [l] + later + [a], st).st.job.ppn) == ParseInt(g2)
  {
    ApplyPrefix(ls + [l] + later, a, st);
    LastCountsWin(ls, l, later, st, g1, g2);
    LineCounts(Apply(ls + [l] + later, st).st, a + "\n");
  }

  /** The same for `auto`, with the `cd` line applied last. */
  lemma {:induction false} LastAutoWinsAtAnchor(ls: seq<string>, l: string, later: seq<string>, a: string, st: ScanState, v: string)
    requires Search(l + "\n", "auto=", Spaces(0)) == Some(v)
    requires forall i :: 0 <= i < |later| ==> !SetsAuto(later[i] + "\n")
    requires !SetsAuto(a + "\n") && Apply(ls + [l] + later + [a], st).Going?
    ensures v != [] && (Apply(ls + [l] + later + [a], st).st.job.auto <==> v[0] == 't' || v[0] == 'T' || v[0] == '1')
  {
    ApplyPrefix(ls + [l] + later, a, st);
    LastAutoWins(ls, l, later, st, v);
    LineAuto(Apply(ls + [l] + later, st).st, a + "\n");
  }

  /** In a whole script, the last line with `-l nodes=...:ppn=...` before `cd $PBS_O_WORKDIR`
      decides the counts. */
  lemma {:induction false} ScriptLastCountsWin(init: JobFields, ls: seq<string>, l: string, later: seq<string>, a: string,
                            rest: string, g1: string, g2: string)
    requires Plain(ls + [l] + later) && '\n' !in a && IsAnchor(a + "\n")
    requires SetsCounts(l + "\n") && NodesPpn(l + "\n") == Some((g1, g2))
    requires forall i :: 0 <= i < |later| ==> !SetsCounts(later[i] + "\n")
    requires !SetsCounts(a + "\n")
    requires Apply(ls + [l] + later + [a], Reset(init)).Going?
    ensures var j := ReadSpec(init, Unlines(ls + [l] + later) + (a + "\n" + rest)).job;
      Some(j.nodes) == ParseInt(g1) && Some(j.ppn) == ParseInt(g2)
  {
    LastCountsWinAtAnchor(ls, l, later, a, Reset(init), g1, g2);
    ScriptJob(init, ls + [l] + later, a, rest);
  }

  /** In a whole script, the last line with `auto=` before `cd $PBS_O_WORKDIR` decides `auto`. */
  lemma {:induction false} ScriptLastAutoWins(init: JobFields, ls: seq<string>, l: string, later: seq<string>, a: string,
                           rest: string, v: string)
    requires Plain(ls + [l] + later) && '\n' !in a && IsAnchor(a + "\n")
    requires Search(l + "\n", "auto=", Spaces(0)) == Some(v)
    requires forall i :: 0 <= i < |later| ==> !SetsAuto(later[i] + "\n")
    requires !SetsAuto(a + "\n")
    requires Apply(ls + [l] + later + [a], Reset(init)).Going?
    ensures v != []
    ensures ReadSpec(init, Unlines(ls + [l] + later) + (a + "\n" + rest)).job.auto
        <==> v[0] == 't' || v[0] == 'T' || v[0] == '1'
  {
    LastAutoWinsAtAnchor(ls, l, later, a, Reset(init), v);
    ScriptJob(init, ls + [l] + later, a, rest);
  }

  /** Applying the rules to some lines and then to one more. */
  lemma {:induction false} ApplyAppend(ls: seq<string>, l: string, st: ScanState)
    ensures Apply(ls + [l], st)
         == match Apply(ls, st)
            case Halted(s, err) => Halted(s, err)
            case Going(s) => ApplyLine(s, l + "\n")
  {
    if ls == [] {
      assert ls + [l] == [l];
      assert [l][1..] == [];
    } else {
      assert (ls + [l])[1..] == ls[1..] + [l];
      match ApplyLine(st, ls[0] + "\n")
      case Halted(s, err) =>
      case Going(s) => ApplyAppend(ls[1..], l, s);
    }
  }

  /** A line on which a rule fails ends the scan with that error, whatever text follows. */
  lemma HaltsAt(ls: seq<string>, l: string, rest: string, st: ScanState)
    requires Plain(ls) && '\n' !in l && Apply(ls, st).Going?
    requires ApplyLine(Apply(ls, st).st, l + "\n").Halted?
    ensures Scan(Unlines(ls + [l]) + rest, st) == ApplyLine(Apply(ls, st).st, l + "\n")
  {
    OneMoreLine(ls, l, rest);
    ScanPlain(ls, l + "\n" + rest, st);
    LineEndOfLine(l, rest);
    var t := l + "\n" + rest;
    assert t[..LineEnd(t)] == l + "\n";
    HaltStep(t, Apply(ls, st).st);
  }

  /** The text of some lines and one more, then `rest`. */
  lemma OneMoreLine(ls: seq<string>, l: string, rest: string)
    ensures Unlines(ls + [l]) + rest == Unlines(ls) + (l + "\n" + rest)
  {
    UnlinesAppend(ls, [l]);
    var e: seq<string> := [];
    assert Unlines(e) == "";
    assert Unlines([l]) == l + "\n" + Unlines(e);
    var u := Unlines(ls);
    assert Unlines(ls + [l]) == u + (l + "\n");
  }

  /** One step of the scan on a line where a rule fails. */
  lemma HaltStep(t: string, st: ScanState)
    requires t != [] && ApplyLine(st, t[..LineEnd(t)]).Halted?
    ensures Scan(t, st) == ApplyLine(st, t[..LineEnd(t)])
  {
  }

  /** An `auto=` value that starts with none of f, F, 0, t, T, 1 ends `read` with an error on that
      line, whatever comes after it, on a line with `#PBS` as on any other, provided the `#PBS`
      rules before it on that line go on. */
  lemma BadAutoStops(init: JobFields, ls: seq<string>, l: string, v: string, rest: string)
    requires Plain(ls) && '\n' !in l && Apply(ls, Reset(init)).Going?
    requires HasPbs(l + "\n") ==> PbsRules(Apply(ls, Reset(init)).st, l + "\n").Going?
    requires Search(l + "\n", "auto=", Spaces(0)) == Some(v)
    requires v == [] || (v[0] != 'f' && v[0] != 'F' && v[0] != '0' && v[0] != 't' && v[0] != 'T' && v[0] != '1')
    ensures ReadSpec(init, Unlines(ls + [l]) + rest).outcome == Failed(BadAuto(l + "\n"))
    ensures ReadAsWritten(init, Unlines(ls + [l]) + rest).outcome == Failed(BadAuto(l + "\n"))
  {
    var st := Apply(ls, Reset(init)).st;
    var p := if HasPbs(l + "\n") then PbsRules(st, l + "\n") else Going(st);
    assert ApplyLine(st, l + "\n") == Halted(p.st, BadAuto(l + "\n"));
    HaltsAt(ls, l, rest, Reset(init));
  }

  // ---------------------------------------------------------------------------
  // A required directive that never takes effect

  /** The line sets the required entry `k`: the rule for its attribute takes effect, or for the
      counts the node-count rule does. Only the `cd` line sets the other entries. */
  predicate SetsEntry(l: string, k: Slot) {
    match k
    case Attr(f) => SetsField(l, f)
    case Nodes => SetsCounts(l)
    case Ppn => SetsCounts(l)
    case _ => false
  }

  /** A capturing rule changes no entry but its own, and that one only when it matches. */
  lemma RuleKeepsEntry(g: Field, st: ScanState, l: string, k: Slot)
    requires k == Attr(g) ==> Capture(g, l).None?
    ensures Lookup(Rule(g, st, l).required, k) == Lookup(st.required, k)
  {
  }

  /** Setting the count entries leaves every other entry alone. */
  lemma CountEntriesKeep(m: map<Slot, Entry>, x: Entry, y: Entry, k: Slot)
    requires k != Nodes && k != Ppn
    ensures Lookup(m[Nodes := x][Ppn := y], k) == Lookup(m, k)
  {
  }

  /** The node-count rule changes only the count entries, and those only when it matches. */
  lemma NodesRuleKeepsEntry(st: ScanState, l: string, k: Slot)
    requires (k == Nodes || k == Ppn) ==> NodesPpn(l).None?
    ensures Lookup(NodesRule(st, l).st.required, k) == Lookup(st.required, k)
  {
    match NodesPpn(l)
    case None =>
    case Some((g1, g2)) =>
      match ParseInt(g1)
      case None =>
      case Some(n) =>
        match ParseInt(g2)
        case None =>
        case Some(p) =>
          CountEntriesKeep(st.required, Found(ShowInt(n)), Found(ShowInt(p)), k);
  }

  /** The rules under `-l` keep an entry none of them sets. */
  lemma ResourceRulesKeepEntry(st: ScanState, l: string, k: Slot)
    requires k == Attr(Walltime) ==> Capture(Walltime, l).None?
    requires k == Attr(Pmem) ==> Capture(Pmem, l).None?
    requires (k == Nodes || k == Ppn) ==> NodesPpn(l).None?
    ensures Lookup(ResourceRules(st, l).st.required, k) == Lookup(st.required, k)
  {
    var w := Rule(Walltime, st, l);
    RuleKeepsEntry(Walltime, st, l, k);
    NodesRuleKeepsEntry(w, l, k);
    if NodesRule(w, l).Going? {
      RuleKeepsEntry(Pmem, NodesRule(w, l).st, l, k);
    }
  }

  /** What a `#PBS` line that does not set an entry says about the rules for it. */
  lemma NotSetsEntry(l: string, k: Slot)
    requires HasPbs(l) && !SetsEntry(l, k)
    ensures k.Attr? && (LeadOf(k.field) == Spaces(1) || HasResourceFlag(l)) ==> Capture(k.field, l).None?
    ensures (k == Nodes || k == Ppn) && HasResourceFlag(l) ==> NodesPpn(l).None?
  {
  }

  /** The rules for `-N`, `-A` and `-a` keep an entry they do not set. */
  lemma FirstRulesKeepEntry(st: ScanState, l: string, k: Slot)
    requires k == Attr(Name) || k == Attr(Account) || k == Attr(Exetime) ==> Capture(k.field, l).None?
    ensures Lookup(Rule(Exetime, Rule(Account, Rule(Name, st, l), l), l).required, k) == Lookup(st.required, k)
  {
    var s1 := Rule(Name, st, l);
    RuleKeepsEntry(Name, st, l, k);
    RuleKeepsEntry(Account, s1, l, k);
    RuleKeepsEntry(Exetime, Rule(Account, s1, l), l, k);
  }

  /** The rules for `-q`, `-M`, `-m` and `-p` keep an entry they do not set. */
  lemma LastRulesKeepEntry(st: ScanState, l: string, k: Slot)
    requires k == Attr(Queue) || k == Attr(Email) || k == Attr(Message) || k == Attr(Priority) ==> Capture(k.field, l).None?
    ensures Lookup(Rule(Priority, Rule(Message, Rule(Email, Rule(Queue, st, l), l), l), l).required, k) == Lookup(st.required, k)
  {
    var q1 := Rule(Queue, st, l);
    var q2 := Rule(Email, q1, l);
    RuleKeepsEntry(Queue, st, l, k);
    RuleKeepsEntry(Email, q1, l, k);
    RuleKeepsEntry(Message, q2, l, k);
    RuleKeepsEntry(Priority, Rule(Message, q2, l), l, k);
  }

  /** The `#PBS` rules keep an entry that the line does not set. */
  lemma PbsRulesKeepEntry(st: ScanState, l: string, k: Slot)
    requires HasPbs(l) && !SetsEntry(l, k)
    ensures Lookup(PbsRules(st, l).st.required, k) == Lookup(st.required, k)
  {
    NotSetsEntry(l, k);
    var s3 := Rule(Exetime, Rule(Account, Rule(Name, st, l), l), l);
    FirstRulesKeepEntry(st, l, k);
    var p := if HasResourceFlag(l) then ResourceRules(s3, l) else Going(s3);
    if HasResourceFlag(l) {
      ResourceRulesKeepEntry(s3, l, k);
    }
    if p.Going? {
      LastRulesKeepEntry(p.st, l, k);
    }
  }

  /** A line that does not set an entry keeps it, whether the line gets through or not. */
  lemma LineKeepsEntry(st: ScanState, l: string, k: Slot)
    requires !SetsEntry(l, k)
    ensures Lookup(ApplyLine(st, l).st.required, k) == Lookup(st.required, k)
  {
    var p := if HasPbs(l) then PbsRules(st, l) else Going(st);
    if HasPbs(l) {
      PbsRulesKeepEntry(st, l, k);
    }
    if p.Going? {
      assert AutoRule(p.st, l).st.required == p.st.required;
    }
  }

  /** Lines none of which sets an entry keep it. */
  lemma {:induction false} ApplyKeepsEntry(ls: seq<string>, st: ScanState, k: Slot)
    requires forall i :: 0 <= i < |ls| ==> !SetsEntry(ls[i] + "\n", k)
    ensures Lookup(Apply(ls, st).st.required, k) == Lookup(st.required, k)
    decreases |ls|
  {
    if ls != [] {
      LineKeepsEntry(st, ls[0] + "\n", k);
      match ApplyLine(st, ls[0] + "\n")
      case Halted(s, err) =>
      case Going(s) =>
        assert forall i :: 0 <= i < |ls[1..]| ==> ls[1..][i] == ls[i + 1];
        ApplyKeepsEntry(ls[1..], s, k);
    }
  }

  /** The `cd` line applied after such lines, when it does not set the entry either, keeps it. */
  lemma {:induction false} ApplyKeepsEntryToAnchor(ls: seq<string>, a: string, st: ScanState, k: Slot)
    requires forall i :: 0 <= i < |ls| ==> !SetsEntry(ls[i] + "\n", k)
    requires !SetsEntry(a + "\n", k) && Apply(ls + [a], st).Going?
    ensures Apply(ls, st).Going? && ApplyLine(Apply(ls, st).st, a + "\n").Going?
    ensures Lookup(ApplyLine(Apply(ls, st).st, a + "\n").st.required, k) == Lookup(st.required, k)
  {
    ApplyPrefix(ls, a, st);
    ApplyKeepsEntry(ls, st, k);
    LineKeepsEntry(Apply(ls, st).st, a + "\n", k);
  }

  /** A required directive that takes effect on no line up to and including `cd $PBS_O_WORKDIR`
      makes `read` fail, under either check, with that entry reported not found: a script whose
      `-N` is only in the command, or whose `#PBS -N` has no name after it, is rejected. */
  lemma {:induction false} ScriptMissingEntry(init: JobFields, ls: seq<string>, a: string, rest: string, k: Slot)
    requires Plain(ls) && '\n' !in a && IsAnchor(a + "\n")
    requires k == Attr(Name) || k == Attr(Walltime) || k == Attr(Queue) || k == Nodes || k == Ppn
    requires forall i :: 0 <= i < |ls| ==> !SetsEntry(ls[i] + "\n", k)
    requires !SetsEntry(a + "\n", k) && Apply(ls + [a], Reset(init)).Going?
    ensures var o := ReadSpec(init, Unlines(ls) + (a + "\n" + rest)).outcome;
      o.Failed? && o.error.MissingRequired? && Lookup(o.error.required, k) == NotFound
    ensures ReadAsWritten(init, Unlines(ls) + (a + "\n" + rest)).outcome
         == ReadSpec(init, Unlines(ls) + (a + "\n" + rest)).outcome
  {
    var st := Reset(init);
    var text := Unlines(ls) + (a + "\n" + rest);
    var s := ApplyLine(Apply(ls, st).st, a + "\n").st;
    assert Lookup(s.required, k) == NotFound by {
      ApplyKeepsEntryToAnchor(ls, a, st, k);
      assert k in st.required;
    }
    assert Scan(text, st) == Going(AtAnchor(s, rest)) by {
      ApplyKeepsEntryToAnchor(ls, a, st, k);
      StopsAtAnchor(ls, a, rest, st);
    }
    var p := Scan(text, st);
    assert k in p.st.required by {
      ScanFrame(text, st);
      assert k in st.required;
    }
    assert Lookup(p.st.required, k) == NotFound;
    MissingEntryFails(p, k);
  }

  // ---------------------------------------------------------------------------
  // An optional directive that never takes effect

  /** Lines that all get through, on none of which the rule for `f` takes effect, keep `f`. */
  lemma {:induction false} ApplyKeeps(ls: seq<string>, st: ScanState, f: Field)
    requires forall i :: 0 <= i < |ls| ==> !SetsField(ls[i] + "\n", f)
    requires Apply(ls, st).Going?
    ensures Value(f, Apply(ls, st).st.job) == Value(f, st.job)
    decreases |ls|
  {
    if ls != [] {
      var s := ApplyLine(st, ls[0] + "\n").st;
      assert ApplyLine(st, ls[0] + "\n").Going? && Apply(ls, st) == Apply(ls[1..], s);
      LineKeeps(st, ls[0] + "\n", f);
      assert forall i :: 0 <= i < |ls[1..]| ==> ls[1..][i] == ls[i + 1];
      ApplyKeeps(ls[1..], s, f);
    }
  }

  /** The same, with the `cd` line applied last. */
  lemma {:induction false} ApplyKeepsToAnchor(ls: seq<string>, a: string, st: ScanState, f: Field)
    requires forall i :: 0 <= i < |ls| ==> !SetsField(ls[i] + "\n", f)
    requires !SetsField(a + "\n", f) && Apply(ls + [a], st).Going?
    ensures Value(f, Apply(ls + [a], st).st.job) == Value(f, st.job)
  {
    ApplyPrefix(ls, a, st);
    ApplyKeeps(ls, st, f);
    LineKeeps(Apply(ls, st).st, a + "\n", f);
  }

  /** A directive whose rule takes effect on no line up to and including `cd $PBS_O_WORKDIR` leaves
      the attribute as `read` set it before the scan: the default for an optional one. This covers
      a token that occurs only after the `cd` line (`ls -a` in the command), a `#PBS -M` line that
      the anchored `re.match` never reads, and a `#PBS -A` with no value after it. */
  lemma {:induction false} ScriptKeepsDefault(init: JobFields, ls: seq<string>, a: string, rest: string, f: Field)
    requires Plain(ls) && '\n' !in a && IsAnchor(a + "\n")
    requires forall i :: 0 <= i < |ls| ==> !SetsField(ls[i] + "\n", f)
    requires !SetsField(a + "\n", f) && Apply(ls + [a], Reset(init)).Going?
    ensures Value(f, ReadSpec(init, Unlines(ls) + (a + "\n" + rest)).job) == Value(f, Reset(init).job)
    ensures Value(f, ReadAsWritten(init, Unlines(ls) + (a + "\n" + rest)).job) == Value(f, Reset(init).job)
  {
    ApplyKeepsToAnchor(ls, a, Reset(init), f);
    ScriptJob(init, ls, a, rest);
  }

  /** Lines that all get through, none with `auto=`, keep `auto`. */
  lemma {:induction false} ApplyKeepsAuto(ls: seq<string>, st: ScanState)
    requires forall i :: 0 <= i < |ls| ==> !SetsAuto(ls[i] + "\n")
    requires Apply(ls, st).Going?
    ensures Apply(ls, st).st.job.auto == st.job.auto
    decreases |ls|
  {
    if ls != [] {
      var s := ApplyLine(st, ls[0] + "\n").st;
      assert ApplyLine(st, ls[0] + "\n").Going? && Apply(ls, st) == Apply(ls[1..], s);
      LineAuto(st, ls[0] + "\n");
      assert forall i :: 0 <= i < |ls[1..]| ==> ls[1..][i] == ls[i + 1];
      ApplyKeepsAuto(ls[1..], s);
    }
  }

  /** A script with no `auto=` up to and including `cd $PBS_O_WORKDIR` leaves `auto` at its
      default, false, whatever the command after the `cd` line holds. */
  lemma {:induction false} ScriptKeepsAuto(init: JobFields, ls: seq<string>, a: string, rest: string)
    requires Plain(ls) && '\n' !in a && IsAnchor(a + "\n")
    requires forall i :: 0 <= i < |ls| ==> !SetsAuto(ls[i] + "\n")
    requires !SetsAuto(a + "\n") && Apply(ls + [a], Reset(init)).Going?
    ensures !ReadSpec(init, Unlines(ls) + (a + "\n" + rest)).job.auto
    ensures !ReadAsWritten(init, Unlines(ls) + (a + "\n" + rest)).job.auto
  {
    var st := Reset(init);
    ApplyPrefix(ls, a, st);
    ApplyKeepsAuto(ls, st);
    LineAuto(Apply(ls, st).st, a + "\n");
    ScriptJob(init, ls, a, rest);
  }
}
