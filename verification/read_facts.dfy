/**
  What `Job.read` leaves alone: an attribute whose rule never matches keeps the value it
  had, so an optional directive missing from the script leaves its default, and a
  required one missing from the script makes the read fail.
*/
module ReadFacts {
  import opened Optional
  import opened Text
  import opened Decimal
  import opened JobRecord
  import opened Parser

  /** A dictionary entry, missing keys read as not found. */
  function Lookup(m: map<Slot, Entry>, k: Slot): Entry {
    if k in m then m[k] else NotFound
  }

  /** Going from state `a` to state `b` while reading the text `t` changed nothing whose token `t` lacks. */
  predicate Frame(t: string, a: ScanState, b: ScanState) {
    && (forall g :: !Occurs(t, Token(g)) ==>
          Value(g, b.job) == Value(g, a.job) && Lookup(b.required, Attr(g)) == Lookup(a.required, Attr(g)))
    && (!Occurs(t, "nodes=") ==>
          b.job.nodes == a.job.nodes && b.job.ppn == a.job.ppn
          && Lookup(b.required, Nodes) == Lookup(a.required, Nodes)
          && Lookup(b.required, Ppn) == Lookup(a.required, Ppn))
    && (!Occurs(t, "auto=") ==> b.job.auto == a.job.auto)
    && (!Occurs(t, "$PBS_O_WORKDIR") ==>
          b.job.command == a.job.command
          && Lookup(b.required, Workdir) == Lookup(a.required, Workdir)
          && Lookup(b.required, Command) == Lookup(a.required, Command))
    && b.job.jobID == a.job.jobID
    && a.required.Keys <= b.required.Keys
  }

  lemma FrameTrans(t: string, a: ScanState, b: ScanState, c: ScanState)
    requires Frame(t, a, b) && Frame(t, b, c)
    ensures Frame(t, a, c)
  {
  }

  /** What a piece of a text lacks, the text may have; what the text lacks, each piece lacks. */
  lemma FrameWiden(part: string, t: string, a: ScanState, b: ScanState)
    requires forall x :: Occurs(part, x) ==> Occurs(t, x)
    requires Frame(part, a, b)
    ensures Frame(t, a, b)
  {
  }

  lemma RuleFrame(f: Field, st: ScanState, line: string)
    ensures Frame(line, st, Rule(f, st, line))
  {
    match Capture(f, line)
    case None =>
    case Some(v) =>
      var r := Assign(f, st, v);
      assert Occurs(line, Token(f));
      forall g | !Occurs(line, Token(g))
        ensures Value(g, r.job) == Value(g, st.job) && Lookup(r.required, Attr(g)) == Lookup(st.required, Attr(g))
      {
        assert g != f;
      }
      assert Frame(line, st, r);
  }

  /** A change to the node and processor counts alone, on a line that has `nodes=`. */
  lemma CountsFrame(line: string, a: ScanState, b: ScanState, x: Entry, y: Entry)
    requires Occurs(line, "nodes=")
    requires b.job == a.job.(nodes := b.job.nodes, ppn := b.job.ppn)
    requires b.required == a.required || b.required == a.required[Nodes := x][Ppn := y]
    ensures Frame(line, a, b)
  {
    assert forall g :: Value(g, b.job) == Value(g, a.job) && Lookup(b.required, Attr(g)) == Lookup(a.required, Attr(g));
  }

  lemma NodesRuleFrame(st: ScanState, line: string)
    ensures Frame(line, st, NodesRule(st, line).st)
  {
    match NodesPpn(line)
    case None =>
    case Some((g1, g2)) =>
      match ParseInt(g1)
      case None =>
      case Some(n) =>
        var st1 := st.(job := st.job.(nodes := n));
        match ParseInt(g2)
        case None =>
          CountsFrame(line, st, st1, NotFound, NotFound);
        case Some(p) =>
          var x, y := Found(ShowInt(n)), Found(ShowInt(p));
          CountsFrame(line, st, st1.(job := st1.job.(ppn := p), required := st1.required[Nodes := x][Ppn := y]), x, y);
  }

  lemma AutoRuleFrame(st: ScanState, line: string)
    ensures Frame(line, st, AutoRule(st, line).st)
  {
  }

  lemma PbsRulesFrame(st: ScanState, line: string)
    ensures Frame(line, st, PbsRules(st, line).st)
  {
    var s1 := Rule(Name, st, line);
    var s2 := Rule(Account, s1, line);
    var s3 := Rule(Exetime, s2, line);
    RuleFrame(Name, st, line);
    RuleFrame(Account, s1, line);
    RuleFrame(Exetime, s2, line);
    FrameTrans(line, st, s1, s2);
    FrameTrans(line, st, s2, s3);
    var p := if HasResourceFlag(line) then ResourceRules(s3, line) else Going(s3);
    if HasResourceFlag(line) {
      var w := Rule(Walltime, s3, line);
      RuleFrame(Walltime, s3, line);
      NodesRuleFrame(w, line);
      FrameTrans(line, s3, w, NodesRule(w, line).st);
      if NodesRule(w, line).Going? {
        RuleFrame(Pmem, NodesRule(w, line).st, line);
        FrameTrans(line, s3, NodesRule(w, line).st, p.st);
      }
    }
    FrameTrans(line, st, s3, p.st);
    if p.Going? {
      var q1 := Rule(Queue, p.st, line);
      var q2 := Rule(Email, q1, line);
      var q3 := Rule(Message, q2, line);
      var q4 := Rule(Priority, q3, line);
      RuleFrame(Queue, p.st, line);
      RuleFrame(Email, q1, line);
      RuleFrame(Message, q2, line);
      RuleFrame(Priority, q3, line);
      FrameTrans(line, p.st, q1, q2);
      FrameTrans(line, p.st, q2, q3);
      FrameTrans(line, p.st, q3, q4);
      FrameTrans(line, st, p.st, q4);
    }
  }

  lemma ApplyLineFrame(st: ScanState, line: string)
    ensures Frame(line, st, ApplyLine(st, line).st)
  {
    var p := if HasPbs(line) then PbsRules(st, line) else Going(st);
    if HasPbs(line) {
      PbsRulesFrame(st, line);
    }
    if p.Going? {
      AutoRuleFrame(p.st, line);
      FrameTrans(line, st, p.st, AutoRule(p.st, line).st);
    }
  }

  lemma AtAnchorFrame(st: ScanState, line: string, rest: string)
    requires IsAnchor(line)
    ensures Frame(line, st, AtAnchor(st, rest))
  {
    var i :| 0 <= i <= |line| && StartsAt(line, i, "cd") && AnchorRest(line, i + 2);
    assert StartsAt(line, i + 2 + SpaceRun(line, i + 2), "$PBS_O_WORKDIR");
  }

  /** The whole scan changes nothing whose token the text lacks, and never the job ID. */
  lemma {:induction false} ScanFrame(t: string, st: ScanState)
    ensures Frame(t, st, Scan(t, st).st)
    decreases |t|
  {
    if t != [] {
      var e := LineEnd(t);
      var line := t[..e];
      forall x | Occurs(line, x) || Occurs(t[e..], x)
        ensures Occurs(t, x)
      {
        OccursInPieces(t, e, x);
      }
      ApplyLineFrame(st, line);
      FrameWiden(line, t, st, ApplyLine(st, line).st);
      match ApplyLine(st, line)
      case Halted(s, err) =>
      case Going(s) =>
        if IsAnchor(line) {
          AtAnchorFrame(s, line, t[e..]);
          FrameWiden(line, t, s, AtAnchor(s, t[e..]));
          FrameTrans(t, st, s, AtAnchor(s, t[e..]));
        } else {
          ScanFrame(t[e..], s);
          FrameWiden(t[e..], t, s, Scan(t[e..], s).st);
          FrameTrans(t, st, s, Scan(t[e..], s).st);
        }
    }
  }

  /** The job `read` leaves is the one the scan reached, whether or not it succeeded. */
  lemma ReadJob(init: JobFields, text: string)
    ensures ReadSpec(init, text).job == Scan(text, Reset(init)).st.job
  {
  }

  /** An attribute whose token the script lacks keeps the value `read` gave it before the scan. */
  lemma ReadKeeps(init: JobFields, text: string, f: Field)
    ensures !Occurs(text, Token(f)) ==> Value(f, ReadSpec(init, text).job) == Value(f, Reset(init).job)
  {
    ReadJob(init, text);
    ScanFrame(text, Reset(init));
  }

  /** Without `auto=` in the script `auto` keeps the value it had before the scan; the job ID is never touched. */
  lemma ReadKeepsOthers(init: JobFields, text: string)
    ensures !Occurs(text, "auto=") ==> ReadSpec(init, text).job.auto == Reset(init).job.auto
    ensures ReadSpec(init, text).job.jobID == init.jobID
  {
    ReadJob(init, text);
    ScanFrame(text, Reset(init));
  }

  /** An optional directive whose token does not occur in the script leaves the default `read` set
      before the scan; the job ID is never touched. */
  lemma ReadDefaults(init: JobFields, text: string)
    ensures var j := ReadSpec(init, text).job;
      && (!Occurs(text, "-A") ==> j.account.None?)
      && (!Occurs(text, "-a") ==> j.exetime.None?)
      && (!Occurs(text, "pmem=") ==> j.pmem.None?)
      && (!Occurs(text, "-M") ==> j.email.None?)
      && (!Occurs(text, "-m") ==> j.message == Some("a"))
      && (!Occurs(text, "-p") ==> j.priority == "0")
      && (!Occurs(text, "auto=") ==> !j.auto)
      && j.jobID == init.jobID
  {
    ReadKeepsOthers(init, text);
    ReadKeeps(init, text, Account);
    ReadKeeps(init, text, Exetime);
    ReadKeeps(init, text, Pmem);
    ReadKeeps(init, text, Email);
    ReadKeeps(init, text, Message);
    ReadKeeps(init, text, Priority);
  }

  /** An entry that was missing before and is found after was set by a rule whose token the text has. */
  lemma FoundNeedsToken(t: string, a: ScanState, b: ScanState, k: Slot)
    requires Frame(t, a, b)
    requires k in a.required && a.required[k] == NotFound && Complete(b.required)
    ensures k.Attr? ==> Occurs(t, Token(k.field))
    ensures k == Nodes ==> Occurs(t, "nodes=")
    ensures k == Workdir ==> Occurs(t, "$PBS_O_WORKDIR")
  {
    assert k in b.required;
  }

  /** A complete `required` dictionary reached from the initial one needs every required token. */
  lemma CompleteNeedsTokens(t: string, a: ScanState, b: ScanState)
    requires Frame(t, a, b) && a.required == InitialRequired && Complete(b.required)
    ensures Occurs(t, "-N") && Occurs(t, "walltime=") && Occurs(t, "nodes=") && Occurs(t, "-q")
    ensures Occurs(t, "$PBS_O_WORKDIR")
  {
    FoundNeedsToken(t, a, b, Attr(Name));
    FoundNeedsToken(t, a, b, Attr(Walltime));
    FoundNeedsToken(t, a, b, Attr(Queue));
    FoundNeedsToken(t, a, b, Nodes);
    FoundNeedsToken(t, a, b, Workdir);
  }

  /** `read` produces a job only if the script has every required directive and the
      `cd $PBS_O_WORKDIR` line. */
  lemma ReadNeedsRequired(init: JobFields, text: string)
    ensures ReadSpec(init, text).outcome.Succeeded? ==>
      && Occurs(text, "-N") && Occurs(text, "walltime=") && Occurs(text, "nodes=") && Occurs(text, "-q")
      && Occurs(text, "$PBS_O_WORKDIR")
  {
    var st := Reset(init);
    var p := Scan(text, st);
    if ReadSpec(init, text).outcome.Succeeded? {
      ScanFrame(text, st);
      CompleteNeedsTokens(text, st, p.st);
    }
  }

  // ---------------------------------------------------------------------------
  // A script without the `cd $PBS_O_WORKDIR` line

  /** No line of the text, as `readline` cuts it, is the `cd $PBS_O_WORKDIR` line. */
  predicate NoAnchorLine(t: string)
    decreases |t|
  {
    t == [] || (!IsAnchor(t[..LineEnd(t)]) && NoAnchorLine(t[LineEnd(t)..]))
  }

  /** The entries for the `cd` line and the command are the same in both states. */
  predicate AnchorEntriesKept(a: ScanState, b: ScanState) {
    Lookup(b.required, Workdir) == Lookup(a.required, Workdir)
    && Lookup(b.required, Command) == Lookup(a.required, Command)
  }

  /** A capturing rule sets no entry of the `cd` line or the command. */
  lemma RuleKeepsAnchor(f: Field, st: ScanState, line: string)
    ensures AnchorEntriesKept(st, Rule(f, st, line))
  {
    if Capture(f, line).Some? {
      var r := Assign(f, st, Capture(f, line).value);
      assert IsRequired(f) ==> r.required == st.required[Attr(f) := Found(Capture(f, line).value)];
    }
  }

  /** Neither does the node-count rule. */
  lemma NodesRuleKeepsAnchor(st: ScanState, line: string)
    ensures AnchorEntriesKept(st, NodesRule(st, line).st)
  {
    match NodesPpn(line)
    case None =>
    case Some((g1, g2)) =>
      match ParseInt(g1)
      case None =>
      case Some(n) =>
        match ParseInt(g2)
        case None =>
        case Some(p) =>
          CountEntriesKeepAnchor(st.required, Found(ShowInt(n)), Found(ShowInt(p)));
  }

  /** Setting the count entries leaves the other two alone. */
  lemma CountEntriesKeepAnchor(m: map<Slot, Entry>, x: Entry, y: Entry)
    ensures Lookup(m[Nodes := x][Ppn := y], Workdir) == Lookup(m, Workdir)
    ensures Lookup(m[Nodes := x][Ppn := y], Command) == Lookup(m, Command)
  {
  }

  /** Nor the `#PBS` rules. */
  lemma PbsRulesKeepAnchor(st: ScanState, line: string)
    ensures AnchorEntriesKept(st, PbsRules(st, line).st)
  {
    var s1 := Rule(Name, st, line);
    var s2 := Rule(Account, s1, line);
    var s3 := Rule(Exetime, s2, line);
    RuleKeepsAnchor(Name, st, line);
    RuleKeepsAnchor(Account, s1, line);
    RuleKeepsAnchor(Exetime, s2, line);
    var p := if HasResourceFlag(line) then ResourceRules(s3, line) else Going(s3);
    if HasResourceFlag(line) {
      var w := Rule(Walltime, s3, line);
      RuleKeepsAnchor(Walltime, s3, line);
      NodesRuleKeepsAnchor(w, line);
      if NodesRule(w, line).Going? {
        RuleKeepsAnchor(Pmem, NodesRule(w, line).st, line);
      }
    }
    assert AnchorEntriesKept(st, p.st);
    if p.Going? {
      var q1 := Rule(Queue, p.st, line);
      var q2 := Rule(Email, q1, line);
      var q3 := Rule(Message, q2, line);
      RuleKeepsAnchor(Queue, p.st, line);
      RuleKeepsAnchor(Email, q1, line);
      RuleKeepsAnchor(Message, q2, line);
      RuleKeepsAnchor(Priority, q3, line);
    }
  }

  /** Nor does any rule of a line but the anchor one, whether the line gets through or not. */
  lemma ApplyLineKeepsAnchor(st: ScanState, line: string)
    ensures AnchorEntriesKept(st, ApplyLine(st, line).st)
  {
    if HasPbs(line) {
      PbsRulesKeepAnchor(st, line);
    }
  }

  /** Scanning a text with no `cd $PBS_O_WORKDIR` line leaves both entries as they were. */
  lemma {:induction false} ScanKeepsAnchor(t: string, st: ScanState)
    requires NoAnchorLine(t)
    ensures AnchorEntriesKept(st, Scan(t, st).st)
    decreases |t|
  {
    if t != [] {
      var e := LineEnd(t);
      ApplyLineKeepsAnchor(st, t[..e]);
      match ApplyLine(st, t[..e])
      case Halted(s, err) =>
      case Going(s) => ScanKeepsAnchor(t[e..], s);
    }
  }

  /** The node-count rule stops the scan only on a count `int()` rejects. */
  lemma NodesRuleStopsOnCount(st: ScanState, line: string)
    ensures NodesRule(st, line).Halted? ==> NodesRule(st, line).error.BadCount?
  {
  }

  /** So do the `#PBS` rules. */
  lemma PbsRulesStopOnCount(st: ScanState, line: string)
    ensures PbsRules(st, line).Halted? ==> PbsRules(st, line).error.BadCount?
  {
    var s3 := Rule(Exetime, Rule(Account, Rule(Name, st, line), line), line);
    NodesRuleStopsOnCount(Rule(Walltime, s3, line), line);
  }

  /** A rule of a line stops the scan only on a bad `auto=` value or a bad count. */
  lemma ApplyLineStopsOnValue(st: ScanState, line: string)
    ensures ApplyLine(st, line).Halted? ==> ApplyLine(st, line).error.BadAuto? || ApplyLine(st, line).error.BadCount?
  {
    PbsRulesStopOnCount(st, line);
  }

  /** So does the whole scan. */
  lemma {:induction false} ScanStopsOnValue(t: string, st: ScanState)
    ensures Scan(t, st).Halted? ==> Scan(t, st).error.BadAuto? || Scan(t, st).error.BadCount?
    decreases |t|
  {
    if t != [] {
      var e := LineEnd(t);
      ApplyLineStopsOnValue(st, t[..e]);
      match ApplyLine(st, t[..e])
      case Halted(s, err) =>
      case Going(s) =>
        if !IsAnchor(t[..e]) {
          ScanStopsOnValue(t[e..], s);
        }
    }
  }

  /** A scan that ends with a required entry still missing fails under either check. */
  lemma MissingEntryFails(p: Progress, k: Slot)
    requires k in p.st.required && p.st.required[k] == NotFound
    ensures Conclude(p).outcome.Failed? && ConcludeAsWritten(p).outcome == Conclude(p).outcome
    ensures p.Going? ==> Conclude(p).outcome.error == MissingRequired(p.st.optional, p.st.required)
  {
    assert Shown(p.st.required[k]) == "Not Found";
  }

  /** Without the `cd $PBS_O_WORKDIR` line `read` never produces a job, under either check: it stops
      on a bad `auto=` value or count, or reports both the `cd` entry and the command as not found. */
  lemma {:induction false} ReadWithoutAnchor(init: JobFields, text: string)
    requires NoAnchorLine(text)
    ensures var o := ReadSpec(init, text).outcome;
      o.Failed? && (o.error.MissingRequired? ==>
        Lookup(o.error.required, Workdir) == NotFound && Lookup(o.error.required, Command) == NotFound)
    ensures ReadAsWritten(init, text).outcome == ReadSpec(init, text).outcome
  {
    var st := Reset(init);
    var p := Scan(text, st);
    assert Workdir in st.required && Command in st.required;
    assert Lookup(st.required, Workdir) == NotFound && Lookup(st.required, Command) == NotFound;
    ScanKeepsAnchor(text, st);
    ScanFrame(text, st);
    ScanStopsOnValue(text, st);
    MissingEntryFails(p, Workdir);
  }
}
