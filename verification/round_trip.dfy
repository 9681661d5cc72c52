/**
  Reading back what `Job.qsub_string` writes: `read` of the script of a job gives the
  job back, as far as `read` looks at the script, and succeeds.
*/
module RoundTrip {
  import opened Optional
  import opened Text
  import opened Decimal
  import opened JobRecord
  import opened Serializer
  import opened Parser
  import opened LineEffects

  /** Reading the first of some lines, when it is an ordinary line, moves the scan on to the next. */
  lemma ScanCons(ls: seq<string>, r: string, st: ScanState, s2: ScanState)
    requires ls != [] && '\n' !in ls[0]
    requires ApplyLine(st, ls[0] + "\n") == Going(s2) && !IsAnchor(ls[0] + "\n")
    ensures Scan(Unlines(ls) + r, st) == Scan(Unlines(ls[1..]) + r, s2)
  {
    var t := Unlines(ls) + r;
    assert t == ls[0] + "\n" + (Unlines(ls[1..]) + r);
    LineEndOfLine(ls[0], Unlines(ls[1..]) + r);
  }

  /** No newline in a value written after a prefix without one. */
  lemma OneLine(p: string, v: string)
    requires Inert(v) && '\n' !in p
    ensures '\n' !in p + v
  {
    assert forall i :: 0 <= i < |v| ==> v[i] != '\n';
  }

  /** Reading an ordinary fixed line changes nothing. */
  lemma ScanOrdinary(ls: seq<string>, r: string, st: ScanState)
    requires ls != [] && Ordinary(ls[0])
    ensures Scan(Unlines(ls) + r, st) == Scan(Unlines(ls[1..]) + r, st)
  {
    ScanCons(ls, r, st, st);
  }

  /** `#!/bin/sh` and `#PBS -S /bin/sh` change nothing. */
  lemma ShellScan(ls: seq<string>, r: string, st: ScanState)
    requires |ls| >= 2 && ls[0] == "#!/bin/sh" && ls[1] == "#PBS -S /bin/sh"
    ensures Scan(Unlines(ls) + r, st) == Scan(Unlines(ls[2..]) + r, st)
  {
    ShebangLine();
    ShellLine();
    ScanOrdinary(ls, r, st);
    ScanOrdinary(ls[1..], r, st);
    assert ls[1..][1..] == ls[2..];
  }

  /** `#PBS -N <name>` sets the name. */
  lemma NameScan(ls: seq<string>, v: string, r: string, st: ScanState)
    requires Captures(v) && ls == ["#PBS -N " + v]
    ensures Scan(Unlines(ls) + r, st) == Scan(r, Assign(Name, st, v))
  {
    OptionLine(st, "#PBS -N ", v, Name);
    OneLine("#PBS -N ", v);
    ScanCons(ls, r, st, Assign(Name, st, v));
    assert ls[1..] == [];
    assert Unlines([]) + r == r;
  }

  /** The opening lines set the name. */
  lemma HeadScan(j: JobFields, r: string, st: ScanState)
    requires Captures(j.name)
    ensures Scan(Unlines(HeadLines(j)) + r, st) == Scan(r, Assign(Name, st, j.name))
  {
    var h := HeadLines(j);
    ShellScan(h, r, st);
    NameScan(h[2..], j.name, r, st);
  }

  /** A directive written only when its attribute is set: it sets the attribute, or is absent. */
  lemma OptionalScan(p: string, v: Option<string>, f: Field, r: string, st: ScanState)
    requires v.Some? ==> '\n' !in p + v.value && !IsAnchor(p + v.value + "\n")
    requires v.Some? ==> ApplyLine(st, p + v.value + "\n") == Going(Assign(f, st, v.value))
    ensures Scan(Unlines(OptionalLine(p, v)) + r, st) == Scan(r, if v.Some? then Assign(f, st, v.value) else st)
  {
    var ls := OptionalLine(p, v);
    if v.Some? {
      ScanCons(ls, r, st, Assign(f, st, v.value));
      assert ls[1..] == [];
    }
    assert Unlines([]) + r == r;
  }

  /** `#PBS -a <exetime>`, if written, sets the execution time. */
  lemma ExetimeScan(j: JobFields, r: string, st: ScanState)
    requires j.exetime.Some? ==> Captures(j.exetime.value)
    ensures Scan(Unlines(OptionalLine("#PBS -a ", j.exetime)) + r, st)
         == Scan(r, if j.exetime.Some? then Assign(Exetime, st, j.exetime.value) else st)
  {
    if j.exetime.Some? {
      OptionLine(st, "#PBS -a ", j.exetime.value, Exetime);
      OneLine("#PBS -a ", j.exetime.value);
    }
    OptionalScan("#PBS -a ", j.exetime, Exetime, r, st);
  }

  /** `#PBS -A <account>`, if written, sets the account. */
  lemma AccountScan(j: JobFields, r: string, st: ScanState)
    requires j.account.Some? ==> Captures(j.account.value)
    ensures Scan(Unlines(OptionalLine("#PBS -A ", j.account)) + r, st)
         == Scan(r, if j.account.Some? then Assign(Account, st, j.account.value) else st)
  {
    if j.account.Some? {
      OptionLine(st, "#PBS -A ", j.account.value, Account);
      OneLine("#PBS -A ", j.account.value);
    }
    OptionalScan("#PBS -A ", j.account, Account, r, st);
  }

  /** `#PBS -l pmem=<pmem>`, if written, sets the memory per process. */
  lemma PmemScan(j: JobFields, r: string, st: ScanState)
    requires j.pmem.Some? ==> Inert(j.pmem.value)
    ensures Scan(Unlines(OptionalLine("#PBS -l pmem=", j.pmem)) + r, st)
         == Scan(r, if j.pmem.Some? then Assign(Pmem, st, j.pmem.value) else st)
  {
    if j.pmem.Some? {
      ResourceLine(st, "#PBS -l pmem=", j.pmem.value, Pmem);
      OneLine("#PBS -l pmem=", j.pmem.value);
    }
    OptionalScan("#PBS -l pmem=", j.pmem, Pmem, r, st);
  }

  /** What `#PBS -l nodes=<n>:ppn=<p>` does to the state. */
  function SetCounts(st: ScanState, n: int, p: int): ScanState {
    st.(job := st.job.(nodes := n, ppn := p),
        required := st.required[Nodes := Found(ShowInt(n))][Ppn := Found(ShowInt(p))])
  }

  /** What `#auto=<b>` does to the state. */
  function SetAuto(st: ScanState, b: bool): ScanState {
    st.(job := st.job.(auto := b), optional := st.optional[Auto := ShowBool(b)])
  }

  /** The digits of a count hold no newline. */
  lemma CountsOneLine(n: int, p: int)
    ensures '\n' !in "#PBS -l nodes=" + ShowInt(n) + ":ppn=" + ShowInt(p)
  {
    var a, b := ShowInt(n), ShowInt(p);
    assert forall i :: 0 <= i < |a| ==> a[i] != '\n';
    assert forall i :: 0 <= i < |b| ==> b[i] != '\n';
  }

  /** The walltime and the node counts. */
  lemma LimitScan(j: JobFields, r: string, st: ScanState)
    requires Inert(Show(j.walltime))
    ensures Scan(Unlines(LimitLines(j)) + r, st)
         == Scan(r, SetCounts(Assign(Walltime, st, Show(j.walltime)), j.nodes, j.ppn))
  {
    var ls := LimitLines(j);
    WalltimeStep(ls, Show(j.walltime), r, st);
    CountsStep(ls[1..], j.nodes, j.ppn, r, Assign(Walltime, st, Show(j.walltime)));
    assert ls[1..][1..] == [];
    assert Unlines([]) + r == r;
  }

  /** `#PBS -l walltime=<w>` sets the walltime. */
  lemma WalltimeStep(ls: seq<string>, w: string, r: string, st: ScanState)
    requires Inert(w) && |ls| >= 1 && ls[0] == "#PBS -l walltime=" + w
    ensures Scan(Unlines(ls) + r, st) == Scan(Unlines(ls[1..]) + r, Assign(Walltime, st, w))
  {
    ResourceLine(st, "#PBS -l walltime=", w, Walltime);
    OneLine("#PBS -l walltime=", w);
    ScanCons(ls, r, st, Assign(Walltime, st, w));
  }

  /** `#PBS -l nodes=<n>:ppn=<p>` sets both counts. */
  lemma CountsStep(ls: seq<string>, n: int, p: int, r: string, st: ScanState)
    requires |ls| >= 1 && ls[0] == "#PBS -l nodes=" + ShowInt(n) + ":ppn=" + ShowInt(p)
    ensures Scan(Unlines(ls) + r, st) == Scan(Unlines(ls[1..]) + r, SetCounts(st, n, p))
  {
    CountsLine(st, n, p);
    CountsOneLine(n, p);
    ScanCons(ls, r, st, SetCounts(st, n, p));
  }

  /** The quality-of-service line, which `read` ignores, and the queue. */
  lemma QueueScan(j: JobFields, r: string, st: ScanState)
    requires Captures(Show(j.queue))
    ensures Scan(Unlines(QueueLines(j)) + r, st) == Scan(r, Assign(Queue, st, Show(j.queue)))
  {
    QueuePair(Show(j.queue), QueueLines(j), r, st);
  }

  lemma QueuePair(v: string, ls: seq<string>, r: string, st: ScanState)
    requires Captures(v) && ls == ["#PBS -l qos=" + v, "#PBS -q " + v]
    ensures Scan(Unlines(ls) + r, st) == Scan(r, Assign(Queue, st, v))
  {
    var s1 := Assign(Queue, st, v);
    QosLine(st, v);
    OneLine("#PBS -l qos=", v);
    ScanCons(ls, r, st, st);
    OptionLine(st, "#PBS -q ", v, Queue);
    OneLine("#PBS -q ", v);
    ScanCons(ls[1..], r, st, s1);
    assert ls[1..][1..] == [];
    assert Unlines([]) + r == r;
  }

  /** The mail lines, which `read` never matches. */
  lemma MailScan(j: JobFields, r: string, st: ScanState)
    requires j.email.Some? && j.message.Some? ==> Inert(j.email.value) && Inert(j.message.value)
    ensures Scan(Unlines(MailLines(j)) + r, st) == Scan(r, st)
  {
    var ls := MailLines(j);
    if j.email.Some? && j.message.Some? {
      UnreadLine(st, "#PBS -M ", j.email.value);
      OneLine("#PBS -M ", j.email.value);
      ScanCons(ls, r, st, st);
      UnreadLine(st, "#PBS -m ", j.message.value);
      OneLine("#PBS -m ", j.message.value);
      ScanCons(ls[1..], r, st, st);
      assert ls[1..][1..] == [];
    }
    assert Unlines([]) + r == r;
  }

  /** The export line, the priority (never matched), the `auto` comment and the fixed lines after it. */
  lemma TailScan(j: JobFields, r: string, st: ScanState)
    requires Inert(j.priority)
    ensures Scan(Unlines(TailLines(j)) + r, st) == Scan(r, SetAuto(st, j.auto))
  {
    var ls := TailLines(j);
    ExportScan(ls, j.priority, r, st);
    assert ls[2..] == ["", "#auto=" + ShowBool(j.auto)] + ls[4..];
    AutoScan(ls[2..], j.auto, r, st);
    EndScan(ls[4..], r, SetAuto(st, j.auto));
  }

  /** `#PBS -V` and `#PBS -p <priority>` change nothing. */
  lemma ExportScan(ls: seq<string>, v: string, r: string, st: ScanState)
    requires Inert(v) && |ls| >= 2 && ls[0] == "#PBS -V" && ls[1] == "#PBS -p " + v
    ensures Scan(Unlines(ls) + r, st) == Scan(Unlines(ls[2..]) + r, st)
  {
    ExportLine();
    ScanOrdinary(ls, r, st);
    UnreadLine(st, "#PBS -p ", v);
    OneLine("#PBS -p ", v);
    ScanCons(ls[1..], r, st, st);
    assert ls[1..][1..] == ls[2..];
  }

  /** A blank line, then `#auto=<b>`, which sets `auto`. */
  lemma AutoScan(ls: seq<string>, b: bool, r: string, st: ScanState)
    requires |ls| >= 2 && ls[0] == "" && ls[1] == "#auto=" + ShowBool(b)
    ensures Scan(Unlines(ls) + r, st) == Scan(Unlines(ls[2..]) + r, SetAuto(st, b))
  {
    BlankLine();
    ScanOrdinary(ls, r, st);
    AutoStep(ls[1..], b, r, st);
    assert ls[1..][1..] == ls[2..];
  }

  /** `#auto=<b>` sets `auto`. */
  lemma AutoStep(ls: seq<string>, b: bool, r: string, st: ScanState)
    requires |ls| >= 1 && ls[0] == "#auto=" + ShowBool(b)
    ensures Scan(Unlines(ls) + r, st) == Scan(Unlines(ls[1..]) + r, SetAuto(st, b))
  {
    AutoLine(st, b);
    var l := "#auto=" + ShowBool(b);
    assert forall i :: 0 <= i < |l| ==> l[i] != '\n';
    ScanCons(ls, r, st, SetAuto(st, b));
  }

  /** The last four lines: blank, `echo "I ran on:"`, `cat $PBS_NODEFILE`, blank. */
  lemma EndScan(ls: seq<string>, r: string, st: ScanState)
    requires ls == ["", "echo \"I ran on:\"", "cat $PBS_NODEFILE", ""]
    ensures Scan(Unlines(ls) + r, st) == Scan(r, st)
  {
    BlankLine();
    EchoLine();
    NodefileLine();
    ScanOrdinary(ls, r, st);
    ScanOrdinary(ls[1..], r, st);
    assert ls[1..][1..] == ls[2..];
    ScanOrdinary(ls[2..], r, st);
    assert ls[2..][1..] == ls[3..];
    ScanOrdinary(ls[3..], r, st);
    assert ls[3..][1..] == [];
    assert Unlines([]) + r == r;
  }

  /** The text of three blocks of lines followed by `r`. */
  lemma Unlines3(a: seq<string>, b: seq<string>, c: seq<string>, r: string)
    ensures Unlines(a + (b + c)) + r == Unlines(a) + (Unlines(b) + (Unlines(c) + r))
  {
    UnlinesAppend(a, b + c);
    UnlinesAppend(b, c);
  }

  /** The values `qsub_string` writes so that `read` captures them whole: no newline, no `=` or `$`,
      no dash before an option letter, and, where the rule skips whitespace before the group, no
      leading whitespace. */
  predicate Writable(j: JobFields) {
    && Captures(j.name)
    && (j.exetime.Some? ==> Captures(j.exetime.value))
    && (j.account.Some? ==> Captures(j.account.value))
    && Inert(Show(j.walltime))
    && (j.pmem.Some? ==> Inert(j.pmem.value))
    && Captures(Show(j.queue))
    && (j.email.Some? && j.message.Some? ==> Inert(j.email.value) && Inert(j.message.value))
    && Inert(j.priority)
  }

  /** The state after the execution time, the account and the limits. */
  function AfterLimits(j: JobFields, st: ScanState): ScanState {
    var s1 := if j.exetime.Some? then Assign(Exetime, st, j.exetime.value) else st;
    var s2 := if j.account.Some? then Assign(Account, s1, j.account.value) else s1;
    SetCounts(Assign(Walltime, s2, Show(j.walltime)), j.nodes, j.ppn)
  }

  /** The state after the lines between the name and `cd $PBS_O_WORKDIR`. */
  function AfterBody(j: JobFields, st: ScanState): ScanState {
    var s3 := AfterLimits(j, st);
    var s4 := if j.pmem.Some? then Assign(Pmem, s3, j.pmem.value) else s3;
    SetAuto(Assign(Queue, s4, Show(j.queue)), j.auto)
  }

  /** The execution time, the account and the limits. */
  lemma LimitsScan(j: JobFields, rest: seq<string>, r: string, st: ScanState)
    requires Writable(j)
    ensures Scan(Unlines(OptionalLine("#PBS -a ", j.exetime) + (OptionalLine("#PBS -A ", j.account)
                 + (LimitLines(j) + rest))) + r, st)
         == Scan(Unlines(rest) + r, AfterLimits(j, st))
  {
    var b1, b2, b3 := OptionalLine("#PBS -a ", j.exetime), OptionalLine("#PBS -A ", j.account), LimitLines(j);
    var r3 := Unlines(rest) + r;
    Unlines3(b1, b2, b3 + rest, r);
    UnlinesAppend(b3, rest);
    assert Unlines(b3 + rest) + r == Unlines(b3) + r3;
    var s1 := if j.exetime.Some? then Assign(Exetime, st, j.exetime.value) else st;
    var s2 := if j.account.Some? then Assign(Account, s1, j.account.value) else s1;
    ExetimeScan(j, Unlines(b2) + (Unlines(b3) + r3), st);
    AccountScan(j, Unlines(b3) + r3, s1);
    LimitScan(j, r3, s2);
  }

  /** The memory, the queue, the mail lines and the tail. */
  lemma RestScan(j: JobFields, r: string, st: ScanState)
    requires Writable(j)
    ensures Scan(Unlines(OptionalLine("#PBS -l pmem=", j.pmem) + (QueueLines(j) + (MailLines(j) + TailLines(j)))) + r, st)
         == Scan(r, SetAuto(Assign(Queue, if j.pmem.Some? then Assign(Pmem, st, j.pmem.value) else st, Show(j.queue)), j.auto))
  {
    var b4, b5, b6, b7 := OptionalLine("#PBS -l pmem=", j.pmem), QueueLines(j), MailLines(j), TailLines(j);
    var r6 := Unlines(b6) + (Unlines(b7) + r);
    Unlines3(b4, b5, b6 + b7, r);
    UnlinesAppend(b6, b7);
    assert Unlines(b6 + b7) + r == r6;
    var s4 := if j.pmem.Some? then Assign(Pmem, st, j.pmem.value) else st;
    var s5 := Assign(Queue, s4, Show(j.queue));
    PmemScan(j, Unlines(b5) + r6, st);
    QueueScan(j, r6, s4);
    MailScan(j, Unlines(b7) + r, s5);
    TailScan(j, r, s5);
  }

  /** The lines between the name and `cd $PBS_O_WORKDIR`, block by block. */
  lemma BodyScan(j: JobFields, r: string, st: ScanState)
    requires Writable(j)
    ensures Scan(Unlines(BodyLines(j)) + r, st) == Scan(r, AfterBody(j, st))
  {
    var rest := OptionalLine("#PBS -l pmem=", j.pmem) + (QueueLines(j) + (MailLines(j) + TailLines(j)));
    LimitsScan(j, rest, r, st);
    RestScan(j, r, AfterLimits(j, st));
  }

  /** `cd $PBS_O_WORKDIR` ends the scan: what follows it is the command. */
  lemma AnchorScan(cmd: string, st: ScanState)
    ensures Scan(Unlines(["cd $PBS_O_WORKDIR"]) + cmd, st) == Going(AtAnchor(st, cmd))
  {
    var l := "cd $PBS_O_WORKDIR";
    var t := l + "\n" + cmd;
    assert Unlines([l]) == l + "\n" + Unlines([]);
    assert Unlines([l]) + cmd == t;
    assert forall i :: 0 <= i < |l| ==> l[i] != '\n';
    LineEndOfLine(l, cmd);
    WorkdirLine(st);
    assert t[..LineEnd(t)] == l + "\n" && t[LineEnd(t)..] == cmd;
    AnchorStep(t, st, LineEnd(t), cmd);
  }

  /** One step of the scan at an anchor line. */
  lemma AnchorStep(t: string, st: ScanState, e: nat, rest: string)
    requires t != [] && e == LineEnd(t) && t[e..] == rest
    requires ApplyLine(st, t[..e]) == Going(st) && IsAnchor(t[..e])
    ensures Scan(t, st) == Going(AtAnchor(st, rest))
  {
  }

  /** The script's lines up to `cd $PBS_O_WORKDIR`, then any text: its opening lines, its body,
      the `cd` line and that text. */
  lemma ScriptText(j: JobFields, cmd: string)
    ensures Unlines(ScriptLines(j)) + cmd == Unlines(HeadLines(j)) + (Unlines(BodyLines(j))
                                             + (Unlines(["cd $PBS_O_WORKDIR"]) + cmd))
  {
    var h, b, c := HeadLines(j), BodyLines(j), ["cd $PBS_O_WORKDIR"];
    assert ScriptLines(j) == h + (b + c);
    Unlines3(h, b, c, cmd);
  }

  /** The script's lines up to `cd $PBS_O_WORKDIR`, followed by any text: the name, the body, then
      that text as the command. */
  lemma ScriptLinesScan(j: JobFields, cmd: string, st: ScanState)
    requires Writable(j)
    ensures Scan(Unlines(ScriptLines(j)) + cmd, st) == Going(AtAnchor(AfterBody(j, Assign(Name, st, j.name)), cmd))
  {
    var h, b, c := HeadLines(j), BodyLines(j), ["cd $PBS_O_WORKDIR"];
    ScriptText(j, cmd);
    HeadScan(j, Unlines(b) + (Unlines(c) + cmd), st);
    BodyScan(j, Unlines(c) + cmd, Assign(Name, st, j.name));
    AnchorScan(cmd, AfterBody(j, Assign(Name, st, j.name)));
  }

  /** The whole script: the name, the body, then the command after `cd $PBS_O_WORKDIR`. */
  lemma ScriptScan(j: JobFields, st: ScanState)
    requires Writable(j)
    ensures Scan(QsubString(j), st) == Going(AtAnchor(AfterBody(j, Assign(Name, st, j.name)), Show(j.command) + "\n"))
  {
    var cmd := Show(j.command) + "\n";
    assert QsubString(j) == Unlines(ScriptLines(j)) + cmd;
    ScriptLinesScan(j, cmd, st);
  }

  /** The job `read` builds from the script of `j`, starting from a job whose attributes were `init`:
      the directives give back the name, execution time, account, walltime, counts, memory, queue
      and `auto`; the walltime, queue and command come back as the text they were written as, the
      command with its newline; the mail settings and the priority keep `read`'s defaults; the job ID
      is the one the job already had. */
  function ReadBack(j: JobFields, init: JobFields): JobFields {
    j.(walltime := Some(Show(j.walltime)), queue := Some(Show(j.queue)),
       command := Some(Show(j.command) + "\n"),
       email := None, message := Some("a"), priority := "0", jobID := init.jobID)
  }

  /** What the execution time, the account and the limits set. */
  lemma AfterLimitsJob(j: JobFields, st: ScanState)
    ensures AfterLimits(j, st).job == st.job.(exetime := if j.exetime.Some? then j.exetime else st.job.exetime,
      account := if j.account.Some? then j.account else st.job.account,
      walltime := Some(Show(j.walltime)), nodes := j.nodes, ppn := j.ppn)
  {
  }

  /** The attributes after the whole script, attribute by attribute. */
  lemma AfterScriptJob(j: JobFields, init: JobFields)
    requires Writable(j)
    ensures AtAnchor(AfterBody(j, Assign(Name, Reset(init), j.name)), Show(j.command) + "\n").job == ReadBack(j, init)
  {
    var s0 := Assign(Name, Reset(init), j.name);
    var s3 := AfterLimits(j, s0);
    AfterLimitsJob(j, s0);
    var s4 := if j.pmem.Some? then Assign(Pmem, s3, j.pmem.value) else s3;
    assert s4.job == s3.job.(pmem := j.pmem);
    var s5 := Assign(Queue, s4, Show(j.queue));
    assert s5.job == s4.job.(queue := Some(Show(j.queue)));
  }

  /** The entries the execution time, the account and the limits set. */
  lemma AfterLimitsRequired(j: JobFields, st: ScanState)
    ensures AfterLimits(j, st).required
         == st.required[Attr(Walltime) := Found(Show(j.walltime))][Nodes := Found(ShowInt(j.nodes))][Ppn := Found(ShowInt(j.ppn))]
  {
  }

  /** The `required` dictionary after the whole script, with `cmd` after the `cd` line. */
  lemma AfterScriptRequired(j: JobFields, init: JobFields, cmd: string)
    ensures AtAnchor(AfterBody(j, Assign(Name, Reset(init), j.name)), cmd).required
         == InitialRequired[Attr(Name) := Found(j.name)][Attr(Walltime) := Found(Show(j.walltime))]
              [Nodes := Found(ShowInt(j.nodes))][Ppn := Found(ShowInt(j.ppn))][Attr(Queue) := Found(Show(j.queue))]
              [Workdir := Found("Found")][Command := Found(cmd)]
  {
    var s0 := Assign(Name, Reset(init), j.name);
    var s3 := AfterLimits(j, s0);
    AfterLimitsRequired(j, s0);
    var s4 := if j.pmem.Some? then Assign(Pmem, s3, j.pmem.value) else s3;
    assert s4.required == s3.required;
  }

  /** Every entry of the initial dictionary, once set, is found. */
  lemma FilledComplete(a: string, b: string, c: string, d: string, e: string, f: string, g: string)
    ensures Complete(InitialRequired[Attr(Name) := Found(a)][Attr(Walltime) := Found(b)][Nodes := Found(c)]
                       [Ppn := Found(d)][Attr(Queue) := Found(e)][Workdir := Found(f)][Command := Found(g)])
  {
  }

  /** Every required entry is found after the whole script, whatever follows the `cd` line. */
  lemma AfterScriptComplete(j: JobFields, init: JobFields, cmd: string)
    ensures Complete(AtAnchor(AfterBody(j, Assign(Name, Reset(init), j.name)), cmd).required)
  {
    AfterScriptRequired(j, init, cmd);
    FilledComplete(j.name, Show(j.walltime), ShowInt(j.nodes), ShowInt(j.ppn), Show(j.queue), "Found", cmd);
  }

  /** Reading back what `qsub_string` writes succeeds and gives the job back. */
  lemma WriteThenRead(init: JobFields, j: JobFields)
    requires Writable(j)
    ensures ReadSpec(init, QsubString(j)) == ReadResult(ReadBack(j, init), Succeeded)
  {
    ScriptScan(j, Reset(init));
    AfterScriptJob(j, init);
    AfterScriptComplete(j, init, Show(j.command) + "\n");
  }
}
