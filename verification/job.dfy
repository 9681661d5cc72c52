/**
  The `Job` class: its fourteen attributes as fields, the constructor that sets them,
  `qsub_string`, which writes the submit script, and `read`, which scans a submit
  script line by line and updates the fields in place.
*/
module PbsJob {
  import opened Optional
  import opened Text
  import opened Decimal
  import opened JobRecord
  import opened Serializer
  import opened Parser

  /** The attributes of a job built from a script before `read` has set any of them. */
  const Unset: JobFields := JobFields("", None, 0, 0, None, None, None, None, None, None, "", None, false, None)

  class Job {
    var name: string
    var account: Option<string>
    var nodes: int
    var ppn: int
    var walltime: Option<string>
    var pmem: Option<string>
    var queue: Option<string>
    var exetime: Option<string>
    var message: Option<string>
    var email: Option<string>
    var priority: string
    var command: Option<string>
    var auto: bool
    var jobID: Option<string>

    /** The fields, as one value. */
    function Fields(): JobFields
      reads this
    {
      JobFields(name, account, nodes, ppn, walltime, pmem, queue, exetime, message, email,
                priority, command, auto, jobID)
    }

    /** `Job(...)` with every attribute given or defaulted; the counts are already integers. */
    constructor (name: string := "STDIN", account: Option<string> := None, nodes: int, ppn: int,
                 walltime: Option<string> := None, pmem: Option<string> := None,
                 queue: Option<string> := None, exetime: Option<string> := None,
                 message: Option<string> := Some("a"), email: Option<string> := None,
                 priority: string := "0", command: Option<string> := None, auto: bool := false)
      ensures Fields() == JobFields(name, account, nodes, ppn, walltime, pmem, queue, exetime,
                                    message, email, priority, command, auto, None)
    {
      this.name := name;
      this.account := account;
      this.nodes := nodes;
      this.ppn := ppn;
      this.walltime := walltime;
      this.pmem := pmem;
      this.queue := queue;
      this.exetime := exetime;
      this.message := message;
      this.email := email;
      this.priority := priority;
      this.command := command;
      this.auto := auto;
      this.jobID := None;
    }

    /** A job none of whose attributes has been set yet. */
    constructor Blank()
      ensures Fields() == Unset
    {
      name, account, nodes, ppn := "", None, 0, 0;
      walltime, pmem, queue, exetime, message, email := None, None, None, None, None, None;
      priority, command, auto, jobID := "", None, false, None;
    }

    /** `Job(qsubstr=text)`: a new job whose attributes are whatever `read` sets from the script. */
    static method FromScript(text: string) returns (job: Job, outcome: Outcome)
      ensures fresh(job)
      ensures job.Fields() == ReadAsWritten(Unset, text).job && outcome == ReadAsWritten(Unset, text).outcome
    {
      job := new Job.Blank();
      outcome := job.Read(text);
    }

    /** Every field at once. */
    method SetFields(j: JobFields)
      modifies this
      ensures Fields() == j
    {
      SetRequired(j);
      SetOthers(j);
    }

    /** The fields `read` requires, and the account, the memory and the execution time. */
    method SetRequired(j: JobFields)
      modifies this
      ensures Fields() == old(Fields()).(name := j.name, account := j.account, nodes := j.nodes, ppn := j.ppn,
                                         walltime := j.walltime, pmem := j.pmem, queue := j.queue)
    {
      this.name := j.name;
      this.account := j.account;
      this.nodes := j.nodes;
      this.ppn := j.ppn;
      this.walltime := j.walltime;
      this.pmem := j.pmem;
      this.queue := j.queue;
    }

    /** The remaining fields. */
    method SetOthers(j: JobFields)
      modifies this
      ensures Fields() == old(Fields()).(exetime := j.exetime, message := j.message, email := j.email,
                                         priority := j.priority, command := j.command, auto := j.auto,
                                         jobID := j.jobID)
    {
      this.exetime := j.exetime;
      this.message := j.message;
      this.email := j.email;
      this.priority := j.priority;
      this.command := j.command;
      this.auto := j.auto;
      this.jobID := j.jobID;
    }

    /** `qsub_string`. */
    method QsubString() returns (s: string)
      ensures s == Serializer.QsubString(Fields())
    {
      s := WriteScript(Fields());
    }

    /** `read`: reset the optional attributes, then take one line at a time, apply every rule to
        it, and stop after `cd $PBS_O_WORKDIR`, keeping the rest of the text as the command; then
        look for an entry that still holds the text "Not Found". */
    method Read(text: string) returns (outcome: Outcome)
      modifies this
      ensures Fields() == ReadAsWritten(old(Fields()), text).job
      ensures outcome == ReadAsWritten(old(Fields()), text).outcome
    {
      ResetOptional();
      var optional, required, error := ReadLines(text, InitialOptional, InitialRequired);
      if error.Some? {
        return Failed(error.value);
      }
      var found := AllFound(required);
      outcome := if found then Succeeded else Failed(MissingRequired(optional, required));
    }

    /** The attributes `read` sets before it looks at the script. */
    method ResetOptional()
      modifies this
      ensures Fields() == Reset(old(Fields())).job
    {
      ghost var j := Fields();
      pmem := None;
      email := None;
      message := Some("a");
      priority := "0";
      auto := false;
      account := None;
      exetime := None;
      assert Fields() == j.(pmem := None, email := None, message := Some("a"), priority := "0",
                            auto := false, account := None, exetime := None);
    }

    /** The `while True` loop of `read`, from the dictionaries `optional0` and `required0`: the fields
        and dictionaries it leaves, and the error that stopped it, if any. */
    method ReadLines(text: string, optional0: map<Slot, string>, required0: map<Slot, Entry>)
      returns (optional: map<Slot, string>, required: map<Slot, Entry>, error: Option<ReadError>)
      modifies this
      ensures var p := Scan(text, ScanState(old(Fields()), optional0, required0));
        && Fields() == p.st.job
        && (error.None? ==> p == Going(ScanState(Fields(), optional, required)))
        && (error.Some? ==> p == Halted(p.st, error.value))
    {
      ghost var start := ScanState(Fields(), optional0, required0);
      optional, required := optional0, required0;
      var rest := text;
      while rest != []
        invariant Scan(text, start) == Scan(rest, ScanState(Fields(), optional, required))
        decreases |rest|
      {
        var e, stop;
        optional, required, error, e, stop := ReadLine(rest, optional, required);
        if stop {
          return;
        }
        rest := rest[e..];
      }
      error := None;
    }

    /** One turn of the loop of `read`: apply every rule to the line at the head of `rest`; stop on an
        error or after `cd $PBS_O_WORKDIR`, keeping the text after it as the command, or else say where
        the next line starts. */
    method ReadLine(rest: string, optional0: map<Slot, string>, required0: map<Slot, Entry>)
      returns (optional: map<Slot, string>, required: map<Slot, Entry>, error: Option<ReadError>,
               e: nat, stop: bool)
      requires rest != []
      modifies this
      ensures var p := Scan(rest, ScanState(old(Fields()), optional0, required0));
        && (stop ==> Fields() == p.st.job)
        && (stop && error.None? ==> p == Going(ScanState(Fields(), optional, required)))
        && (stop && error.Some? ==> p == Halted(p.st, error.value))
        && (!stop ==> 0 < e <= |rest| && p == Scan(rest[e..], ScanState(Fields(), optional, required)))
    {
      e := LineEnd(rest);
      var line := rest[..e];
      var p := ApplyLine(ScanState(Fields(), optional0, required0), line);
      ScanStep(rest, ScanState(Fields(), optional0, required0));
      SetFields(p.st.job);
      optional, required, error, stop := p.st.optional, p.st.required, None, true;
      if p.Halted? {
        error := Some(p.error);
        return;
      }
      if IsAnchor(line) {
        command := Some(rest[e..]);
        required := required[Workdir := Found("Found")][Command := Found(rest[e..])];
        assert ScanState(Fields(), optional, required) == AtAnchor(p.st, rest[e..]);
        return;
      }
      stop := false;
    }
  }

  /** `s += line + "\n"`, keeping track of the lines written so far. */
  method AddLine(s: string, ghost ls: seq<string>, line: string) returns (s': string, ghost ls': seq<string>)
    requires s == Unlines(ls)
    ensures ls' == ls + [line] && s' == Unlines(ls')
  {
    s' := s + line + "\n";
    ls' := ls + [line];
    UnlinesAppend(ls, [line]);
    assert Unlines([line]) == line + "\n" + Unlines([]);
  }

  /** The body of `qsub_string`: the script, built one line at a time. */
  method WriteScript(j: JobFields) returns (s: string)
    ensures s == QsubString(j)
  {
    ghost var ls: seq<string>;
    s, ls := AddLines("", [], HeadLines(j));
    s, ls := WriteOptions(s, ls, j);
    s, ls := WriteMail(s, ls, j);
    s, ls := WriteTail(s, ls, j);
    s, ls := AddLine(s, ls, "cd $PBS_O_WORKDIR");
    ScriptBlocks(j, ls);
    s := s + Show(j.command) + "\n";
  }

  /** `s += "...\n...\n"`: several lines in one append. */
  method AddLines(s: string, ghost ls: seq<string>, block: seq<string>) returns (s': string, ghost ls': seq<string>)
    requires s == Unlines(ls)
    ensures ls' == ls + block && s' == Unlines(ls')
  {
    s', ls' := s, ls;
    for i := 0 to |block|
      invariant ls' == ls + block[..i] && s' == Unlines(ls')
    {
      s', ls' := AddLine(s', ls', block[i]);
      assert block[..i + 1] == block[..i] + [block[i]];
    }
    assert block[..|block|] == block;
  }

  /** A directive written only when its attribute is not None. */
  method OptionalLines(s: string, ghost ls: seq<string>, prefix: string, v: Option<string>)
    returns (s': string, ghost ls': seq<string>)
    requires s == Unlines(ls)
    ensures ls' == ls + OptionalLine(prefix, v) && s' == Unlines(ls')
  {
    s', ls' := s, ls;
    if v.Some? {
      s', ls' := AddLine(s, ls, prefix + v.value);
    } else {
      assert ls + [] == ls;
    }
  }

  /** The `-M` and `-m` lines, written together when both attributes are set. */
  method WriteMail(s: string, ghost ls: seq<string>, j: JobFields) returns (s': string, ghost ls': seq<string>)
    requires s == Unlines(ls)
    ensures ls' == ls + MailLines(j) && s' == Unlines(ls')
  {
    s', ls' := s, ls;
    if j.email.Some? && j.message.Some? {
      s', ls' := AddLines(s, ls, ["#PBS -M " + j.email.value, "#PBS -m " + j.message.value]);
    } else {
      assert ls + [] == ls;
    }
  }

  /** From the execution time to the queue. */
  method WriteOptions(s: string, ghost ls: seq<string>, j: JobFields) returns (s': string, ghost ls': seq<string>)
    requires s == Unlines(ls)
    ensures ls' == ls + OptionalLine("#PBS -a ", j.exetime) + OptionalLine("#PBS -A ", j.account) + LimitLines(j)
                   + OptionalLine("#PBS -l pmem=", j.pmem) + QueueLines(j)
    ensures s' == Unlines(ls')
  {
    s', ls' := OptionalLines(s, ls, "#PBS -a ", j.exetime);
    s', ls' := OptionalLines(s', ls', "#PBS -A ", j.account);
    s', ls' := AddLines(s', ls', ["#PBS -l walltime=" + Show(j.walltime),
                                  "#PBS -l nodes=" + ShowInt(j.nodes) + ":ppn=" + ShowInt(j.ppn)]);
    s', ls' := OptionalLines(s', ls', "#PBS -l pmem=", j.pmem);
    s', ls' := AddLines(s', ls', ["#PBS -l qos=" + Show(j.queue), "#PBS -q " + Show(j.queue)]);
  }

  /** From `#PBS -V` to the blank line before `cd $PBS_O_WORKDIR`. */
  method WriteTail(s: string, ghost ls: seq<string>, j: JobFields) returns (s': string, ghost ls': seq<string>)
    requires s == Unlines(ls)
    ensures ls' == ls + TailLines(j) && s' == Unlines(ls')
  {
    s', ls' := AddLines(s, ls, ["#PBS -V", "#PBS -p " + j.priority, "", "#auto=" + ShowBool(j.auto), ""]);
    s', ls' := AddLines(s', ls', ["echo \"I ran on:\"", "cat $PBS_NODEFILE", ""]);
    assert ls' == ls + (["#PBS -V", "#PBS -p " + j.priority, "", "#auto=" + ShowBool(j.auto), ""]
                        + ["echo \"I ran on:\"", "cat $PBS_NODEFILE", ""]);
  }

  /** The blocks of lines in the order `qsub_string` writes them are the script's lines. */
  lemma ScriptBlocks(j: JobFields, ls: seq<string>)
    requires ls == [] + HeadLines(j) + OptionalLine("#PBS -a ", j.exetime) + OptionalLine("#PBS -A ", j.account)
                   + LimitLines(j) + OptionalLine("#PBS -l pmem=", j.pmem) + QueueLines(j)
                   + MailLines(j) + TailLines(j) + ["cd $PBS_O_WORKDIR"]
    ensures ls == ScriptLines(j)
  {
    Regroup(HeadLines(j), OptionalLine("#PBS -a ", j.exetime), OptionalLine("#PBS -A ", j.account), LimitLines(j),
            OptionalLine("#PBS -l pmem=", j.pmem), QueueLines(j), MailLines(j), TailLines(j), ["cd $PBS_O_WORKDIR"]);
  }

  /** Blocks appended one after the other are the first block followed by the rest, nested to the right. */
  lemma Regroup<T>(h: seq<T>, b1: seq<T>, b2: seq<T>, b3: seq<T>, b4: seq<T>, b5: seq<T>, b6: seq<T>, b7: seq<T>, c: seq<T>)
    ensures [] + h + b1 + b2 + b3 + b4 + b5 + b6 + b7 + c == h + (b1 + (b2 + (b3 + (b4 + (b5 + (b6 + b7)))))) + c
  {
    var l1 := h + b1;
    var l2 := l1 + b2;
    var l3 := l2 + b3;
    var l4 := l3 + b4;
    var l5 := l4 + b5;
    var l6 := l5 + b6;
    var t6 := b6 + b7;
    var t5 := b5 + t6;
    var t4 := b4 + t5;
    var t3 := b3 + t4;
    var t2 := b2 + t3;
    var t1 := b1 + t2;
    assert [] + h == h;
    assert l6 + b7 == l5 + t6;
    assert l5 + t6 == l4 + t5;
    assert l4 + t5 == l3 + t4;
    assert l3 + t4 == l2 + t3;
    assert l2 + t3 == l1 + t2;
    assert l1 + t2 == h + t1;
  }

  /** One turn of the loop of `read`, on the text not read yet. */
  lemma ScanStep(t: string, st: ScanState)
    requires t != []
    ensures var p := ApplyLine(st, t[..LineEnd(t)]);
      && (p.Halted? ==> Scan(t, st) == p)
      && (p.Going? && IsAnchor(t[..LineEnd(t)]) ==> Scan(t, st) == Going(AtAnchor(p.st, t[LineEnd(t)..])))
      && (p.Going? && !IsAnchor(t[..LineEnd(t)]) ==> Scan(t, st) == Scan(t[LineEnd(t)..], p.st))
  {
  }

  /** The check after the loop: look at the entries one key at a time, stopping at the first one
      that holds the text "Not Found". */
  method AllFound(required: map<Slot, Entry>) returns (ok: bool)
    ensures ok == CompleteAsWritten(required)
  {
    var keys := required.Keys;
    while keys != {}
      invariant keys <= required.Keys
      invariant forall k :: k in required && k !in keys ==> Shown(required[k]) != "Not Found"
      decreases keys
    {
      var k :| k in keys;
      if Shown(required[k]) == "Not Found" {
        return false;
      }
      keys := keys - {k};
    }
    return true;
  }
}
