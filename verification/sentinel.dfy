/**
  `read` marks a required entry as missing by storing the text "Not Found" in it, and
  decides that an entry is missing by comparing it with that text. A value that is
  literally "Not Found" is therefore taken for a missing one. `Parser.ReadAsWritten` is
  that check, the one `PbsJob.Job.Read` carries out; `Parser.ReadSpec`, which keeps
  "missing" apart from every found value, is the intended one.
*/
module Sentinel {
  import opened Optional
  import opened Decimal
  import opened JobRecord
  import opened Serializer
  import opened Parser
  import opened LineEffects
  import opened RoundTrip

  /** The two checks agree except on an entry found with the value "Not Found". */
  lemma CompleteAsWrittenExactly(required: map<Slot, Entry>)
    ensures CompleteAsWritten(required)
        <==> Complete(required) && forall k :: k in required ==> required[k] != Found("Not Found")
  {
  }

  /** The attributes are the same under both checks; only the verdict can differ, and only by
      the check as written failing where the intended one succeeds. */
  lemma AsWrittenOnlyRejectsMore(init: JobFields, text: string)
    ensures ReadAsWritten(init, text).job == ReadSpec(init, text).job
    ensures ReadAsWritten(init, text).outcome.Succeeded? ==> ReadSpec(init, text).outcome.Succeeded?
  {
    var p := Scan(text, Reset(init));
    if p.Going? {
      CompleteAsWrittenExactly(p.st.required);
    }
  }

  /** As written, a command that is exactly the text "Not Found" makes `read` fail, whatever else
      the script sets: the verdict depends on the text after the `cd` line. */
  lemma CommandNotFound(s: ScanState)
    ensures !CompleteAsWritten(AtAnchor(s, "Not Found").required)
  {
    var r := AtAnchor(s, "Not Found").required;
    assert Command in r && Shown(r[Command]) == "Not Found";
  }

  /** The dictionary `read` leaves after a written script passes the check as written exactly when
      none of the values found is the text "Not Found". */
  lemma FilledAsWritten(a: string, b: string, c: string, d: string, e: string, f: string, g: string)
    ensures CompleteAsWritten(InitialRequired[Attr(Name) := Found(a)][Attr(Walltime) := Found(b)][Nodes := Found(c)]
                                [Ppn := Found(d)][Attr(Queue) := Found(e)][Workdir := Found(f)][Command := Found(g)])
        <==> a != "Not Found" && b != "Not Found" && c != "Not Found" && d != "Not Found" && e != "Not Found"
             && f != "Not Found" && g != "Not Found"
  {
    var r := InitialRequired[Attr(Name) := Found(a)][Attr(Walltime) := Found(b)][Nodes := Found(c)]
               [Ppn := Found(d)][Attr(Queue) := Found(e)][Workdir := Found(f)][Command := Found(g)];
    assert Shown(r[Attr(Name)]) == a && Shown(r[Attr(Walltime)]) == b && Shown(r[Nodes]) == c;
    assert Shown(r[Ppn]) == d && Shown(r[Attr(Queue)]) == e && Shown(r[Workdir]) == f && Shown(r[Command]) == g;
  }

  /** Text that is not "Not Found": the decimal text of an integer, the placeholder "Found" and
      anything ending in a newline. */
  lemma NotSentinel(n: int, c: string)
    ensures ShowInt(n) != "Not Found"
    ensures "Found" != "Not Found"
    ensures c + "\n" != "Not Found"
  {
    var s := ShowInt(n);
    assert s[0] != "Not Found"[0];
    assert (c + "\n")[|c|] != "Not Found"[|"Not Found"| - 1];
  }

  /** Reading back what `qsub_string` writes, with the check as the code writes it: the attributes
      come back as with the intended check, and the read succeeds exactly when neither the name,
      the walltime nor the queue is written as the text "Not Found"; otherwise it reports missing
      entries. */
  lemma WriteThenReadAsWritten(init: JobFields, j: JobFields)
    requires Writable(j)
    ensures ReadAsWritten(init, QsubString(j)).job == ReadBack(j, init)
    ensures ReadAsWritten(init, QsubString(j)).outcome.Succeeded?
        <==> j.name != "Not Found" && Show(j.walltime) != "Not Found" && Show(j.queue) != "Not Found"
    ensures ReadAsWritten(init, QsubString(j)).outcome.Failed? ==>
      ReadAsWritten(init, QsubString(j)).outcome.error.MissingRequired?
  {
    var cmd := Show(j.command) + "\n";
    ScriptScan(j, Reset(init));
    AfterScriptJob(j, init);
    AfterScriptRequired(j, init, cmd);
    NotSentinel(j.nodes, Show(j.command));
    NotSentinel(j.ppn, Show(j.command));
    FilledAsWritten(j.name, Show(j.walltime), ShowInt(j.nodes), ShowInt(j.ppn), Show(j.queue), "Found", cmd);
  }

  /** A job named "Not Found": `read` rejects the script `qsub_string` writes for it, saying the
      name is missing, while the intended check reads the job back. */
  lemma SentinelName(init: JobFields, j: JobFields)
    requires Writable(j) && j.name == "Not Found"
    ensures ReadSpec(init, QsubString(j)).outcome == Succeeded
    ensures ReadAsWritten(init, QsubString(j)).outcome.Failed?
  {
    WriteThenRead(init, j);
    WriteThenReadAsWritten(init, j);
  }

  /** A script as `qsub_string` writes it whose text after `cd $PBS_O_WORKDIR` is exactly "Not Found":
      the intended check accepts it, while `read` reports the command as missing. */
  lemma SentinelCommand(init: JobFields, j: JobFields)
    requires Writable(j)
    ensures ReadSpec(init, Unlines(ScriptLines(j)) + "Not Found").outcome == Succeeded
    ensures ReadAsWritten(init, Unlines(ScriptLines(j)) + "Not Found").outcome.Failed?
  {
    var s := AfterBody(j, Assign(Name, Reset(init), j.name));
    ScriptLinesScan(j, "Not Found", Reset(init));
    AfterScriptComplete(j, init, "Not Found");
    CommandNotFound(s);
  }

  /** Such a script exists, for a job whose values are all plain. */
  lemma SentinelJob()
    ensures var j := JobFields("run", None, 1, 16, Some("1:00:00"), None, Some("flux"), None,
                               Some("a"), None, "0", Some("true"), false, None);
      && Writable(j)
      && ReadSpec(j, Unlines(ScriptLines(j)) + "Not Found").outcome == Succeeded
      && ReadAsWritten(j, Unlines(ScriptLines(j)) + "Not Found").outcome.Failed?
  {
    var j := JobFields("run", None, 1, 16, Some("1:00:00"), None, Some("flux"), None,
                       Some("a"), None, "0", Some("true"), false, None);
    var n := "run";
    assert forall i :: 0 <= i < |n| ==> n[i] != '-' && n[i] != '=' && n[i] != '$' && n[i] != '\n';
    var w := "1:00:00";
    assert forall i :: 0 <= i < |w| ==> w[i] != '-' && w[i] != '=' && w[i] != '$' && w[i] != '\n';
    var q := "flux";
    assert forall i :: 0 <= i < |q| ==> q[i] != '-' && q[i] != '=' && q[i] != '$' && q[i] != '\n';
    assert Writable(j);
    SentinelCommand(j, j);
  }
}
