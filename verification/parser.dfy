/**
  What `Job.read` computes, as functions: the state it carries from line to line
  (the job's attributes and the `optional` and `required` dictionaries), the rules
  it applies to each line, the scan that stops at `cd $PBS_O_WORKDIR`, and the
  final check that every required attribute was found, both as the code writes it
  (`ReadAsWritten`, which compares each entry with the text "Not Found") and as it is
  evidently meant (`ReadSpec`, which tells a missing entry from every value found).
*/
module Parser {
  import opened Optional
  import opened Text
  import opened Decimal
  import opened JobRecord

  /** A value of the `required` dictionary: still missing, or found (with the value it was found as, written out). */
  datatype Entry = NotFound | Found(shown: string)

  /** The attributes a rule of the form `<token>\s+(.*)\s` or `<token>(.*)\s` captures. */
  datatype Field = Name | Account | Exetime | Walltime | Pmem | Queue | Email | Message | Priority

  /** The keys of the `optional` and `required` dictionaries: an attribute a capturing rule sets,
      the node and processor counts, `auto`, the `cd $PBS_O_WORKDIR` line and the command. */
  datatype Slot = Attr(field: Field) | Nodes | Ppn | Auto | Workdir | Command

  /** Everything `read` updates while it scans. */
  datatype ScanState = ScanState(job: JobFields, optional: map<Slot, string>, required: map<Slot, Entry>)

  /** Why `read` produces no job. */
  datatype ReadError =
    | MissingRequired(optional: map<Slot, string>, required: map<Slot, Entry>)  // the report printed before exiting
    | BadAuto(line: string)    // an `auto=` value that is neither false nor true
    | BadCount(text: string)   // a node or processor count `int()` rejects

  datatype Outcome = Succeeded | Failed(error: ReadError)

  /** The scan either goes on with a state, or has stopped on an error (with the attributes set so far). */
  datatype Progress = Going(st: ScanState) | Halted(st: ScanState, error: ReadError)

  /** The job's attributes when `read` returns, and whether it succeeded. */
  datatype ReadResult = ReadResult(job: JobFields, outcome: Outcome)

  // ---------------------------------------------------------------------------
  // The state before the first line

  /** The `optional` dictionary as `read` first fills it. */
  const InitialOptional: map<Slot, string> := map[
    Attr(Account) := "Default: None", Attr(Pmem) := "Default: None", Attr(Email) := "Default: None",
    Attr(Message) := "Default: a", Attr(Priority) := "Default: 0", Auto := "Default: False",
    Attr(Exetime) := "Default: None"]

  /** The `required` dictionary as `read` first fills it: every entry missing. */
  const InitialRequired: map<Slot, Entry> := map[
    Attr(Name) := NotFound, Attr(Walltime) := NotFound, Nodes := NotFound, Ppn := NotFound,
    Attr(Queue) := NotFound, Workdir := NotFound, Command := NotFound]

  /** The optional attributes put back to their defaults; the others keep what the job had. */
  function Reset(init: JobFields): (st: ScanState)
    ensures st.job.account.None? && st.job.exetime.None? && st.job.pmem.None? && st.job.email.None?
    ensures st.job.message == Some("a") && st.job.priority == "0" && !st.job.auto
    ensures st.job.name == init.name && st.job.nodes == init.nodes && st.job.ppn == init.ppn
    ensures st.job.walltime == init.walltime && st.job.queue == init.queue
    ensures st.job.command == init.command && st.job.jobID == init.jobID
    ensures forall k :: k in st.required ==> st.required[k].NotFound?
  {
    var j := init.(pmem := None, email := None, message := Some("a"), priority := "0",
                   auto := false, account := None, exetime := None);
    ScanState(j, InitialOptional, InitialRequired)
  }

  /** The two dictionaries `read` starts from: `required` has exactly its seven keys, each
      missing, and `optional` exactly its seven keys, each with its "Default: ..." text. */
  lemma ResetDictionaries(init: JobFields)
    ensures Reset(init).required.Keys == {Attr(Name), Attr(Walltime), Nodes, Ppn, Attr(Queue), Workdir, Command}
    ensures forall k :: k in Reset(init).required ==> Reset(init).required[k].NotFound?
    ensures Reset(init).optional.Keys
         == {Attr(Account), Attr(Pmem), Attr(Email), Attr(Message), Attr(Priority), Auto, Attr(Exetime)}
    ensures Reset(init).optional[Attr(Message)] == "Default: a" && Reset(init).optional[Attr(Priority)] == "Default: 0"
    ensures Reset(init).optional[Auto] == "Default: False"
    ensures forall k :: k in Reset(init).optional && k != Attr(Message) && k != Attr(Priority) && k != Auto ==>
      Reset(init).optional[k] == "Default: None"
  {
  }

  // ---------------------------------------------------------------------------
  // The rules that capture one attribute each

  /** The text of a dictionary key, as the report prints it. */
  function Key(k: Slot): string {
    match k
    case Attr(f) =>
      (match f
       case Name => "name"
       case Account => "account"
       case Exetime => "exetime"
       case Walltime => "walltime"
       case Pmem => "pmem"
       case Queue => "queue"
       case Email => "email"
       case Message => "message"
       case Priority => "priority")
    case Nodes => "nodes"
    case Ppn => "ppn"
    case Auto => "auto"
    case Workdir => "cd $PBS_O_WORKDIR"
    case Command => "command"
  }

  predicate IsRequired(f: Field) {
    f == Name || f == Walltime || f == Queue
  }

  /** The literal text each rule's pattern starts with. */
  function Token(f: Field): string {
    match f
    case Name => "-N"
    case Account => "-A"
    case Exetime => "-a"
    case Walltime => "walltime="
    case Pmem => "pmem="
    case Queue => "-q"
    case Email => "-M"
    case Message => "-m"
    case Priority => "-p"
  }

  /** The `-M`, `-m` and `-p` rules use `re.match`, which only matches at the very start of the line;
      the others use `re.search`. */
  predicate Anchored(f: Field) {
    f == Email || f == Message || f == Priority
  }

  /** `walltime=(.*)\s` and `pmem=(.*)\s` have no whitespace between the token and the group. */
  function LeadOf(f: Field): Lead {
    if f == Walltime || f == Pmem then Direct else Spaces(1)
  }

  /** The attribute's value, as a string or None. */
  function Value(f: Field, j: JobFields): Option<string> {
    match f
    case Name => Some(j.name)
    case Account => j.account
    case Exetime => j.exetime
    case Walltime => j.walltime
    case Pmem => j.pmem
    case Queue => j.queue
    case Email => j.email
    case Message => j.message
    case Priority => Some(j.priority)
  }

  /** The group the rule for `f` captures on `line`, if its pattern matches. */
  function Capture(f: Field, line: string): (r: Option<string>)
    ensures r.Some? ==> Occurs(line, Token(f))
    ensures r.Some? && Anchored(f) ==> StartsAt(line, 0, Token(f))
  {
    if Anchored(f) then
      var r := Match(line, Token(f), LeadOf(f));
      assert r.Some? ==> StartsAt(line, 0, Token(f));
      r
    else Search(line, Token(f), LeadOf(f))
  }

  /** `self.<f> = v` and the matching dictionary entry. */
  function Assign(f: Field, st: ScanState, v: string): (r: ScanState)
    ensures Value(f, r.job) == Some(v)
    ensures forall g :: g != f ==> Value(g, r.job) == Value(g, st.job)
    ensures r.job.nodes == st.job.nodes && r.job.ppn == st.job.ppn && r.job.auto == st.job.auto
    ensures r.job.command == st.job.command && r.job.jobID == st.job.jobID
    ensures IsRequired(f) ==> r.required == st.required[Attr(f) := Found(v)] && r.optional == st.optional
    ensures !IsRequired(f) ==> r.optional == st.optional[Attr(f) := v] && r.required == st.required
  {
    var j := st.job;
    var j' := match f
      case Name => j.(name := v)
      case Account => j.(account := Some(v))
      case Exetime => j.(exetime := Some(v))
      case Walltime => j.(walltime := Some(v))
      case Pmem => j.(pmem := Some(v))
      case Queue => j.(queue := Some(v))
      case Email => j.(email := Some(v))
      case Message => j.(message := Some(v))
      case Priority => j.(priority := v);
    if IsRequired(f) then st.(job := j', required := st.required[Attr(f) := Found(v)])
    else st.(job := j', optional := st.optional[Attr(f) := v])
  }

  /** One capturing rule: when its pattern matches the line, the attribute takes the captured group. */
  function Rule(f: Field, st: ScanState, line: string): ScanState {
    match Capture(f, line)
    case Some(v) => Assign(f, st, v)
    case None => st
  }

  /** `nodes=(.*):ppn=(.*)\s`: both groups go through `int()`; `nodes` is set before the second
      conversion is attempted, and a conversion that fails stops the scan. */
  function NodesRule(st: ScanState, line: string): Progress {
    match NodesPpn(line)
    case None => Going(st)
    case Some((g1, g2)) =>
      match ParseInt(g1)
      case None => Halted(st, BadCount(g1))
      case Some(n) =>
        var st1 := st.(job := st.job.(nodes := n));
        match ParseInt(g2)
        case None => Halted(st1, BadCount(g2))
        case Some(p) =>
          Going(st1.(job := st1.job.(ppn := p),
                     required := st1.required[Nodes := Found(ShowInt(n))][Ppn := Found(ShowInt(p))]))
  }

  /** The rules that run when the line has `-l` between whitespace: walltime, node counts, memory. */
  function ResourceRules(st: ScanState, line: string): Progress {
    match NodesRule(Rule(Walltime, st, line), line)
    case Halted(s, err) => Halted(s, err)
    case Going(s) => Going(Rule(Pmem, s, line))
  }

  /** The rules that run on a line containing `#PBS`, in the order `read` applies them. */
  function PbsRules(st: ScanState, line: string): Progress {
    var st1 := Rule(Exetime, Rule(Account, Rule(Name, st, line), line), line);
    var p := if HasResourceFlag(line) then ResourceRules(st1, line) else Going(st1);
    match p
    case Halted(s, err) => Halted(s, err)
    case Going(s) => Going(Rule(Priority, Rule(Message, Rule(Email, Rule(Queue, s, line), line), line), line))
  }

  /** `auto=\s*(.*)\s`, on every line: the first character of the group decides. */
  function AutoRule(st: ScanState, line: string): Progress {
    match Search(line, "auto=", Spaces(0))
    case None => Going(st)
    case Some(v) =>
      if v != [] && (v[0] == 'f' || v[0] == 'F' || v[0] == '0') then
        Going(st.(job := st.job.(auto := false), optional := st.optional[Auto := "False"]))
      else if v != [] && (v[0] == 't' || v[0] == 'T' || v[0] == '1') then
        Going(st.(job := st.job.(auto := true), optional := st.optional[Auto := "True"]))
      else
        Halted(st, BadAuto(line))
  }

  /** Every rule but the last one `read` applies to a line. */
  function ApplyLine(st: ScanState, line: string): Progress {
    var p := if HasPbs(line) then PbsRules(st, line) else Going(st);
    match p
    case Halted(s, err) => Halted(s, err)
    case Going(s) => AutoRule(s, line)
  }

  /** The line `cd $PBS_O_WORKDIR`: everything after it is the command. */
  function AtAnchor(st: ScanState, rest: string): ScanState {
    st.(job := st.job.(command := Some(rest)),
        required := st.required[Workdir := Found("Found")][Command := Found(rest)])
  }

  /** The `while True` loop of `read` over the unread text `t`. The loop ends at the first line that
      matches `cd\s+\$PBS_O_WORKDIR\s+`; at the end of the text, where `readline` returns nothing
      but empty strings, the scan stops with what it has. */
  function Scan(t: string, st: ScanState): Progress
    decreases |t|
  {
    if t == [] then Going(st)
    else
      var e := LineEnd(t);
      var line := t[..e];
      match ApplyLine(st, line)
      case Halted(s, err) => Halted(s, err)
      case Going(s) => if IsAnchor(line) then Going(AtAnchor(s, t[e..])) else Scan(t[e..], s)
  }

  /** Every required entry has been found. */
  predicate Complete(required: map<Slot, Entry>) {
    forall k :: k in required ==> required[k].Found?
  }

  /** The check after the loop. */
  function Conclude(p: Progress): ReadResult {
    match p
    case Halted(st, err) => ReadResult(st.job, Failed(err))
    case Going(st) =>
      if Complete(st.required) then ReadResult(st.job, Succeeded)
      else ReadResult(st.job, Failed(MissingRequired(st.optional, st.required)))
  }

  /** `job.read(text)` on a job whose attributes were `init`, with an entry counted as missing
      exactly when no rule set it. */
  function ReadSpec(init: JobFields, text: string): ReadResult {
    Conclude(Scan(text, Reset(init)))
  }

  // ---------------------------------------------------------------------------
  // The check as the code writes it: an entry is missing when it holds the text "Not Found"

  /** What the `required` dictionary holds for an entry: the placeholder, or the value found. */
  function Shown(e: Entry): string {
    match e
    case NotFound => "Not Found"
    case Found(v) => v
  }

  /** No entry of the dictionary holds the text "Not Found". */
  predicate CompleteAsWritten(required: map<Slot, Entry>) {
    forall k :: k in required ==> Shown(required[k]) != "Not Found"
  }

  /** The check after the loop, comparing with the placeholder text. */
  function ConcludeAsWritten(p: Progress): ReadResult {
    match p
    case Halted(st, err) => ReadResult(st.job, Failed(err))
    case Going(st) =>
      if CompleteAsWritten(st.required) then ReadResult(st.job, Succeeded)
      else ReadResult(st.job, Failed(MissingRequired(st.optional, st.required)))
  }

  /** `job.read(text)` with the check as the code writes it. */
  function ReadAsWritten(init: JobFields, text: string): ReadResult {
    ConcludeAsWritten(Scan(text, Reset(init)))
  }
}
