# A model of the PBS `Job` class

The `pbs` package describes a batch job for a PBS/Torque cluster as a `Job`
object with fourteen attributes:
- the job name, account, node count, processors per node, walltime, memory per
  processor and queue;
- the execution time, the mail events, the mail recipients and the priority;
- the command to run, the `auto` flag and the job ID given at submission.

The object is turned into a submit script, and a submit script can be read back
into one. This project models the three operations that make up that core:

- the constructor `Job(...)`. It sets every attribute from its arguments or
  defaults. Given `qsubstr`, it builds the job by reading that script instead
  (`PbsJob.Job.constructor`, `PbsJob.Job.FromScript`).
- `qsub_string`. It writes the script: the interpreter line, the `#PBS`
  directives in a fixed order, and the `#auto=` marker. Then come the lines that
  report the node file, the change to `$PBS_O_WORKDIR`, and the command. The
  execution time, the account and the memory are written only when set. The mail
  recipients and the mail events are written only when both are set. The model
  is `Serializer.QsubString`, built up line by line by `PbsJob.WriteScript`.
- `read`, which scans a script line by line:
  - It first puts the optional attributes back to their defaults.
  - On every line it applies the attribute rules, each a regular expression. The
    `#PBS` rules run only on lines containing `#PBS`. The walltime, node-count and
    memory rules run only on lines with `-l` between whitespace. The `auto=` rule
    runs on every line.
  - It stops at the line `cd $PBS_O_WORKDIR` and keeps the rest of the text as
    the command.
  - It then checks that every required entry was found.

  `read` marks a missing entry with the text "Not Found", and the final check
  compares each entry with that text. `Parser.ReadAsWritten` is `read` with that
  comparison; it is carried out in place by `PbsJob.Job.Read`, whose `while`
  loop is in `PbsJob.Job.ReadLines`. `Parser.ReadSpec` is the same scan with the
  intended check, which tells a missing entry from any value found (see
  "Findings" below).

Modules:
- `Optional`: `Option`.
- `Text`: `readline` and the literal regular expressions `read` uses, each
  written out for its own pattern.
- `Decimal`: `int()` on a captured group, and `str.format` of an integer.
- `JobRecord`: the attributes as one value, and `str.format` of `None` and of
  booleans.
- `Serializer`: `qsub_string`.
- `Parser`: `read` as functions.
- `ReadFacts`, `ScanFacts` and `LineEffects`: what `read` does with scripts and
  with the lines `qsub_string` writes.
- `RoundTrip`: writing and then reading.
- `Sentinel`: the "Not Found" finding below.
- `PbsJob`: the `Job` class and the imperative methods.

With the intended check (`Parser.ReadSpec`), reading a script back gives the
job back (`RoundTrip.WriteThenRead`) when every written value is one the rules
capture whole (`RoundTrip.Writable`). The exceptions are the following:
- With the check as the code writes it (`Parser.ReadAsWritten`), a job whose
  name, walltime or queue is the text "Not Found" reads back with the same
  attributes but is rejected (`Sentinel.WriteThenReadAsWritten`,
  `Sentinel.SentinelName`); see "## Findings".
- The walltime, the queue and the command come back as the text they were
  written as (`None` becomes the string `"None"`), and the command gains the
  newline `qsub_string` puts after it.
- The mail recipients, the mail events and the priority are never read back.
  Their rules use `re.match`, which is anchored at the start of the line, and
  every line `qsub_string` writes for them starts with `#PBS`. So those rules
  never fire on them, and `read` leaves its defaults: no mail recipients, mail
  events "a", priority "0". The docstring at `pbs/job.py:187` says these
  directives are read. The model follows the code.
- `auto` is decided by the first character of what follows `auto=`. `f`, `F`
  and `0` give False; `t`, `T` and `1` give True; anything else is an error. It
  is not decided by matching the whole word `true` or `false`. Here too the
  model follows the code.

## Model

| member | source | states |
|---|---|---|
| PbsJob.Job.constructor | pbs/job.py:31-114 | every attribute holds its argument or its default (name "STDIN", mail events "a", priority "0", `auto` false, everything else None), and the job ID is None |
| PbsJob.Job.FromScript | pbs/job.py:46-49 | `Job(qsubstr=text)` is a fresh job whose attributes and outcome are exactly those `read` gives the script, with the check comparing entries with "Not Found" (`Parser.ReadAsWritten`) |
| PbsJob.Job.QsubString | pbs/job.py:118-145 | the method returns the script the job's current attributes are written as |
| PbsJob.WriteScript | pbs/job.py:121-143 | appending the lines one after another, with a newline after each and the command last, yields `Serializer.QsubString` |
| PbsJob.Job.Read | pbs/job.py:182-318 | the new attributes and the outcome of `read` (success, or the error that ends it) are those of `Parser.ReadAsWritten` on the old attributes: the scan, then the comparison of every required entry with "Not Found" |
| PbsJob.Job.ResetOptional | pbs/job.py:194-200 | memory, mail recipients, execution time and account become None, mail events "a", priority "0", `auto` false; the other attributes are unchanged |
| PbsJob.Job.ReadLines | pbs/job.py:220-300 | the loop leaves the attributes, the two dictionaries and the error exactly as the scan over the whole text does, stopping at the first error or at `cd $PBS_O_WORKDIR` |
| PbsJob.Job.ReadLine | pbs/job.py:221-299 | one turn of the loop reads the next line. If the scan stops there, the turn leaves the scan's final state (or its error) and, after the `cd` line, the rest of the text as the command. Otherwise it leaves the state from which the scan of the remaining text gives the same result |
| PbsJob.AllFound | pbs/job.py:302-304 | the check succeeds exactly when no entry of `required` shows the text "Not Found" |
| Parser.Reset | pbs/job.py:194-218 | the optional attributes take their defaults and the others are kept; every entry of `required` starts missing |
| Parser.ResetDictionaries | pbs/job.py:202-218 | `optional` holds exactly its seven keys with their "Default: ..." texts (`a` for the mail option, `0` for the priority, `False` for auto, `None` for the rest), and `required` exactly its seven keys, each missing |
| Parser.Capture | pbs/job.py:226-279 | a rule matches only on a line containing its token, and the `re.match` rules only on a line beginning with it |
| Parser.Assign | pbs/job.py:228-278 | a matching rule sets its own attribute to the captured group, records it in `required` (name, walltime, queue) or in `optional` (the others), and changes nothing else |
| Text.LineEnd | pbs/job.py:221 | `readline` returns the text up to and including the first newline, or all of it when there is none |
| Text.Search | pbs/job.py:226 | `re.search` finds a group only where its token occurs |
| Text.Match | pbs/job.py:266 | `re.match` finds a group only when its token begins the line |
| Text.NodesPpn | pbs/job.py:248 | the node-count rule matches only a line containing `nodes=` |
| Text.SearchFirst | pbs/job.py:226 | `re.search` takes the first occurrence of the token after which the pattern matches |
| Decimal.ParseShowInt | pbs/job.py:250-251 | `int()` of an integer written by `str.format` gives that integer back, negative ones included |
| Decimal.ParseSpacedSign | pbs/job.py:250-251 | `int()` skips whitespace between the sign and the digits: `-`, spaces, digits reads as the negated digits |
| Decimal.ParseBareSign | pbs/job.py:250-251 | `int()` rejects a sign followed only by whitespace |
| JobRecord.ShowBool | pbs/job.py:139 | `str.format` writes `auto` as `True` or `False`, and its first letter tells which |
| Serializer.ScriptFrame | pbs/job.py:121-143 | the script opens with `#!/bin/sh`, the shell directive and the job name, and ends with `cd $PBS_O_WORKDIR` and then the command on a line of its own |
| Serializer.OptionalDirectives | pbs/job.py:124-131 | `-a`, `-A` and `-l pmem=` each appear exactly once, with the attribute's value, when the attribute is set, and never when it is None |
| Serializer.MailPair | pbs/job.py:134-136 | `-M` and `-m` each appear once when the mail recipients and the mail events are both set, and neither appears otherwise |
| Serializer.ConditionalDirectives | pbs/job.py:124-136 | the lines written under a condition are found only in their own block; no unconditional line begins with a conditional prefix |
| Serializer.FixedOrder | pbs/job.py:121-143 | the lines written whatever the attributes are appear in the order the code writes them |
| LineEffects.CountsLine | pbs/job.py:248-253 | the line `#PBS -l nodes=<n>:ppn=<p>` sets both counts to the integers written, records both as found, and changes nothing else |
| LineEffects.OptionLine | pbs/job.py:226-264 | a written `-N`, `-a`, `-A` or `-q` directive sets exactly its attribute to the value written |
| LineEffects.ResourceLine | pbs/job.py:241-258 | a written `-l walltime=` or `-l pmem=` directive sets exactly its attribute to the value written |
| LineEffects.QosLine | pbs/job.py:224-279 | the `-l qos=` line that `qsub_string` writes changes nothing when read |
| LineEffects.AutoLine | pbs/job.py:282-289 | the `#auto=True` or `#auto=False` line sets `auto` to the value written |
| LineEffects.WorkdirLine | pbs/job.py:294-299 | `cd $PBS_O_WORKDIR` is the line that ends the scan, and no rule changes anything on it |
| ScanFacts.ScanPlain | pbs/job.py:220-292 | lines before the `cd` line are read one after the other, and an error on one of them ends the scan whatever follows |
| ScanFacts.StopsAtAnchor | pbs/job.py:294-299 | the scan stops at the first `cd $PBS_O_WORKDIR` line, and the command is exactly the text after it |
| ScanFacts.AfterAnchorIgnored | pbs/job.py:294-299 | whatever text follows the `cd` line, the attributes other than the command are the same, and so is the verdict of the intended check (`Parser.ReadSpec`) |
| ScanFacts.LastLineWins | pbs/job.py:226-279 | once a line sets an attribute, later lines on which that attribute's rule does not take effect (no `#PBS`, no match, or no `-l` for walltime and memory) leave the value that line set |
| ScanFacts.ScriptLastLineWins | pbs/job.py:220-300 | in a whole script, the last line before `cd $PBS_O_WORKDIR` on which an attribute's rule takes effect decides the attribute `read` leaves |
| ScanFacts.LastCountsWin | pbs/job.py:241-253 | the last `#PBS` line with `-l` and `nodes=...:ppn=...` decides both counts, as `int()` reads its two groups |
| ScanFacts.ScriptLastCountsWin | pbs/job.py:220-300 | in a whole script, the last such line before the `cd` line decides the counts `read` leaves |
| ScanFacts.LastAutoWins | pbs/job.py:282-289 | the last line with `auto=`, `#PBS` or not, decides `auto`: true exactly when its value starts with t, T or 1 |
| ScanFacts.ScriptLastAutoWins | pbs/job.py:220-300 | in a whole script, the last line with `auto=` before the `cd` line decides the `auto` that `read` leaves |
| ScanFacts.BadAutoStops | pbs/job.py:282-292 | an `auto=` value starting with none of f, F, 0, t, T, 1 ends `read` with that error on that line, whatever follows, on a `#PBS` line as on any other, under either check |
| ReadFacts.ScanFrame | pbs/job.py:220-300 | an attribute whose token the text lacks is left as it was, required entries never disappear, and the job ID is never touched |
| ReadFacts.ReadDefaults | pbs/job.py:194-209 | an optional directive whose token occurs nowhere in the script leaves its default (no account, execution time, memory or mail recipients; mail events "a"; priority "0"; `auto` false) |
| ReadFacts.ReadNeedsRequired | pbs/job.py:302-316 | `read` succeeds only if the script contains `-N`, `walltime=`, `nodes=`, `-q` and `$PBS_O_WORKDIR` |
| ReadFacts.ScanStopsOnValue | pbs/job.py:220-300 | the scan stops early only on a bad `auto=` value or a count `int()` rejects |
| ScanFacts.LineKeepsEntry | pbs/job.py:224-292 | a line on which the rule of a required directive (name, walltime, queue, or the node and processor counts) does not take effect leaves that entry of `required` as it was |
| ScanFacts.ScriptMissingEntry | pbs/job.py:220-316 | a required directive whose rule takes effect on no line up to and including `cd $PBS_O_WORKDIR` makes `read` fail under either check, with that entry reported not found |
| ScanFacts.ScriptKeepsDefault | pbs/job.py:187-300 | a directive whose rule takes effect on no line up to and including `cd $PBS_O_WORKDIR` leaves the attribute where `read` set it before the scan, the default for an optional one, under either check: a token only in the command, a `#PBS -M` line (never read by the anchored match) or a `-A` with no value changes nothing |
| ScanFacts.ScriptKeepsAuto | pbs/job.py:187-292 | a script with no `auto=` up to and including `cd $PBS_O_WORKDIR` leaves `auto` false, under either check, whatever the command holds |
| ReadFacts.ReadWithoutAnchor | pbs/job.py:294-316 | without a `cd $PBS_O_WORKDIR` line `read` never gives a job: under either check it fails, and when the failure is the final check both the `cd` entry and the command are reported not found |
| RoundTrip.WriteThenRead | pbs/job.py:182-318 | reading the script `qsub_string` writes for a job with writable values succeeds and gives back the job, with the exceptions listed above |
| Sentinel.CompleteAsWrittenExactly | pbs/job.py:303-304 | comparing with "Not Found" accepts exactly the complete dictionaries in which no value found is "Not Found" |
| Sentinel.AsWrittenOnlyRejectsMore | pbs/job.py:302-316 | the check as written leaves the same attributes as the intended one, and it succeeds only where the intended one does |
| Sentinel.CommandNotFound | pbs/job.py:294-304 | as written, a command that is exactly "Not Found" fails the check, whatever else was found |
| Sentinel.WriteThenReadAsWritten | pbs/job.py:182-318 | reading back what `qsub_string` writes, with the check as written, gives the same job as the intended check, and succeeds exactly when neither the name, the walltime nor the queue is written as "Not Found"; otherwise it reports missing entries |
| Sentinel.SentinelName | pbs/job.py:211-229 | a job named "Not Found" is read back by the intended check, but the check as written rejects its script |
| Sentinel.SentinelCommand | pbs/job.py:294-304 | a script as `qsub_string` writes it, with the text after `cd $PBS_O_WORKDIR` exactly "Not Found", is accepted by the intended check and rejected by the check as written |
| Sentinel.SentinelJob | pbs/job.py:294-304 | a concrete writable job named `run` for which that script exists |

## Left out

- `script` and `submit` write a file, run `qsub`, and add a row to the job database. Files, processes and the database are not part of this model.
- The messages `read` prints are not modelled. The error outcome carries what they report: the line with the bad `auto=` value, or both dictionaries when a required entry is missing.
- `sys.exit()`: `sys` is never imported, so the call raises NameError instead of exiting. Either way `read` does not return normally. The model returns a failed outcome carrying the error.
- A script without a `cd $PBS_O_WORKDIR` line: `read` loops forever on the empty strings `readline` returns at the end of the text. The model stops at the end of the text, and the check then reports the missing entries (`ReadFacts.ReadWithoutAnchor`); in both, no job comes out.
- The constructor's `int(nodes)` and `int(ppn)`: the model takes the counts as integers. The `TypeError` that `int(None)` raises when they are omitted is not modelled.
- The constructor's `bool(auto)`: the model takes `auto` as a boolean.
- A job built from a script: it has no attribute that `read` does not set, and reading such an attribute raises `AttributeError`. The model gives those attributes placeholder values (`PbsJob.Unset`).
- `required["nodes"]` and `required["ppn"]` hold integers, and `optional["auto"]` holds a boolean. The model records them as their decimal text and as `True`/`False`. This does not change any comparison with "Not Found".
- The order in which the check and the report visit dictionary keys: `PbsJob.AllFound` takes the keys in any order. Its verdict does not depend on the order.
- General regular expressions: only the patterns `read` uses are modelled, each as its own string function on Python 2 byte strings.
- `int()` beyond ASCII digits, an optional sign, and Python whitespace around the number and after the sign is not modelled. Underscores and other numeral forms are not accepted.
- RoundTrip.WriteThenRead: proved only for jobs whose written values the rules capture whole (`RoundTrip.Writable`: no newline, `=` or `$`, no dash before an option letter, and no leading whitespace where the rule skips it). It does not state what `read` makes of other values.
- ScanFacts.AfterAnchorIgnored: states that the verdicts of the intended check agree. As written the command can change the verdict (`Sentinel.CommandNotFound`). It does not state that the reports of missing entries agree, because the command is part of the report.

## Findings

| source | as written | input that shows it | evidently intended | confidence | as-written member | corrected member |
|---|---|---|---|---|---|---|
| pbs/job.py:211-218, 294-304 | a required entry is marked missing with the text "Not Found", and an entry counts as missing when it equals that text | the script `qsub_string` writes for the job `run` of `Sentinel.SentinelJob`, with the text after `cd $PBS_O_WORKDIR` being exactly `Not Found`: `read` reports the command as missing. A job named `Not Found` shows it too (`Sentinel.SentinelName`), though the comment at `pbs/job.py:50-52` rules out whitespace in names | an entry counts as missing only when no directive set it, whatever the value found | not executed | Sentinel.SentinelCommand | RoundTrip.WriteThenRead |
