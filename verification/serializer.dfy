/**
  `Job.qsub_string`: the submit script a job is written as. The script is built
  line by line; `ScriptLines` lists the lines without their newlines and
  `QsubString` joins them, one newline after each, then appends the command.
*/
module Serializer {
  import opened Optional
  import opened Decimal
  import opened JobRecord

  /** The directive written only when its attribute is not None. */
  function OptionalLine(prefix: string, v: Option<string>): seq<string> {
    if v.Some? then [prefix + v.value] else []
  }

  /** The mail recipients and the mail events, written as a pair or not at all. */
  function MailLines(j: JobFields): seq<string> {
    if j.email.Some? && j.message.Some? then ["#PBS -M " + j.email.value, "#PBS -m " + j.message.value] else []
  }

  function HeadLines(j: JobFields): seq<string> {
    ["#!/bin/sh", "#PBS -S /bin/sh", "#PBS -N " + j.name]
  }

  function LimitLines(j: JobFields): seq<string> {
    ["#PBS -l walltime=" + Show(j.walltime), "#PBS -l nodes=" + ShowInt(j.nodes) + ":ppn=" + ShowInt(j.ppn)]
  }

  function QueueLines(j: JobFields): seq<string> {
    ["#PBS -l qos=" + Show(j.queue), "#PBS -q " + Show(j.queue)]
  }

  function TailLines(j: JobFields): seq<string> {
    ["#PBS -V", "#PBS -p " + j.priority, "", "#auto=" + ShowBool(j.auto), "",
     "echo \"I ran on:\"", "cat $PBS_NODEFILE", ""]
  }

  /** The lines between the job name and the change of directory. */
  function BodyLines(j: JobFields): seq<string> {
    OptionalLine("#PBS -a ", j.exetime)
    + (OptionalLine("#PBS -A ", j.account)
    + (LimitLines(j)
    + (OptionalLine("#PBS -l pmem=", j.pmem)
    + (QueueLines(j)
    + (MailLines(j)
    + TailLines(j))))))
  }

  /** Every line of the script up to and including `cd $PBS_O_WORKDIR`, in the order they are written. */
  function ScriptLines(j: JobFields): seq<string> {
    HeadLines(j) + BodyLines(j) + ["cd $PBS_O_WORKDIR"]
  }

  /** The lines, each followed by a newline. */
  function Unlines(ls: seq<string>): (s: string)
    ensures |s| >= |ls|
  {
    if ls == [] then "" else ls[0] + "\n" + Unlines(ls[1..])
  }

  /** `Job.qsub_string()`. */
  function QsubString(j: JobFields): string {
    Unlines(ScriptLines(j)) + Show(j.command) + "\n"
  }

  lemma {:induction false} UnlinesAppend(a: seq<string>, b: seq<string>)
    ensures Unlines(a + b) == Unlines(a) + Unlines(b)
    decreases |a|
  {
    if a == [] {
      assert a + b == b;
    } else {
      assert (a + b)[1..] == a[1..] + b;
      UnlinesAppend(a[1..], b);
    }
  }

  lemma HeadText(j: JobFields)
    ensures Unlines(HeadLines(j)) == "#!/bin/sh\n#PBS -S /bin/sh\n#PBS -N " + j.name + "\n"
  {
    var h := HeadLines(j);
    assert Unlines(h[2..]) == "#PBS -N " + j.name + "\n" + Unlines([]);
    assert Unlines(h[1..]) == "#PBS -S /bin/sh" + "\n" + Unlines(h[2..]);
    assert Unlines(h) == "#!/bin/sh" + "\n" + Unlines(h[1..]);
  }

  /** The script opens with the interpreter line, the shell directive and the job name, and closes
      with the change to the submission directory followed by the command on a line of its own. */
  lemma ScriptFrame(j: JobFields)
    ensures exists body: string ::
      QsubString(j) == "#!/bin/sh\n#PBS -S /bin/sh\n#PBS -N " + j.name + "\n" + body
                       + "cd $PBS_O_WORKDIR\n" + Show(j.command) + "\n"
  {
    var h, b, c := HeadLines(j), BodyLines(j), ["cd $PBS_O_WORKDIR"];
    UnlinesAppend(h + b, c);
    UnlinesAppend(h, b);
    HeadText(j);
    assert Unlines(c) == "cd $PBS_O_WORKDIR\n" by {
      assert Unlines(c) == "cd $PBS_O_WORKDIR" + "\n" + Unlines([]);
    }
    var body := Unlines(b);
    assert QsubString(j) == Unlines(h) + body + Unlines(c) + Show(j.command) + "\n";
  }

  // ---------------------------------------------------------------------------
  // Which directives are written, and in what order

  /** `l` begins with `p`. */
  predicate Begins(l: string, p: string) {
    |p| <= |l| && l[..|p|] == p
  }

  /** The characters that tell the script's lines apart: the first, the directive letter and,
      for `-l`, the first letter of the resource. */
  lemma BeginsChars(l: string, p: string)
    requires Begins(l, p) && |p| > 6
    ensures l[0] == p[0] && l[6] == p[6]
    ensures |p| > 8 ==> l[8] == p[8]
  {
    assert l[..|p|][0] == l[0];
    assert l[..|p|][6] == l[6];
    if |p| > 8 {
      assert l[..|p|][8] == l[8];
    }
  }

  /** The lines of `ls` that begin with `p`, in order. */
  function Directives(ls: seq<string>, p: string): (r: seq<string>)
    ensures |r| <= |ls|
  {
    if ls == [] then []
    else (if Begins(ls[0], p) then [ls[0]] else []) + Directives(ls[1..], p)
  }

  lemma {:induction false} DirectivesAppend(a: seq<string>, b: seq<string>, p: string)
    ensures Directives(a + b, p) == Directives(a, p) + Directives(b, p)
    decreases |a|
  {
    if a == [] {
      assert a + b == b;
    } else {
      assert (a + b)[0] == a[0];
      assert (a + b)[1..] == a[1..] + b;
      DirectivesAppend(a[1..], b, p);
      var x := if Begins(a[0], p) then [a[0]] else [];
      assert Directives(a + b, p) == x + (Directives(a[1..], p) + Directives(b, p));
      assert x + (Directives(a[1..], p) + Directives(b, p)) == (x + Directives(a[1..], p)) + Directives(b, p);
    }
  }

  lemma {:induction false} NoDirectives(ls: seq<string>, p: string)
    requires forall l :: l in ls ==> !Begins(l, p)
    ensures Directives(ls, p) == []
    decreases |ls|
  {
    if ls != [] {
      NoDirectives(ls[1..], p);
    }
  }

  /** The prefixes of the directives that are written only under a condition. */
  predicate Conditional(p: string) {
    p == "#PBS -a " || p == "#PBS -A " || p == "#PBS -l pmem=" || p == "#PBS -M " || p == "#PBS -m "
  }

  /** No line of the lines before the optional directives begins with a conditional prefix. */
  lemma HeadUnconditional(j: JobFields, p: string)
    requires Conditional(p)
    ensures Directives(HeadLines(j), p) == []
  {
    forall l | l in HeadLines(j) ensures !Begins(l, p) {
      if Begins(l, p) {
        BeginsChars(l, p);
        assert false;
      }
    }
    NoDirectives(HeadLines(j), p);
  }

  /** No line of the walltime and node count lines begins with a conditional prefix. */
  lemma LimitsUnconditional(j: JobFields, p: string)
    requires Conditional(p)
    ensures Directives(LimitLines(j), p) == []
  {
    forall l | l in LimitLines(j) ensures !Begins(l, p) {
      if Begins(l, p) {
        BeginsChars(l, p);
        assert false;
      }
    }
    NoDirectives(LimitLines(j), p);
  }

  /** No line of the queue lines begins with a conditional prefix. */
  lemma QueueUnconditional(j: JobFields, p: string)
    requires Conditional(p)
    ensures Directives(QueueLines(j), p) == []
  {
    forall l | l in QueueLines(j) ensures !Begins(l, p) {
      if Begins(l, p) {
        BeginsChars(l, p);
        assert false;
      }
    }
    NoDirectives(QueueLines(j), p);
  }

  /** No line of the lines from `#PBS -V` on begins with a conditional prefix. */
  lemma TailUnconditional(j: JobFields, p: string)
    requires Conditional(p)
    ensures Directives(TailLines(j), p) == []
  {
    forall l | l in TailLines(j) ensures !Begins(l, p) {
      if Begins(l, p) {
        BeginsChars(l, p);
        assert false;
      }
    }
    NoDirectives(TailLines(j), p);
  }

  /** No line of the change of directory begins with a conditional prefix. */
  lemma WorkdirUnconditional(p: string)
    requires Conditional(p)
    ensures Directives(["cd $PBS_O_WORKDIR"], p) == []
  {
    forall l | l in ["cd $PBS_O_WORKDIR"] ensures !Begins(l, p) {
      if Begins(l, p) {
        BeginsChars(l, p);
        assert false;
      }
    }
    NoDirectives(["cd $PBS_O_WORKDIR"], p);
  }

  /** No line that is always written begins with a conditional prefix. */
  lemma FixedLinesUnconditional(j: JobFields, p: string)
    requires Conditional(p)
    ensures Directives(HeadLines(j), p) == []
    ensures Directives(LimitLines(j), p) == []
    ensures Directives(QueueLines(j), p) == []
    ensures Directives(TailLines(j), p) == []
    ensures Directives(["cd $PBS_O_WORKDIR"], p) == []
  {
    HeadUnconditional(j, p);
    LimitsUnconditional(j, p);
    QueueUnconditional(j, p);
    TailUnconditional(j, p);
    WorkdirUnconditional(p);
  }

  /** A conditional line is found only under its own prefix. */
  lemma OptionalLineDirectives(q: string, v: Option<string>, p: string)
    requires Conditional(q) && Conditional(p)
    ensures Directives(OptionalLine(q, v), p) == if q == p && v.Some? then [q + v.value] else []
  {
    if v.Some? {
      var l := q + v.value;
      assert OptionalLine(q, v) == [l];
      assert l[..|q|] == q;
      BeginsChars(l, q);
      if q != p && Begins(l, p) {
        BeginsChars(l, p);
        assert false;
      }
      assert Directives(OptionalLine(q, v), p) == (if Begins(l, p) then [l] else []) + Directives([], p);
    }
  }

  lemma MailLinesDirectives(j: JobFields, p: string)
    requires Conditional(p)
    ensures Directives(MailLines(j), p) ==
      if j.email.Some? && j.message.Some? && p == "#PBS -M " then ["#PBS -M " + j.email.value]
      else if j.email.Some? && j.message.Some? && p == "#PBS -m " then ["#PBS -m " + j.message.value]
      else []
  {
    if j.email.Some? && j.message.Some? {
      var ls := MailLines(j);
      assert ls == OptionalLine("#PBS -M ", j.email) + OptionalLine("#PBS -m ", j.message);
      DirectivesAppend(OptionalLine("#PBS -M ", j.email), OptionalLine("#PBS -m ", j.message), p);
      OptionalLineDirectives("#PBS -M ", j.email, p);
      OptionalLineDirectives("#PBS -m ", j.message, p);
    }
  }

  /** The directives of a script put together from blocks, when five of the blocks contribute none. */
  lemma DirectivesOfBlocks(h: seq<string>, a: seq<string>, c: seq<string>, w: seq<string>, m: seq<string>,
                           q: seq<string>, e: seq<string>, t: seq<string>, d: seq<string>, p: string)
    requires Directives(h, p) == [] && Directives(w, p) == [] && Directives(q, p) == []
    requires Directives(t, p) == [] && Directives(d, p) == []
    ensures Directives(h + (a + (c + (w + (m + (q + (e + t)))))) + d, p)
         == Directives(a, p) + (Directives(c, p) + (Directives(m, p) + Directives(e, p)))
  {
    var da, dc, dm, de := Directives(a, p), Directives(c, p), Directives(m, p), Directives(e, p);
    DirectivesAppend(e, t, p);
    assert Directives(e + t, p) == de;
    DirectivesAppend(q, e + t, p);
    assert Directives(q + (e + t), p) == de;
    DirectivesAppend(m, q + (e + t), p);
    DirectivesAppend(w, m + (q + (e + t)), p);
    assert Directives(w + (m + (q + (e + t))), p) == dm + de;
    DirectivesAppend(c, w + (m + (q + (e + t))), p);
    DirectivesAppend(a, c + (w + (m + (q + (e + t)))), p);
    DirectivesAppend(h, a + (c + (w + (m + (q + (e + t))))), p);
    assert Directives(h + (a + (c + (w + (m + (q + (e + t)))))), p) == da + (dc + (dm + de));
    DirectivesAppend(h + (a + (c + (w + (m + (q + (e + t)))))), d, p);
  }

  /** The directives of the script under a conditional prefix come from the conditional lines alone. */
  lemma ScriptDirectives(j: JobFields, p: string)
    requires Conditional(p)
    ensures Directives(ScriptLines(j), p) ==
      Directives(OptionalLine("#PBS -a ", j.exetime), p) + (Directives(OptionalLine("#PBS -A ", j.account), p)
      + (Directives(OptionalLine("#PBS -l pmem=", j.pmem), p) + Directives(MailLines(j), p)))
  {
    var h, a, c, w, m, q, e, t, d := HeadLines(j), OptionalLine("#PBS -a ", j.exetime), OptionalLine("#PBS -A ", j.account),
      LimitLines(j), OptionalLine("#PBS -l pmem=", j.pmem), QueueLines(j), MailLines(j), TailLines(j),
      ["cd $PBS_O_WORKDIR"];
    assert ScriptLines(j) == h + (a + (c + (w + (m + (q + (e + t)))))) + d;
    FixedLinesUnconditional(j, p);
    DirectivesOfBlocks(h, a, c, w, m, q, e, t, d, p);
  }

  /** What one conditional prefix finds in the whole script. */
  lemma ConditionalDirectives(j: JobFields, p: string)
    requires Conditional(p)
    ensures Directives(ScriptLines(j), p) ==
      (if p == "#PBS -a " && j.exetime.Some? then ["#PBS -a " + j.exetime.value] else [])
      + ((if p == "#PBS -A " && j.account.Some? then ["#PBS -A " + j.account.value] else [])
      + ((if p == "#PBS -l pmem=" && j.pmem.Some? then ["#PBS -l pmem=" + j.pmem.value] else [])
      + Directives(MailLines(j), p)))
  {
    ScriptDirectives(j, p);
    OptionalLineDirectives("#PBS -a ", j.exetime, p);
    OptionalLineDirectives("#PBS -A ", j.account, p);
    OptionalLineDirectives("#PBS -l pmem=", j.pmem, p);
  }

  /** `-a`, `-A` and `-l pmem=` are each written once when their attribute is set, and never otherwise. */
  lemma OptionalDirectives(j: JobFields)
    ensures Directives(ScriptLines(j), "#PBS -a ") == if j.exetime.Some? then ["#PBS -a " + j.exetime.value] else []
    ensures Directives(ScriptLines(j), "#PBS -A ") == if j.account.Some? then ["#PBS -A " + j.account.value] else []
    ensures Directives(ScriptLines(j), "#PBS -l pmem=") == if j.pmem.Some? then ["#PBS -l pmem=" + j.pmem.value] else []
  {
    ConditionalDirectives(j, "#PBS -a ");
    MailLinesDirectives(j, "#PBS -a ");
    ConditionalDirectives(j, "#PBS -A ");
    MailLinesDirectives(j, "#PBS -A ");
    ConditionalDirectives(j, "#PBS -l pmem=");
    MailLinesDirectives(j, "#PBS -l pmem=");
  }

  /** `-M` and `-m` are written together, once each, when both the recipients and the mail events are set;
      when either is None neither is written. */
  lemma MailPair(j: JobFields)
    ensures var both := j.email.Some? && j.message.Some?;
      Directives(ScriptLines(j), "#PBS -M ") == (if both then ["#PBS -M " + j.email.value] else []) &&
      Directives(ScriptLines(j), "#PBS -m ") == (if both then ["#PBS -m " + j.message.value] else [])
  {
    ConditionalDirectives(j, "#PBS -M ");
    MailLinesDirectives(j, "#PBS -M ");
    ConditionalDirectives(j, "#PBS -m ");
    MailLinesDirectives(j, "#PBS -m ");
  }

  /** `xs` can be obtained from `ys` by deleting lines. */
  predicate Subsequence(xs: seq<string>, ys: seq<string>)
    decreases |ys|
  {
    xs == [] || (ys != [] && ((xs[0] == ys[0] && Subsequence(xs[1..], ys[1..])) || Subsequence(xs, ys[1..])))
  }

  lemma {:induction false} SubsequenceSelf(xs: seq<string>)
    ensures Subsequence(xs, xs)
    decreases |xs|
  {
    if xs != [] {
      SubsequenceSelf(xs[1..]);
    }
  }

  lemma {:induction false} SubsequenceSkip(xs: seq<string>, skipped: seq<string>, ys: seq<string>)
    requires Subsequence(xs, ys)
    ensures Subsequence(xs, skipped + ys)
    decreases |skipped|
  {
    if skipped != [] {
      assert (skipped + ys)[1..] == skipped[1..] + ys;
      SubsequenceSkip(xs, skipped[1..], ys);
    } else {
      assert skipped + ys == ys;
    }
  }

  lemma {:induction false} SubsequenceAppend(xs: seq<string>, ys: seq<string>, us: seq<string>, vs: seq<string>)
    requires Subsequence(xs, us) && Subsequence(ys, vs)
    ensures Subsequence(xs + ys, us + vs)
    decreases |us|
  {
    if xs == [] {
      assert xs + ys == ys;
      SubsequenceSkip(ys, us, vs);
    } else {
      assert (us + vs)[1..] == us[1..] + vs;
      assert (xs + ys)[1..] == xs[1..] + ys;
      if xs[0] == us[0] && Subsequence(xs[1..], us[1..]) {
        SubsequenceAppend(xs[1..], ys, us[1..], vs);
      } else {
        SubsequenceAppend(xs, ys, us[1..], vs);
      }
    }
  }

  /** Keeping some lines of the tail, and every line of the fixed blocks, gives a subsequence of the script. */
  lemma SubsequenceOfBlocks(h: seq<string>, a: seq<string>, c: seq<string>, w: seq<string>, m: seq<string>,
                            q: seq<string>, e: seq<string>, t: seq<string>, d: seq<string>, kept: seq<string>)
    requires Subsequence(kept, t)
    ensures Subsequence(h + (w + (q + kept)) + d, h + (a + (c + (w + (m + (q + (e + t)))))) + d)
  {
    SubsequenceSkip(kept, e, t);
    SubsequenceSelf(q);
    SubsequenceAppend(q, kept, q, e + t);
    SubsequenceSkip(q + kept, m, q + (e + t));
    SubsequenceSelf(w);
    SubsequenceAppend(w, q + kept, w, m + (q + (e + t)));
    SubsequenceSkip(w + (q + kept), c, w + (m + (q + (e + t))));
    SubsequenceSkip(w + (q + kept), a, c + (w + (m + (q + (e + t)))));
    SubsequenceSelf(h);
    SubsequenceAppend(h, w + (q + kept), h, a + (c + (w + (m + (q + (e + t))))));
    SubsequenceSelf(d);
    SubsequenceAppend(h + (w + (q + kept)), d, h + (a + (c + (w + (m + (q + (e + t)))))), d);
  }

  /** `-V`, the priority and the `#auto=` marker, in that order, among the closing lines. */
  lemma TailKeeps(j: JobFields)
    ensures Subsequence(["#PBS -V", "#PBS -p " + j.priority, "#auto=" + ShowBool(j.auto)], TailLines(j))
  {
    var t := TailLines(j);
    var t1, t2 := ["#PBS -V", "#PBS -p " + j.priority], ["#auto=" + ShowBool(j.auto)];
    var s1, s2 := [""], ["", "echo \"I ran on:\"", "cat $PBS_NODEFILE", ""];
    assert t == t1 + (s1 + (t2 + s2));
    SubsequenceSelf(t2);
    assert Subsequence(t2, t2 + s2) by {
      assert (t2 + s2)[1..] == s2;
    }
    SubsequenceSkip(t2, s1, t2 + s2);
    SubsequenceSelf(t1);
    SubsequenceAppend(t1, t2, t1, s1 + (t2 + s2));
    assert t1 + t2 == ["#PBS -V", "#PBS -p " + j.priority, "#auto=" + ShowBool(j.auto)];
  }

  /** The lines written whatever the optional attributes are, in the order the script has them:
      the header, the walltime, the node count, the quality of service, the queue, `-V`, the priority,
      the `#auto=` marker and the change of directory. */
  lemma FixedOrder(j: JobFields)
    ensures Subsequence(
      ["#!/bin/sh", "#PBS -S /bin/sh", "#PBS -N " + j.name,
       "#PBS -l walltime=" + Show(j.walltime),
       "#PBS -l nodes=" + ShowInt(j.nodes) + ":ppn=" + ShowInt(j.ppn),
       "#PBS -l qos=" + Show(j.queue), "#PBS -q " + Show(j.queue),
       "#PBS -V", "#PBS -p " + j.priority, "#auto=" + ShowBool(j.auto), "cd $PBS_O_WORKDIR"],
      ScriptLines(j))
  {
    var h, a, c, w, m, q, e, t, d := HeadLines(j), OptionalLine("#PBS -a ", j.exetime), OptionalLine("#PBS -A ", j.account),
      LimitLines(j), OptionalLine("#PBS -l pmem=", j.pmem), QueueLines(j), MailLines(j), TailLines(j),
      ["cd $PBS_O_WORKDIR"];
    var kept := ["#PBS -V", "#PBS -p " + j.priority, "#auto=" + ShowBool(j.auto)];
    assert ScriptLines(j) == h + (a + (c + (w + (m + (q + (e + t)))))) + d;
    TailKeeps(j);
    SubsequenceOfBlocks(h, a, c, w, m, q, e, t, d, kept);
    assert h + (w + (q + kept)) + d == ["#!/bin/sh", "#PBS -S /bin/sh", "#PBS -N " + j.name,
       "#PBS -l walltime=" + Show(j.walltime),
       "#PBS -l nodes=" + ShowInt(j.nodes) + ":ppn=" + ShowInt(j.ppn),
       "#PBS -l qos=" + Show(j.queue), "#PBS -q " + Show(j.queue),
       "#PBS -V", "#PBS -p " + j.priority, "#auto=" + ShowBool(j.auto), "cd $PBS_O_WORKDIR"];
  }
}
