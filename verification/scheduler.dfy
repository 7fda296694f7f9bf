/** The scheduler command classes (the `pysqa/wrapper` package): for every supported batch system
    the command vectors for submitting, deleting, reserving and listing jobs, how the job id
    is read from the submit output, and how the status listing becomes a status table.

    Two pieces of foreign code are parameters: Flux's `JobID` parser and the XML parser the
    SGE class reads `qstat -xml` with. */
module Scheduler {
  import opened Wrappers
  import opened PyText
  import opened Tables

  /** The command classes; the queue-type name of each in the configuration is given by
      `QueueTypeName`. */
  datatype Kind = Sge | Torque | Slurm | Lsf | Moab | Gent | Flux

  function QueueTypeName(k: Kind): string {
    match k
    case Sge => "SGE"
    case Torque => "TORQUE"
    case Slurm => "SLURM"
    case Lsf => "LSF"
    case Moab => "MOAB"
    case Gent => "GENT"
    case Flux => "FLUX"
  }

  /** One job of an SGE `qstat -xml` listing as the XML parser hands it over. */
  datatype SgeJob = SgeJob(number: int, owner: string, name: string, state: string)

  /** Code outside the model the command classes call. `sgeXml` returns the running and
      the pending section of a listing (or the error the parser raises, given the text or
      None). */
  datatype Foreign = Foreign(
    fluxJobId: string -> Result<int>,
    sgeXml: Option<string> -> Result<(seq<SgeJob>, seq<SgeJob>)>)

  // ---------------------------------------------------------------- command vectors

  function SubmitCommand(k: Kind): (argv: seq<string>)
    ensures argv != []
  {
    match k
    case Sge => ["qsub", "-terse"]
    case Torque => ["qsub", "-terse"]
    case Slurm => ["sbatch", "--parsable"]
    case Gent => ["sbatch", "--parsable"]
    case Lsf => ["bsub"]
    case Moab => ["msub"]
    case Flux => ["flux", "batch"]
  }

  function DeleteCommand(k: Kind): (argv: seq<string>)
    ensures argv != []
  {
    match k
    case Sge => ["qdel"]
    case Torque => ["qdel"]
    case Slurm => ["scancel"]
    case Gent => ["scancel"]
    case Lsf => ["bkill"]
    case Moab => ["mjobctl", "-c"]
    case Flux => ["flux", "cancel"]
  }

  /** Only SGE and the Slurm family can reserve; the others inherit the property that
      raises NotImplementedError. */
  function ReservationCommand(k: Kind): (r: Result<seq<string>>)
    ensures r.Ok? <==> k in {Sge, Slurm, Gent}
    ensures r.Err? ==> r.error == NotImplementedError
  {
    match k
    case Sge => Ok(["qalter", "-R", "y"])
    case Slurm => Ok(["qalter", "-W"])
    case Gent => Ok(["qalter", "-W"])
    case _ => Err(NotImplementedError)
  }

  function StatusCommand(k: Kind): (argv: seq<string>)
    ensures argv != []
  {
    match k
    case Sge => ["qstat", "-xml"]
    case Torque => ["qstat", "-x"]
    case Slurm => ["squeue", "--format", "\"%A|%u|%t|%j\"", "--noheader"]
    case Gent => ["squeue", "--format", "\"%A|%u|%t|%j\"", "--noheader"]
    case Lsf => ["bjobs"]
    case Moab => ["mdiag", "-x"]
    case Flux => ["flux", "jobs", "-a", "--no-header"]
  }

  /** `dependencies(dependency_list)`: no command class turns dependencies into arguments;
      an empty list when there are none, NotImplementedError otherwise. The Slurm and SGE
      classes do not derive from the common base and have no such method at all. */
  function Dependencies(k: Kind, deps: Option<seq<string>>): (r: Result<seq<string>>)
    ensures k in {Slurm, Sge} ==> r == Err(AttributeError)
    ensures k !in {Slurm, Sge} ==> (r.Ok? <==> deps.None?)
    ensures r.Ok? ==> r.value == []
  {
    if k == Slurm || k == Sge then Err(AttributeError)
    else if deps.Some? then Err(NotImplementedError)
    else Ok([])
  }

  // ---------------------------------------------------------------- submit output

  /** The last line of `out`, stripped; an IndexError when there is no line. */
  function LastLineStripped(out: string): (r: Result<string>)
    ensures r.Err? <==> out == []
    ensures r.Err? ==> r.error == IndexError
  {
    var lines := SplitLines(out);
    if lines == [] then Err(IndexError) else Ok(Strip(lines[|lines| - 1]))
  }

  /** `get_job_id_from_output`:
      SGE reads the whole output as a number; Slurm and Gent the text before the first `;`
      of the last line; LSF the text between the first `<` and the next `>`; Flux hands the
      last word of the last line to `JobID`; Torque and Moab do not implement it. */
  function JobIdFromOutput(k: Kind, out: string, ext: Foreign): (r: Result<int>)
    ensures k in {Torque, Moab} ==> r == Err(NotImplementedError)
  {
    match k
    case Sge => ParseInt(out)
    case Slurm => SlurmJobId(out)
    case Gent => SlurmJobId(out)
    case Lsf =>
      var parts := Split(out, '<');
      if |parts| < 2 then Err(IndexError) else ParseInt(Split(parts[1], '>')[0])
    case Flux =>
      var last :- LastLineStripped(out);
      var words := SplitWhitespace(last);
      if words == [] then Err(IndexError) else ext.fluxJobId(words[|words| - 1])
    case _ => Err(NotImplementedError)
  }

  function SlurmJobId(out: string): Result<int> {
    var last :- LastLineStripped(out);
    ParseInt(Split(last, ';')[0])
  }

  /** `get_queue_from_output`, defined only by the Slurm-family classes: the text between the
      first and the second `;` of the last line. */
  function QueueFromOutput(k: Kind, out: string): (r: Result<string>)
    ensures k !in {Slurm, Gent} ==> r == Err(AttributeError)
    ensures r.Ok? ==> ';' !in r.value
  {
    if k != Slurm && k != Gent then Err(AttributeError)
    else
      var last :- LastLineStripped(out);
      var parts := Split(last, ';');
      SplitPiecesClean(last, ';');
      if |parts| < 2 then Err(IndexError) else Ok(parts[1])
  }

  /** Text a Slurm-family submit prints: earlier lines, then `<id>;<cluster>`. */
  predicate CleanClusterName(q: string) {
    && ';' !in q
    && NoBreak(q)
    && (q == [] || !IsSpace(q[|q| - 1]))
  }

  /** The last line of a text, when it is already stripped, is what the Slurm-family
      classes read. */
  lemma LastLineStrippedOf(pre: string, line: string)
    requires pre == [] || IsLineBreak(pre[|pre| - 1])
    requires line != [] && NoBreak(line) && !IsSpace(line[0]) && !IsSpace(line[|line| - 1])
    ensures LastLineStripped(pre + line) == Ok(line)
  {
    LastLine(pre, line);
    StripTrimmed(line);
  }

  /** The line `<id>;<cluster>` has no line break and carries no white space at its ends. */
  lemma SlurmSubmitLine(id: int, q: string)
    requires CleanClusterName(q)
    ensures var line := IntToString(id) + ";" + q;
      && line != [] && NoBreak(line) && !IsSpace(line[0]) && !IsSpace(line[|line| - 1])
      && Split(line, ';') == [IntToString(id), q]
  {
    var num := IntToString(id);
    var line := num + ";" + q;
    IntToStringDigits(id);
    IntToStringPlain(id);
    NoBreakAppend(num, ";");
    NoBreakAppend(num + ";", q);
    assert line[|line| - 1] == (if q == [] then ';' else q[|q| - 1]);
    assert ';' !in num;
    assert line == num + [';'] + q;
    SplitAt(num, ';', q);
    SplitHead(q, ';');
  }

  /** Whatever precedes it, the last line `<id>;<cluster>` is what the Slurm-family classes
      read and split. */
  lemma SlurmSubmitLastLine(pre: string, id: int, q: string)
    requires pre == [] || IsLineBreak(pre[|pre| - 1])
    requires CleanClusterName(q)
    ensures LastLineStripped(pre + IntToString(id) + ";" + q) == Ok(IntToString(id) + ";" + q)
    ensures Split(IntToString(id) + ";" + q, ';') == [IntToString(id), q]
  {
    var line := IntToString(id) + ";" + q;
    assert pre + IntToString(id) + ";" + q == pre + line;
    SlurmSubmitLine(id, q);
    LastLineStrippedOf(pre, line);
  }

  /** Whatever precedes it, the last line `<id>;<cluster>` yields the id and the cluster. */
  lemma SlurmSubmitOutputRoundTrip(k: Kind, pre: string, id: int, q: string, ext: Foreign)
    requires k in {Slurm, Gent}
    requires pre == [] || IsLineBreak(pre[|pre| - 1])
    requires CleanClusterName(q)
    ensures JobIdFromOutput(k, pre + IntToString(id) + ";" + q, ext) == Ok(id)
    ensures QueueFromOutput(k, pre + IntToString(id) + ";" + q) == Ok(q)
  {
    var line := IntToString(id) + ";" + q;
    SlurmSubmitLastLine(pre, id, q);
    SlurmReadsLastLine(k, pre + IntToString(id) + ";" + q, line, ext);
    IntRoundTrip(id);
  }

  /** The Slurm-family classes read the id and the cluster from the stripped last line only. */
  lemma SlurmReadsLastLine(k: Kind, out: string, last: string, ext: Foreign)
    requires k in {Slurm, Gent}
    ensures LastLineStripped(out) == Ok(last) ==>
      && JobIdFromOutput(k, out, ext) == ParseInt(Split(last, ';')[0])
      && QueueFromOutput(k, out) == if |Split(last, ';')| < 2 then Err(IndexError) else Ok(Split(last, ';')[1])
  {
  }

  /** The submit output of the Gent class as it appears in its tests. */
  lemma GentSubmitOutputExample(ext: Foreign)
    ensures JobIdFromOutput(Gent, "123;MyQueue", ext) == Ok(123)
    ensures QueueFromOutput(Gent, "123;MyQueue") == Ok("MyQueue")
  {
    assert IntToString(123) == "123" by {
      assert NatToString(12) == "12" by {
        assert NatToString(1) == "1";
      }
    }
    assert "123;MyQueue" == [] + IntToString(123) + ";" + "MyQueue";
    SlurmSubmitOutputRoundTrip(Gent, [], 123, "MyQueue", ext);
  }

  /** SGE's `-terse` output is the job id, with or without a trailing newline. */
  lemma SgeSubmitOutputRoundTrip(id: int, ext: Foreign)
    ensures JobIdFromOutput(Sge, IntToString(id), ext) == Ok(id)
    ensures JobIdFromOutput(Sge, IntToString(id) + "\n", ext) == Ok(id)
  {
    IntRoundTrip(id);
    ParseIntTrailingSpace(IntToString(id), '\n');
  }

  /** Text between the first `<` and the next `>` is what the bracket split finds. */
  lemma LsfBracketed(pre: string, num: string, post: string)
    requires '<' !in pre && '<' !in num && '>' !in num
    ensures var parts := Split(pre + "<" + num + ">" + post, '<');
      |parts| >= 2 && Split(parts[1], '>')[0] == num
  {
    var rest := num + ">" + post;
    var parts := Split(pre + "<" + num + ">" + post, '<');
    assert parts == [pre] + Split(rest, '<') by {
      assert pre + "<" + num + ">" + post == pre + ['<'] + rest;
      SplitAt(pre, '<', rest);
    }
    var piece := Split(rest, '<')[0];
    assert parts[1] == piece;
    var tail := piece[|num| + 1..];
    assert piece == num + ['>'] + tail by {
      assert '<' !in num + ">";
      SplitFirstPrefix(num + ">", post, '<');
      assert piece == piece[..|num| + 1] + tail;
    }
    SplitAt(num, '>', tail);
  }

  /** LSF reads the id from between the first brackets only. */
  lemma LsfReadsBrackets(out: string, num: string, ext: Foreign)
    requires |Split(out, '<')| >= 2 && Split(Split(out, '<')[1], '>')[0] == num
    ensures JobIdFromOutput(Lsf, out, ext) == ParseInt(num)
  {
  }

  /** LSF prints `Job <id> is submitted ...`: the id is read from between the brackets. */
  lemma LsfSubmitOutputRoundTrip(pre: string, id: int, post: string, ext: Foreign)
    requires '<' !in pre
    ensures JobIdFromOutput(Lsf, pre + "<" + IntToString(id) + ">" + post, ext) == Ok(id)
  {
    var num := IntToString(id);
    IntToStringDigits(id);
    LsfBracketed(pre, num, post);
    LsfReadsBrackets(pre + "<" + num + ">" + post, num, ext);
    IntRoundTrip(id);
  }

  // ---------------------------------------------------------------- status listings

  const SlurmColumns: seq<string> := ["cluster", "jobid", "user", "jobname", "status"]
  /** The (differently ordered) columns of the empty Slurm table. */
  const SlurmEmptyColumns: seq<string> := ["cluster", "jobid", "user", "status", "jobname"]
  const FluxColumns: seq<string> := ["jobid", "user", "jobname", "status"]
  const SgeColumns: seq<string> := ["jobid", "user", "jobname", "status"]

  /** One `%A|%u|%t|%j` line: exactly four fields, a numeric id, the state lower-cased. */
  function SlurmRow(line: string, cluster: string): (r: Result<Row>)
    ensures r.Err? ==> r.error == ValueError
    ensures r.Ok? ==> |Split(line, '|')| == 4 && r.value.cluster == Some(cluster)
    ensures r.Ok? ==> r.value.status == Lower(Split(line, '|')[2])
  {
    var f := Split(line, '|');
    if |f| != 4 then Err(ValueError)
    else
      var id :- ParseInt(f[0]);
      Ok(Row(Some(cluster), id, f[1], f[3], Lower(f[2])))
  }

  function SlurmRowOf(cluster: string): string -> Result<Row> {
    line => SlurmRow(line, cluster)
  }

  /** Every listing line parsed; the first line that does not parse raises its error. */
  function SlurmRows(lines: seq<string>, cluster: string): (r: Result<seq<Row>>)
    ensures r.Err? ==> r.error == ValueError
    ensures r.Ok? ==> |r.value| == |lines|
    ensures r.Ok? ==> forall k :: 0 <= k < |lines| ==> SlurmRow(lines[k], cluster) == Ok(r.value[k])
  {
    MapResults(lines, SlurmRowOf(cluster))
  }

  /** `convert_queue_status` of the Slurm and Gent classes. The first line carries the
      cluster name after a `:`; each later line is one job. With no job lines Slurm returns
      an empty table and Gent returns None. */
  function SlurmStatus(out: Option<string>, gent: bool): (r: Result<Option<Table>>)
    ensures out.None? ==> r == Err(AttributeError)
    ensures r.Ok? && r.value.None? ==> gent
    ensures r.Ok? && r.value.Some? ==> UserColumn in r.value.value.columns
  {
    match out
    case None => Err(AttributeError)
    case Some(text) =>
      var lines := SplitLines(text);
      if lines == [] then Err(IndexError)
      else
        var header := Split(lines[0], ':');
        if |header| < 2 then Err(IndexError)
        else
          var cluster := Strip(header[1]);
          if |lines| <= 1 then
            if gent then Ok(None) else Ok(Some(Table(SlurmEmptyColumns, [])))
          else
            var rows :- SlurmRows(lines[1..], cluster);
            Ok(Some(Table(SlurmColumns, rows)))
  }

  /** A status value rewritten wherever it equals `from` (`df.loc[df.status == from] = to`). */
  function Rewrite(rows: seq<Row>, from: string, to: string): (r: seq<Row>)
    ensures |r| == |rows|
    ensures forall k :: 0 <= k < |rows| ==>
      r[k] == rows[k].(status := if rows[k].status == from then to else rows[k].status)
  {
    seq(|rows|, k requires 0 <= k < |rows| =>
      rows[k].(status := if rows[k].status == from then to else rows[k].status))
  }

  /** The meaning of Flux's one- and two-letter states. */
  function FluxState(s: string): string {
    if s == "R" then "running"
    else if s == "S" then "pending"
    else if s == "C" then "error"
    else if s == "CD" then "finished"
    else s
  }

  /** The meaning of SGE's states. */
  function SgeState(s: string): string {
    if s == "r" then "running"
    else if s == "qw" then "pending"
    else if s == "Eqw" then "error"
    else s
  }

  /** The four in-place rewrites of the Flux class amount to translating every state once:
      no rewrite produces a state a later rewrite would match. */
  lemma FluxRewritesAreStateMap(rows: seq<Row>)
    ensures var r := Rewrite(Rewrite(Rewrite(Rewrite(rows, "R", "running"), "S", "pending"), "C", "error"), "CD", "finished");
      forall k :: 0 <= k < |rows| ==> r[k] == rows[k].(status := FluxState(rows[k].status))
  {
  }

  /** Likewise for the three SGE rewrites. */
  lemma SgeRewritesAreStateMap(rows: seq<Row>)
    ensures var r := Rewrite(Rewrite(Rewrite(rows, "r", "running"), "qw", "pending"), "Eqw", "error");
      forall k :: 0 <= k < |rows| ==> r[k] == rows[k].(status := SgeState(rows[k].status))
  {
  }

  /** One line of `flux jobs -a --no-header`: the id through `JobID`, then user, name and
      state as the next three words. */
  function FluxRow(line: string, ext: Foreign): (r: Result<Row>)
    ensures r.Ok? ==> |SplitWhitespace(line)| >= 4
    ensures r.Ok? ==> r.value.user == SplitWhitespace(line)[1] && r.value.status == SplitWhitespace(line)[3]
  {
    var words := SplitWhitespace(line);
    if words == [] then Err(IndexError)
    else
      var id :- ext.fluxJobId(words[0]);
      if |words| < 4 then Err(IndexError)
      else Ok(Row(None, id, words[1], words[2], words[3]))
  }

  function FluxRowOf(ext: Foreign): string -> Result<Row> {
    line => FluxRow(line, ext)
  }

  function FluxRows(lines: seq<string>, ext: Foreign): (r: Result<seq<Row>>)
    ensures r.Ok? ==> |r.value| == |lines|
    ensures r.Ok? ==> forall k :: 0 <= k < |lines| ==> FluxRow(lines[k], ext) == Ok(r.value[k])
    ensures r.Err? ==> exists k :: 0 <= k < |lines| && FluxRow(lines[k], ext) == Err(r.error)
  {
    MapResults(lines, FluxRowOf(ext))
  }

  /** Flux: one row per line of the listing, in order, each state translated by
      `FluxState`. A line that does not parse makes the whole listing fail. */
  function FluxStatus(out: Option<string>, ext: Foreign): (r: Result<Table>)
    ensures out.None? ==> r == Err(AttributeError)
    ensures r.Ok? ==> r.value.columns == FluxColumns
    ensures out.Some? && r.Ok? ==> |r.value.rows| == |SplitLines(out.value)|
    ensures out.Some? && r.Ok? ==> forall k :: 0 <= k < |SplitLines(out.value)| ==>
      && FluxRow(SplitLines(out.value)[k], ext).Ok?
      && r.value.rows[k] == FluxRow(SplitLines(out.value)[k], ext).value
                              .(status := FluxState(FluxRow(SplitLines(out.value)[k], ext).value.status))
    ensures out.Some? && r.Err? ==> exists k :: 0 <= k < |SplitLines(out.value)| && FluxRow(SplitLines(out.value)[k], ext).Err?
  {
    match out
    case None => Err(AttributeError)
    case Some(text) =>
      var rows :- FluxRows(SplitLines(text), ext);
      var r1 := Rewrite(rows, "R", "running");
      var r2 := Rewrite(r1, "S", "pending");
      var r3 := Rewrite(r2, "C", "error");
      FluxRewritesAreStateMap(rows);
      Ok(Table(FluxColumns, Rewrite(r3, "CD", "finished")))
  }

  function SgeRow(j: SgeJob): Row {
    Row(None, j.number, j.owner, j.name, j.state)
  }

  /** SGE: the running jobs, then the pending ones. With both sections empty the merged
      frame has no `state` column and the rewrite raises AttributeError. */
  function SgeStatus(out: Option<string>, ext: Foreign): (r: Result<Table>)
    ensures r.Ok? ==> r.value.columns == SgeColumns && r.value.rows != []
    ensures r.Ok? <==> ext.sgeXml(out).Ok? && ext.sgeXml(out).value.0 + ext.sgeXml(out).value.1 != []
    ensures r.Ok? ==>
      var running := ext.sgeXml(out).value.0;
      var jobs := running + ext.sgeXml(out).value.1;
      && |r.value.rows| == |jobs|
      && (forall k :: 0 <= k < |jobs| ==> r.value.rows[k] == SgeRow(jobs[k]).(status := SgeState(jobs[k].state)))
      && (forall k :: 0 <= k < |running| ==> r.value.rows[k].jobid == running[k].number)
  {
    var sections :- ext.sgeXml(out);
    var jobs := sections.0 + sections.1;
    if jobs == [] then Err(AttributeError)
    else
      var rows := seq(|jobs|, k requires 0 <= k < |jobs| => SgeRow(jobs[k]));
      var r1 := Rewrite(rows, "r", "running");
      var r2 := Rewrite(r1, "qw", "pending");
      SgeRewritesAreStateMap(rows);
      Ok(Table(SgeColumns, Rewrite(r2, "Eqw", "error")))
  }

  /** `convert_queue_status`; Torque, LSF and Moab do not implement it. */
  function ConvertQueueStatus(k: Kind, out: Option<string>, ext: Foreign): (r: Result<Option<Table>>)
    ensures k in {Torque, Lsf, Moab} ==> r == Err(NotImplementedError)
    ensures r.Ok? && r.value.None? ==> k == Gent
    ensures r.Ok? && r.value.Some? ==> UserColumn in r.value.value.columns
  {
    match k
    case Slurm => SlurmStatus(out, false)
    case Gent => SlurmStatus(out, true)
    case Flux =>
      var t :- FluxStatus(out, ext);
      Ok(Some(t))
    case Sge =>
      var t :- SgeStatus(out, ext);
      Ok(Some(t))
    case _ => Err(NotImplementedError)
  }

  // ---------------------------------------------------------------- listing round trip

  /** A job as a Slurm-family listing line shows it. */
  datatype Listed = Listed(id: int, user: string, state: string, name: string)

  predicate FieldText(s: string) {
    '|' !in s && NoBreak(s)
  }

  function ListingLine(j: Listed): string {
    IntToString(j.id) + "|" + j.user + "|" + j.state + "|" + j.name
  }

  const ClusterHeader := "CLUSTER: "

  /** A name that survives the header's `split(':')[1].strip()` unchanged. */
  predicate CleanHeaderName(c: string) {
    && ':' !in c && NoBreak(c) && c != []
    && !IsSpace(c[0]) && !IsSpace(c[|c| - 1])
  }

  lemma ListingLineFields(j: Listed)
    requires FieldText(j.user) && FieldText(j.state) && FieldText(j.name)
    ensures Split(ListingLine(j), '|') == [IntToString(j.id), j.user, j.state, j.name]
  {
    var num := IntToString(j.id);
    IntToStringDigits(j.id);
    assert '|' !in num;
    var tail2 := j.state + ['|'] + j.name;
    var tail1 := j.user + ['|'] + tail2;
    assert ListingLine(j) == num + ['|'] + tail1;
    calc {
      Split(num + ['|'] + tail1, '|');
      { SplitAt(num, '|', tail1); }
      [num] + Split(tail1, '|');
      { SplitAt(j.user, '|', tail2); }
      [num] + ([j.user] + Split(tail2, '|'));
      { SplitAt(j.state, '|', j.name); }
      [num] + ([j.user] + ([j.state] + Split(j.name, '|')));
      { SplitHead(j.name, '|'); }
      [num] + ([j.user] + ([j.state] + [j.name]));
    }
  }

  lemma ListingLinePlain(j: Listed)
    requires FieldText(j.user) && FieldText(j.state) && FieldText(j.name)
    ensures ListingLine(j) != [] && NoBreak(ListingLine(j))
  {
    var num := IntToString(j.id);
    IntToStringPlain(j.id);
    var a := num + "|";
    NoBreakAppend(num, "|");
    var b := a + j.user;
    NoBreakAppend(a, j.user);
    var c := b + "|";
    NoBreakAppend(b, "|");
    var d := c + j.state;
    NoBreakAppend(c, j.state);
    var e := d + "|";
    NoBreakAppend(d, "|");
    NoBreakAppend(e, j.name);
  }

  lemma HeaderFields(c: string)
    requires CleanHeaderName(c)
    ensures Split(ClusterHeader + c, ':') == ["CLUSTER", " " + c]
  {
    assert ClusterHeader + c == "CLUSTER" + [':'] + (" " + c);
    assert ':' !in " " + c;
    SplitAt("CLUSTER", ':', " " + c);
    SplitHead(" " + c, ':');
  }

  lemma HeaderStrip(c: string)
    requires CleanHeaderName(c)
    ensures Strip(" " + c) == c
  {
    var t := " " + c;
    assert t[|t| - 1] == c[|c| - 1];
    assert RStrip(t) == t;
    assert t[1..] == c;
    StripTrimmed(c);
  }

  lemma HeaderPlain(c: string)
    requires CleanHeaderName(c)
    ensures NoBreak(ClusterHeader + c) && ClusterHeader + c != []
  {
    NoBreakAppend(ClusterHeader, c);
  }

  function ListingLines(jobs: seq<Listed>): (r: seq<string>)
    ensures |r| == |jobs|
  {
    seq(|jobs|, k requires 0 <= k < |jobs| => ListingLine(jobs[k]))
  }

  /** Lines that each parse to the expected row parse, together, to the expected rows. */
  lemma SlurmRowsAll(lines: seq<string>, c: string, rows: seq<Row>)
    requires |rows| == |lines|
    requires forall k :: 0 <= k < |lines| ==> SlurmRow(lines[k], c) == Ok(rows[k])
    ensures SlurmRows(lines, c) == Ok(rows)
  {
    MapResultsAll(lines, SlurmRowOf(c), rows);
  }

  function ExpectedRow(j: Listed, c: string): Row {
    Row(Some(c), j.id, j.user, j.name, Lower(j.state))
  }

  lemma ListingRowParses(j: Listed, c: string)
    requires FieldText(j.user) && FieldText(j.state) && FieldText(j.name)
    ensures SlurmRow(ListingLine(j), c) == Ok(ExpectedRow(j, c))
  {
    ListingLineFields(j);
    IntRoundTrip(j.id);
  }

  /** The listing text splits back into its header and job lines. */
  lemma ListingSplitsIntoLines(c: string, jobs: seq<Listed>)
    requires CleanHeaderName(c)
    requires forall k :: 0 <= k < |jobs| ==>
      FieldText(jobs[k].user) && FieldText(jobs[k].state) && FieldText(jobs[k].name)
    ensures SplitLines(Join([ClusterHeader + c] + ListingLines(jobs), "\n")) == [ClusterHeader + c] + ListingLines(jobs)
  {
    var lines := [ClusterHeader + c] + ListingLines(jobs);
    HeaderPlain(c);
    forall k | 0 <= k < |lines|
      ensures lines[k] != [] && NoBreak(lines[k])
    {
      if k > 0 {
        ListingLinePlain(jobs[k - 1]);
      }
    }
    SplitLinesJoin(lines);
  }

  /** Rendering jobs as a Slurm-family listing and parsing it back gives one row per job,
      in order, with the cluster from the header and the state lower-cased. */
  lemma SlurmListingRoundTrip(c: string, jobs: seq<Listed>, gent: bool)
    requires CleanHeaderName(c) && jobs != []
    requires forall k :: 0 <= k < |jobs| ==>
      FieldText(jobs[k].user) && FieldText(jobs[k].state) && FieldText(jobs[k].name)
    ensures var out := Join([ClusterHeader + c] + ListingLines(jobs), "\n");
      SlurmStatus(Some(out), gent) ==
        Ok(Some(Table(SlurmColumns, seq(|jobs|, k requires 0 <= k < |jobs| => ExpectedRow(jobs[k], c)))))
  {
    var out := Join([ClusterHeader + c] + ListingLines(jobs), "\n");
    var lines := [ClusterHeader + c] + ListingLines(jobs);
    var rows := seq(|jobs|, k requires 0 <= k < |jobs| => ExpectedRow(jobs[k], c));
    ListingSplitsIntoLines(c, jobs);
    assert SplitLines(out) == lines;
    HeaderFields(c);
    HeaderStrip(c);
    assert lines[1..] == ListingLines(jobs);
    forall k | 0 <= k < |jobs|
      ensures SlurmRow(ListingLines(jobs)[k], c) == Ok(rows[k])
    {
      ListingRowParses(jobs[k], c);
    }
    SlurmRowsAll(ListingLines(jobs), c, rows);
  }
}
