/** The remote adapters: a queue adapter whose scheduler runs on another machine, reached
    over SSH. Every operation becomes a command line of the `pysqa` program on the login
    node; files move between a local directory tree and its mirror on the remote side.

    Three versions exist: the base one (a configured base adapter underneath), the
    intermediate one (the utils adapter underneath, numbers must already be text) and the
    oldest one (the old adapter underneath, key files only, `pysqa.cmd` as program). The
    SSH transport itself is a parameter: `Shell` stands for "run this on the login node and
    return its standard output". */
module Remote {
  import opened Wrappers
  import opened PyText
  import opened Validate
  import opened Tables
  import Paths
  import Adapter

  datatype Version = BaseRemote | ExtRemote | OldRemote

  /** The local adapter each version extends. */
  function Parent(v: Version): Adapter.Generation {
    match v
    case BaseRemote => Adapter.WithConfig
    case ExtRemote => Adapter.UtilsBasic
    case OldRemote => Adapter.OldBasic
  }

  /** Runs a command (or whatever object the caller handed over, hence the Option) on the
      login node and returns its standard output. */
  type Shell = Option<string> -> string

  // ---------------------------------------------------------------- words

  /** Words each followed by one space, the way the command strings are assembled. */
  function Spaced(ws: seq<string>): string {
    if ws == [] then "" else ws[0] + " " + Spaced(ws[1..])
  }

  predicate Word(w: string) {
    w != [] && NoSpace(w)
  }

  predicate Words(ws: seq<string>) {
    forall k :: 0 <= k < |ws| ==> Word(ws[k])
  }

  predicate Blank(t: string) {
    forall k :: 0 <= k < |t| ==> IsSpace(t[k])
  }

  lemma {:induction false} SpacedAppend(a: seq<string>, b: seq<string>)
    ensures Spaced(a + b) == Spaced(a) + Spaced(b)
    decreases |a|
  {
    if a == [] {
      assert a + b == b;
    } else {
      assert (a + b)[1..] == a[1..] + b;
      SpacedAppend(a[1..], b);
    }
  }

  /** `split()` takes space-separated words apart again. */
  lemma {:induction false} SpacedTokens(ws: seq<string>, t: string)
    requires Words(ws)
    ensures SplitWhitespace(Spaced(ws) + t) == ws + SplitWhitespace(t)
    decreases |ws|
  {
    if ws == [] {
      assert Spaced(ws) + t == t;
    } else {
      var w, rest := ws[0], Spaced(ws[1..]) + t;
      SpacedCons(ws, t);
      LeadingWord(w, rest);
      WordsTail(ws);
      SpacedTokens(ws[1..], t);
      ConsAppend(ws, SplitWhitespace(t));
    }
  }

  lemma SpacedCons(ws: seq<string>, t: string)
    requires ws != []
    ensures Spaced(ws) + t == ws[0] + [' '] + (Spaced(ws[1..]) + t)
  {
  }

  /** A word followed by a space is the first token. */
  lemma LeadingWord(w: string, rest: string)
    requires Word(w)
    ensures SplitWhitespace(w + [' '] + rest) == [w] + SplitWhitespace(rest)
  {
    SplitWhitespaceAround(w, ' ', rest);
    SplitWhitespaceWord(w);
  }

  lemma WordsTail(ws: seq<string>)
    requires ws != [] && Words(ws)
    ensures Words(ws[1..])
  {
    forall k | 0 <= k < |ws| - 1 ensures Word(ws[1..][k]) {
      assert ws[1..][k] == ws[k + 1];
    }
  }

  lemma {:induction false} BlankTokens(t: string)
    requires Blank(t)
    ensures SplitWhitespace(t) == []
    decreases |t|
  {
    if t != [] {
      BlankTokens(t[1..]);
    }
  }

  /** A word followed by nothing but white space is a single token. */
  lemma WordThenBlank(w: string, t: string)
    requires Word(w) && Blank(t)
    ensures SplitWhitespace(w + t) == [w]
  {
    SplitWhitespaceWord(w);
    if t == [] {
      assert w + t == w;
    } else {
      assert w + t == w + [t[0]] + t[1..];
      SplitWhitespaceAround(w, t[0], t[1..]);
      BlankTokens(t[1..]);
    }
  }

  // ---------------------------------------------------------------- command lines

  /** The module the login node runs: the oldest version still uses `pysqa.cmd`. */
  function Program(v: Version): string {
    if v == OldRemote then "pysqa.cmd" else "pysqa"
  }

  function PrefixWords(v: Version, dir: string): seq<string> {
    ["python", "-m", Program(v), "--config_directory", dir]
  }

  /** `_remote_command()`: the program and the configuration directory on the login node,
      each word followed by one space. */
  function Prefix(v: Version, dir: string): string {
    Spaced(PrefixWords(v, dir))
  }

  lemma WordsAppend(a: seq<string>, b: seq<string>)
    requires Words(a) && Words(b)
    ensures Words(a + b)
  {
    assert forall k :: |a| <= k < |a + b| ==> (a + b)[k] == b[k - |a|];
  }

  /** `_get_queue_status_command()`: the login node reads it as the program words followed
      by `--status`. */
  function StatusCommand(v: Version, dir: string): (r: string)
    ensures Word(dir) ==> SplitWhitespace(r) == PrefixWords(v, dir) + ["--status"]
  {
    StatusTokens(v, dir);
    Prefix(v, dir) + "--status"
  }

  /** A command about one job: the login node reads it as the program words, the verb,
      `--id` and the id, and `int()` of the eighth word gives the same id back. */
  function JobCommand(v: Version, dir: string, verb: string, id: int): (r: string)
    ensures Word(dir) && Word(verb)
      ==> SplitWhitespace(r) == PrefixWords(v, dir) + [verb, "--id", IntToString(id)]
    ensures Word(dir) && Word(verb) ==> ParseInt(SplitWhitespace(r)[7]) == Ok(id)
  {
    JobTokens(v, dir, verb, id);
    Prefix(v, dir) + Spaced([verb, "--id"]) + IntToString(id)
  }

  /** `_delete_command(job_id)` */
  function DeleteCommand(v: Version, dir: string, id: int): (r: string)
    ensures Word(dir)
      ==> SplitWhitespace(r) == PrefixWords(v, dir) + ["--delete", "--id", IntToString(id)]
    ensures Word(dir) ==> ParseInt(SplitWhitespace(r)[7]) == Ok(id)
  {
    assert Word("--delete");
    JobCommand(v, dir, "--delete", id)
  }

  /** `_reservation_command(job_id)` */
  function ReservationCommand(v: Version, dir: string, id: int): (r: string)
    ensures Word(dir)
      ==> SplitWhitespace(r) == PrefixWords(v, dir) + ["--reservation", "--id", IntToString(id)]
    ensures Word(dir) ==> ParseInt(SplitWhitespace(r)[7]) == Ok(id)
  {
    assert Word("--reservation");
    JobCommand(v, dir, "--reservation", id)
  }

  lemma Words5(a: string, b: string, c: string, d: string, e: string)
    requires Word(a) && Word(b) && Word(c) && Word(d) && Word(e)
    ensures Words([a, b, c, d, e])
  {
  }

  lemma ProgramWord(v: Version)
    ensures Word("python") && Word("-m") && Word(Program(v))
  {
    assert Word("python") && Word("-m");
    assert Word("pysqa") && Word("pysqa.cmd");
  }

  lemma PrefixWordsClean(v: Version, dir: string)
    requires Word(dir)
    ensures Words(PrefixWords(v, dir))
  {
    ProgramWord(v);
    assert Word("--config_directory");
    Words5("python", "-m", Program(v), "--config_directory", dir);
  }

  /** The status command's text splits into the program words and `--status`. */
  lemma StatusTokens(v: Version, dir: string)
    ensures Word(dir)
      ==> SplitWhitespace(Prefix(v, dir) + "--status") == PrefixWords(v, dir) + ["--status"]
  {
    if Word(dir) {
      assert Word("--status");
      PrefixThenWord(v, dir, "--status");
    }
  }

  /** The program words followed by one more word. */
  lemma PrefixThenWord(v: Version, dir: string, last: string)
    requires Word(dir) && Word(last)
    ensures SplitWhitespace(Prefix(v, dir) + last) == PrefixWords(v, dir) + [last]
  {
    PrefixWordsClean(v, dir);
    SpacedTokens(PrefixWords(v, dir), last);
    SplitWhitespaceWord(last);
  }

  /** A job command's text splits into the program words, the verb, `--id` and the id. */
  lemma JobTokens(v: Version, dir: string, verb: string, id: int)
    ensures Word(dir) && Word(verb)
      ==> var t := SplitWhitespace(Prefix(v, dir) + Spaced([verb, "--id"]) + IntToString(id));
          t == PrefixWords(v, dir) + [verb, "--id", IntToString(id)] && ParseInt(t[7]) == Ok(id)
  {
    if Word(dir) && Word(verb) {
      var p := PrefixWords(v, dir);
      var extra := [verb, "--id"];
      var n := IntToString(id);
      PrefixWordsClean(v, dir);
      assert Word("--id");
      assert Words(extra);
      SpacedAppend(p, extra);
      WordsAppend(p, extra);
      IntToStringPlain(id);
      SpacedTokens(p + extra, n);
      SplitWhitespaceWord(n);
      assert p + extra + [n] == p + [verb, "--id", n];
      IntRoundTrip(id);
    }
  }

  // ---------------------------------------------------------------- the submit command

  /** The arguments `_submit_command` takes; the three resources may be a number or text. */
  datatype SubmitOptions = SubmitOptions(
    queue: Option<string>,
    jobName: Option<string>,
    workingDirectory: Option<string>,
    cores: Option<Value>,
    memoryMax: Option<Value>,
    runTimeMax: Option<Value>,
    command: Option<string>)

  /** A command-line option and its value. */
  type Pairs = seq<(string, string)>

  /** The option names in the order `_submit_command` appends them. */
  function Rank(flag: string): nat {
    if flag == "--queue" then 0
    else if flag == "--job_name" then 1
    else if flag == "--working_directory" then 2
    else if flag == "--cores" then 3
    else if flag == "--memory" then 4
    else if flag == "--run_time" then 5
    else if flag == "--command" then 6
    else 7
  }

  lemma FlagRanks()
    ensures Rank("--queue") == 0 && Rank("--job_name") == 1 && Rank("--working_directory") == 2
    ensures Rank("--cores") == 3 && Rank("--memory") == 4 && Rank("--run_time") == 5
    ensures Rank("--command") == 6
  {
  }

  lemma FlagWords()
    ensures Word("--queue") && Word("--job_name") && Word("--working_directory")
    ensures Word("--cores") && Word("--memory") && Word("--run_time") && Word("--command")
  {
    LeadingFlagWords();
    assert Word("--cores");
    assert Word("--memory");
    assert Word("--run_time");
    assert Word("--command");
  }

  lemma LeadingFlagWords()
    ensures Word("--queue") && Word("--job_name") && Word("--working_directory")
  {
    assert Word("--queue");
    assert Word("--job_name");
    assert Word("--working_directory");
  }

  predicate Ordered(ps: Pairs) {
    forall i, j :: 0 <= i < j < |ps| ==> Rank(ps[i].0) < Rank(ps[j].0)
  }

  predicate Above(ps: Pairs, n: int) {
    forall k :: 0 <= k < |ps| ==> n < Rank(ps[k].0)
  }

  predicate WordPairs(ps: Pairs) {
    forall k :: 0 <= k < |ps| ==> Word(ps[k].0) && Word(ps[k].1)
  }

  /** The value of the first occurrence of `flag`. */
  function OptionValue(ps: Pairs, flag: string): Option<string> {
    if ps == [] then None
    else if ps[0].0 == flag then Some(ps[0].1)
    else OptionValue(ps[1..], flag)
  }

  function Flatten(ps: Pairs): (ws: seq<string>)
    ensures |ws| == 2 * |ps|
  {
    if ps == [] then [] else [ps[0].0, ps[0].1] + Flatten(ps[1..])
  }

  /** How a command line pairs each option with the word after it. */
  function Decode(ws: seq<string>): Pairs
    decreases |ws|
  {
    if |ws| < 2 then [] else [(ws[0], ws[1])] + Decode(ws[2..])
  }

  lemma {:induction false} DecodeFlatten(ps: Pairs)
    ensures Decode(Flatten(ps)) == ps
    decreases |ps|
  {
    if ps != [] {
      var ws := Flatten(ps);
      assert ws[2..] == Flatten(ps[1..]);
      DecodeFlatten(ps[1..]);
      assert ps == [ps[0]] + ps[1..];
    }
  }

  lemma {:induction false} FlattenWords(ps: Pairs)
    requires WordPairs(ps)
    ensures Words(Flatten(ps))
    decreases |ps|
  {
    if ps != [] {
      FlattenWords(ps[1..]);
      var ws := Flatten(ps);
      forall k | 0 <= k < |ws|
        ensures Word(ws[k])
      {
        if k >= 2 {
          assert ws[k] == Flatten(ps[1..])[k - 2];
        }
      }
    }
  }

  /** One option in front of those after it, when it was given. */
  function Prepend(flag: string, x: Option<string>, rest: Pairs): Pairs {
    if x.Some? then [(flag, x.value)] + rest else rest
  }

  /** Putting an option in front of options ranked after it keeps the fixed order. */
  lemma PrependKeepsOrder(flag: string, x: Option<string>, rest: Pairs)
    requires Above(rest, Rank(flag))
    ensures Above(Prepend(flag, x, rest), Rank(flag) - 1)
    ensures Ordered(rest) ==> Ordered(Prepend(flag, x, rest))
  {
    if x.Some? {
      assert Prepend(flag, x, rest)[1..] == rest;
    }
  }

  /** Putting a plain option with a plain value in front of plain options keeps them plain. */
  lemma PrependKeepsWords(flag: string, x: Option<string>, rest: Pairs)
    ensures Word(flag) && (x.Some? ==> Word(x.value)) && WordPairs(rest)
      ==> WordPairs(Prepend(flag, x, rest))
  {
    if x.Some? {
      assert Prepend(flag, x, rest)[1..] == rest;
    }
  }

  /** The option put in front is found first; the others are looked up behind it. */
  lemma PrependValue(flag: string, x: Option<string>, rest: Pairs, f: string)
    ensures OptionValue(Prepend(flag, x, rest), f)
      == if x.Some? && f == flag then x else OptionValue(rest, f)
  {
    if x.Some? {
      assert Prepend(flag, x, rest)[1..] == rest;
    }
  }

  /** How a resource value becomes text: the base version passes it through `str`; the
      others concatenate it as it is, which raises TypeError for a number. */
  function OptionText(v: Version, x: Option<Value>): (r: Result<Option<string>>)
    ensures r.Err? <==> v != BaseRemote && x.Some? && x.value.Num?
    ensures r.Err? ==> r.error == TypeError
    ensures r.Ok? ==> (r.value.Some? <==> x.Some?)
    ensures x.Some? && x.value.Text? ==> r == Ok(Some(x.value.s))
    ensures r.Ok? && x.Some? && x.value.Num? ==> ParseInt(r.value.value) == Ok(x.value.n)
    ensures r.Ok? && x.Some? && (x.value.Text? ==> Word(x.value.s)) ==> Word(r.value.value)
  {
    match x
    case None => Ok(None)
    case Some(Text(s)) => Ok(Some(s))
    case Some(Num(n)) =>
      if v == BaseRemote then
        IntRoundTrip(n);
        IntToStringPlain(n);
        Ok(Some(IntToString(n)))
      else Err(TypeError)
  }

  function Quoted(c: Option<string>): Option<string> {
    if c.Some? then Some("\"" + c.value + "\"") else None
  }

  predicate IsNumber(x: Option<Value>) {
    x.Some? && x.value.Num?
  }

  /** The resource options and the command, in their fixed order. */
  function ResourcePairs(cores: Option<string>, memory: Option<string>, runTime: Option<string>,
                         command: Option<string>): (r: Pairs)
    ensures Ordered(r) && Above(r, 2)
    ensures (cores.Some? ==> Word(cores.value)) && (memory.Some? ==> Word(memory.value))
      && (runTime.Some? ==> Word(runTime.value)) && (command.Some? ==> NoSpace(command.value))
      ==> WordPairs(r)
  {
    FlagRanks();
    FlagWords();
    assert command.Some? && NoSpace(command.value) ==> Word(Quoted(command).value);
    var p4 := Prepend("--command", Quoted(command), []);
    var p3 := Prepend("--run_time", runTime, p4);
    var p2 := Prepend("--memory", memory, p3);
    PrependKeepsOrder("--command", Quoted(command), []);
    PrependKeepsOrder("--run_time", runTime, p4);
    PrependKeepsOrder("--memory", memory, p3);
    PrependKeepsOrder("--cores", cores, p2);
    PrependKeepsWords("--command", Quoted(command), []);
    PrependKeepsWords("--run_time", runTime, p4);
    PrependKeepsWords("--memory", memory, p3);
    PrependKeepsWords("--cores", cores, p2);
    Prepend("--cores", cores, p2)
  }

  /** The options `_submit_command` appends, in its fixed order; numbers are a TypeError in
      the two older versions. */
  function OptionPairs(v: Version, o: SubmitOptions): (r: Result<Pairs>)
    ensures r.Err? <==> v != BaseRemote && (IsNumber(o.cores) || IsNumber(o.memoryMax) || IsNumber(o.runTimeMax))
    ensures r.Err? ==> r.error == TypeError
    ensures r.Ok? ==> Ordered(r.value)
    ensures r.Ok? && CleanOptions(o) ==> WordPairs(r.value)
  {
    var cores :- OptionText(v, o.cores);
    var memory :- OptionText(v, o.memoryMax);
    var runTime :- OptionText(v, o.runTimeMax);
    FlagRanks();
    FlagWords();
    var tail := ResourcePairs(cores, memory, runTime, o.command);
    var p3 := Prepend("--working_directory", o.workingDirectory, tail);
    var p2 := Prepend("--job_name", o.jobName, p3);
    PrependKeepsOrder("--working_directory", o.workingDirectory, tail);
    PrependKeepsOrder("--job_name", o.jobName, p3);
    PrependKeepsOrder("--queue", o.queue, p2);
    PrependKeepsWords("--working_directory", o.workingDirectory, tail);
    PrependKeepsWords("--job_name", o.jobName, p3);
    PrependKeepsWords("--queue", o.queue, p2);
    Ok(Prepend("--queue", o.queue, p2))
  }

  /** No option ranked at or below `n` occurs among pairs ranked above it. */
  lemma {:induction false} AboveAbsent(ps: Pairs, n: int, f: string)
    requires Above(ps, n) && Rank(f) <= n
    ensures OptionValue(ps, f) == None
    decreases |ps|
  {
    if ps != [] {
      assert n < Rank(ps[0].0);
      AboveAbsent(ps[1..], n, f);
    }
  }

  lemma ResourcePairsValues(cores: Option<string>, memory: Option<string>, runTime: Option<string>,
                            command: Option<string>)
    ensures var r := ResourcePairs(cores, memory, runTime, command);
      && OptionValue(r, "--cores") == cores && OptionValue(r, "--memory") == memory
      && OptionValue(r, "--run_time") == runTime && OptionValue(r, "--command") == Quoted(command)
  {
    var p4 := Prepend("--command", Quoted(command), []);
    var p3 := Prepend("--run_time", runTime, p4);
    var p2 := Prepend("--memory", memory, p3);
    assert ResourcePairs(cores, memory, runTime, command) == Prepend("--cores", cores, p2);
    assert "--memory" != "--cores" && "--run_time" != "--cores" && "--command" != "--cores";
    assert "--run_time" != "--memory" && "--command" != "--memory" && "--command" != "--run_time";
    PrependValue("--cores", cores, p2, "--cores");
    PrependValue("--cores", cores, p2, "--memory");
    PrependValue("--memory", memory, p3, "--memory");
    PrependValue("--cores", cores, p2, "--run_time");
    PrependValue("--memory", memory, p3, "--run_time");
    PrependValue("--run_time", runTime, p4, "--run_time");
    PrependValue("--cores", cores, p2, "--command");
    PrependValue("--memory", memory, p3, "--command");
    PrependValue("--run_time", runTime, p4, "--command");
    PrependValue("--command", Quoted(command), [], "--command");
    PrependValue("--memory", memory, p3, "--cores");
    PrependValue("--run_time", runTime, p4, "--cores");
    PrependValue("--command", Quoted(command), [], "--cores");
    PrependValue("--run_time", runTime, p4, "--memory");
    PrependValue("--command", Quoted(command), [], "--memory");
    PrependValue("--command", Quoted(command), [], "--run_time");
  }

  /** Each option carries the value it was given, once. */
  lemma OptionPairsValues(v: Version, o: SubmitOptions)
    requires OptionPairs(v, o).Ok?
    ensures var ps := OptionPairs(v, o).value;
      && OptionValue(ps, "--queue") == o.queue
      && OptionValue(ps, "--job_name") == o.jobName
      && OptionValue(ps, "--working_directory") == o.workingDirectory
      && OptionValue(ps, "--cores") == OptionText(v, o.cores).value
      && OptionValue(ps, "--memory") == OptionText(v, o.memoryMax).value
      && OptionValue(ps, "--run_time") == OptionText(v, o.runTimeMax).value
      && OptionValue(ps, "--command") == Quoted(o.command)
  {
    var cores := OptionText(v, o.cores).value;
    var memory := OptionText(v, o.memoryMax).value;
    var runTime := OptionText(v, o.runTimeMax).value;
    var tail := ResourcePairs(cores, memory, runTime, o.command);
    ResourcePairsValues(cores, memory, runTime, o.command);
    var p3 := Prepend("--working_directory", o.workingDirectory, tail);
    var p2 := Prepend("--job_name", o.jobName, p3);
    assert OptionPairs(v, o).value == Prepend("--queue", o.queue, p2);
    AboveAbsent(tail, 2, "--queue");
    AboveAbsent(tail, 2, "--job_name");
    AboveAbsent(tail, 2, "--working_directory");
    PrependValues(o.queue, o.jobName, o.workingDirectory, tail, "--queue");
    PrependValues(o.queue, o.jobName, o.workingDirectory, tail, "--job_name");
    PrependValues(o.queue, o.jobName, o.workingDirectory, tail, "--working_directory");
    PrependValues(o.queue, o.jobName, o.workingDirectory, tail, "--cores");
    PrependValues(o.queue, o.jobName, o.workingDirectory, tail, "--memory");
    PrependValues(o.queue, o.jobName, o.workingDirectory, tail, "--run_time");
    PrependValues(o.queue, o.jobName, o.workingDirectory, tail, "--command");
  }

  /** Looking an option up through the three leading options. */
  lemma PrependValues(queue: Option<string>, jobName: Option<string>, wd: Option<string>,
                      tail: Pairs, f: string)
    ensures var p3 := Prepend("--working_directory", wd, tail);
      var p2 := Prepend("--job_name", jobName, p3);
      OptionValue(Prepend("--queue", queue, p2), f)
      == if queue.Some? && f == "--queue" then queue
         else if jobName.Some? && f == "--job_name" then jobName
         else if wd.Some? && f == "--working_directory" then wd
         else OptionValue(tail, f)
  {
    var p3 := Prepend("--working_directory", wd, tail);
    var p2 := Prepend("--job_name", jobName, p3);
    PrependValue("--queue", queue, p2, f);
    PrependValue("--job_name", jobName, p3, f);
    PrependValue("--working_directory", wd, tail, f);
  }

  /** Option values that survive a trip through white-space splitting: words, and a command
      without white space (its quotes keep it one word). */
  predicate CleanOptions(o: SubmitOptions) {
    && (o.queue.Some? ==> Word(o.queue.value))
    && (o.jobName.Some? ==> Word(o.jobName.value))
    && (o.workingDirectory.Some? ==> Word(o.workingDirectory.value))
    && (o.cores.Some? && o.cores.value.Text? ==> Word(o.cores.value.s))
    && (o.memoryMax.Some? && o.memoryMax.value.Text? ==> Word(o.memoryMax.value.s))
    && (o.runTimeMax.Some? && o.runTimeMax.value.Text? ==> Word(o.runTimeMax.value.s))
    && (o.command.Some? ==> NoSpace(o.command.value))
  }

  /** `_submit_command(...)`: the program words, `--submit`, then every given option and its
      value followed by one space each. */
  function SubmitCommand(v: Version, dir: string, o: SubmitOptions): (r: Result<string>)
    ensures r.Err? <==> OptionPairs(v, o).Err?
    ensures r.Err? ==> r.error == TypeError
  {
    var ps :- OptionPairs(v, o);
    Ok(Prefix(v, dir) + Spaced(["--submit"] + Flatten(ps)))
  }

  /** The options the remote command line reads: the pairs after the five program words
      and `--submit`. */
  function ReadSubmitOptions(cmd: string): Pairs {
    var ws := SplitWhitespace(cmd);
    if |ws| < 6 then [] else Decode(ws[6..])
  }

  /** The submit command is the program words, `--submit` and the flattened options, each
      followed by one space. */
  lemma SubmitCommandSpaced(v: Version, dir: string, o: SubmitOptions)
    requires OptionPairs(v, o).Ok?
    ensures SubmitCommand(v, dir, o)
      == Ok(Spaced(PrefixWords(v, dir) + (["--submit"] + Flatten(OptionPairs(v, o).value))))
  {
    SpacedAppend(PrefixWords(v, dir), ["--submit"] + Flatten(OptionPairs(v, o).value));
  }

  /** `split()` gives back the words of a spaced command. */
  lemma SpacedWords(ws: seq<string>)
    requires Words(ws)
    ensures SplitWhitespace(Spaced(ws)) == ws
  {
    assert Spaced(ws) + "" == Spaced(ws);
    SpacedTokens(ws, "");
    assert SplitWhitespace("") == [];
  }

  /** With plain words throughout, `split()` gives back the words the submit command was
      assembled from. */
  lemma SubmitCommandTokens(v: Version, dir: string, o: SubmitOptions)
    requires Word(dir) && CleanOptions(o)
    requires SubmitCommand(v, dir, o).Ok?
    ensures SplitWhitespace(SubmitCommand(v, dir, o).value)
      == PrefixWords(v, dir) + (["--submit"] + Flatten(OptionPairs(v, o).value))
  {
    var ps := OptionPairs(v, o).value;
    var p := PrefixWords(v, dir);
    var rest := ["--submit"] + Flatten(ps);
    SubmitCommandSpaced(v, dir, o);
    PrefixWordsClean(v, dir);
    assert Word("--submit");
    FlattenWords(ps);
    WordsAppend(["--submit"], Flatten(ps));
    WordsAppend(p, rest);
    SpacedWords(p + rest);
  }

  /** The login node reads back every option the submit command was built from, in the
      fixed order. */
  lemma SubmitCommandReadBack(v: Version, dir: string, o: SubmitOptions)
    requires Word(dir) && CleanOptions(o)
    requires SubmitCommand(v, dir, o).Ok?
    ensures SplitWhitespace(SubmitCommand(v, dir, o).value)
      == PrefixWords(v, dir) + ["--submit"] + Flatten(OptionPairs(v, o).value)
    ensures ReadSubmitOptions(SubmitCommand(v, dir, o).value) == OptionPairs(v, o).value
  {
    var ps := OptionPairs(v, o).value;
    var p := PrefixWords(v, dir);
    SubmitCommandTokens(v, dir, o);
    assert p + (["--submit"] + Flatten(ps)) == p + ["--submit"] + Flatten(ps);
    assert (p + ["--submit"] + Flatten(ps))[6..] == Flatten(ps);
    DecodeFlatten(ps);
  }

  /** The command of the remote adapter test, assembled by the intermediate version. */
  lemma SubmitCommandExample()
    ensures SubmitCommand(ExtRemote, ExampleDir(), ExampleOptions())
      == Ok(Prefix(ExtRemote, ExampleDir()) + Spaced(["--submit"] + Flatten(ExamplePairs())))
  {
    ExampleOptionPairs();
  }

  function ExampleDir(): string {
    "/u/share/pysqa/resources/queues/"
  }

  /** The arguments of the remote adapter test. */
  function ExampleOptions(): SubmitOptions {
    SubmitOptions(Some("remote"), Some("test"), Some("/home/localuser/projects/test"),
      Some(Text("1")), Some(Text("1")), Some(Text("1")), Some("/bin/true"))
  }

  function ExamplePairs(): Pairs {
    [("--queue", "remote"), ("--job_name", "test"),
     ("--working_directory", "/home/localuser/projects/test"), ("--cores", "1"),
     ("--memory", "1"), ("--run_time", "1"), ("--command", "\"/bin/true\"")]
  }

  lemma ExampleOptionPairs()
    ensures OptionPairs(ExtRemote, ExampleOptions()) == Ok(ExamplePairs())
  {
    OptionPairsAllGiven(ExtRemote, "remote", "test", "/home/localuser/projects/test", "1", "1", "1",
      "/bin/true");
    assert "\"" + "/bin/true" + "\"" == "\"/bin/true\"";
  }

  /** With every option given and the resources as text, each option appears once, in the
      fixed order, the command quoted. */
  lemma OptionPairsAllGiven(v: Version, q: string, n: string, d: string, c: string, m: string,
                            t: string, cmd: string)
    ensures OptionPairs(v, SubmitOptions(Some(q), Some(n), Some(d), Some(Text(c)), Some(Text(m)),
        Some(Text(t)), Some(cmd)))
      == Ok([("--queue", q), ("--job_name", n), ("--working_directory", d), ("--cores", c),
             ("--memory", m), ("--run_time", t), ("--command", "\"" + cmd + "\"")])
  {
    var o := SubmitOptions(Some(q), Some(n), Some(d), Some(Text(c)), Some(Text(m)), Some(Text(t)),
      Some(cmd));
    var tail := ResourcePairs(Some(c), Some(m), Some(t), Some(cmd));
    OptionPairsOfTexts(v, o, c, m, t);
    ResourcePairsAllGiven(c, m, t, cmd);
    var p1 := Prepend("--queue", Some(q), Prepend("--job_name", Some(n),
      Prepend("--working_directory", Some(d), tail)));
    assert p1 == [("--queue", q), ("--job_name", n), ("--working_directory", d)] + tail;
    assert p1 == [("--queue", q), ("--job_name", n), ("--working_directory", d), ("--cores", c),
      ("--memory", m), ("--run_time", t), ("--command", "\"" + cmd + "\"")];
  }

  /** Resources given as text go through unchanged, whatever the version. */
  lemma OptionPairsOfTexts(v: Version, o: SubmitOptions, c: string, m: string, t: string)
    requires o.cores == Some(Text(c)) && o.memoryMax == Some(Text(m)) && o.runTimeMax == Some(Text(t))
    ensures OptionPairs(v, o) == Ok(Prepend("--queue", o.queue, Prepend("--job_name", o.jobName,
      Prepend("--working_directory", o.workingDirectory,
        ResourcePairs(Some(c), Some(m), Some(t), o.command)))))
  {
  }

  lemma ResourcePairsAllGiven(c: string, m: string, t: string, cmd: string)
    ensures ResourcePairs(Some(c), Some(m), Some(t), Some(cmd))
      == [("--cores", c), ("--memory", m), ("--run_time", t), ("--command", "\"" + cmd + "\"")]
  {
  }

  // ---------------------------------------------------------------- other remote commands

  /** The argument of `_create_remote_dir`: one directory, a list, or anything else. */
  datatype DirArg = OneDir(path: string) | DirList(paths: seq<string>) | OtherArg

  /** `_create_remote_dir(directory)`: one `mkdir -p` for a string or for a whole list, a
      TypeError for any other argument. */
  function MkdirCommand(d: DirArg): (r: Result<string>)
    ensures r.Err? <==> d.OtherArg?
    ensures r.Err? ==> r.error == TypeError
  {
    match d
    case OneDir(p) => Ok("mkdir -p " + p)
    case DirList(ps) => Ok("mkdir -p " + Spaced(ps))
    case OtherArg => Err(TypeError)
  }

  /** The shell sees `mkdir`, `-p` and then exactly the requested directories. */
  lemma MkdirCommandWords(d: DirArg)
    requires d.OneDir? ==> Word(d.path)
    requires d.DirList? ==> Words(d.paths)
    ensures d.OneDir? ==> SplitWhitespace(MkdirCommand(d).value) == ["mkdir", "-p", d.path]
    ensures d.DirList? ==> SplitWhitespace(MkdirCommand(d).value) == ["mkdir", "-p"] + d.paths
  {
    assert Spaced(["mkdir", "-p"]) == "mkdir -p ";
    assert Word("mkdir") && Word("-p");
    assert Words(["mkdir", "-p"]);
    match d
    case OneDir(p) =>
      SpacedTokens(["mkdir", "-p"], p);
      SplitWhitespaceWord(p);
    case DirList(ps) =>
      SpacedAppend(["mkdir", "-p"], ps);
      assert Words(["mkdir", "-p"] + ps);
      SpacedTokens(["mkdir", "-p"] + ps, "");
      assert SplitWhitespace("") == [];
      assert Spaced(["mkdir", "-p"] + ps) + "" == MkdirCommand(d).value;
    case OtherArg =>
  }

  /** `int(output.split()[-1])`: the last word of the output is the job id; an output with
      no word at all is an IndexError. */
  function JobIdFromOutput(out: string): (r: Result<int>)
    ensures SplitWhitespace(out) == [] <==> r == Err(IndexError)
    ensures r.Err? ==> r.error == IndexError || r.error == ValueError
  {
    var toks := SplitWhitespace(out);
    if toks == [] then Err(IndexError)
    else
      var r := ParseInt(toks[|toks| - 1]);
      assert r.Err? ==> r.error == ValueError;
      r
  }

  /** Whatever precedes it, a job id printed last is the one read. */
  lemma JobIdFromOutputReadsLastWord(a: string, id: int, t: string)
    requires Blank(t)
    ensures JobIdFromOutput(a + " " + IntToString(id) + t) == Ok(id)
  {
    var n := IntToString(id);
    IntToStringPlain(id);
    WordThenBlank(n, t);
    assert a + " " + n + t == a + [' '] + (n + t);
    SplitWhitespaceAround(a, ' ', n + t);
    IntRoundTrip(id);
  }

  // ---------------------------------------------------------------- configuration

  /** A value of the YAML configuration. */
  datatype Setting = SText(text: string) | SBool(b: bool) | SInt(n: int)

  type RemoteConfig = map<string, Setting>

  /** Python truth: empty text, False and 0 are false. */
  predicate Truthy(s: Setting) {
    match s
    case SText(t) => t != []
    case SBool(b) => b
    case SInt(n) => n != 0
  }

  function AsText(s: Setting): (r: Result<string>)
    ensures r.Ok? <==> s.SText?
    ensures r.Err? ==> r.error == TypeError
  {
    if s.SText? then Ok(s.text) else Err(TypeError)
  }

  /** `os.path.expanduser(p)` for `~` and `~/...` with `home` as the home directory. */
  function ExpandUser(home: string, p: string): (r: string)
    ensures !(p != [] && p[0] == '~') ==> r == p
  {
    if p != [] && p[0] == '~' && (|p| == 1 || p[1] == '/') then
      var e := Paths.TrimSlashes(home) + p[1..];
      if e == [] then "/" else e
    else p
  }

  /** `os.path.abspath(os.path.expanduser(p))`, rendered; TypeError for a value that is not
      text. */
  function LocalPath(cwd: seq<string>, home: string, s: Setting): (r: Result<string>)
    ensures r.Ok? <==> s.SText?
    ensures r.Err? ==> r.error == TypeError
    ensures r.Ok? ==> r.value != [] && r.value[0] == '/'
  {
    if s.SText? then Ok(Paths.Render(Paths.AbsPath(cwd, ExpandUser(home, s.text)))) else Err(TypeError)
  }

  function Get(c: RemoteConfig, key: string): (r: Result<Setting>)
    ensures r.Ok? <==> key in c
    ensures r.Err? ==> r.error == KeyError
  {
    if key in c then Ok(c[key]) else Err(KeyError)
  }

  function GetOr(c: RemoteConfig, key: string, default: Setting): Setting {
    if key in c then c[key] else default
  }

  function Optional(c: RemoteConfig, key: string): Option<Setting> {
    if key in c then Some(c[key]) else None
  }

  /** The SSH settings an adapter keeps from its configuration. */
  datatype Settings = Settings(
    host: Setting,
    username: Setting,
    knownHosts: string,
    key: Option<string>,
    password: Option<Setting>,
    askForPassword: Setting,
    keyPassphrase: Option<Setting>,
    twoFactor: Setting,
    authenticatorService: Option<Setting>,
    proxyHost: Option<Setting>,
    remoteConfigDir: Setting,
    remotePath: Setting,
    localPath: string,
    deleteFileOnRemote: Setting,
    port: Setting,
    continuous: Setting)

  /** The configuration has every key the constructor reads unconditionally, and the
      paths it expands are text. */
  predicate ConfigReadable(v: Version, c: RemoteConfig) {
    && "ssh_host" in c && "ssh_username" in c && "known_hosts" in c
    && "ssh_remote_config_dir" in c && "ssh_remote_path" in c && "ssh_local_path" in c
    && (v == OldRemote ==> "ssh_key" in c)
    && c["known_hosts"].SText? && c["ssh_local_path"].SText?
    && ("ssh_key" in c ==> c["ssh_key"].SText?)
  }

  /** The constructors of the two newer versions: the required keys are read, the optional
      ones default (port 22, delete on remote, no continuous connection, no two-factor, no
      password prompt), and naming an authenticator service switches two-factor on. */
  function ReadSettings(c: RemoteConfig, cwd: seq<string>, home: string): (r: Result<Settings>)
    ensures r.Ok? <==> ConfigReadable(BaseRemote, c)
    ensures r.Err? ==> r.error == KeyError || r.error == TypeError
    ensures r.Ok? ==>
      && r.value.port == GetOr(c, "ssh_port", SInt(22))
      && r.value.deleteFileOnRemote == GetOr(c, "ssh_delete_file_on_remote", SBool(true))
      && r.value.continuous == GetOr(c, "ssh_continous_connection", SBool(false))
      && r.value.askForPassword == GetOr(c, "ssh_ask_for_password", SBool(false))
      && (r.value.key.Some? <==> "ssh_key" in c)
      && r.value.password == Optional(c, "ssh_password")
      && r.value.authenticatorService == Optional(c, "ssh_authenticator_service")
      && ("ssh_authenticator_service" in c ==> r.value.twoFactor == SBool(true))
      && ("ssh_authenticator_service" !in c ==>
            r.value.twoFactor == GetOr(c, "ssh_two_factor_authentication", SBool(false)))
  {
    var host :- Get(c, "ssh_host");
    var username :- Get(c, "ssh_username");
    var knownHostsSetting :- Get(c, "known_hosts");
    var knownHosts :- LocalPath(cwd, home, knownHostsSetting);
    var keyPath :- if "ssh_key" in c then
        (match LocalPath(cwd, home, c["ssh_key"])
         case Ok(p) => Ok(Some(p))
         case Err(e) => Err(e))
      else Ok(None);
    var ask := GetOr(c, "ssh_ask_for_password", SBool(false));
    var twoFactor := if "ssh_authenticator_service" in c then SBool(true)
      else GetOr(c, "ssh_two_factor_authentication", SBool(false));
    var remoteConfigDir :- Get(c, "ssh_remote_config_dir");
    var remotePath :- Get(c, "ssh_remote_path");
    var localPathSetting :- Get(c, "ssh_local_path");
    var localPath :- LocalPath(cwd, home, localPathSetting);
    Ok(Settings(host, username, knownHosts, keyPath, Optional(c, "ssh_password"), ask,
      Optional(c, "ssh_key_passphrase"), twoFactor, Optional(c, "ssh_authenticator_service"),
      Optional(c, "ssh_proxy_host"), remoteConfigDir, remotePath, localPath,
      GetOr(c, "ssh_delete_file_on_remote", SBool(true)), GetOr(c, "ssh_port", SInt(22)),
      GetOr(c, "ssh_continous_connection", SBool(false))))
  }

  /** The constructor of the oldest version: a key file is required, there is no password
      or two-factor support, and the continuous connection is on as soon as its key is
      present, whatever its value. */
  function ReadOldSettings(c: RemoteConfig, cwd: seq<string>, home: string): (r: Result<Settings>)
    ensures r.Ok? <==> ConfigReadable(OldRemote, c)
    ensures r.Err? ==> r.error == KeyError || r.error == TypeError
    ensures r.Ok? ==>
      && r.value.port == GetOr(c, "ssh_port", SInt(22))
      && r.value.deleteFileOnRemote == GetOr(c, "ssh_delete_file_on_remote", SBool(true))
      && r.value.continuous == SBool("ssh_continous_connection" in c)
      && r.value.key.Some? && r.value.password.None? && !Truthy(r.value.askForPassword)
  {
    var host :- Get(c, "ssh_host");
    var username :- Get(c, "ssh_username");
    var knownHostsSetting :- Get(c, "known_hosts");
    var knownHosts :- LocalPath(cwd, home, knownHostsSetting);
    var keySetting :- Get(c, "ssh_key");
    var keyPath :- LocalPath(cwd, home, keySetting);
    var remoteConfigDir :- Get(c, "ssh_remote_config_dir");
    var remotePath :- Get(c, "ssh_remote_path");
    var localPathSetting :- Get(c, "ssh_local_path");
    var localPath :- LocalPath(cwd, home, localPathSetting);
    Ok(Settings(host, username, knownHosts, Some(keyPath), None, SBool(false), None,
      SBool(false), None, None, remoteConfigDir, remotePath, localPath,
      GetOr(c, "ssh_delete_file_on_remote", SBool(true)), GetOr(c, "ssh_port", SInt(22)),
      SBool("ssh_continous_connection" in c)))
  }

  // ---------------------------------------------------------------- authentication

  datatype AuthMethod =
    | KeyAndPassphrase
    | KeyFile
    | Password
    | AskPassword
    | PasswordAndAuthenticator
    | PasswordAndSecondFactor
    | AskPasswordAndSecondFactor

  /** The order in which `_open_ssh_connection` tries the methods. */
  const AuthOrder: seq<AuthMethod> := [KeyAndPassphrase, KeyFile, Password, AskPassword,
    PasswordAndAuthenticator, PasswordAndSecondFactor, AskPasswordAndSecondFactor]

  function AuthRank(m: AuthMethod): (k: nat)
    ensures k < |AuthOrder| && AuthOrder[k] == m
  {
    match m
    case KeyAndPassphrase => 0
    case KeyFile => 1
    case Password => 2
    case AskPassword => 3
    case PasswordAndAuthenticator => 4
    case PasswordAndSecondFactor => 5
    case AskPasswordAndSecondFactor => 6
  }

  /** The settings under which each method, taken on its own, would be used. */
  predicate Admits(m: AuthMethod, s: Settings) {
    match m
    case KeyAndPassphrase => s.key.Some? && s.keyPassphrase.Some? && !Truthy(s.askForPassword)
    case KeyFile => s.key.Some? && !Truthy(s.askForPassword)
    case Password =>
      s.password.Some? && s.authenticatorService.None? && !Truthy(s.twoFactor) && !Truthy(s.askForPassword)
    case AskPassword => Truthy(s.askForPassword) && !Truthy(s.twoFactor)
    case PasswordAndAuthenticator => s.password.Some? && s.authenticatorService.Some? && Truthy(s.twoFactor)
    case PasswordAndSecondFactor => s.password.Some? && s.authenticatorService.None? && Truthy(s.twoFactor)
    case AskPasswordAndSecondFactor => Truthy(s.askForPassword) && Truthy(s.twoFactor)
  }

  /** The branch `_open_ssh_connection` takes. The newer versions use the first method of
      `AuthOrder` the settings admit and raise ValueError when there is none; the oldest
      version always connects with its key file. */
  function SelectAuth(v: Version, s: Settings): (r: Result<AuthMethod>)
    ensures v == OldRemote ==> r == Ok(KeyFile)
    ensures v != OldRemote ==> (r.Ok? <==> exists m :: Admits(m, s))
    ensures v != OldRemote && r.Ok? ==>
      Admits(r.value, s) && forall k :: 0 <= k < AuthRank(r.value) ==> !Admits(AuthOrder[k], s)
    ensures r.Err? ==> r.error == ValueError
  {
    var ask := Truthy(s.askForPassword);
    var twoFactor := Truthy(s.twoFactor);
    if v == OldRemote then Ok(KeyFile)
    else if s.key.Some? && s.keyPassphrase.Some? && !ask then
      assert Admits(KeyAndPassphrase, s);
      Ok(KeyAndPassphrase)
    else if s.key.Some? && !ask then
      assert Admits(KeyFile, s);
      Ok(KeyFile)
    else if s.password.Some? && s.authenticatorService.None? && !twoFactor && !ask then
      assert Admits(Password, s);
      Ok(Password)
    else if ask && !twoFactor then
      assert Admits(AskPassword, s);
      Ok(AskPassword)
    else if s.password.Some? && s.authenticatorService.Some? && twoFactor then
      assert Admits(PasswordAndAuthenticator, s);
      Ok(PasswordAndAuthenticator)
    else if s.password.Some? && s.authenticatorService.None? && twoFactor then
      assert Admits(PasswordAndSecondFactor, s);
      Ok(PasswordAndSecondFactor)
    else if ask && twoFactor then
      assert Admits(AskPasswordAndSecondFactor, s);
      Ok(AskPasswordAndSecondFactor)
    else
      Err(ValueError)
  }

  /** Exactly when the newer versions find no method: no prompt, no key, and no password or
      a password whose authenticator service was named while two-factor is off. */
  lemma SelectAuthFails(v: Version, s: Settings)
    requires v != OldRemote
    ensures SelectAuth(v, s).Err? <==>
      && !Truthy(s.askForPassword) && s.key.None?
      && (s.password.None? || (s.authenticatorService.Some? && !Truthy(s.twoFactor)))
  {
  }

  /** Settings read from a configuration never hit that last case: naming the service
      switches two-factor on, so an adapter fails to connect only when it has no key, no
      password and no prompt. */
  lemma ReadSettingsAuth(c: RemoteConfig, cwd: seq<string>, home: string)
    requires ReadSettings(c, cwd, home).Ok?
    ensures var s := ReadSettings(c, cwd, home).value;
      SelectAuth(BaseRemote, s).Err? <==> s.key.None? && s.password.None? && !Truthy(s.askForPassword)
  {
    SelectAuthFails(BaseRemote, ReadSettings(c, cwd, home).value);
  }

  /** The password test: a password, no key and no prompt use the password alone. */
  lemma PasswordAuthExample(s: Settings)
    requires s.key.None? && s.password.Some? && s.authenticatorService.None?
    requires !Truthy(s.askForPassword) && !Truthy(s.twoFactor)
    ensures SelectAuth(BaseRemote, s) == Ok(Password) && SelectAuth(ExtRemote, s) == Ok(Password)
  {
  }

  // ---------------------------------------------------------------- paths

  /** `_get_file_transfer(file, local_dir, remote_dir)`: the place of `file` relative to
      `localDir`, re-rooted at `remoteDir` and made absolute. An empty file name is the
      ValueError of `relpath`. */
  function FileTransfer(cwd: seq<string>, file: string, localDir: string, remoteDir: string): (r: Result<string>)
    ensures r.Err? <==> file == []
    ensures r.Err? ==> r.error == ValueError
  {
    var rel :- Paths.RelPath(cwd, file, localDir);
    Ok(Paths.Render(Paths.AbsPath(cwd, Paths.PathJoin(remoteDir, rel))))
  }

  /** A relative path computed by `relpath` never starts at the root. */
  lemma RelPathRelative(cwd: seq<string>, path: string, start: string)
    requires Paths.Normal(cwd) && path != []
    ensures var rel := Paths.RelPath(cwd, path, start).value; rel != [] && rel[0] != '/'
  {
    var s := Paths.AbsPath(cwd, start);
    var p := Paths.AbsPath(cwd, path);
    Paths.AbsPathNormal(cwd, path);
    var i := Paths.CommonPrefix(s, p);
    var parts := Paths.Repeat("..", |s| - i) + p[i..];
    if parts != [] {
      assert parts[0] == ".." || parts[0] == p[i];
      JoinHead(parts, "/");
    }
  }

  lemma JoinHead(parts: seq<string>, sep: string)
    requires parts != [] && parts[0] != []
    ensures Join(parts, sep) != [] && Join(parts, sep)[0] == parts[0][0]
  {
  }

  /** A file below `localDir` lands at the same place below `remoteDir`. */
  lemma FileTransferBelow(cwd: seq<string>, file: string, localDir: string, remoteDir: string,
                          suffix: seq<string>)
    requires Paths.Normal(cwd) && file != []
    requires Paths.AbsPath(cwd, file) == Paths.AbsPath(cwd, localDir) + suffix
    ensures FileTransfer(cwd, file, localDir, remoteDir)
      == Ok(Paths.Render(Paths.AbsPath(cwd, remoteDir) + suffix))
  {
    var base := Paths.AbsPath(cwd, remoteDir);
    var rel := Paths.RelPath(cwd, file, localDir).value;
    assert FileTransfer(cwd, file, localDir, remoteDir)
      == Ok(Paths.Render(Paths.Walk(base, Split(rel, '/')))) by {
      RelPathRelative(cwd, file, localDir);
      Paths.AbsPathJoin(cwd, remoteDir, rel);
    }
    assert Paths.Normal(suffix) by {
      Paths.AbsPathNormal(cwd, file);
      Paths.NormalSuffix(Paths.AbsPath(cwd, localDir), suffix);
    }
    assert Paths.Walk(base, Split(rel, '/')) == base + suffix by {
      Paths.RelPathBelow(cwd, file, localDir, suffix);
      WalkRelative(base, suffix);
      if suffix == [] {
        assert base + suffix == base;
      }
    }
  }

  /** Walking the text of a relative path of plain names descends by exactly those names. */
  lemma WalkRelative(base: seq<string>, suffix: seq<string>)
    requires Paths.Normal(suffix)
    ensures suffix == [] ==> Paths.Walk(base, Split(".", '/')) == base
    ensures suffix != [] ==> Paths.Walk(base, Split(Join(suffix, "/"), '/')) == base + suffix
  {
    if suffix == [] {
      SplitHead(".", '/');
      assert Paths.Walk(base, ["."]) == base;
    } else {
      Paths.SplitJoinInverse(suffix);
      Paths.WalkNames(base, suffix);
    }
  }

  /** Mapping a file to the remote side and back, as `get_job_from_remote` does with the two
      directories swapped, returns the original absolute path. */
  lemma FileTransferRoundTrip(cwd: seq<string>, file: string, localDir: string, remoteDir: string,
                              suffix: seq<string>)
    requires Paths.Normal(cwd) && file != []
    requires Paths.AbsPath(cwd, file) == Paths.AbsPath(cwd, localDir) + suffix
    ensures var there := FileTransfer(cwd, file, localDir, remoteDir).value;
      FileTransfer(cwd, there, remoteDir, localDir) == Ok(Paths.Render(Paths.AbsPath(cwd, file)))
  {
    FileTransferBelow(cwd, file, localDir, remoteDir, suffix);
    var r := Paths.AbsPath(cwd, remoteDir);
    var there := Paths.Render(r + suffix);
    Paths.AbsPathNormal(cwd, remoteDir);
    Paths.AbsPathNormal(cwd, file);
    var l := Paths.AbsPath(cwd, localDir);
    assert Paths.Normal(r + suffix) by {
      forall k | 0 <= k < |r + suffix| ensures Paths.IsName((r + suffix)[k]) {
        if k >= |r| {
          assert (r + suffix)[k] == (l + suffix)[|l| + k - |r|];
        }
      }
    }
    Paths.RenderAbs(cwd, r + suffix);
    FileTransferBelow(cwd, there, remoteDir, localDir, suffix);
  }

  /** The remote adapter test: `abc.txt` relative to `local`, re-rooted at the sibling
      `test`, is `abc.txt` in the working directory again. */
  lemma FileTransferExample(cwd: seq<string>)
    requires Paths.Normal(cwd)
    ensures FileTransfer(cwd, "abc.txt", "local", "test") == Ok(Paths.Render(cwd + ["abc.txt"]))
  {
    ExampleRelPath(cwd);
    ExampleUpAndOver(cwd);
  }

  /** A single plain name is one step below the working directory. */
  lemma AbsPathName(cwd: seq<string>, x: string)
    requires Paths.IsName(x)
    ensures Paths.AbsPath(cwd, x) == cwd + [x]
  {
    assert Join([x], "/") == x;
    Paths.SplitJoinInverse([x]);
    Paths.WalkNames(cwd, [x]);
  }

  /** Two different names below the same directory share exactly that directory. */
  lemma {:induction false} CommonPrefixSiblings(p: seq<string>, x: string, y: string)
    requires x != y
    ensures Paths.CommonPrefix(p + [x], p + [y]) == |p|
  {
    if p == [] {
      assert [] + [x] == [x] && [] + [y] == [y];
    } else {
      assert (p + [x])[1..] == p[1..] + [x];
      assert (p + [y])[1..] == p[1..] + [y];
      CommonPrefixSiblings(p[1..], x, y);
    }
  }

  lemma ExampleRelPath(cwd: seq<string>)
    ensures Paths.RelPath(cwd, "abc.txt", "local") == Ok("../abc.txt")
  {
    assert Paths.IsName("local") && Paths.IsName("abc.txt");
    AbsPathName(cwd, "local");
    AbsPathName(cwd, "abc.txt");
    CommonPrefixSiblings(cwd, "local", "abc.txt");
    var p := cwd + ["abc.txt"];
    assert Paths.Repeat("..", 1) == [".."];
    assert p[|cwd|..] == ["abc.txt"];
    assert Join([".."] + ["abc.txt"], "/") == "../abc.txt" by {
      assert ([".."] + ["abc.txt"])[1..] == ["abc.txt"];
    }
  }

  lemma ExampleUpAndOver(cwd: seq<string>)
    ensures Paths.AbsPath(cwd, Paths.PathJoin("test", "../abc.txt")) == cwd + ["abc.txt"]
  {
    Paths.AbsPathJoin(cwd, "test", "../abc.txt");
    assert Paths.IsName("test");
    AbsPathName(cwd, "test");
    ExampleSplit();
    ExampleWalk(cwd);
  }

  lemma ExampleSplit()
    ensures Split("../abc.txt", '/') == ["..", "abc.txt"]
  {
    assert Join(["..", "abc.txt"], "/") == "../abc.txt" by {
      assert ["..", "abc.txt"][1..] == ["abc.txt"];
    }
    Paths.SplitJoinInverse(["..", "abc.txt"]);
  }

  lemma ExampleWalk(cwd: seq<string>)
    ensures Paths.Walk(cwd + ["test"], ["..", "abc.txt"]) == cwd + ["abc.txt"]
  {
    assert Paths.Step(cwd + ["test"], "..") == cwd;
    assert ["..", "abc.txt"][1..] == ["abc.txt"];
    assert Paths.Walk(cwd, ["abc.txt"]) == cwd + ["abc.txt"] by {
      assert ["abc.txt"][1..] == [];
    }
  }

  // ---------------------------------------------------------------- the adapter

  datatype RemoteAdapter = RemoteAdapter(version: Version, local: Adapter.Adapter, settings: Settings)

  /** The constructor: the local adapter underneath is built from the queue configuration,
      then the SSH settings are read from the same configuration. */
  function Construct(v: Version, config: Adapter.Config, c: RemoteConfig, cwd: seq<string>, home: string)
    : (r: Result<RemoteAdapter>)
    ensures r.Ok? <==> Adapter.Construct(Parent(v), config, "").Ok? && ConfigReadable(v, c)
    ensures r.Ok? ==> r.value.version == v && r.value.local.gen == Parent(v)
  {
    var local :- Adapter.Construct(Parent(v), config, "");
    var s :- if v == OldRemote then ReadOldSettings(c, cwd, home) else ReadSettings(c, cwd, home);
    Ok(RemoteAdapter(v, local, s))
  }

  function ConfigDir(r: RemoteAdapter): Result<string> {
    AsText(r.settings.remoteConfigDir)
  }

  /** `convert_path_to_remote(path)`: the absolute local path, relative to the local root,
      re-rooted at the remote root. */
  function ConvertPathToRemote(r: RemoteAdapter, cwd: seq<string>, home: string, path: string)
    : (out: Result<string>)
    ensures out.Ok? <==> r.settings.remotePath.SText?
    ensures out.Err? ==> out.error == TypeError
  {
    var remoteRoot :- AsText(r.settings.remotePath);
    var local := Paths.Render(Paths.AbsPath(cwd, ExpandUser(home, path)));
    match Paths.RelPath(cwd, local, r.settings.localPath)
    case Ok(rel) => Ok(Paths.PathJoin(remoteRoot, rel))
    case Err(e) => Err(e)
  }

  /** A directory below the local root maps to the same names below the remote root. */
  lemma ConvertPathBelow(r: RemoteAdapter, cwd: seq<string>, home: string, path: string,
                         suffix: seq<string>)
    requires Paths.Normal(cwd) && r.settings.remotePath.SText?
    requires Paths.AbsPath(cwd, ExpandUser(home, path)) == Paths.AbsPath(cwd, r.settings.localPath) + suffix
    requires suffix != []
    ensures ConvertPathToRemote(r, cwd, home, path)
      == Ok(Paths.PathJoin(r.settings.remotePath.text, Join(suffix, "/")))
  {
    var p := Paths.AbsPath(cwd, ExpandUser(home, path));
    Paths.AbsPathNormal(cwd, ExpandUser(home, path));
    Paths.RenderAbs(cwd, p);
    Paths.RelPathBelow(cwd, Paths.Render(p), r.settings.localPath, suffix);
  }

  /** The job arguments of the remote `submit_job`. */
  datatype RemoteJob = RemoteJob(
    queue: Option<string>,
    jobName: Option<string>,
    workingDirectory: Option<string>,
    cores: Option<Value>,
    memoryMax: Option<Value>,
    runTimeMax: Option<Value>,
    dependencies: Option<seq<string>>,
    command: Option<string>)

  /** What `submit_job` checks before it talks to the login node: the newer versions refuse
      any dependency list, even an empty one; the oldest has no such keyword. The working
      directory is uploaded first, which needs a path. */
  function SubmitGuard(r: RemoteAdapter, j: RemoteJob): (out: Outcome)
    ensures j.dependencies.Some? ==> out.Fail?
    ensures j.dependencies.Some? && r.version != OldRemote ==> out == Fail(NotImplementedError)
    ensures out.Pass? <==> j.dependencies.None? && j.workingDirectory.Some?
  {
    if j.dependencies.Some? then
      Fail(if r.version == OldRemote then TypeError else NotImplementedError)
    else if j.workingDirectory.None? then Fail(TypeError)
    else Pass
  }

  /** The command `submit_job` hands to the login node, as written: the caller's own
      command, whatever the other arguments say. */
  function SubmittedCommandAsWritten(r: RemoteAdapter, j: RemoteJob): (out: Result<Option<string>>)
    ensures out.Ok? <==> SubmitGuard(r, j).Pass?
  {
    var g := SubmitGuard(r, j);
    if g.Fail? then Err(g.error) else Ok(j.command)
  }

  /** `submit_job` as written: the job id is the last word of the caller's command's own
      output. */
  function SubmitJobAsWritten(r: RemoteAdapter, j: RemoteJob, sh: Shell): (out: Result<int>)
    ensures SubmitGuard(r, j).Fail? ==> out == Err(SubmitGuard(r, j).error)
    ensures SubmitGuard(r, j).Pass? ==> out == JobIdFromOutput(sh(j.command))
  {
    var cmd :- SubmittedCommandAsWritten(r, j);
    JobIdFromOutput(sh(cmd))
  }

  /** The queue, name and resources never reach the login node: two jobs that differ only in
      them send the same command, and the test's command carries no `--submit`. */
  lemma SubmitAsWrittenDropsOptions(r: RemoteAdapter, j: RemoteJob, queue: Option<string>,
                                    cores: Option<Value>, sh: Shell)
    ensures SubmittedCommandAsWritten(r, j) == SubmittedCommandAsWritten(r, j.(queue := queue, cores := cores))
    ensures SubmitJobAsWritten(r, j, sh) == SubmitJobAsWritten(r, j.(queue := queue, cores := cores), sh)
    ensures r.version != OldRemote ==>
      var example := RemoteJob(Some("remote"), Some("test"), Some("/home/localuser/projects/test"),
        None, None, None, None, Some("/bin/true"));
      SubmittedCommandAsWritten(r, example) == Ok(Some("/bin/true"))
      && "--submit" !in SplitWhitespace("/bin/true")
  {
    assert SplitWhitespace("/bin/true") == ["/bin/true"] by {
      SplitWhitespaceWord("/bin/true");
    }
  }

  /** The submit command the login node should receive: `_submit_command` over the job's
      arguments, with the working directory as it is mirrored on the remote side. */
  function SubmittedCommand(r: RemoteAdapter, j: RemoteJob, cwd: seq<string>, home: string)
    : (out: Result<string>)
    ensures out.Ok? ==> SubmitGuard(r, j).Pass?
    ensures SubmitGuard(r, j).Fail? ==> out == Err(SubmitGuard(r, j).error)
    ensures SubmitGuard(r, j).Pass? ==>
      (out.Ok? <==> r.settings.remoteConfigDir.SText? && r.settings.remotePath.SText?
                    && !(r.version != BaseRemote && (IsNumber(j.cores) || IsNumber(j.memoryMax) || IsNumber(j.runTimeMax))))
  {
    var g := SubmitGuard(r, j);
    if g.Fail? then Err(g.error)
    else
      var dir :- ConfigDir(r);
      var wd :- ConvertPathToRemote(r, cwd, home, j.workingDirectory.value);
      SubmitCommand(r.version, dir, SubmitOptions(j.queue, j.jobName, Some(wd), j.cores,
        j.memoryMax, j.runTimeMax, j.command))
  }

  /** `submit_job` sending the submit command built from its arguments. */
  function SubmitJob(r: RemoteAdapter, j: RemoteJob, cwd: seq<string>, home: string, sh: Shell)
    : (out: Result<int>)
    ensures SubmitGuard(r, j).Fail? ==> out == Err(SubmitGuard(r, j).error)
  {
    var cmd :- SubmittedCommand(r, j, cwd, home);
    JobIdFromOutput(sh(Some(cmd)))
  }

  /** When the login node answers the submit command with a line ending in a job id, that
      id is what `submit_job` returns. */
  lemma SubmitJobReadsId(r: RemoteAdapter, j: RemoteJob, cwd: seq<string>, home: string, sh: Shell,
                         a: string, id: int, t: string)
    ensures AnswersWithId(r, j, cwd, home, sh, a, id, t) ==> SubmitJob(r, j, cwd, home, sh) == Ok(id)
  {
    if AnswersWithId(r, j, cwd, home, sh, a, id, t) {
      JobIdFromOutputReadsLastWord(a, id, t);
    }
  }

  /** The intended submit command exists and the login node answers it with `a`, a space,
      the job id and trailing white space. */
  predicate AnswersWithId(r: RemoteAdapter, j: RemoteJob, cwd: seq<string>, home: string, sh: Shell,
                          a: string, id: int, t: string)
  {
    && SubmittedCommand(r, j, cwd, home).Ok? && Blank(t)
    && sh(Some(SubmittedCommand(r, j, cwd, home).value)) == a + " " + IntToString(id) + t
  }

  /** The login node reads the queue, the job name, the mirrored working directory and the
      command back from what the adapter sends. */
  lemma SubmittedCommandForwardsOptions(r: RemoteAdapter, j: RemoteJob, cwd: seq<string>, home: string)
    requires SubmittedCommand(r, j, cwd, home).Ok?
    requires Word(r.settings.remoteConfigDir.text)
    requires CleanOptions(SubmitOptions(j.queue, j.jobName, None, j.cores, j.memoryMax, j.runTimeMax, j.command))
    requires Word(ConvertPathToRemote(r, cwd, home, j.workingDirectory.value).value)
    ensures var ps := ReadSubmitOptions(SubmittedCommand(r, j, cwd, home).value);
      && OptionValue(ps, "--queue") == j.queue
      && OptionValue(ps, "--job_name") == j.jobName
      && OptionValue(ps, "--working_directory") == Some(ConvertPathToRemote(r, cwd, home, j.workingDirectory.value).value)
      && OptionValue(ps, "--command") == Quoted(j.command)
      && Ordered(ps)
  {
    var wd := ConvertPathToRemote(r, cwd, home, j.workingDirectory.value).value;
    var o := SubmitOptions(j.queue, j.jobName, Some(wd), j.cores, j.memoryMax, j.runTimeMax, j.command);
    SubmitCommandReadBack(r.version, r.settings.remoteConfigDir.text, o);
    OptionPairsValues(r.version, o);
  }

  /** `delete_job(process_id)` */
  function DeleteJob(r: RemoteAdapter, id: int, sh: Shell): (out: Result<string>)
    ensures out.Ok? <==> r.settings.remoteConfigDir.SText?
    ensures out.Ok? ==> out.value == sh(Some(DeleteCommand(r.version, r.settings.remoteConfigDir.text, id)))
  {
    var dir :- ConfigDir(r);
    Ok(sh(Some(DeleteCommand(r.version, dir, id))))
  }

  /** `enable_reservation(process_id)` */
  function EnableReservation(r: RemoteAdapter, id: int, sh: Shell): (out: Result<string>)
    ensures out.Ok? <==> r.settings.remoteConfigDir.SText?
    ensures out.Ok? ==> out.value == sh(Some(ReservationCommand(r.version, r.settings.remoteConfigDir.text, id)))
  {
    var dir :- ConfigDir(r);
    Ok(sh(Some(ReservationCommand(r.version, dir, id))))
  }

  /** `get_queue_status(user)`: the login node prints the table as JSON (`decode` stands for
      `json.loads` and the DataFrame, None for malformed text); with a user, only that
      user's rows are kept, and a table without a user column is a KeyError. */
  function GetQueueStatus(r: RemoteAdapter, user: Option<string>, sh: Shell, decode: string -> Option<Table>)
    : (out: Result<Table>)
    ensures out.Ok? && user.Some? ==> forall x :: x in out.value.rows ==> x.user == user.value
    ensures out.Ok? ==> r.settings.remoteConfigDir.SText?
    ensures out.Ok? && user.None? && r.settings.remoteConfigDir.SText? ==>
      Some(out.value) == decode(sh(Some(StatusCommand(r.version, r.settings.remoteConfigDir.text))))
    ensures out.Ok? && user.Some? && r.settings.remoteConfigDir.SText? ==>
      var t := decode(sh(Some(StatusCommand(r.version, r.settings.remoteConfigDir.text))));
      && t.Some?
      && out.value.columns == t.value.columns
      && out.value.rows == RowsOfUser(t.value.rows, user.value)
  {
    var dir :- ConfigDir(r);
    var t := decode(sh(Some(StatusCommand(r.version, dir))));
    if t.None? then Err(ValueError)
    else if user.None? then Ok(t.value)
    else FilterUser(t.value, user.value)
  }

  /** The remote commands `transfer_file` issues around the copy: it creates the parent
      directory of the remote copy, and removes the remote copy only after copying it back,
      when the caller asks for it and (in the newer versions) the configuration allows it. */
  function TransferFileCommands(r: RemoteAdapter, cwd: seq<string>, home: string, file: string,
                                transferBack: bool, deleteFile: bool): (out: Result<seq<string>>)
    ensures out.Ok? <==> r.settings.remotePath.SText?
    ensures out.Ok? ==> 1 <= |out.value| <= 2
    ensures out.Ok? ==> out.value[0] == "mkdir -p " + Paths.Dirname(ConvertPathToRemote(r, cwd, home, file).value)
    ensures out.Ok? ==> (|out.value| == 2 <==>
      transferBack && deleteFile && (r.version == OldRemote || Truthy(r.settings.deleteFileOnRemote)))
    ensures out.Ok? && |out.value| == 2 ==> out.value[1] == "rm " + ConvertPathToRemote(r, cwd, home, file).value
  {
    var remote :- ConvertPathToRemote(r, cwd, home, file);
    var mkdir := MkdirCommand(OneDir(Paths.Dirname(remote))).value;
    var allowed := if r.version == OldRemote then true else Truthy(r.settings.deleteFileOnRemote);
    Ok([mkdir] + (if allowed && transferBack && deleteFile then ["rm " + remote] else []))
  }

  /** The remote commands of `get_job_from_remote`: the listing of the mirrored directory,
      then its removal when the configuration (newer versions) or the caller (oldest
      version) asks for it. */
  function FetchCommands(r: RemoteAdapter, cwd: seq<string>, home: string, wd: string, deleteRemote: bool)
    : (out: Result<seq<string>>)
    ensures out.Ok? <==> r.settings.remotePath.SText?
    ensures out.Ok? ==> (|out.value| == 2 <==>
      (if r.version == OldRemote then deleteRemote else Truthy(r.settings.deleteFileOnRemote)))
    ensures out.Ok? ==> 1 <= |out.value| && out.value[0] == Spaced(ListWords(r.version)) + ConvertPathToRemote(r, cwd, home, wd).value
  {
    var remote :- ConvertPathToRemote(r, cwd, home, wd);
    var list := Spaced(ListWords(r.version)) + remote;
    var remove := if r.version == OldRemote then deleteRemote else Truthy(r.settings.deleteFileOnRemote);
    Ok([list] + (if remove then ["rm -r " + remote] else []))
  }

  /** The words in front of the directory `get_job_from_remote` lists. */
  function ListWords(v: Version): seq<string> {
    ["python", "-m", Program(v), "--list", "--working_directory"]
  }

  /** The login node reads the listing command as the program, `--list`,
      `--working_directory` and then the words of the mirrored directory. */
  lemma FetchListWords(r: RemoteAdapter, cwd: seq<string>, home: string, wd: string, deleteRemote: bool)
    requires FetchCommands(r, cwd, home, wd, deleteRemote).Ok?
    ensures SplitWhitespace(FetchCommands(r, cwd, home, wd, deleteRemote).value[0])
      == ListWords(r.version) + SplitWhitespace(ConvertPathToRemote(r, cwd, home, wd).value)
  {
    var remote := ConvertPathToRemote(r, cwd, home, wd).value;
    assert FetchCommands(r, cwd, home, wd, deleteRemote).value[0] == Spaced(ListWords(r.version)) + remote;
    ListWordsClean(r.version);
    SpacedTokens(ListWords(r.version), remote);
  }

  lemma ListWordsClean(v: Version)
    ensures Words(ListWords(v))
  {
    ProgramWord(v);
    assert Word("--list") by {}
    assert Word("--working_directory") by {}
    Words5("python", "-m", Program(v), "--list", "--working_directory");
  }

  /** Where `get_job_from_remote` puts a listed remote file: the same place below the local
      working directory. */
  lemma FetchedFileLandsLocally(r: RemoteAdapter, cwd: seq<string>, home: string, wd: string,
                                remoteFile: string, suffix: seq<string>)
    requires Paths.Normal(cwd) && remoteFile != []
    requires ConvertPathToRemote(r, cwd, home, wd).Ok?
    requires Paths.AbsPath(cwd, remoteFile)
      == Paths.AbsPath(cwd, ConvertPathToRemote(r, cwd, home, wd).value) + suffix
    ensures var local := Paths.Render(Paths.AbsPath(cwd, ExpandUser(home, wd)));
      FileTransfer(cwd, remoteFile, ConvertPathToRemote(r, cwd, home, wd).value, local)
      == Ok(Paths.Render(Paths.AbsPath(cwd, ExpandUser(home, wd)) + suffix))
  {
    var l := Paths.AbsPath(cwd, ExpandUser(home, wd));
    Paths.AbsPathNormal(cwd, ExpandUser(home, wd));
    Paths.RenderAbs(cwd, l);
    FileTransferBelow(cwd, remoteFile, ConvertPathToRemote(r, cwd, home, wd).value, Paths.Render(l), suffix);
  }
}
