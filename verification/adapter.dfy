/** The local queue adapter: one scheduler, one configuration of queues, and the decisions
    taken around the commands it runs — which command class a `queue_type` selects, how a
    job's parameters are checked against its queue before the submission script is
    rendered, which argument vector is run, and how the output of the command comes back.

    Four generations of the adapter are kept side by side, because they differ in small
    ways that matter to callers:
      - `UtilsBasic`  the `BasisQueueAdapter` of `pysqa/utils/basic.py`,
      - `OldBasic`    the older `BasisQueueAdapter` of `pysqa/basic.py`,
      - `CoreOnly`    `QueueAdapterCore` of `pysqa/base/core.py` used on its own,
      - `WithConfig`  `QueueAdapterWithConfig` of `pysqa/base/config.py`, a `CoreOnly`
                      adapter with a queue configuration.

    Running a command is a parameter `run`: it receives the argument vector and the working
    directory and yields the command's output, or None when the command failed. Rendering
    the Jinja template is not modelled: the rendered script is the `RenderRequest` handed to
    the template engine. */
module Adapter {
  import opened Wrappers
  import opened PyText
  import opened Validate
  import opened Tables
  import opened Scheduler
  import Paths

  datatype Generation = UtilsBasic | OldBasic | CoreOnly | WithConfig

  /** The command class an adapter holds: a scheduler's, or none for a remote setup. */
  datatype Commands = RemoteCommands | Local(kind: Kind)

  const RemoteType := "REMOTE"

  /** The executor: argument vector and working directory to output, None on failure. */
  type Runner = (seq<string>, Option<string>) -> Option<string>

  // ---------------------------------------------------------------- queue type dispatch

  /** The `queue_type` dispatch: the if-chain of the older adapters, `queue_type_dict` of
      the base generation. Only the base generation knows FLUX; every other unknown name is
      a ValueError. */
  function CommandsFor(g: Generation, queueType: string): (r: Result<Commands>)
    ensures r.Err? ==> r.error == ValueError
    ensures r == Ok(RemoteCommands) <==> queueType == RemoteType
    ensures r.Ok? && r.value.Local? ==> QueueTypeName(r.value.kind) == queueType
    ensures r.Ok? && r.value.Local? && r.value.kind == Flux ==> g in {CoreOnly, WithConfig}
  {
    if queueType == RemoteType then Ok(RemoteCommands)
    else if queueType == "SGE" then Ok(Local(Sge))
    else if queueType == "TORQUE" then Ok(Local(Torque))
    else if queueType == "SLURM" then Ok(Local(Slurm))
    else if queueType == "LSF" then Ok(Local(Lsf))
    else if queueType == "MOAB" then Ok(Local(Moab))
    else if queueType == "GENT" then Ok(Local(Gent))
    else if queueType == "FLUX" && g in {CoreOnly, WithConfig} then Ok(Local(Flux))
    else Err(ValueError)
  }

  /** Every command class is reached through its own name, except FLUX in the generations
      that predate it. */
  lemma CommandsForEveryKind(g: Generation, k: Kind)
    ensures CommandsFor(g, QueueTypeName(k))
      == if k == Flux && g in {UtilsBasic, OldBasic} then Err(ValueError) else Ok(Local(k))
  {
    match k
    case Sge =>
    case Torque =>
    case Slurm =>
    case Lsf =>
    case Moab =>
    case Gent =>
    case Flux =>
  }

  /** The two older generations dispatch identically; the base generation differs from them
      on FLUX alone. */
  lemma CommandsForGenerationsAgree(queueType: string)
    ensures CommandsFor(UtilsBasic, queueType) == CommandsFor(OldBasic, queueType)
    ensures CommandsFor(CoreOnly, queueType) == CommandsFor(WithConfig, queueType)
    ensures queueType != "FLUX" ==> CommandsFor(UtilsBasic, queueType) == CommandsFor(WithConfig, queueType)
  {
  }

  // ---------------------------------------------------------------- configuration

  /** One entry of the `queues` section: its name, its limits, and the template read from
      its `script` file, absent when the entry names no script. */
  datatype QueueEntry = QueueEntry(name: string, limits: QueueDict, template: Option<string>)

  /** The contents of `queue.yaml`; `queuePrimary` is None when the key is missing. */
  datatype Config = Config(queueType: string, queuePrimary: Option<string>, queues: seq<QueueEntry>)

  /** `queue_list`: the queue names in configuration order. */
  function QueueList(qs: seq<QueueEntry>): (names: seq<string>)
    ensures |names| == |qs|
    ensures forall i :: 0 <= i < |qs| ==> names[i] == qs[i].name
  {
    seq(|qs|, i requires 0 <= i < |qs| => qs[i].name)
  }

  /** `config["queues"][name]`: the entry of that name, if the list has one. */
  function Entry(qs: seq<QueueEntry>, name: string): (e: Option<QueueEntry>)
    ensures e.Some? <==> name in QueueList(qs)
    ensures e.Some? ==> e.value in qs && e.value.name == name
  {
    if qs == [] then None
    else
      assert QueueList(qs) == [qs[0].name] + QueueList(qs[1..]);
      if qs[0].name == name then Some(qs[0]) else Entry(qs[1..], name)
  }

  const LimitKeys: seq<string> := [CoresMin, CoresMax, RunTimeMax, MemoryMax]

  function FillKeys(d: QueueDict, keys: seq<string>): (r: QueueDict)
    ensures forall k :: k in r <==> k in d || k in keys
    ensures forall k :: k in d ==> r[k] == d[k]
    ensures forall k :: k in keys && k !in d ==> r[k] == None
    decreases |keys|
  {
    if keys == [] then d
    else FillKeys(if keys[0] in d then d else d[keys[0] := None], keys[1..])
  }

  /** `_fill_queue_dict` for one queue: the limit keys it lacks are added as None; every
      key it has keeps its value. */
  function FillQueueDict(d: QueueDict): (r: QueueDict)
    ensures forall k :: k in r <==> k in d || k in LimitKeys
    ensures forall k :: k in d ==> r[k] == d[k]
    ensures forall k :: k in LimitKeys && k !in d ==> r[k] == None
  {
    FillKeys(d, LimitKeys)
  }

  /** Filling an already filled queue changes nothing. */
  lemma FillQueueDictIdempotent(d: QueueDict)
    ensures FillQueueDict(FillQueueDict(d)) == FillQueueDict(d)
  {
    var f := FillQueueDict(d);
    var ff := FillQueueDict(f);
    assert forall k :: k in ff <==> k in f;
    assert forall k :: k in f ==> ff[k] == f[k];
  }

  /** After filling, reading the limits never fails for a missing key. */
  lemma FilledLimitsHaveEveryKey(d: QueueDict, cores: Option<Value>, t: Option<Value>, m: Option<Value>)
    ensures var r := CheckQueueParameters(FillQueueDict(d), cores, t, m);
      r.Err? ==> r.error != KeyError
  {
    var f := FillQueueDict(d);
    assert CoresMin in LimitKeys && CoresMax in LimitKeys;
    assert RunTimeMax in LimitKeys && MemoryMax in LimitKeys;
    assert CoresMin in f && CoresMax in f && RunTimeMax in f && MemoryMax in f;
  }

  function FillConfig(c: Config): (r: Config)
    ensures r.queueType == c.queueType && r.queuePrimary == c.queuePrimary
    ensures QueueList(r.queues) == QueueList(c.queues)
    ensures forall i :: 0 <= i < |c.queues| ==>
      r.queues[i] == c.queues[i].(limits := FillQueueDict(c.queues[i].limits))
  {
    c.(queues := seq(|c.queues|, i requires 0 <= i < |c.queues| =>
      c.queues[i].(limits := FillQueueDict(c.queues[i].limits))))
  }

  // ---------------------------------------------------------------- Queues

  /** `Queues.__getattr__`: a member of the list is returned as it is; anything else is an
      AttributeError. */
  function QueuesGetAttr(queues: seq<string>, item: string): (r: Result<string>)
    ensures r.Ok? <==> item in queues
    ensures r.Ok? ==> r.value == item
    ensures r.Err? ==> r.error == AttributeError
  {
    if item in queues then Ok(item) else Err(AttributeError)
  }

  /** `Queues.__dir__`: the stored list, in its order. Every listed name can be looked up
      and every name that can be looked up is listed. */
  function QueuesDir(queues: seq<string>): (r: seq<string>)
    ensures |r| == |queues|
    ensures forall i :: 0 <= i < |r| ==> QueuesGetAttr(queues, r[i]) == Ok(r[i])
    ensures forall x :: QueuesGetAttr(queues, x).Ok? ==> x in r
  {
    queues
  }

  /** Auto-completion and attribute access agree: exactly the names `__dir__` lists can be
      looked up, and looking a name up returns it. */
  lemma QueuesDirIsLookup(queues: seq<string>, item: string)
    ensures QueuesGetAttr(queues, item).Ok? <==> item in QueuesDir(queues)
    ensures QueuesGetAttr(queues, item).Ok? ==> QueuesGetAttr(queues, item).value == item
  {
  }

  // ---------------------------------------------------------------- the adapter

  /** A constructed adapter. `moduleTemplate` is the `template` text of the command
      class's module, the base generation's fallback when no template is passed. */
  datatype Adapter = Adapter(gen: Generation, config: Config, commands: Commands, moduleTemplate: string)

  /** The constructors: the older generations fill the queue limits and then dispatch on
      the queue type; the base generation dispatches first. Both raise ValueError for an
      unknown queue type, and a configured adapter keeps its queues with their limits
      filled. */
  function Construct(g: Generation, c: Config, moduleTemplate: string): (r: Result<Adapter>)
    ensures r.Err? <==> CommandsFor(g, c.queueType).Err?
    ensures r.Err? ==> r.error == ValueError
    ensures r.Ok? ==> r.value.gen == g && r.value.commands == CommandsFor(g, c.queueType).value
    ensures r.Ok? && g != CoreOnly ==>
      && QueueList(r.value.config.queues) == QueueList(c.queues)
      && forall i :: 0 <= i < |r.value.config.queues| ==>
           forall k :: k in LimitKeys ==> k in r.value.config.queues[i].limits
  {
    var commands :- CommandsFor(g, c.queueType);
    Ok(Adapter(g, if g == CoreOnly then c else FillConfig(c), commands, moduleTemplate))
  }

  /** `remote_flag` and `ssh_delete_file_on_remote` of a local adapter. */
  function LocalFlags(g: Generation): (r: Result<(bool, bool)>)
    ensures r.Ok? <==> g != CoreOnly
    ensures r.Ok? ==> !r.value.0 && r.value.1
    ensures r.Err? ==> r.error == AttributeError
  {
    if g == CoreOnly then Err(AttributeError) else Ok((false, true))
  }

  /** `get_job_from_remote`, `convert_path_to_remote` and `transfer_file` on a local adapter:
      the older generations do nothing and return None; the configured base adapter raises
      NotImplementedError. `QueueAdapterCore` alone inherits the abstract methods, which
      return None. */
  function RemoteOnlyOperation(g: Generation): (r: Result<Option<string>>)
    ensures r.Err? <==> g == WithConfig
    ensures r.Err? ==> r.error == NotImplementedError
    ensures r.Ok? ==> r.value == None
  {
    if g == WithConfig then Err(NotImplementedError) else Ok(None)
  }

  // ---------------------------------------------------------------- job arguments

  /** The `command` argument: missing, a string, a list of strings (joined with "" before
      use) or anything else, represented by a number. */
  datatype Command = NoCommand | Str(text: string) | Parts(parts: seq<string>) | Number(n: int)

  function CommandValue(c: Command): (v: Option<Value>)
    ensures v.None? <==> c.NoCommand?
    ensures c.Parts? ==> v == Some(Text(Join(c.parts, "")))
    ensures v.Some? && v.value.Text? <==> c.Str? || c.Parts?
  {
    match c
    case NoCommand => None
    case Str(s) => Some(Text(s))
    case Parts(ps) => Some(Text(Join(ps, "")))
    case Number(n) => Some(Num(n))
  }

  /** The keyword arguments of `submit_job`. `template` is `submission_template` and `extra`
      the further keyword arguments, both accepted by the base generation only;
      `dependencies` is not accepted by the oldest adapter. A None stands for an argument
      the caller leaves out. */
  datatype JobArgs = JobArgs(
    queue: Option<string>,
    jobName: Option<string>,
    workingDirectory: Option<string>,
    cores: Option<Value>,
    memoryMax: Option<Value>,
    runTimeMax: Option<Value>,
    dependencies: Option<seq<string>>,
    command: Command,
    template: Option<string>,
    extra: seq<(string, string)>)

  /** A call with a keyword the method does not declare is a TypeError. */
  function KeywordsAccepted(g: Generation, args: JobArgs): (r: Outcome)
    ensures g in {CoreOnly, WithConfig} ==> r == Pass
    ensures r.Fail? ==> r.error == TypeError
    ensures g == OldBasic ==> (r.Pass? <==> args.dependencies.None? && args.template.None? && args.extra == [])
    ensures g == UtilsBasic ==> (r.Pass? <==> args.template.None? && args.extra == [])
  {
    match g
    case OldBasic =>
      if args.dependencies.Some? || args.template.Some? || args.extra != [] then Fail(TypeError) else Pass
    case UtilsBasic =>
      if args.template.Some? || args.extra != [] then Fail(TypeError) else Pass
    case _ => Pass
  }

  /** What the template engine is asked to render. */
  datatype RenderRequest = RenderRequest(
    template: string,
    jobName: Option<string>,
    workingDirectory: string,
    cores: Option<Value>,
    memoryMax: Option<Value>,
    runTimeMax: Option<Value>,
    dependencies: Option<seq<string>>,
    command: Option<Value>,
    extra: seq<(string, string)>)

  /** An argument of `render_submission_template` that the caller may leave to its
      default. */
  datatype Arg<T> = Default | Given(v: T)

  function ArgOr<T>(a: Arg<T>, d: T): (r: T)
    ensures a.Given? ==> r == a.v
    ensures a.Default? ==> r == d
  {
    match a
    case Given(v) => v
    case Default => d
  }

  const DefaultJobName := "pysqa"

  /** `render_submission_template` of the abstract command class: job name "pysqa", one
      core and the process's working directory (`cwd`, as `abspath(".")` sees it when the
      module is loaded) unless given; memory, run time and dependencies default to None. */
  function RenderSubmissionTemplate(command: Option<Value>, template: string,
                                    jobName: Arg<Option<string>>, workingDirectory: Arg<string>,
                                    cores: Arg<Option<Value>>, memoryMax: Arg<Option<Value>>,
                                    runTimeMax: Arg<Option<Value>>,
                                    dependencies: Arg<Option<seq<string>>>,
                                    extra: seq<(string, string)>, cwd: seq<string>): (r: RenderRequest)
    ensures r.template == template && r.command == command && r.extra == extra
    ensures jobName.Default? ==> r.jobName == Some(DefaultJobName)
    ensures cores.Default? ==> r.cores == Some(Num(1))
    ensures workingDirectory.Default? ==> r.workingDirectory == Paths.Render(cwd)
    ensures memoryMax.Default? ==> r.memoryMax == None
    ensures runTimeMax.Default? ==> r.runTimeMax == None
    ensures dependencies.Default? ==> r.dependencies == None
  {
    RenderRequest(template, ArgOr(jobName, Some(DefaultJobName)),
                  ArgOr(workingDirectory, Paths.Render(cwd)), ArgOr(cores, Some(Num(1))),
                  ArgOr(memoryMax, None), ArgOr(runTimeMax, None),
                  ArgOr(dependencies, None), command, extra)
  }

  /** The queue named by the caller, else the primary queue (a KeyError when the
      configuration has none). */
  function ResolveQueue(c: Config, queue: Option<string>): (r: Result<string>)
    ensures queue.Some? ==> r == Ok(queue.value)
    ensures queue.None? ==> (r.Ok? <==> c.queuePrimary.Some?)
    ensures queue.None? && r.Ok? ==> r.value == c.queuePrimary.value
    ensures r.Err? ==> r.error == KeyError
  {
    if queue.Some? then Ok(queue.value)
    else if c.queuePrimary.Some? then Ok(c.queuePrimary.value)
    else Err(KeyError)
  }

  /** `_job_submission_template` of the configured generations: resolve the queue, check
      the command, find the queue, hold the parameters within its limits, take its
      template. The older adapters render with the template directly; the configured base
      adapter hands everything, dependencies and further keywords included, to the command
      class, so a remote setup fails there with AttributeError. */
  function ConfiguredTemplate(a: Adapter, args: JobArgs, wd: string): (r: Result<RenderRequest>)
    requires a.gen != CoreOnly
    ensures r.Ok? ==> r.value.workingDirectory == wd && r.value.jobName == args.jobName
    ensures r.Ok? ==> r.value.command == CommandValue(args.command)
    ensures r.Ok? ==> exists e :: e in a.config.queues && e.template == Some(r.value.template)
    ensures args.command.NoCommand? ==>
      r.Err? && (r.error == ValueError || (args.queue.None? && a.config.queuePrimary.None?))
    ensures args.command.Number? ==>
      r.Err? && (r.error == TypeError || (args.queue.None? && a.config.queuePrimary.None?))
  {
    var queue :- ResolveQueue(a.config, args.queue);
    var command := CommandValue(args.command);
    var check := ValueErrorIfNone(command);
    if check.Fail? then Err(check.error)
    else
      var entry := Entry(a.config.queues, queue);
      if entry.None? then Err(ValueError)
      else
        var limits := CheckQueueParameters(entry.value.limits, args.cores, args.runTimeMax, args.memoryMax);
        if limits.Err? then Err(limits.error)
        else if entry.value.template.None? then Err(KeyError)
        else
          var (cores, runTime, memory) := limits.value;
          if a.gen == WithConfig then
            if a.commands.RemoteCommands? then Err(AttributeError)
            else Ok(RenderRequest(entry.value.template.value, args.jobName, wd, cores, memory, runTime,
                                  args.dependencies, command, args.extra))
          else
            Ok(RenderRequest(entry.value.template.value, args.jobName, wd, cores, memory, runTime,
                             None, command, []))
  }

  /** `_job_submission_template` of `QueueAdapterCore` on its own: no queue may be named;
      the template is the one passed, else the module's; the command is not checked. */
  function CoreTemplate(a: Adapter, args: JobArgs, wd: string): (r: Result<RenderRequest>)
    ensures args.queue.Some? ==> r == Err(ValueError)
    ensures args.queue.None? && a.commands.Local? ==> r.Ok?
    ensures r.Ok? ==> r.value.template == args.template.GetOr(a.moduleTemplate)
    ensures r.Ok? ==> r.value.command == CommandValue(args.command) && r.value.workingDirectory == wd
    ensures r.Ok? ==> r.value.cores == args.cores && r.value.dependencies == args.dependencies
  {
    if args.queue.Some? then Err(ValueError)
    else if a.commands.RemoteCommands? then Err(AttributeError)
    else
      Ok(RenderSubmissionTemplate(CommandValue(args.command), args.template.GetOr(a.moduleTemplate),
                                  Given(args.jobName), Given(wd), Given(args.cores),
                                  Given(args.memoryMax), Given(args.runTimeMax),
                                  Given(args.dependencies), args.extra, []))
  }

  function SubmissionScript(a: Adapter, args: JobArgs, wd: string): Result<RenderRequest> {
    if a.gen == CoreOnly then CoreTemplate(a, args, wd) else ConfiguredTemplate(a, args, wd)
  }

  /** A job left to the primary queue is the same job sent to that queue by name. */
  lemma DefaultQueueIsPrimary(a: Adapter, args: JobArgs, wd: string)
    requires a.gen != CoreOnly && args.queue.None? && a.config.queuePrimary.Some?
    ensures ConfiguredTemplate(a, args, wd)
      == ConfiguredTemplate(a, args.(queue := a.config.queuePrimary), wd)
  {
  }

  /** The configured base adapter renders from the queue's template whatever template the
      caller passes. */
  lemma ConfiguredIgnoresPassedTemplate(a: Adapter, args: JobArgs, wd: string, other: Option<string>)
    requires a.gen == WithConfig
    ensures ConfiguredTemplate(a, args, wd) == ConfiguredTemplate(a, args.(template := other), wd)
  {
  }

  /** For a local scheduler and a call without dependencies or further keywords, the three
      configured generations render the same script. */
  lemma ConfiguredGenerationsAgree(a: Adapter, args: JobArgs, wd: string)
    requires a.gen != CoreOnly && a.commands.Local?
    requires args.dependencies.None? && args.extra == []
    ensures ConfiguredTemplate(a, args, wd) == ConfiguredTemplate(a.(gen := UtilsBasic), args, wd)
    ensures ConfiguredTemplate(a, args, wd) == ConfiguredTemplate(a.(gen := WithConfig), args, wd)
  {
  }

  /** The Slurm test configuration (`cores_min` 10, `run_time_max` 259200, no memory
      limit): a job that asks for neither cores nor run time is rendered with 10 cores and
      the maximal run time, and without a memory limit. */
  lemma TemplateClampsExample(t: string, cmd: string)
    ensures var q := QueueEntry("slurm", map[CoresMin := Some(Num(10)), CoresMax := Some(Num(100)),
                                              RunTimeMax := Some(Num(259200)), MemoryMax := None], Some(t));
      var a := Adapter(WithConfig, Config("SLURM", Some("slurm"), [q]), Local(Slurm), "");
      var args := JobArgs(Some("slurm"), None, None, None, None, None, None, Str(cmd), None, []);
      ConfiguredTemplate(a, args, ".")
        == Ok(RenderRequest(t, None, ".", Some(Num(10)), None, Some(Num(259200)), None, Some(Text(cmd)), []))
  {
    var limits := map[CoresMin := Some(Num(10)), CoresMax := Some(Num(100)),
                      RunTimeMax := Some(Num(259200)), MemoryMax := None];
    var q := QueueEntry("slurm", limits, Some(t));
    assert QueueList([q]) == ["slurm"];
    assert Entry([q], "slurm") == Some(q);
    assert ValueInRange(None, Some(Num(10)), Some(Num(100))) == Ok(Some(Num(10)));
    assert ValueInRange(None, None, Some(Num(259200))) == Ok(Some(Num(259200)));
    assert ValueInRange(None, None, None) == Ok(None);
    assert CheckQueueParameters(limits, None, None, None) == Ok((Some(Num(10)), Some(Num(259200)), None));
  }

  // ---------------------------------------------------------------- submit

  const ScriptName := "run_queue.sh"

  /** Everything `submit_job` decides before it runs a command. */
  datatype Plan = Plan(workingDirectory: string, script: RenderRequest, argv: seq<string>)

  /** The working-directory check: the older generations test `" " in working_directory`
      even when it is None (a TypeError); the base generation only a given one. */
  function WorkingDirectoryCheck(g: Generation, wd: Option<string>): (r: Outcome)
    ensures r.Fail? ==> r.error in {ValueError, TypeError}
    ensures wd.Some? ==> (r.Pass? <==> ' ' !in wd.value)
    ensures wd.Some? && r.Fail? ==> r.error == ValueError
    ensures wd.None? ==> (r.Pass? <==> g == CoreOnly || g == WithConfig)
  {
    match wd
    case None =>
      (match g
       case UtilsBasic => Fail(TypeError)
       case OldBasic => Fail(TypeError)
       case _ => Pass)
    case Some(d) => if ' ' in d then Fail(ValueError) else Pass
  }

  /** `submit_job` up to running the command: keyword and working-directory checks, the
      submission script (a missing directory becomes "."), its path `<wd>/run_queue.sh`,
      and the argument vector — the submit vector, then, in the utils generation only, the
      dependency arguments, then the script. */
  function SubmitPlan(a: Adapter, args: JobArgs): (r: Result<Plan>)
    ensures (args.workingDirectory.Some? && ' ' in args.workingDirectory.value
             && KeywordsAccepted(a.gen, args).Pass?) ==> r == Err(ValueError)
    ensures r.Ok? ==> a.commands.Local? && r.value.workingDirectory == args.workingDirectory.GetOr(".")
    ensures r.Ok? ==> SubmissionScript(a, args, r.value.workingDirectory) == Ok(r.value.script)
    ensures r.Ok? ==> |r.value.argv| >= 2 && r.value.argv[..|SubmitCommand(a.commands.kind)|] == SubmitCommand(a.commands.kind)
    ensures r.Ok? ==> r.value.argv[|r.value.argv| - 1] == Paths.PathJoin(r.value.workingDirectory, ScriptName)
  {
    var keywords := KeywordsAccepted(a.gen, args);
    if keywords.Fail? then Err(keywords.error)
    else
      var wdCheck := WorkingDirectoryCheck(a.gen, args.workingDirectory);
      if wdCheck.Fail? then Err(wdCheck.error)
      else if a.gen in {CoreOnly, WithConfig} && args.template.None? && a.commands.RemoteCommands? then
        Err(AttributeError)
      else
        var wd := args.workingDirectory.GetOr(".");
        var script :- SubmissionScript(a, args, wd);
        var path := Paths.PathJoin(wd, ScriptName);
        if a.commands.RemoteCommands? then Err(AttributeError)
        else
          var k := a.commands.kind;
          if a.gen == UtilsBasic then
            var deps :- Dependencies(k, args.dependencies);
            Ok(Plan(wd, script, SubmitCommand(k) + deps + [path]))
          else
            Ok(Plan(wd, script, SubmitCommand(k) + [path]))
  }

  /** `submit_job`: None when the command fails, else the id the command class reads from
      the output. */
  function SubmitJob(a: Adapter, args: JobArgs, run: Runner, ext: Foreign): (r: Result<Option<int>>)
    ensures SubmitPlan(a, args).Err? ==> r == Err(SubmitPlan(a, args).error)
    ensures SubmitPlan(a, args).Ok? ==>
      var p := SubmitPlan(a, args).value;
      && (run(p.argv, Some(p.workingDirectory)).None? ==> r == Ok(None))
      && (run(p.argv, Some(p.workingDirectory)).Some? ==>
            r == (match JobIdFromOutput(a.commands.kind, run(p.argv, Some(p.workingDirectory)).value, ext)
                  case Ok(id) => Ok(Some(id))
                  case Err(e) => Err(e)))
  {
    var p :- SubmitPlan(a, args);
    var out := run(p.argv, Some(p.workingDirectory));
    if out.None? then Ok(None)
    else
      var id :- JobIdFromOutput(a.commands.kind, out.value, ext);
      Ok(Some(id))
  }

  /** The script the submit vector names lies in the job's working directory. */
  lemma SubmittedScriptInWorkingDirectory(a: Adapter, args: JobArgs)
    requires SubmitPlan(a, args).Ok?
    requires var wd := SubmitPlan(a, args).value.workingDirectory; wd != [] && wd[|wd| - 1] != '/'
    ensures var p := SubmitPlan(a, args).value;
      Paths.Dirname(p.argv[|p.argv| - 1]) == p.workingDirectory
  {
    var p := SubmitPlan(a, args).value;
    ScriptPathDirname(p.workingDirectory, p.argv[|p.argv| - 1]);
  }

  lemma ScriptPathDirname(wd: string, path: string)
    requires wd != [] && wd[|wd| - 1] != '/'
    requires path == Paths.PathJoin(wd, ScriptName)
    ensures Paths.Dirname(path) == wd
  {
    assert ScriptName[0] != '/' && '/' !in ScriptName;
    Paths.DirnameOfChild(wd, ScriptName);
  }

  /** In the utils generation a scheduler without dependency support still submits when no
      dependencies are given: the vector is then the same as in the other generations. */
  lemma SubmitArgvGenerationsAgree(a: Adapter, args: JobArgs)
    requires a.gen == UtilsBasic && a.commands.Local? && a.commands.kind !in {Slurm, Sge}
    requires args.dependencies.None?
    ensures SubmitPlan(a, args).Ok? ==> SubmitPlan(a.(gen := OldBasic), args) == SubmitPlan(a, args)
  {
    if SubmitPlan(a, args).Ok? {
      var wd := args.workingDirectory.GetOr(".");
      var path := Paths.PathJoin(wd, ScriptName);
      assert Dependencies(a.commands.kind, None) == Ok([]);
      assert SubmitCommand(a.commands.kind) + [] + [path] == SubmitCommand(a.commands.kind) + [path];
    }
  }

  /** A Slurm-family submit whose output ends in `<id>;<cluster>` yields that id, in every
      generation. */
  lemma SubmitJobReadsSlurmId(a: Adapter, args: JobArgs, run: Runner, ext: Foreign,
                              pre: string, id: int, q: string)
    requires SubmitPlan(a, args).Ok? && a.commands.Local? && a.commands.kind in {Slurm, Gent}
    requires pre == [] || IsLineBreak(pre[|pre| - 1])
    requires CleanClusterName(q)
    requires var p := SubmitPlan(a, args).value;
      run(p.argv, Some(p.workingDirectory)) == Some(pre + IntToString(id) + ";" + q)
    ensures SubmitJob(a, args, run, ext) == Ok(Some(id))
  {
    SlurmSubmitOutputRoundTrip(a.commands.kind, pre, id, q, ext);
  }

  /** A failed submit command gives None, not an error. */
  lemma SubmitJobFailureIsNone(a: Adapter, args: JobArgs, run: Runner, ext: Foreign)
    requires SubmitPlan(a, args).Ok?
    requires var p := SubmitPlan(a, args).value; run(p.argv, Some(p.workingDirectory)).None?
    ensures SubmitJob(a, args, run, ext) == Ok(None)
  {
  }

  // ---------------------------------------------------------------- delete, reserve

  /** `out.split("\n")[0]`: the output up to its first newline. */
  function FirstLine(out: string): (r: string)
    ensures '\n' !in r
    ensures |r| <= |out| && r == out[..|r|]
    ensures |r| < |out| ==> out[|r|] == '\n'
  {
    SplitHead(out, '\n');
    Split(out, '\n')[0]
  }

  /** The first line of lines joined by newlines is the first of them. */
  lemma FirstLineOfLines(lines: seq<string>)
    requires lines != [] && '\n' !in lines[0]
    ensures FirstLine(Join(lines, "\n")) == lines[0]
  {
    if |lines| == 1 {
      assert Join(lines, "\n") == lines[0];
      SplitHead(lines[0], '\n');
    } else {
      JoinCons(lines[0], lines[1..], "\n");
      assert lines == [lines[0]] + lines[1..];
      assert Join(lines, "\n") == lines[0] + ['\n'] + Join(lines[1..], "\n");
      SplitAt(lines[0], '\n', Join(lines[1..], "\n"));
    }
  }

  /** Runs `vector + [str(id)]` and returns the first line of the output, or None when the
      command fails. */
  function RunForFirstLine(vector: seq<string>, id: int, run: Runner): (r: Option<string>)
    ensures run(vector + [IntToString(id)], None).None? <==> r.None?
    ensures r.Some? ==> r.value == FirstLine(run(vector + [IntToString(id)], None).value)
  {
    var out := run(vector + [IntToString(id)], None);
    if out.None? then None else Some(FirstLine(out.value))
  }

  /** `delete_job`. */
  function DeleteJob(a: Adapter, id: int, run: Runner): (r: Result<Option<string>>)
    ensures r.Err? <==> a.commands.RemoteCommands?
    ensures r.Err? ==> r.error == AttributeError
    ensures r.Ok? ==> r.value == RunForFirstLine(DeleteCommand(a.commands.kind), id, run)
  {
    if a.commands.RemoteCommands? then Err(AttributeError)
    else Ok(RunForFirstLine(DeleteCommand(a.commands.kind), id, run))
  }

  /** `enable_reservation`; a command class without a reservation command raises
      NotImplementedError before anything runs. */
  function EnableReservation(a: Adapter, id: int, run: Runner): (r: Result<Option<string>>)
    ensures r.Ok? <==> a.commands.Local? && a.commands.kind in {Sge, Slurm, Gent}
    ensures r.Ok? ==> r.value == RunForFirstLine(ReservationCommand(a.commands.kind).value, id, run)
  {
    if a.commands.RemoteCommands? then Err(AttributeError)
    else
      var vector :- ReservationCommand(a.commands.kind);
      Ok(RunForFirstLine(vector, id, run))
  }

  /** Deleting a job whose command answers with lines returns the first of them. */
  lemma DeleteJobAnswersFirstLine(a: Adapter, id: int, run: Runner, lines: seq<string>)
    requires a.commands.Local?
    requires lines != [] && '\n' !in lines[0]
    requires run(DeleteCommand(a.commands.kind) + [IntToString(id)], None) == Some(Join(lines, "\n"))
    ensures DeleteJob(a, id, run) == Ok(Some(lines[0]))
  {
    FirstLineOfLines(lines);
  }

  // ---------------------------------------------------------------- status

  /** `get_queue_status`: the parsed listing, with only the rows of `user` when one is
      given. Filtering the None a Gent listing without jobs gives is a TypeError. */
  function GetQueueStatus(a: Adapter, user: Option<string>, run: Runner, ext: Foreign)
    : (r: Result<Option<Table>>)
    ensures a.commands.RemoteCommands? ==> r == Err(AttributeError)
    ensures a.commands.Local? && user.None? ==>
      r == ConvertQueueStatus(a.commands.kind, run(StatusCommand(a.commands.kind), None), ext)
    ensures r.Ok? && user.Some? ==>
      var df := ConvertQueueStatus(a.commands.kind, run(StatusCommand(a.commands.kind), None), ext);
      && df.Ok? && df.value.Some? && r.value.Some?
      && r.value.value.columns == df.value.value.columns
      && (forall x :: x in r.value.value.rows <==> x in df.value.value.rows && x.user == user.value)
      && r.value.value.rows == RowsOfUser(df.value.value.rows, user.value)
    ensures a.commands.Local? && user.Some?
      && ConvertQueueStatus(a.commands.kind, run(StatusCommand(a.commands.kind), None), ext) == Ok(None)
      ==> r == Err(TypeError)
  {
    if a.commands.RemoteCommands? then Err(AttributeError)
    else
      var out := run(StatusCommand(a.commands.kind), None);
      var df :- ConvertQueueStatus(a.commands.kind, out, ext);
      if user.None? then Ok(df)
      else if df.None? then Err(TypeError)
      else
        match FilterUser(df.value, user.value)
        case Ok(t) => Ok(Some(t))
        case Err(e) => Err(e)
  }

  /** `get_status_of_job`: None for a job the listing does not show. */
  function GetStatusOfJob(a: Adapter, id: int, run: Runner, ext: Foreign): (r: Result<Option<string>>)
    ensures r.Ok? ==> GetQueueStatus(a, None, run, ext).Ok? && GetQueueStatus(a, None, run, ext).value.Some?
    ensures r.Ok? ==> r.value == StatusOfJob(GetQueueStatus(a, None, run, ext).value.value, id)
  {
    var df :- GetQueueStatus(a, None, run, ext);
    if df.None? then Err(TypeError) else Ok(StatusOfJob(df.value, id))
  }

  /** `get_status_of_jobs`: one status per requested job, "finished" for those not shown. */
  function GetStatusOfJobs(a: Adapter, ids: seq<int>, run: Runner, ext: Foreign): (r: Result<seq<string>>)
    ensures r.Ok? ==> |r.value| == |ids|
    ensures r.Ok? ==> GetQueueStatus(a, None, run, ext).Ok? && GetQueueStatus(a, None, run, ext).value.Some?
    ensures r.Ok? ==> r.value == StatusOfJobs(GetQueueStatus(a, None, run, ext).value.value, ids)
  {
    var df :- GetQueueStatus(a, None, run, ext);
    if df.None? then Err(TypeError) else Ok(StatusOfJobs(df.value, ids))
  }

  /** The two conventions for a job the listing does not show: the single lookup answers
      None, the list lookup "finished"; for a shown job both give its status, and both fail
      alike. */
  lemma NotFoundConventions(a: Adapter, id: int, run: Runner, ext: Foreign)
    ensures GetStatusOfJob(a, id, run, ext).Err? <==> GetStatusOfJobs(a, [id], run, ext).Err?
    ensures GetStatusOfJob(a, id, run, ext) == Ok(None) ==> GetStatusOfJobs(a, [id], run, ext) == Ok([Finished])
    ensures GetStatusOfJob(a, id, run, ext).Ok? && GetStatusOfJob(a, id, run, ext).value.Some? ==>
      GetStatusOfJobs(a, [id], run, ext) == Ok([GetStatusOfJob(a, id, run, ext).value.value])
  {
    var df := GetQueueStatus(a, None, run, ext);
    if df.Ok? && df.value.Some? {
      var t := df.value.value;
      StatusOfJobsAgrees(t, [id], 0);
      assert StatusOfJobs(t, [id]) == [StatusOfJobs(t, [id])[0]];
    }
  }

  /** Asking for one user's jobs twice over is asking once: the filtered listing, filtered
      again, is unchanged. */
  lemma UserFilterIdempotent(a: Adapter, user: string, run: Runner, ext: Foreign)
    requires GetQueueStatus(a, Some(user), run, ext).Ok?
    ensures var t := GetQueueStatus(a, Some(user), run, ext).value.value;
      FilterUser(t, user) == Ok(t)
  {
    var df := ConvertQueueStatus(a.commands.kind, run(StatusCommand(a.commands.kind), None), ext);
    RowsOfUserIdempotent(df.value.value.rows, user);
  }
}
