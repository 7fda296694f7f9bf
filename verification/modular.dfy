/** The modular queue adapter: one scheduler reached on several clusters, each selected by
    prefixing a command with `module --quiet swap cluster/<name>;`. Every queue belongs to a
    cluster; a job id handed to the caller packs the scheduler's own id and the position of
    the job's cluster in the cluster list as `native * 10 + position`.

    Four generations are kept: `BaseModular` (`pysqa/base/modular.py`, on the configured
    base adapter), `ExtModular` (`pysqa/ext/modular.py`) and `UtilsModular`
    (`pysqa/utils/modular.py`), both on the utils adapter, and `OldModular`
    (`pysqa/modular.py`, on the oldest adapter). */
module Modular {
  import opened Wrappers
  import opened PyText
  import opened Tables
  import opened Scheduler
  import Adapter
  import Paths

  datatype Variant = BaseModular | ExtModular | UtilsModular | OldModular

  /** The local adapter each modular adapter extends. */
  function Parent(v: Variant): (g: Adapter.Generation)
    ensures g != Adapter.CoreOnly
  {
    match v
    case BaseModular => Adapter.WithConfig
    case ExtModular => Adapter.UtilsBasic
    case UtilsModular => Adapter.UtilsBasic
    case OldModular => Adapter.OldBasic
  }

  /** A queue of a modular configuration: the queue and its `cluster` key, None when the
      entry has none. */
  datatype ClusterQueue = ClusterQueue(entry: Adapter.QueueEntry, cluster: Option<string>)

  datatype ModularConfig = ModularConfig(
    queueType: string,
    queuePrimary: Option<string>,
    queues: seq<ClusterQueue>,
    clusters: seq<string>)

  function ToConfig(mc: ModularConfig): (c: Adapter.Config)
    ensures |c.queues| == |mc.queues|
    ensures forall i :: 0 <= i < |mc.queues| ==> c.queues[i] == mc.queues[i].entry
  {
    Adapter.Config(mc.queueType, mc.queuePrimary,
                   seq(|mc.queues|, i requires 0 <= i < |mc.queues| => mc.queues[i].entry))
  }

  /** A constructed modular adapter: the local adapter, each queue's cluster, the clusters. */
  datatype Modular = Modular(
    variant: Variant,
    local: Adapter.Adapter,
    queueClusters: seq<(string, string)>,
    clusters: seq<string>)

  /** `{k: v["cluster"] for k, v in queues.items()}`: a KeyError for a queue without one. */
  function QueueClusters(qs: seq<ClusterQueue>): (r: Result<seq<(string, string)>>)
    ensures r.Err? <==> exists i :: 0 <= i < |qs| && qs[i].cluster.None?
    ensures r.Err? ==> r.error == KeyError
    ensures r.Ok? ==> |r.value| == |qs|
    ensures r.Ok? ==> forall i :: 0 <= i < |qs| ==>
      r.value[i] == (qs[i].entry.name, qs[i].cluster.value)
  {
    if qs == [] then Ok([])
    else if qs[0].cluster.None? then Err(KeyError)
    else
      var rest := QueueClusters(qs[1..]);
      if rest.Err? then
        assert exists i :: 0 <= i < |qs| && qs[i].cluster.None? by {
          var i :| 0 <= i < |qs[1..]| && qs[1..][i].cluster.None?;
          assert qs[i + 1].cluster.None?;
        }
        Err(KeyError)
      else
        Ok([(qs[0].entry.name, qs[0].cluster.value)] + rest.value)
  }

  /** Every queue's cluster is a configured cluster. */
  predicate ClustersKnown(pairs: seq<(string, string)>, clusters: seq<string>) {
    forall i :: 0 <= i < |pairs| ==> pairs[i].1 in clusters
  }

  /** The constructor's cluster check as written: the error message calls `.keys()` on the
      cluster list, so in the base and ext generations an unknown cluster surfaces as an
      AttributeError raised while the ValueError is being built. */
  function ClusterCheckAsWritten(v: Variant, pairs: seq<(string, string)>, clusters: seq<string>)
    : (r: Outcome)
    ensures r.Pass? <==> ClustersKnown(pairs, clusters)
    ensures r.Fail? ==> r.error == (if v in {BaseModular, ExtModular} then AttributeError else ValueError)
  {
    if ClustersKnown(pairs, clusters) then Pass
    else if v == BaseModular || v == ExtModular then Fail(AttributeError)
    else Fail(ValueError)
  }

  /** The check as intended: a ValueError for a queue on an unknown cluster, in every
      generation. */
  function ClusterCheck(pairs: seq<(string, string)>, clusters: seq<string>): (r: Outcome)
    ensures r.Pass? <==> forall i :: 0 <= i < |pairs| ==> pairs[i].1 in clusters
    ensures r.Fail? ==> r.error == ValueError
  {
    if ClustersKnown(pairs, clusters) then Pass else Fail(ValueError)
  }

  /** A queue on cluster "c2" with only "c1" configured: the base generation, as written,
      raises AttributeError where a ValueError is announced; the corrected check raises the
      ValueError, and the two agree whenever the clusters are known. */
  lemma ClusterCheckMisreports(v: Variant, pairs: seq<(string, string)>, clusters: seq<string>)
    ensures ClusterCheckAsWritten(BaseModular, [("q", "c2")], ["c1"]) == Fail(AttributeError)
    ensures ClusterCheck([("q", "c2")], ["c1"]) == Fail(ValueError)
    ensures ClusterCheck(pairs, clusters).Pass? <==> ClusterCheckAsWritten(v, pairs, clusters).Pass?
  {
    assert !ClustersKnown([("q", "c2")], ["c1"]) by {
      assert [("q", "c2")][0].1 !in ["c1"];
    }
  }

  /** The constructor: the local adapter first (its errors first), then the queue-to-cluster
      map, then the cluster check as each generation writes it. */
  function Construct(v: Variant, mc: ModularConfig, moduleTemplate: string): (r: Result<Modular>)
    ensures r.Ok? ==> ClustersKnown(r.value.queueClusters, r.value.clusters)
    ensures r.Ok? ==> r.value.clusters == mc.clusters && r.value.local.gen == Parent(v)
    ensures r.Ok? ==> |r.value.queueClusters| == |mc.queues|
    ensures (Adapter.Construct(Parent(v), ToConfig(mc), moduleTemplate).Ok?
             && QueueClusters(mc.queues).Ok?
             && !ClustersKnown(QueueClusters(mc.queues).value, mc.clusters))
            ==> r == Err(if v in {BaseModular, ExtModular} then AttributeError else ValueError)
  {
    var local :- Adapter.Construct(Parent(v), ToConfig(mc), moduleTemplate);
    var pairs :- QueueClusters(mc.queues);
    var check := ClusterCheckAsWritten(v, pairs, mc.clusters);
    if check.Fail? then Err(check.error) else Ok(Modular(v, local, pairs, mc.clusters))
  }

  // ---------------------------------------------------------------- ids

  /** The prefix that selects a cluster's environment. */
  function SwitchCommand(cluster: string): (argv: seq<string>)
    ensures |argv| == 4 && argv[..3] == ["module", "--quiet", "swap"]
  {
    ["module", "--quiet", "swap", "cluster/" + cluster + ";"]
  }

  /** The prefix names its cluster: different clusters give different prefixes. */
  lemma SwitchCommandInjective(a: string, b: string)
    requires SwitchCommand(a) == SwitchCommand(b)
    ensures a == b
  {
    var x := SwitchCommand(a)[3];
    assert x == "cluster/" + a + ";" && x == "cluster/" + b + ";";
    assert a == x[8..|x| - 1];
    assert b == x[8..|x| - 1];
  }

  /** `int(p / 10)`: division truncated toward zero. */
  function TruncDiv10(p: int): (q: int)
    ensures p >= 0 ==> q == p / 10
    ensures -9 <= p - 10 * q <= 9
    ensures p >= 0 ==> 0 <= p - 10 * q
    ensures p < 0 ==> p - 10 * q <= 0
  {
    if p >= 0 then p / 10 else -((-p) / 10)
  }

  /** `xs[i]` with Python's negative indices. */
  function PyIndex(xs: seq<string>, i: int): (r: Result<string>)
    ensures r.Ok? <==> -|xs| <= i < |xs|
    ensures r.Ok? && i >= 0 ==> r.value == xs[i]
    ensures r.Ok? && i < 0 ==> r.value == xs[|xs| + i]
    ensures r.Err? ==> r.error == IndexError
  {
    if 0 <= i < |xs| then Ok(xs[i])
    else if -|xs| <= i < 0 then Ok(xs[|xs| + i])
    else Err(IndexError)
  }

  /** `list.index`: the first position of `x`, a ValueError when it is absent. */
  function Position(xs: seq<string>, x: string): (r: Result<nat>)
    ensures r.Ok? <==> x in xs
    ensures r.Ok? ==> r.value < |xs| && xs[r.value] == x && x !in xs[..r.value]
    ensures r.Err? ==> r.error == ValueError
  {
    if xs == [] then Err(ValueError)
    else if xs[0] == x then Ok(0)
    else
      var rest :- Position(xs[1..], x);
      assert xs[..rest + 1] == [xs[0]] + xs[1..][..rest];
      Ok(rest + 1)
  }

  /** The id handed out for a job with scheduler id `native` on the cluster at `index`. */
  function EncodeId(native: int, index: nat): int {
    native * 10 + index
  }

  /** `_resolve_queue_id`: the scheduler id and the cluster of a packed id. */
  function ResolveQueueId(p: int, clusters: seq<string>): (r: Result<(string, int)>)
    ensures r.Ok? ==> r.value.1 == TruncDiv10(p)
    ensures r.Err? <==> !(-|clusters| <= p - 10 * TruncDiv10(p) < |clusters|)
  {
    var native := TruncDiv10(p);
    var cluster :- PyIndex(clusters, p - native * 10);
    Ok((cluster, native))
  }

  /** Packing then unpacking gives back the cluster and the scheduler's id, as long as the id
      is not negative and the cluster is among the first ten. */
  lemma ResolveEncodedId(n: int, i: nat, clusters: seq<string>)
    requires n >= 0 && i < 10 && i < |clusters|
    ensures ResolveQueueId(EncodeId(n, i), clusters) == Ok((clusters[i], n))
  {
    var p := EncodeId(n, i);
    assert p / 10 == n && p - 10 * n == i;
  }

  /** The eleventh cluster (index 10) does not survive the packing: its jobs are read back
      as jobs of the first cluster with the next scheduler id. */
  lemma EleventhClusterAliases(n: nat, clusters: seq<string>)
    requires |clusters| > 10
    ensures ResolveQueueId(EncodeId(n, 10), clusters) == Ok((clusters[0], n + 1))
  {
    var p := EncodeId(n, 10);
    assert p == (n + 1) * 10;
    assert p / 10 == n + 1;
  }

  /** The worked example of the tests: 20120 is job 2012 on cluster 0. */
  lemma ResolveQueueIdExample()
    ensures ResolveQueueId(20120, ["cluster1"]) == Ok(("cluster1", 2012))
  {
    ResolveEncodedId(2012, 0, ["cluster1"]);
  }

  // ---------------------------------------------------------------- submit

  /** `_queue_to_cluster_dict[queue]`: None, or a queue the map does not hold, is a
      KeyError. */
  function ClusterOfQueue(pairs: seq<(string, string)>, queue: Option<string>): (r: Result<string>)
    ensures r.Err? ==> r.error == KeyError
    ensures queue.None? ==> r == Err(KeyError)
    ensures r.Ok? ==> exists i :: 0 <= i < |pairs| && pairs[i] == (queue.value, r.value)
    ensures queue.Some? && (forall i :: 0 <= i < |pairs| ==> pairs[i].0 != queue.value) ==> r.Err?
  {
    if queue.None? || pairs == [] then Err(KeyError)
    else if pairs[0].0 == queue.value then Ok(pairs[0].1)
    else
      var rest := ClusterOfQueue(pairs[1..], queue);
      if rest.Ok? then
        assert exists i :: 0 <= i < |pairs| && pairs[i] == (queue.value, rest.value) by {
          var i :| 0 <= i < |pairs[1..]| && pairs[1..][i] == (queue.value, rest.value);
          assert pairs[i + 1] == (queue.value, rest.value);
        }
        rest
      else rest
  }

  /** Everything a modular `submit_job` decides before running: no working-directory check
      (the override drops it), the parent's submission script, the cluster of the queue as
      given, and the vector: the cluster switch, the submit vector, the dependency arguments
      in the ext and utils generations, then the script. */
  datatype ModularPlan = ModularPlan(workingDirectory: string, script: Adapter.RenderRequest,
                                     cluster: string, argv: seq<string>)

  function SubmitPlan(m: Modular, args: Adapter.JobArgs): (r: Result<ModularPlan>)
    ensures r.Ok? ==> m.local.commands.Local?
    ensures r.Ok? ==> |r.value.argv| > 4 && r.value.argv[..4] == SwitchCommand(r.value.cluster)
    ensures r.Ok? ==> args.queue.Some?
                      && exists i :: 0 <= i < |m.queueClusters| && m.queueClusters[i] == (args.queue.value, r.value.cluster)
    ensures r.Ok? ==> Adapter.SubmissionScript(m.local, args, r.value.workingDirectory) == Ok(r.value.script)
  {
    var keywords := Adapter.KeywordsAccepted(m.local.gen, args);
    if keywords.Fail? then Err(keywords.error)
    else
      var wd := args.workingDirectory.GetOr(".");
      var script :- Adapter.SubmissionScript(m.local, args, wd);
      var cluster :- ClusterOfQueue(m.queueClusters, args.queue);
      var path := Paths.PathJoin(wd, Adapter.ScriptName);
      if m.local.commands.RemoteCommands? then Err(AttributeError)
      else
        var k := m.local.commands.kind;
        if m.variant in {ExtModular, UtilsModular} then
          var deps :- Dependencies(k, args.dependencies);
          Ok(ModularPlan(wd, script, cluster, SwitchCommand(cluster) + SubmitCommand(k) + deps + [path]))
        else
          Ok(ModularPlan(wd, script, cluster, SwitchCommand(cluster) + SubmitCommand(k) + [path]))
  }

  /** `submit_job`: None when the command fails, else the scheduler's id packed with the
      position of the queue's cluster. */
  function SubmitJob(m: Modular, args: Adapter.JobArgs, run: Adapter.Runner, ext: Foreign)
    : (r: Result<Option<int>>)
    ensures SubmitPlan(m, args).Err? ==> r == Err(SubmitPlan(m, args).error)
    ensures SubmitPlan(m, args).Ok? ==>
      var p := SubmitPlan(m, args).value;
      && (run(p.argv, Some(p.workingDirectory)).None? <==> r == Ok(None))
      && (r.Ok? && r.value.Some? ==>
            && JobIdFromOutput(m.local.commands.kind, run(p.argv, Some(p.workingDirectory)).value, ext).Ok?
            && Position(m.clusters, p.cluster).Ok?
            && r.value.value == EncodeId(
                 JobIdFromOutput(m.local.commands.kind, run(p.argv, Some(p.workingDirectory)).value, ext).value,
                 Position(m.clusters, p.cluster).value))
  {
    var p :- SubmitPlan(m, args);
    var out := run(p.argv, Some(p.workingDirectory));
    if out.None? then Ok(None)
    else
      var native :- JobIdFromOutput(m.local.commands.kind, out.value, ext);
      var index :- Position(m.clusters, p.cluster);
      Ok(Some(EncodeId(native, index)))
  }

  /** A job submitted on one of the first ten clusters, with a non-negative scheduler id,
      is found again on its cluster under its scheduler id. */
  lemma SubmittedIdResolves(m: Modular, args: Adapter.JobArgs, run: Adapter.Runner, ext: Foreign)
    ensures SubmittedOnFirstTen(m, args, run, ext) ==>
      var p := SubmitPlan(m, args).value;
      ResolveQueueId(SubmitJob(m, args, run, ext).value.value, m.clusters)
        == Ok((p.cluster, JobIdFromOutput(m.local.commands.kind, run(p.argv, Some(p.workingDirectory)).value, ext).value))
  {
    if SubmittedOnFirstTen(m, args, run, ext) {
      var p := SubmitPlan(m, args).value;
      var native := JobIdFromOutput(m.local.commands.kind, run(p.argv, Some(p.workingDirectory)).value, ext).value;
      var index := Position(m.clusters, p.cluster).value;
      ResolveEncodedId(native, index, m.clusters);
    }
  }

  /** The submit succeeded with a non-negative scheduler id on one of the first ten clusters. */
  predicate SubmittedOnFirstTen(m: Modular, args: Adapter.JobArgs, run: Adapter.Runner, ext: Foreign) {
    && SubmitJob(m, args, run, ext).Ok? && SubmitJob(m, args, run, ext).value.Some?
    && var p := SubmitPlan(m, args).value;
      && JobIdFromOutput(m.local.commands.kind, run(p.argv, Some(p.workingDirectory)).value, ext).value >= 0
      && Position(m.clusters, p.cluster).value < 10
  }

  // ---------------------------------------------------------------- delete, reserve

  /** `delete_job` and `enable_reservation`: unpack the id, switch to its cluster, run the
      scheduler's vector with the scheduler's id; the first output line, or None. */
  function RunOnCluster(m: Modular, id: int, vector: seq<string>, run: Adapter.Runner)
    : (r: Result<Option<string>>)
    ensures r.Err? <==> ResolveQueueId(id, m.clusters).Err?
    ensures r.Ok? ==>
      var (cluster, native) := ResolveQueueId(id, m.clusters).value;
      var out := run(SwitchCommand(cluster) + vector + [IntToString(native)], None);
      && (out.None? <==> r.value.None?)
      && (out.Some? ==> r.value == Some(Adapter.FirstLine(out.value)))
  {
    var (cluster, native) :- ResolveQueueId(id, m.clusters);
    var out := run(SwitchCommand(cluster) + vector + [IntToString(native)], None);
    if out.None? then Ok(None) else Ok(Some(Adapter.FirstLine(out.value)))
  }

  function DeleteJob(m: Modular, id: int, run: Adapter.Runner): (r: Result<Option<string>>)
    ensures m.local.commands.Local? ==> r == RunOnCluster(m, id, DeleteCommand(m.local.commands.kind), run)
    ensures m.local.commands.RemoteCommands? && r.Err? ==> r.error in {IndexError, AttributeError}
  {
    if m.local.commands.RemoteCommands? then
      var _ :- ResolveQueueId(id, m.clusters);
      Err(AttributeError)
    else RunOnCluster(m, id, DeleteCommand(m.local.commands.kind), run)
  }

  function EnableReservation(m: Modular, id: int, run: Adapter.Runner): (r: Result<Option<string>>)
    ensures r.Ok? ==> m.local.commands.Local? && m.local.commands.kind in {Sge, Slurm, Gent}
    ensures r.Ok? ==> r == RunOnCluster(m, id, ReservationCommand(m.local.commands.kind).value, run)
    ensures ResolveQueueId(id, m.clusters).Err? ==> r == Err(IndexError)
  {
    var _ :- ResolveQueueId(id, m.clusters);
    if m.local.commands.RemoteCommands? then Err(AttributeError)
    else
      var vector :- ReservationCommand(m.local.commands.kind);
      RunOnCluster(m, id, vector, run)
  }

  /** Deleting a job that was submitted to cluster `i` with scheduler id `n` runs the delete
      vector on cluster `i` for id `n`. */
  lemma DeleteReachesSubmittedCluster(m: Modular, n: nat, i: nat, run: Adapter.Runner)
    requires m.local.commands.Local? && i < 10 && i < |m.clusters|
    ensures var out := run(SwitchCommand(m.clusters[i]) + DeleteCommand(m.local.commands.kind) + [IntToString(n)], None);
      DeleteJob(m, EncodeId(n, i), run) == Ok(if out.None? then None else Some(Adapter.FirstLine(out.value)))
  {
    ResolveEncodedId(n, i, m.clusters);
  }

  // ---------------------------------------------------------------- status

  /** The listing of every cluster, in cluster order, each read after switching to it. */
  function ClusterFrames(k: Kind, clusters: seq<string>, run: Adapter.Runner, ext: Foreign)
    : (r: Result<seq<Option<Table>>>)
    ensures r.Ok? ==> |r.value| == |clusters|
    ensures r.Ok? ==> forall i :: 0 <= i < |clusters| ==>
      ConvertQueueStatus(k, run(SwitchCommand(clusters[i]) + StatusCommand(k), None), ext) == Ok(r.value[i])
  {
    if clusters == [] then Ok([])
    else
      var first :- ConvertQueueStatus(k, run(SwitchCommand(clusters[0]) + StatusCommand(k), None), ext);
      var rest :- ClusterFrames(k, clusters[1..], run, ext);
      Ok([first] + rest)
  }

  /** `get_queue_status` of the base and ext generations: the cluster listings stacked
      row-wise in cluster order (listings that are None dropped), then the rows of `user`
      when one is given. */
  function StackedQueueStatus(m: Modular, user: Option<string>, run: Adapter.Runner, ext: Foreign)
    : (r: Result<Table>)
    requires m.variant in {BaseModular, ExtModular}
    ensures r.Ok? ==> m.local.commands.Local? && ClusterFrames(m.local.commands.kind, m.clusters, run, ext).Ok?
    ensures r.Ok? && user.None? ==>
      r.value.rows == AllRows(Present(ClusterFrames(m.local.commands.kind, m.clusters, run, ext).value))
    ensures r.Ok? && user.Some? ==>
      forall x :: x in r.value.rows <==>
        x in AllRows(Present(ClusterFrames(m.local.commands.kind, m.clusters, run, ext).value)) && x.user == user.value
    ensures m.clusters == [] ==> r == Err(ValueError)
    ensures m.clusters != [] && m.local.commands.RemoteCommands? ==> r == Err(AttributeError)
  {
    if m.clusters == [] then Err(ValueError)
    else if m.local.commands.RemoteCommands? then Err(AttributeError)
    else
      var frames :- ClusterFrames(m.local.commands.kind, m.clusters, run, ext);
      var df :- Stack(frames);
      if user.None? then Ok(df) else FilterUser(df, user.value)
  }

  /** Selecting a user's jobs from the stacked listing is stacking each cluster's listing
      of that user's jobs: the order of the rows is kept. */
  lemma StackedUserRowsPerCluster(m: Modular, user: string, run: Adapter.Runner, ext: Foreign)
    requires m.variant in {BaseModular, ExtModular}
    ensures StackedQueueStatus(m, Some(user), run, ext).Ok? ==>
      var ts := Present(ClusterFrames(m.local.commands.kind, m.clusters, run, ext).value);
      StackedQueueStatus(m, Some(user), run, ext).value.rows
        == AllRows(seq(|ts|, k requires 0 <= k < |ts| => Table(ts[k].columns, RowsOfUser(ts[k].rows, user))))
  {
    if StackedQueueStatus(m, Some(user), run, ext).Ok? {
      var ts := Present(ClusterFrames(m.local.commands.kind, m.clusters, run, ext).value);
      RowsOfUserAllRows(ts, user);
    }
  }

  /** `get_queue_status(user)` of the utils and oldest generations: the cluster listings
      placed side by side (pandas `axis=1`), then the rows of `user` when one is given. */
  function WideQueueStatus(m: Modular, user: Option<string>, run: Adapter.Runner, ext: Foreign)
    : (r: Result<Wide>)
    requires m.variant in {UtilsModular, OldModular}
    ensures r.Ok? ==> m.local.commands.Local? && ClusterFrames(m.local.commands.kind, m.clusters, run, ext).Ok?
    ensures r.Ok? && user.None? ==>
      r.value.parts == Present(ClusterFrames(m.local.commands.kind, m.clusters, run, ext).value)
    ensures r.Ok? && user.Some? ==>
      var ts := Present(ClusterFrames(m.local.commands.kind, m.clusters, run, ext).value);
      |r.value.parts| == |ts|
      && forall k :: 0 <= k < |ts| ==> FilterUser(ts[k], user.value) == Ok(r.value.parts[k])
    ensures m.clusters == [] ==> r == Err(ValueError)
    ensures m.clusters != [] && m.local.commands.RemoteCommands? ==> r == Err(AttributeError)
  {
    if m.clusters == [] then Err(ValueError)
    else if m.local.commands.RemoteCommands? then Err(AttributeError)
    else
      var frames :- ClusterFrames(m.local.commands.kind, m.clusters, run, ext);
      var wide :- SideBySide(frames);
      if user.None? then Ok(wide) else WideOfUser(wide, user.value)
  }

  function UserFilterOf(user: string): Table -> Result<Table> {
    t => FilterUser(t, user)
  }

  /** `df[df["user"] == user]` on the side-by-side frame: each listing keeps the rows of
      `user`, and a listing without a user column raises KeyError. A single listing is
      filtered row-wise, so the height becomes its number of rows. */
  function WideOfUser(w: Wide, user: string): (r: Result<Wide>)
    ensures r.Ok? ==> |r.value.parts| == |w.parts| && r.value.columns == w.columns
    ensures r.Ok? ==> forall k :: 0 <= k < |w.parts| ==> FilterUser(w.parts[k], user) == Ok(r.value.parts[k])
    ensures r.Ok? && |w.parts| == 1 ==> r.value.height == |r.value.parts[0].rows|
    ensures r.Err? <==> exists k :: 0 <= k < |w.parts| && UserColumn !in w.parts[k].columns
    ensures r.Err? ==> r.error == KeyError
  {
    var parts := MapResults(w.parts, UserFilterOf(user));
    if parts.Err? then Err(parts.error)
    else if |parts.value| == 1 then Ok(Wide(w.columns, |parts.value[0].rows|, parts.value))
    else Ok(w.(parts := parts.value))
  }

  /** The two layouts hold the same listings: the row-wise stack has exactly the rows of the
      side-by-side frame's parts, one part after the other. */
  lemma LayoutsHoldSameRows(m: Modular, run: Adapter.Runner, ext: Foreign)
    requires m.variant == BaseModular
    ensures StackedQueueStatus(m, None, run, ext).Ok? ==>
      && WideQueueStatus(m.(variant := UtilsModular), None, run, ext).Ok?
      && StackedQueueStatus(m, None, run, ext).value.rows
        == AllRows(WideQueueStatus(m.(variant := UtilsModular), None, run, ext).value.parts)
  {
  }

  /** Asked for one user, the two layouts again hold the same rows: whenever every side-by-side
      listing can be filtered, the row-wise stack can be too, and it holds exactly the rows of
      the filtered listings, one listing after the other. */
  lemma LayoutsAgreeOnUser(m: Modular, user: string, run: Adapter.Runner, ext: Foreign)
    requires m.variant == BaseModular
    ensures WideQueueStatus(m.(variant := UtilsModular), Some(user), run, ext).Ok? ==>
      && StackedQueueStatus(m, Some(user), run, ext).Ok?
      && StackedQueueStatus(m, Some(user), run, ext).value.rows
        == AllRows(WideQueueStatus(m.(variant := UtilsModular), Some(user), run, ext).value.parts)
  {
    var w := WideQueueStatus(m.(variant := UtilsModular), Some(user), run, ext);
    if w.Ok? {
      var frames := ClusterFrames(m.local.commands.kind, m.clusters, run, ext).value;
      var ts := Present(frames);
      var fs := seq(|ts|, k requires 0 <= k < |ts| => Table(ts[k].columns, RowsOfUser(ts[k].rows, user)));
      assert SideBySide(frames).Ok?;
      assert ts != [];
      assert UserColumn in ts[0].columns by {
        assert FilterUser(ts[0], user) == Ok(w.value.parts[0]);
      }
      ColumnUnionContents(ts, []);
      assert UserColumn in Stack(frames).value.columns;
      assert w.value.parts == fs by {
        forall k | 0 <= k < |ts| ensures w.value.parts[k] == fs[k] {
          assert FilterUser(ts[k], user) == Ok(w.value.parts[k]);
        }
      }
      RowsOfUserAllRows(ts, user);
    }
  }
}
