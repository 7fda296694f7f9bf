/** The `QueueAdapter` facade: it picks an adapter class from a cluster's `queue_type`,
    keeps one adapter per configured cluster, lets the caller switch between them, and
    hands every operation to the active one unchanged.

    The facade is modelled at the level of its own decisions. The adapters it holds are a
    type parameter `A`, and each one arrives already built, as the `Result` of
    `set_queue_adapter` for that cluster's configuration; the YAML files and the check for
    their existence arrive as optional inputs. */
module Facade {
  import opened Wrappers
  import Scheduler
  import Adapter

  // ---------------------------------------------------------------- queue type dispatch

  /** The two versions of `set_queue_adapter`: the facade's own, and the older one among
      the utilities. */
  datatype Dispatcher = Current | Legacy

  datatype AdapterKind = BasisKind | ModularKind | RemoteKind

  /** The queue types handed to the basis adapter; only the current version lists FLUX. */
  function BasisTypes(d: Dispatcher): seq<string> {
    match d
    case Current => ["SGE", "TORQUE", "SLURM", "LSF", "MOAB", "FLUX"]
    case Legacy => ["SGE", "TORQUE", "SLURM", "LSF", "MOAB"]
  }

  /** Every queue type the dispatcher accepts, in the order its error message lists them. */
  function SupportedTypes(d: Dispatcher): seq<string> {
    BasisTypes(d) + ["GENT", "REMOTE"]
  }

  /** `set_queue_adapter(config, directory)`: the adapter class for a queue type, a
      ValueError for any other. */
  function SetQueueAdapter(d: Dispatcher, queueType: string): (r: Result<AdapterKind>)
    ensures r.Ok? <==> queueType in SupportedTypes(d)
    ensures r.Err? ==> r.error == ValueError
    ensures r == Ok(BasisKind) <==> queueType in BasisTypes(d)
    ensures r == Ok(ModularKind) <==> queueType == "GENT"
    ensures r == Ok(RemoteKind) <==> queueType == "REMOTE"
  {
    if queueType in BasisTypes(d) then Ok(BasisKind)
    else if queueType == "GENT" then Ok(ModularKind)
    else if queueType == "REMOTE" then Ok(RemoteKind)
    else Err(ValueError)
  }

  /** The two dispatchers differ on FLUX alone. */
  lemma DispatchersDifferOnFluxOnly(queueType: string)
    ensures queueType != "FLUX" ==> SetQueueAdapter(Current, queueType) == SetQueueAdapter(Legacy, queueType)
    ensures SetQueueAdapter(Current, "FLUX") == Ok(BasisKind)
    ensures SetQueueAdapter(Legacy, "FLUX") == Err(ValueError)
  {
    assert "FLUX" !in BasisTypes(Legacy);
  }

  /** The current dispatcher sends every scheduler's name to the basis adapter, except Gent,
      which goes to the modular adapter, and the remote name to the remote adapter. Both
      adapters are the utils generation, whose own dispatch knows every name but FLUX: a FLUX
      configuration passes the facade and is rejected by the adapter with a ValueError. */
  lemma DispatchCoversSchedulers(k: Scheduler.Kind)
    ensures SetQueueAdapter(Current, Scheduler.QueueTypeName(k))
      == if k == Scheduler.Gent then Ok(ModularKind) else Ok(BasisKind)
    ensures Adapter.CommandsFor(Adapter.UtilsBasic, Scheduler.QueueTypeName(k))
      == if k == Scheduler.Flux then Err(ValueError) else Ok(Adapter.Local(k))
    ensures SetQueueAdapter(Current, Adapter.RemoteType) == Ok(RemoteKind)
  {
    Adapter.CommandsForEveryKind(Adapter.UtilsBasic, k);
    match k
    case Sge =>
    case Torque =>
    case Slurm =>
    case Lsf =>
    case Moab =>
    case Gent =>
    case Flux =>
  }

  // ---------------------------------------------------------------- clusters

  /** The cluster names in configuration order. */
  function Names<A>(cs: seq<(string, A)>): (ns: seq<string>)
    ensures |ns| == |cs|
    ensures forall i :: 0 <= i < |cs| ==> ns[i] == cs[i].0
  {
    if cs == [] then [] else [cs[0].0] + Names(cs[1..])
  }

  /** The names of a YAML mapping are distinct. */
  predicate Distinct(ns: seq<string>) {
    forall i, j :: 0 <= i < j < |ns| ==> ns[i] != ns[j]
  }

  /** Where the first cluster of that name sits; past the end when there is none. */
  function Position<A>(cs: seq<(string, A)>, name: string): (i: nat)
    ensures i <= |cs|
    ensures i < |cs| ==> cs[i].0 == name
    ensures forall j :: 0 <= j < i ==> cs[j].0 != name
  {
    if cs == [] then 0
    else if cs[0].0 == name then 0
    else 1 + Position(cs[1..], name)
  }

  /** `queue_dict[name]`: the adapter of that cluster, a KeyError for an unknown name. */
  function Lookup<A>(cs: seq<(string, A)>, name: string): (r: Result<A>)
    ensures r.Ok? <==> name in Names(cs)
    ensures r.Err? ==> r.error == KeyError
    ensures r.Ok? ==> Position(cs, name) < |cs| && r.value == cs[Position(cs, name)].1
  {
    var i := Position(cs, name);
    assert name in Names(cs) ==> i < |cs| by {
      if name in Names(cs) {
        var k :| 0 <= k < |cs| && Names(cs)[k] == name;
        assert cs[k].0 == name;
      }
    }
    if i < |cs| then
      assert Names(cs)[i] == name;
      Ok(cs[i].1)
    else Err(KeyError)
  }

  /** With distinct names, the adapter stored under a name is the one looked up. */
  lemma LookupFindsEntry<A>(cs: seq<(string, A)>, i: int)
    requires Distinct(Names(cs)) && 0 <= i < |cs|
    ensures Lookup(cs, cs[i].0) == Ok(cs[i].1)
  {
    var p := Position(cs, cs[i].0);
    assert p <= i;
    assert p == i;
    assert Lookup(cs, cs[i].0).value == cs[i].1;
  }

  /** `clusters.yaml`: the adapter built for each configured cluster, in order, and the
      name of the primary one. */
  datatype ClustersFile<A> = ClustersFile(clusters: seq<(string, Result<A>)>, primary: string)

  /** The facade: one adapter per cluster, and the active one. */
  datatype QueueAdapter<A> = QueueAdapter(clusters: seq<(string, A)>, active: A)

  /** Every adapter before position `i` was built. */
  predicate FirstFailure<A>(cs: seq<(string, Result<A>)>, i: int)
    requires 0 <= i <= |cs|
  {
    forall j :: 0 <= j < i ==> cs[j].1.Ok?
  }

  /** The adapters of a dict comprehension: the first cluster whose adapter fails stops it. */
  function BuildAll<A>(cs: seq<(string, Result<A>)>): (r: Result<seq<(string, A)>>)
    ensures r.Ok? <==> forall i :: 0 <= i < |cs| ==> cs[i].1.Ok?
    ensures r.Ok? ==> (|r.value| == |cs|
      && forall i :: 0 <= i < |cs| ==> r.value[i] == (cs[i].0, cs[i].1.value))
    ensures r.Err? ==> exists i :: 0 <= i < |cs| && cs[i].1 == Err(r.error) && FirstFailure(cs, i)
  {
    if cs == [] then Ok([])
    else
      match cs[0].1
      case Err(e) =>
        Err(e)
      case Ok(a) =>
        match BuildAll(cs[1..])
        case Err(e) =>
          var i :| 0 <= i < |cs[1..]| && cs[1..][i].1 == Err(e) && FirstFailure(cs[1..], i);
          assert cs[i + 1].1 == Err(e);
          assert FirstFailure(cs, i + 1) by {
            forall j | 0 <= j < i + 1 ensures cs[j].1.Ok? {
              if j > 0 {
                assert cs[j] == cs[1..][j - 1];
              }
            }
          }
          Err(e)
        case Ok(rest) =>
          assert forall i :: 0 <= i < |cs| ==> cs[i].1.Ok? by {
            forall i | 0 <= i < |cs| ensures cs[i].1.Ok? {
              if i > 0 {
                assert cs[i] == cs[1..][i - 1];
              }
            }
          }
          Ok([(cs[0].0, a)] + rest)
  }

  /** `QueueAdapter(directory)`: a `queue.yaml` gives the single cluster `default`; else a
      `clusters.yaml` gives one adapter per cluster with the primary one active; with
      neither the constructor raises ValueError. */
  function Construct<A>(queueYaml: Option<Result<A>>, clustersYaml: Option<ClustersFile<A>>)
    : (r: Result<QueueAdapter<A>>)
    requires clustersYaml.Some? ==> Distinct(Names(clustersYaml.value.clusters))
    ensures queueYaml.Some? ==> (r.Ok? <==> queueYaml.value.Ok?)
    ensures queueYaml.Some? && r.Ok? ==>
      r.value.clusters == [("default", queueYaml.value.value)] && r.value.active == queueYaml.value.value
    ensures queueYaml.None? && clustersYaml.None? ==> r == Err(ValueError)
    ensures queueYaml.None? && clustersYaml.Some? ==>
      var f := clustersYaml.value;
      (r.Ok? <==> (forall i :: 0 <= i < |f.clusters| ==> f.clusters[i].1.Ok?)
                  && f.primary in Names(f.clusters))
    ensures queueYaml.None? && clustersYaml.Some? && r.Ok? ==>
      var f := clustersYaml.value;
      && Names(r.value.clusters) == Names(f.clusters)
      && Ok(r.value.active) == Lookup(r.value.clusters, f.primary)
    ensures r.Ok? ==> Distinct(Names(r.value.clusters))
  {
    if queueYaml.Some? then
      var a :- queueYaml.value;
      Ok(QueueAdapter([("default", a)], a))
    else if clustersYaml.Some? then
      var f := clustersYaml.value;
      var cs :- BuildAll(f.clusters);
      assert Names(cs) == Names(f.clusters);
      var active :- Lookup(cs, f.primary);
      Ok(QueueAdapter(cs, active))
    else
      Err(ValueError)
  }

  /** `list_clusters()`: the cluster names, one per configured cluster, in the order of
      the configuration. */
  function ListClusters<A>(f: QueueAdapter<A>): (r: seq<string>)
    ensures |r| == |f.clusters|
    ensures forall i :: 0 <= i < |r| ==> r[i] == f.clusters[i].0
  {
    Names(f.clusters)
  }

  /** `switch_cluster(cluster_name)`: the named cluster's adapter becomes the active one;
      an unknown name raises KeyError. */
  function SwitchCluster<A>(f: QueueAdapter<A>, name: string): (r: Result<QueueAdapter<A>>)
    ensures r.Ok? <==> name in ListClusters(f)
    ensures r.Err? ==> r.error == KeyError
    ensures r.Ok? ==> r.value.clusters == f.clusters && Ok(r.value.active) == Lookup(f.clusters, name)
  {
    var a :- Lookup(f.clusters, name);
    Ok(f.(active := a))
  }

  /** Every other operation: the active adapter's own, with the arguments unchanged. */
  function Forward<A, R>(f: QueueAdapter<A>, op: A -> R): R {
    op(f.active)
  }

  /** After a switch, every forwarded operation answers as the named cluster's adapter
      does, and the cluster list stays as it was. */
  lemma SwitchThenForward<A, R>(f: QueueAdapter<A>, i: int, op: A -> R)
    requires Distinct(ListClusters(f)) && 0 <= i < |f.clusters|
    ensures SwitchCluster(f, f.clusters[i].0).Ok?
    ensures var g := SwitchCluster(f, f.clusters[i].0).value;
      Forward(g, op) == op(f.clusters[i].1) && ListClusters(g) == ListClusters(f)
  {
    LookupFindsEntry(f.clusters, i);
  }

  /** Switching twice to the same cluster is switching once, and switching back to the
      cluster that was active restores the facade. */
  lemma SwitchIdempotent<A>(f: QueueAdapter<A>, name: string, back: string)
    requires SwitchCluster(f, name).Ok?
    requires Lookup(f.clusters, back) == Ok(f.active)
    ensures SwitchCluster(SwitchCluster(f, name).value, name) == SwitchCluster(f, name)
    ensures SwitchCluster(SwitchCluster(f, name).value, back) == Ok(f)
  {
  }

  /** The multicluster test: a cluster file with a local and a remote cluster lists both,
      in order, starts on the primary one, and switching away and back returns to it. */
  lemma TwoClustersExample<A>(local: A, remote: A)
    ensures var f := Construct(None, Some(ClustersFile([("local_slurm", Ok(local)), ("remote_slurm", Ok(remote))], "local_slurm")));
      && f.Ok? && ListClusters(f.value) == ["local_slurm", "remote_slurm"] && f.value.active == local
      && SwitchCluster(f.value, "remote_slurm").Ok? && SwitchCluster(f.value, "remote_slurm").value.active == remote
      && SwitchCluster(SwitchCluster(f.value, "remote_slurm").value, "local_slurm") == f
  {
    var cs := [("local_slurm", Ok(local)), ("remote_slurm", Ok(remote))];
    assert Names(cs) == ["local_slurm", "remote_slurm"] by {
      assert cs[1..] == [("remote_slurm", Ok(remote))];
    }
    assert Distinct(Names(cs));
    var built := [("local_slurm", local), ("remote_slurm", remote)];
    assert Names(built) == ["local_slurm", "remote_slurm"] by {
      assert built[1..] == [("remote_slurm", remote)];
    }
    LookupFindsEntry(built, 0);
    LookupFindsEntry(built, 1);
  }
}
