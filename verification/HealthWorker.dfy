/** The cluster health worker: one processed probe, and runs of probes among other writers (backend/k8s/health_worker.py). */
module HealthWorker {
  import opened Options

  datatype ClusterStatus = Online | Offline | Unknown

  datatype AppStatus = Onboarding | Ready | Deployed | Degraded

  datatype App = App(cluster: Option<int>, status: AppStatus)

  /**
   `failures` and `degraded` are the worker's in-memory dictionaries, the rest is the database.
   `nextCluster` is the id the database gives next; ids are never reused.
   */
  datatype World = World(
    clusters: map<int, ClusterStatus>,
    apps: map<int, App>,
    failures: map<int, nat>,
    degraded: map<int, set<int>>,
    nextCluster: int)

  datatype Event =
    | Probe(cluster: int, reachable: bool)
    | Restart                                      // the process restarts: both dictionaries are empty
    | TestCluster(cluster: int, reachable: bool)   // cluster_service.test_cluster
    | Retarget(app: int, target: Option<int>)
    | SetStatus(app: int, status: AppStatus)       // CI reports, ArgoCD polling, edits
    | AddCluster
    | RemoveCluster(cluster: int)

  // ----- the specification of one processed probe -----

  function Streak(w: World, c: int, reachable: bool): nat {
    if reachable then 0 else Lookup(w.failures, c).GetOr(0) + 1
  }

  function NewStatus(w: World, c: int, reachable: bool, threshold: int): ClusterStatus
    requires c in w.clusters
  {
    if reachable then Online
    else if Streak(w, c, reachable) >= threshold then Offline
    else w.clusters[c]
  }

  /** The apps an outage of `c` degrades. */
  function DeployedOn(apps: map<int, App>, c: int): set<int> {
    set a | a in apps && apps[a].cluster == Some(c) && apps[a].status == Deployed
  }

  function WithStatus(apps: map<int, App>, ids: set<int>, status: AppStatus): map<int, App> {
    map a | a in apps :: if a in ids then apps[a].(status := status) else apps[a]
  }

  /** The apps a recovery of `c` restores, among those its outage degraded. */
  function Restorable(apps: map<int, App>, c: int, ids: set<int>): set<int> {
    set a | a in ids && a in apps && apps[a].cluster == Some(c) && apps[a].status == Degraded
  }

  function Processed(w: World, c: int, reachable: bool, threshold: int): World
    requires c in w.clusters
  {
    var status := NewStatus(w, c, reachable, threshold);
    var counted := w.(failures := w.failures[c := Streak(w, c, reachable)], clusters := w.clusters[c := status]);
    if status == Offline && w.clusters[c] == Online then
      var ids := DeployedOn(w.apps, c);
      counted.(apps := WithStatus(w.apps, ids, Degraded), degraded := w.degraded[c := ids])
    else if status == Online && w.clusters[c] == Offline then
      var ids := Lookup(w.degraded, c).GetOr({});
      counted.(apps := WithStatus(w.apps, Restorable(w.apps, c, ids), Deployed), degraded := w.degraded - {c})
    else counted
  }

  function Next(w: World, e: Event, threshold: int): World {
    match e
    case Probe(c, reachable) => if c in w.clusters then Processed(w, c, reachable, threshold) else w
    case Restart => w.(failures := map[], degraded := map[])
    case TestCluster(c, reachable) =>
      if c in w.clusters && reachable && w.clusters[c] == Unknown then w.(clusters := w.clusters[c := Online]) else w
    case Retarget(a, target) => if a in w.apps then w.(apps := w.apps[a := w.apps[a].(cluster := target)]) else w
    case SetStatus(a, status) => if a in w.apps then w.(apps := w.apps[a := w.apps[a].(status := status)]) else w
    case AddCluster => w.(clusters := w.clusters[w.nextCluster := Unknown], nextCluster := w.nextCluster + 1)
    case RemoveCluster(c) => w.(clusters := w.clusters - {c})
  }

  class Worker {
    var clusters: map<int, ClusterStatus>
    var apps: map<int, App>
    var failures: map<int, nat>
    var degraded: map<int, set<int>>
    var nextCluster: int
    const threshold: int

    constructor (threshold: int)
      ensures State() == World(map[], map[], map[], map[], 1) && this.threshold == threshold
    {
      clusters, apps, failures, degraded, nextCluster := map[], map[], map[], map[], 1;
      this.threshold := threshold;
    }

    function State(): World
      reads this
    {
      World(clusters, apps, failures, degraded, nextCluster)
    }

    /** _cascade_offline: returns the apps it really touched. */
    method CascadeOffline(c: int) returns (ids: set<int>)
      modifies this`apps
      ensures ids == DeployedOn(old(apps), c)
      ensures apps == WithStatus(old(apps), ids, Degraded)
    {
      ids := set a | a in apps && apps[a].cluster == Some(c) && apps[a].status == Deployed;
      if ids != {} {
        apps := WithStatus(apps, ids, Degraded);
      } else {
        assert WithStatus(apps, ids, Degraded) == apps;
      }
    }

    method CascadeRecovery(c: int, ids: set<int>)
      modifies this`apps
      ensures apps == WithStatus(old(apps), Restorable(old(apps), c, ids), Deployed)
    {
      if ids == {} {
        assert WithStatus(apps, Restorable(apps, c, ids), Deployed) == apps;
        return;
      }
      apps := WithStatus(apps, Restorable(apps, c, ids), Deployed);
    }

    /** _process_cluster, with the outcome of its probe. */
    method ProcessCluster(c: int, reachable: bool)
      requires c in clusters
      modifies this
      ensures State() == Next(old(State()), Probe(c, reachable), threshold)
    {
      var oldStatus := clusters[c];
      var newStatus;
      if reachable {
        failures := failures[c := 0];
        newStatus := Online;
      } else {
        failures := failures[c := Lookup(failures, c).GetOr(0) + 1];
        newStatus := if failures[c] >= threshold then Offline else oldStatus;
      }
      if newStatus == Offline && oldStatus == Online {
        var ids := CascadeOffline(c);
        degraded := degraded[c := ids];
      } else if newStatus == Online && oldStatus == Offline {
        var ids := Lookup(degraded, c).GetOr({});
        degraded := degraded - {c};
        CascadeRecovery(c, ids);
      }
      clusters := clusters[c := newStatus];
    }
  }
}
