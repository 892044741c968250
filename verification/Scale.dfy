/**
 Scale state of the apps' environments and its GitOps overrides
 (backend/services/scale_service.py, backend/services/scale_worker.py).
 Target clusters are fixed, and a pushed commit is followed by a database commit.
 */
module Scale {
  import opened Options
  import opened GitOps

  datatype StopReason = Schedule | Manual

  datatype ScaleState = ScaleState(isStopped: bool, reason: Option<StopReason>)

  datatype App = App(slug: string, cluster: Option<int>, devScale: Option<bool>)

  datatype ScaleChange = ScaleChange(app: int, cluster: string, slug: string, env: string, stopped: bool, reason: StopReason)

  type States = map<(int, string), ScaleState>

  datatype Settings = Settings(weekdaysOnly: bool, downHour: int, upHour: int)

  const ENVS := ["dev", "prod"]

  function Override(c: ScaleChange): Change {
    Change(c.cluster, c.slug, c.env, if c.stopped then Some(0) else None)
  }

  function Overrides(changes: seq<ScaleChange>): seq<Change> {
    seq(|changes|, i requires 0 <= i < |changes| => Override(changes[i]))
  }

  /** A push of these overrides goes through once the tree can be listed and the files read. */
  ghost predicate CanPush(files: Files, changes: seq<ScaleChange>) {
    && NewFilesOnce(files, Overrides(changes))
    && forall i :: 0 <= i < |changes| ==> DataAt(files, PathOf(Overrides(changes)[i])).Some?
  }

  /** The tracked state a change leaves. */
  function Recorded(c: ScaleChange): ScaleState {
    if c.stopped then ScaleState(true, Some(c.reason)) else ScaleState(false, None)
  }

  function LastFor(changes: seq<ScaleChange>, key: (int, string)): Option<ScaleChange> {
    if changes == [] then None
    else if (changes[|changes| - 1].app, changes[|changes| - 1].env) == key then Some(changes[|changes| - 1])
    else LastFor(changes[..|changes| - 1], key)
  }

  function StateAfter(states: States, changes: seq<ScaleChange>, key: (int, string)): Option<ScaleState> {
    match LastFor(changes, key)
    case None => Lookup(states, key)
    case Some(c) => Some(Recorded(c))
  }

  // ----- the schedule -----

  function IsOffHours(hour: int, downHour: int, upHour: int): bool {
    if downHour == upHour then false
    else if downHour < upHour then downHour <= hour < upHour
    else hour >= downHour || hour < upHour
  }

  function DesiredStopped(s: Settings, weekday: int, hour: int): bool {
    if s.weekdaysOnly && weekday >= 5 then true else IsOffHours(hour, s.downHour, s.upHour)
  }

  /** The apps a tick looks at: a known target cluster and scaling not switched off. */
  predicate Eligible(apps: map<int, App>, clusters: map<int, string>, a: int) {
    && a in apps && apps[a].devScale != Some(false)
    && apps[a].cluster.Some? && apps[a].cluster.value in clusters
  }

  /** What a tick that wants `stopped` makes of one eligible app's dev state. */
  function Ticked(state: Option<ScaleState>, stopped: bool): Option<ScaleState> {
    var isStopped := state.Some? && state.value.isStopped;
    if stopped && !isStopped then Some(ScaleState(true, Some(Schedule)))
    else if !stopped && isStopped && state.value.reason == Some(Schedule) then Some(ScaleState(false, None))
    else state
  }

  class Service {
    const repo: Repository
    var apps: map<int, App>
    var clusters: map<int, string>
    var states: States

    constructor (repo: Repository, apps: map<int, App>, clusters: map<int, string>)
      ensures this.repo == repo && this.apps == apps && this.clusters == clusters && states == map[]
    {
      this.repo, this.apps, this.clusters, states := repo, apps, clusters, map[];
    }

    /** apply_changes: one commit for all overrides, then the tracked rows; nothing changes if the push fails. */
    method ApplyChanges(changes: seq<ScaleChange>, configured: bool, listed: bool, unreadable: set<string>) returns (ok: bool)
      modifies this`states, repo
      ensures !ok ==> states == old(states) && repo.files == old(repo.files)
      ensures listed && unreadable == {} ==> (ok <==> changes == [] || (configured && CanPush(old(repo.files), changes)))
      ensures ok ==> Batched(old(repo.files), Overrides(changes), repo.files)
      ensures ok ==> forall k :: Lookup(states, k) == StateAfter(old(states), changes, k)
    {
      if changes == [] { return true; }
      if !configured { return false; }
      ok := repo.PushReplicaOverridesBatch(Overrides(changes), listed, unreadable);
      if !ok { return; }
      ghost var pushed := repo.files;
      for i := 0 to |changes|
        invariant repo.files == pushed
        invariant forall k :: Lookup(states, k) == StateAfter(old(states), changes[..i], k)
      {
        var c := changes[i];
        ghost var prev := states;
        states := states[(c.app, c.env) := Recorded(c)];
        assert changes[..i + 1][..i] == changes[..i];
        forall k ensures Lookup(states, k) == StateAfter(old(states), changes[..i + 1], k) {
          if k != (c.app, c.env) { assert Lookup(states, k) == Lookup(prev, k); }
        }
      }
      assert changes[..|changes|] == changes;
    }

    /** _resolve_app_and_cluster, with the HTTP error of each refusal. */
    method ResolveAppAndCluster(app: int) returns (status: int, cluster: string)
      ensures status == 200 <==> app in apps && apps[app].cluster.Some? && apps[app].cluster.value in clusters
      ensures status == 200 ==> cluster == clusters[apps[app].cluster.value]
      ensures status != 200 ==> status == if app in apps && apps[app].cluster.None? then 409 else 404
    {
      if app !in apps { return 404, ""; }
      if apps[app].cluster.None? { return 409, ""; }
      if apps[app].cluster.value !in clusters { return 404, ""; }
      return 200, clusters[apps[app].cluster.value];
    }

    /** manual_stop and manual_resume, which differ in `stopped` only. */
    method ManualScale(app: int, envs: seq<string>, stopped: bool, configured: bool, listed: bool, unreadable: set<string>) returns (ok: bool)
      modifies this`states, repo
      ensures !ok ==> states == old(states) && repo.files == old(repo.files)
      ensures ok ==> app in apps && apps[app].cluster.Some? && apps[app].cluster.value in clusters
      ensures listed && unreadable == {} && app in apps && apps[app].cluster.Some? && apps[app].cluster.value in clusters ==>
        (ok <==> envs == [] || (configured && CanPush(old(repo.files), ManualChanges(app, apps, clusters, envs, stopped))))
      ensures ok ==> Batched(old(repo.files), Overrides(ManualChanges(app, apps, clusters, envs, stopped)), repo.files)
      ensures ok ==> forall k :: Lookup(states, k) == ManualState(old(states), app, envs, stopped, k)
    {
      var status, cluster := ResolveAppAndCluster(app);
      if status != 200 { return false; }
      var changes := ManualChanges(app, apps, clusters, envs, stopped);
      ok := ApplyChanges(changes, configured, listed, unreadable);
      forall k ensures StateAfter(old(states), changes, k) == ManualState(old(states), app, envs, stopped, k) {
        ManualLastFor(app, apps, clusters, envs, stopped, k);
      }
    }

    /** run_scale_reconciliation: one tick, over the eligible apps in query order. */
    method RunReconciliation(s: Settings, weekday: int, hour: int, order: seq<int>, configured: bool, listed: bool, unreadable: set<string>)
      returns (ok: bool, count: nat)
      requires forall a :: a in order <==> a in apps && apps[a].cluster.Some? && apps[a].devScale != Some(false)
      modifies this`states, repo
      ensures !ok ==> states == old(states) && repo.files == old(repo.files)
      ensures ok ==> forall a, env :: Lookup(states, (a, env)) == TickedState(old(states), apps, clusters, DesiredStopped(s, weekday, hour), a, env)
      ensures ok ==> Batched(old(repo.files), Overrides(TickChanges(old(states), apps, clusters, order, DesiredStopped(s, weekday, hour))), repo.files)
      ensures ok && count == 0 ==> states == old(states)
      ensures var changes := TickChanges(old(states), apps, clusters, order, DesiredStopped(s, weekday, hour));
        && count == |changes|
        && (listed && unreadable == {} ==> (ok <==> changes == [] || (configured && CanPush(old(repo.files), changes))))
    {
      var stopped := DesiredStopped(s, weekday, hour);
      var changes: seq<ScaleChange> := [];
      for i := 0 to |order|
        invariant changes == TickChanges(states, apps, clusters, order[..i], stopped)
        invariant states == old(states) && repo.files == old(repo.files)
      {
        assert order[..i + 1][..i] == order[..i];
        var a := order[i];
        var app := apps[a];
        if app.cluster.value in clusters {
          var state := Lookup(states, (a, "dev"));
          var isStopped := state.Some? && state.value.isStopped;
          var reason := if state.Some? then state.value.reason else None;
          if stopped && !isStopped {
            changes := changes + [ScaleChange(a, clusters[app.cluster.value], app.slug, "dev", true, Schedule)];
          } else if !stopped && isStopped && reason == Some(Schedule) {
            changes := changes + [ScaleChange(a, clusters[app.cluster.value], app.slug, "dev", false, Schedule)];
          }
        }
      }
      assert order[..|order|] == order;
      ok := ApplyChanges(changes, configured, listed, unreadable);
      count := |changes|;
      forall a, env ensures StateAfter(old(states), changes, (a, env)) == TickedState(old(states), apps, clusters, stopped, a, env) {
        TickLastFor(old(states), apps, clusters, order, stopped, a, env);
      }
      if count == 0 && ok {
        SameLookups(states, old(states));
      }
    }
  }

  // ----- the changes a manual operation and a tick build -----

  function ManualChanges(app: int, apps: map<int, App>, clusters: map<int, string>, envs: seq<string>, stopped: bool): seq<ScaleChange>
    requires app in apps && apps[app].cluster.Some? && apps[app].cluster.value in clusters
  {
    var cluster, slug := clusters[apps[app].cluster.value], apps[app].slug;
    seq(|envs|, i requires 0 <= i < |envs| => ScaleChange(app, cluster, slug, envs[i], stopped, Manual))
  }

  function ManualState(states: States, app: int, envs: seq<string>, stopped: bool, key: (int, string)): Option<ScaleState> {
    if key.0 == app && key.1 in envs then Some(if stopped then ScaleState(true, Some(Manual)) else ScaleState(false, None))
    else Lookup(states, key)
  }

  lemma {:induction false} ManualLastFor(app: int, apps: map<int, App>, clusters: map<int, string>, envs: seq<string>, stopped: bool, key: (int, string))
    requires app in apps && apps[app].cluster.Some? && apps[app].cluster.value in clusters
    ensures LastFor(ManualChanges(app, apps, clusters, envs, stopped), key) ==
      if key.0 == app && key.1 in envs
      then Some(ScaleChange(app, clusters[apps[app].cluster.value], apps[app].slug, key.1, stopped, Manual)) else None
  {
    if envs != [] {
      var n := |envs| - 1;
      ManualLastFor(app, apps, clusters, envs[..n], stopped, key);
      assert ManualChanges(app, apps, clusters, envs, stopped)[..n] == ManualChanges(app, apps, clusters, envs[..n], stopped);
      assert envs == envs[..n] + [envs[n]];
    }
  }

  /** The change a tick makes for one app, if any. */
  function TickChange(states: States, apps: map<int, App>, clusters: map<int, string>, a: int, stopped: bool): Option<ScaleChange> {
    var state := Lookup(states, (a, "dev"));
    if !Eligible(apps, clusters, a) || Ticked(state, stopped) == state then None
    else Some(ScaleChange(a, clusters[apps[a].cluster.value], apps[a].slug, "dev", stopped, Schedule))
  }

  function TickChanges(states: States, apps: map<int, App>, clusters: map<int, string>, order: seq<int>, stopped: bool): seq<ScaleChange> {
    if order == [] then []
    else
      var c := TickChange(states, apps, clusters, order[|order| - 1], stopped);
      TickChanges(states, apps, clusters, order[..|order| - 1], stopped) + if c.Some? then [c.value] else []
  }

  function TickedState(states: States, apps: map<int, App>, clusters: map<int, string>, stopped: bool, a: int, env: string): Option<ScaleState> {
    var state := Lookup(states, (a, env));
    if env == "dev" && Eligible(apps, clusters, a) then Ticked(state, stopped) else state
  }

  lemma {:induction false} TickLastForPrefix(states: States, apps: map<int, App>, clusters: map<int, string>, order: seq<int>, stopped: bool, a: int, env: string)
    ensures LastFor(TickChanges(states, apps, clusters, order, stopped), (a, env)) ==
      if env == "dev" && a in order then TickChange(states, apps, clusters, a, stopped) else None
  {
    if order != [] {
      var n := |order| - 1;
      TickLastForPrefix(states, apps, clusters, order[..n], stopped, a, env);
      var before := TickChanges(states, apps, clusters, order[..n], stopped);
      var c := TickChange(states, apps, clusters, order[n], stopped);
      if c.Some? {
        assert (before + [c.value])[..|before|] == before;
      } else {
        assert before + [] == before;
      }
      assert order == order[..n] + [order[n]];
    }
  }

  lemma TickLastFor(states: States, apps: map<int, App>, clusters: map<int, string>, order: seq<int>, stopped: bool, a: int, env: string)
    requires forall b :: b in order <==> b in apps && apps[b].cluster.Some? && apps[b].devScale != Some(false)
    ensures StateAfter(states, TickChanges(states, apps, clusters, order, stopped), (a, env)) ==
            TickedState(states, apps, clusters, stopped, a, env)
  {
    TickLastForPrefix(states, apps, clusters, order, stopped, a, env);
  }
}
