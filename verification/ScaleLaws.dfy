/** The tracked scale states agree with GitOps, and the nightly ticks converge without waking manual stops. */
module ScaleLaws {
  import opened Options
  import opened GitOps
  import opened GitOpsLaws
  import opened Scale

  /** The registry of apps and clusters, fixed over a run. */
  datatype Fleet = Fleet(apps: map<int, App>, clusters: map<int, string>)

  datatype World = World(files: Files, states: States)

  datatype Step =
    | Apply(changes: seq<ScaleChange>)                       // a tick, or a manual stop or resume
    | Rewrite(path: string, writer: Writer)                  // ingress and rollback writers
    | Failed                                                 // any operation whose push failed

  ghost predicate WellFormed(f: Fleet) {
    && (forall a :: a in f.apps ==> '/' !in f.apps[a].slug)
    && (forall a, b :: a in f.apps && b in f.apps && a != b ==> f.apps[a].slug != f.apps[b].slug)
  }

  predicate Located(f: Fleet, a: int) {
    a in f.apps && f.apps[a].cluster.Some? && f.apps[a].cluster.value in f.clusters
  }

  function FileOf(f: Fleet, a: int, env: string): string
    requires Located(f, a)
  {
    ValuesPath(f.clusters[f.apps[a].cluster.value], f.apps[a].slug, env)
  }

  /** A change as the services build them: on the app's own cluster and slug, in dev or prod. */
  predicate Proper(f: Fleet, c: ScaleChange) {
    && Located(f, c.app) && c.env in ENVS
    && c.cluster == f.clusters[f.apps[c.app].cluster.value] && c.slug == f.apps[c.app].slug
  }

  /** For every tracked environment, the file pins replicas to 0 if stopped and has no override otherwise. */
  ghost predicate Agrees(f: Fleet, w: World) {
    forall a, env :: (a, env) in w.states && Located(f, a) && env in ENVS ==>
      ReplicasOf(Lookup(w.files, FileOf(f, a, env))) == (if w.states[(a, env)].isStopped then Some(Number(0)) else None)
  }

  ghost predicate Next(f: Fleet, w: World, step: Step, w': World) {
    match step
    case Apply(changes) =>
      && (forall i :: 0 <= i < |changes| ==> Proper(f, changes[i]))
      && Batched(w.files, Overrides(changes), w'.files)
      && forall k :: Lookup(w'.states, k) == StateAfter(w.states, changes, k)
    case Rewrite(path, writer) =>
      && !writer.SetReplicas? && OneFileWritten(w.files, path, writer, w'.files) && w'.states == w.states
    case Failed => w' == w
  }

  lemma FilesAreDistinct(f: Fleet, a: int, env: string, b: int, env': string)
    requires WellFormed(f) && Located(f, a) && Located(f, b) && env in ENVS && env' in ENVS
    requires FileOf(f, a, env) == FileOf(f, b, env')
    ensures a == b && env == env'
  {
    ValuesPathsAreDistinct(f.clusters[f.apps[a].cluster.value], f.apps[a].slug, env,
                           f.clusters[f.apps[b].cluster.value], f.apps[b].slug, env');
  }

  /** The last override for an environment's file is the last change for that environment. */
  lemma {:induction false} LastOverride(f: Fleet, changes: seq<ScaleChange>, a: int, env: string)
    requires WellFormed(f) && Located(f, a) && env in ENVS
    requires forall i :: 0 <= i < |changes| ==> Proper(f, changes[i])
    ensures LastChange(Overrides(changes), FileOf(f, a, env)) ==
      match LastFor(changes, (a, env))
      case None => None
      case Some(c) => Some(Override(c))
  {
    if changes != [] {
      var n := |changes| - 1;
      LastOverride(f, changes[..n], a, env);
      assert Overrides(changes)[..n] == Overrides(changes[..n]);
      var c := changes[n];
      if PathOf(Override(c)) == FileOf(f, a, env) {
        FilesAreDistinct(f, a, env, c.app, c.env);
      }
    }
  }

  lemma StepKeepsAgreement(f: Fleet, w: World, step: Step, w': World)
    requires WellFormed(f) && Agrees(f, w) && Next(f, w, step, w')
    ensures Agrees(f, w')
  {
    forall a, env | (a, env) in w'.states && Located(f, a) && env in ENVS
      ensures ReplicasOf(Lookup(w'.files, FileOf(f, a, env))) == (if w'.states[(a, env)].isStopped then Some(Number(0)) else None)
    {
      var path := FileOf(f, a, env);
      match step
      case Apply(changes) =>
        LastOverride(f, changes, a, env);
        assert Lookup(w'.files, path) == BatchedFile(w.files, Overrides(changes), path);
        assert Lookup(w'.states, (a, env)) == StateAfter(w.states, changes, (a, env));
      case Rewrite(p, writer) =>
        assert Lookup(w'.files, path) == if path == p then Write(Lookup(w.files, path), writer) else Lookup(w.files, path);
        OtherWritersKeepReplicas(Lookup(w.files, path), writer);
      case Failed =>
    }
  }

  ghost predicate IsRun(f: Fleet, worlds: seq<World>, steps: seq<Step>) {
    && |worlds| == |steps| + 1
    && forall i :: 0 <= i < |steps| ==> Next(f, worlds[i], steps[i], worlds[i + 1])
  }

  /** Over every run of ticks, manual operations, ingress changes and rollbacks, failed or not. */
  lemma {:induction false} StatesAgreeWithGitOps(f: Fleet, worlds: seq<World>, steps: seq<Step>, i: nat)
    requires WellFormed(f) && IsRun(f, worlds, steps) && Agrees(f, worlds[0]) && i <= |steps|
    ensures Agrees(f, worlds[i])
  {
    if i > 0 {
      StatesAgreeWithGitOps(f, worlds, steps, i - 1);
      StepKeepsAgreement(f, worlds[i - 1], steps[i - 1], worlds[i]);
    }
  }

  /** The changes a tick or a manual operation builds are proper ones. */
  lemma {:induction false} TickChangesAreProper(f: Fleet, states: States, order: seq<int>, stopped: bool)
    ensures forall c :: c in TickChanges(states, f.apps, f.clusters, order, stopped) ==> Proper(f, c)
  {
    if order != [] {
      TickChangesAreProper(f, states, order[..|order| - 1], stopped);
      assert "dev" == ENVS[0] && "dev" in ENVS;
    }
  }

  lemma ManualChangesAreProper(f: Fleet, a: int, envs: seq<string>, stopped: bool)
    requires Located(f, a) && forall e :: e in envs ==> e in ENVS
    ensures forall i :: 0 <= i < |envs| ==> Proper(f, ManualChanges(a, f.apps, f.clusters, envs, stopped)[i])
  {
  }

  // ----- the operations as steps -----

  /** What a tick that went through leaves, by RunReconciliation, is one Apply step. */
  lemma TickIsAStep(f: Fleet, w: World, order: seq<int>, stopped: bool, w': World)
    requires forall a :: a in order <==> a in f.apps && f.apps[a].cluster.Some? && f.apps[a].devScale != Some(false)
    requires forall a, env :: Lookup(w'.states, (a, env)) == TickedState(w.states, f.apps, f.clusters, stopped, a, env)
    requires Batched(w.files, Overrides(TickChanges(w.states, f.apps, f.clusters, order, stopped)), w'.files)
    ensures Next(f, w, Apply(TickChanges(w.states, f.apps, f.clusters, order, stopped)), w')
  {
    var changes := TickChanges(w.states, f.apps, f.clusters, order, stopped);
    TickChangesAreProper(f, w.states, order, stopped);
    forall k ensures Lookup(w'.states, k) == StateAfter(w.states, changes, k) {
      TickLastFor(w.states, f.apps, f.clusters, order, stopped, k.0, k.1);
      assert k == (k.0, k.1);
    }
  }

  /** And what a manual stop or resume leaves, by ManualScale. */
  lemma ManualIsAStep(f: Fleet, w: World, a: int, envs: seq<string>, stopped: bool, w': World)
    requires Located(f, a) && forall e :: e in envs ==> e in ENVS
    requires forall k :: Lookup(w'.states, k) == ManualState(w.states, a, envs, stopped, k)
    requires Batched(w.files, Overrides(ManualChanges(a, f.apps, f.clusters, envs, stopped)), w'.files)
    ensures Next(f, w, Apply(ManualChanges(a, f.apps, f.clusters, envs, stopped)), w')
  {
    var changes := ManualChanges(a, f.apps, f.clusters, envs, stopped);
    ManualChangesAreProper(f, a, envs, stopped);
    forall k ensures Lookup(w'.states, k) == StateAfter(w.states, changes, k) {
      ManualLastFor(a, f.apps, f.clusters, envs, stopped, k);
    }
  }

  // ----- the schedule -----

  /** The off-hours window is the cyclic interval from the down hour up to the up hour. */
  lemma OffHoursIsCyclic(hour: int, down: int, up: int)
    requires 0 <= hour < 24 && 0 <= down < 24 && 0 <= up < 24
    ensures IsOffHours(hour, down, up) <==> (hour - down) % 24 < (up - down) % 24
  {
  }

  // ----- ticks -----

  /** The tracked states after a tick that went through. */
  ghost predicate TickStep(f: Fleet, before: States, stopped: bool, after: States) {
    forall a, env :: Lookup(after, (a, env)) == TickedState(before, f.apps, f.clusters, stopped, a, env)
  }

  function Stopped(s: Option<ScaleState>): bool {
    s.Some? && s.value.isStopped
  }

  /** After a tick every eligible app's dev environment is as desired, or stopped for another reason than the schedule. */
  lemma TickConverges(f: Fleet, before: States, stopped: bool, after: States, a: int)
    requires TickStep(f, before, stopped, after) && Eligible(f.apps, f.clusters, a)
    ensures var s := Lookup(after, (a, "dev"));
      Stopped(s) == stopped || (Stopped(s) && s.value.reason != Some(Schedule))
  {
    assert Lookup(after, (a, "dev")) == TickedState(before, f.apps, f.clusters, stopped, a, "dev");
  }

  /** A second tick at the same time makes no change: it even builds an empty list. */
  lemma {:induction false} SecondTickIsEmpty(f: Fleet, before: States, stopped: bool, after: States, order: seq<int>)
    requires TickStep(f, before, stopped, after)
    ensures TickChanges(after, f.apps, f.clusters, order, stopped) == []
  {
    if order != [] {
      SecondTickIsEmpty(f, before, stopped, after, order[..|order| - 1]);
      var a := order[|order| - 1];
      assert Lookup(after, (a, "dev")) == TickedState(before, f.apps, f.clusters, stopped, a, "dev");
    }
  }

  ghost predicate IsTickRun(f: Fleet, states: seq<States>, wishes: seq<bool>) {
    && |states| == |wishes| + 1
    && forall i :: 0 <= i < |wishes| ==> TickStep(f, states[i], wishes[i], states[i + 1]) || states[i + 1] == states[i]
  }

  /** No sequence of ticks, failed or not, resumes a stop that is not the schedule's, or touches any other environment than dev. */
  lemma {:induction false} TicksRespectManualStops(f: Fleet, states: seq<States>, wishes: seq<bool>, i: nat, a: int, env: string)
    requires IsTickRun(f, states, wishes) && i <= |wishes|
    requires env != "dev" || (Stopped(Lookup(states[0], (a, env))) && states[0][(a, env)].reason != Some(Schedule))
    ensures Lookup(states[i], (a, env)) == Lookup(states[0], (a, env))
  {
    if i > 0 {
      TicksRespectManualStops(f, states, wishes, i - 1, a, env);
      if states[i] != states[i - 1] {
        assert Lookup(states[i], (a, env)) == TickedState(states[i - 1], f.apps, f.clusters, wishes[i - 1], a, env);
      }
    }
  }

  // ----- the night cycle, in plain terms -----

  /** A tick wants the environments stopped all weekend if weekends count, and else from the down hour up to the up hour. */
  lemma DesiredStoppedMeaning(s: Settings, weekday: int, hour: int)
    requires 0 <= weekday < 7 && 0 <= hour < 24 && 0 <= s.downHour < 24 && 0 <= s.upHour < 24
    ensures DesiredStopped(s, weekday, hour) <==>
      (s.weekdaysOnly && weekday in {5, 6}) || (hour - s.downHour) % 24 < (s.upHour - s.downHour) % 24
  {
    OffHoursIsCyclic(hour, s.downHour, s.upHour);
  }

  /** The app takes part in the cycle: it has a known cluster and its owner did not opt out. */
  predicate TakesPart(f: Fleet, a: int) {
    Located(f, a) && f.apps[a].devScale != Some(false)
  }

  /** What a tick makes of the dev environment of an app that takes part, case by case; nothing else changes. */
  lemma TickMeaning(f: Fleet, before: States, stopped: bool, after: States, a: int, env: string)
    requires TickStep(f, before, stopped, after)
    ensures env != "dev" || !TakesPart(f, a) ==> Lookup(after, (a, env)) == Lookup(before, (a, env))
    ensures TakesPart(f, a) ==>
      var was, now := Lookup(before, (a, "dev")), Lookup(after, (a, "dev"));
      if stopped && !Stopped(was) then now == Some(ScaleState(true, Some(Schedule)))
      else if !stopped && was == Some(ScaleState(true, Some(Schedule))) then now == Some(ScaleState(false, None))
      else now == was
  {
    assert Lookup(after, (a, env)) == TickedState(before, f.apps, f.clusters, stopped, a, env);
    assert Lookup(after, (a, "dev")) == TickedState(before, f.apps, f.clusters, stopped, a, "dev");
  }

  /** A running environment is stopped by the evening tick and runs again after the morning one. */
  lemma NightAndMorning(f: Fleet, before: States, night: States, morning: States, a: int)
    requires TickStep(f, before, true, night) && TickStep(f, night, false, morning)
    requires TakesPart(f, a) && !Stopped(Lookup(before, (a, "dev")))
    ensures Stopped(Lookup(night, (a, "dev"))) && !Stopped(Lookup(morning, (a, "dev")))
  {
    TickMeaning(f, before, true, night, a, "dev");
    TickMeaning(f, night, false, morning, a, "dev");
  }

  /** A manual operation sets exactly the environments it names: stopped for MANUAL, or running for no reason. */
  lemma ManualMeaning(states: States, app: int, envs: seq<string>, stopped: bool, a: int, env: string)
    ensures ManualState(states, app, envs, stopped, (a, env)) ==
      if a == app && env in envs then Some(ScaleState(stopped, if stopped then Some(Manual) else None)) else Lookup(states, (a, env))
  {
  }

  /** What somebody stopped by hand stays stopped through any number of ticks. */
  lemma ManualStopSurvivesTicks(f: Fleet, before: States, states: seq<States>, wishes: seq<bool>, i: nat, app: int, envs: seq<string>, env: string)
    requires IsTickRun(f, states, wishes) && i <= |wishes| && env in envs
    requires forall k :: Lookup(states[0], k) == ManualState(before, app, envs, true, k)
    ensures Lookup(states[i], (app, env)) == Some(ScaleState(true, Some(Manual)))
  {
    ManualMeaning(before, app, envs, true, app, env);
    assert Lookup(states[0], (app, env)) == ManualState(before, app, envs, true, (app, env));
    TicksRespectManualStops(f, states, wishes, i, app, env);
  }

  /** A tick's changes are the apps whose state it changes, in the order of the query, each on its own cluster and slug. */
  lemma {:induction false} TickChangesMeaning(f: Fleet, states: States, order: seq<int>, stopped: bool, c: ScaleChange)
    ensures c in TickChanges(states, f.apps, f.clusters, order, stopped) <==>
      && c.app in order && TakesPart(f, c.app) && c.env == "dev" && c.stopped == stopped && c.reason == Schedule
      && c.cluster == f.clusters[f.apps[c.app].cluster.value] && c.slug == f.apps[c.app].slug
      && var state := Lookup(states, (c.app, "dev"));
         if stopped then !Stopped(state) else Stopped(state) && state.value.reason == Some(Schedule)
  {
    if order != [] {
      TickChangesMeaning(f, states, order[..|order| - 1], stopped, c);
      assert order == order[..|order| - 1] + [order[|order| - 1]];
    }
  }
}
