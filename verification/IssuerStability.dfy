/**
 Issuer stability: activations run as sessions that check an app that is off for OIDC_* variables,
 bind in one transaction, write issuers to Vault while they provision, and enable the app in a
 second transaction, unless they die before it; administrators change the registry and the apps'
 clusters in between, and developers may delete the variables of an app that is off.
 */
module IssuerStability {
  import opened Options
  import opened KeycloakInstances

  /** An activation past its key check, with the instance it bound to once it did. */
  datatype Session = Session(app: int, bound: Option<Resolved>)

  /** `issuers` are all issuers CNP ever wrote; `held` are the apps with OIDC_* variables in Vault now. */
  datatype World = World(registry: Registry, sessions: map<int, Session>, issuers: set<(int, string)>, held: set<int>)

  datatype Step =
    | Check(session: int, app: int)
    | Bind(session: int, bound: Resolved)
    | WriteIssuer(session: int)
    | Enable(session: int)
    | Abandon(session: int)             // the process stops, or the request is cancelled
    | Reprovision(app: int, bound: Resolved)
    | DefineKeys(app: int)              // developers, who may while the app is off
    | ClearKeys(app: int)
    | Upsert(key: string, instance: Instance)
    | Delete(key: string)
    | Retarget(app: int, cluster: Option<int>)
    | DropCluster(clusterId: int)

  predicate IsBound(w: World, s: int) {
    s in w.sessions && w.sessions[s].bound.Some?
  }

  predicate IsOff(w: World, a: int) {
    a in w.registry.apps && !w.registry.apps[a].authEnabled
  }

  ghost predicate Next(w: World, step: Step, w': World) {
    match step
    case Check(s, a) =>
      && s !in w.sessions && a in w.registry.apps && (IsOff(w, a) ==> a !in w.held)
      && w' == w.(sessions := w.sessions[s := Session(a, None)])
    case Bind(s, bound) =>
      && s in w.sessions && w.sessions[s].bound.None?
      && Bound(w.registry, w'.registry, w.sessions[s].app, bound)
      && w'.sessions == w.sessions[s := Session(w.sessions[s].app, Some(bound))] && w'.issuers == w.issuers && w'.held == w.held
    case WriteIssuer(s) =>
      && IsBound(w, s)
      && w' == w.(issuers := w.issuers + {(w.sessions[s].app, w.sessions[s].bound.value.publicUrl)}, held := w.held + {w.sessions[s].app})
    case Enable(s) =>
      && IsBound(w, s) && w.sessions[s].app in w.registry.apps
      && var a := w.sessions[s].app;
      && w'.registry == w.registry.(apps := w.registry.apps[a := w.registry.apps[a].(authEnabled := true)])
      && w'.sessions == w.sessions - {s} && w'.issuers == w.issuers && w'.held == w.held
    case Abandon(s) =>
      s in w.sessions && w' == w.(sessions := w.sessions - {s})
    case Reprovision(a, bound) =>
      && a in w.registry.apps && w.registry.apps[a].authEnabled && Resolves(w.registry, w.registry.apps[a], bound)
      && w' == w.(issuers := w.issuers + {(a, bound.publicUrl)}, held := w.held + {a})
    case DefineKeys(a) =>
      IsOff(w, a) && w' == w.(held := w.held + {a})
    case ClearKeys(a) =>
      IsOff(w, a) && w' == w.(held := w.held - {a})
    case Upsert(key, instance) =>
      Upserted(w.registry, w'.registry, key, instance) && w'.sessions == w.sessions && w'.issuers == w.issuers && w'.held == w.held
    case Delete(key) =>
      Deleted(w.registry, w'.registry, key) && w'.sessions == w.sessions && w'.issuers == w.issuers && w'.held == w.held
    case Retarget(a, c) =>
      && a in w.registry.apps
      && w' == w.(registry := w.registry.(apps := w.registry.apps[a := w.registry.apps[a].(cluster := c)]))
    case DropCluster(c) =>
      && w' == w.(registry := w.registry.(
           clusters := w.registry.clusters - {c},
           apps := map a | a in w.registry.apps :: w.registry.apps[a].(cluster := Without(w.registry.apps[a].cluster, c)),
           instances := map k | k in w.registry.instances :: w.registry.instances[k].(cluster := Without(w.registry.instances[k].cluster, c))))
  }

  function Without(cluster: Option<int>, c: int): Option<int> {
    if cluster == Some(c) then None else cluster
  }

  /** The public URL an app stands for in the database: its instance's, else the global one. */
  function IssuerOf(r: Registry, app: App): Option<string> {
    match app.instanceKey
    case Some(k) => if k in r.instances then Some(r.instances[k].publicUrl) else None
    case None => r.legacy
  }

  ghost predicate Inv(w: World) {
    && Valid(w.registry)
    && (forall s :: s in w.sessions ==> SessionInv(w.registry, w.sessions[s]))
  }

  /** A session bound to an instance holds exactly the app's committed binding; a legacy session holds the global URL. */
  ghost predicate SessionInv(r: Registry, s: Session) {
    && s.app in r.apps
    && (s.bound.Some? ==>
          if s.bound.value.instanceKey.Some?
          then r.apps[s.app].instanceKey == s.bound.value.instanceKey && IssuerOf(r, r.apps[s.app]) == Some(s.bound.value.publicUrl)
          else r.legacy == Some(s.bound.value.publicUrl))
  }

  /** An app whose issuer can no longer move: bound to an instance, or enabled. */
  predicate Pinned(r: Registry, a: int) {
    a in r.apps && (r.apps[a].instanceKey.Some? || r.apps[a].authEnabled)
  }

  lemma StepKeepsInv(w: World, step: Step, w': World)
    requires Inv(w) && Next(w, step, w')
    ensures Inv(w')
  {
  }

  /**
   Every step keeps a pinned app pinned to the same instance and the same public URL: a bound key
   is never rewritten, a linked instance keeps its URL and cannot be deleted, and an enabled app
   without a key resolves to the global settings whatever its cluster.
   */
  lemma StepKeepsIssuer(w: World, step: Step, w': World, a: int)
    requires Inv(w) && Next(w, step, w') && Pinned(w.registry, a)
    ensures Pinned(w'.registry, a)
    ensures w'.registry.apps[a].instanceKey == w.registry.apps[a].instanceKey
    ensures IssuerOf(w'.registry, w'.registry.apps[a]) == IssuerOf(w.registry, w.registry.apps[a])
    ensures w.registry.apps[a].authEnabled ==> w'.registry.apps[a].authEnabled
  {
    if w.registry.apps[a].instanceKey.Some? {
      assert Linked(w.registry.apps, w.registry.apps[a].instanceKey.value);
    }
  }

  /** What an enabled app resolves to is its issuer, so a resolution never yields another URL. */
  lemma EnabledResolvesToIssuer(r: Registry, a: int, bound: Resolved)
    requires Valid(r) && a in r.apps && Pinned(r, a)
    requires Resolves(r, r.apps[a], bound)
    ensures bound.instanceKey == r.apps[a].instanceKey
    ensures Some(bound.publicUrl) == IssuerOf(r, r.apps[a])
  {
  }

  ghost predicate IsRun(worlds: seq<World>, steps: seq<Step>) {
    && |worlds| == |steps| + 1
    && forall i :: 0 <= i < |steps| ==> Next(worlds[i], steps[i], worlds[i + 1])
  }

  lemma {:induction false} RunKeepsInv(worlds: seq<World>, steps: seq<Step>, i: nat)
    requires IsRun(worlds, steps) && Inv(worlds[0]) && i <= |steps|
    ensures Inv(worlds[i])
  {
    if i > 0 {
      RunKeepsInv(worlds, steps, i - 1);
      StepKeepsInv(worlds[i - 1], steps[i - 1], worlds[i]);
    }
  }

  /** Once an app is enabled (or bound to an instance), its instance and public URL never change again. */
  lemma {:induction false} PinnedIssuerIsStable(worlds: seq<World>, steps: seq<Step>, i: nat, j: nat, a: int)
    requires IsRun(worlds, steps) && Inv(worlds[0]) && i <= j <= |steps|
    requires Pinned(worlds[i].registry, a)
    ensures Pinned(worlds[j].registry, a)
    ensures worlds[j].registry.apps[a].instanceKey == worlds[i].registry.apps[a].instanceKey
    ensures IssuerOf(worlds[j].registry, worlds[j].registry.apps[a]) == IssuerOf(worlds[i].registry, worlds[i].registry.apps[a])
  {
    if i < j {
      PinnedIssuerIsStable(worlds, steps, i, j - 1, a);
      RunKeepsInv(worlds, steps, j - 1);
      StepKeepsIssuer(worlds[j - 1], steps[j - 1], worlds[j], a);
    }
  }

  // ----- the issuers written to Vault -----

  /**
   The one step that can split an app's issuers: an activation binds the app to an instance whose
   URL is not the global one, although another activation of it, bound to the global settings, is still running, or wrote and
   did not enable the app. In the second case its own key check came before that write, or the
   keys were deleted since.
   */
  ghost predicate RebindsLegacy(w: World, step: Step) {
    && step.Bind? && step.session in w.sessions
    && var a := w.sessions[step.session].app;
    && step.bound.instanceKey.Some? && w.registry.legacy != Some(step.bound.publicUrl) && !Pinned(w.registry, a)
    && (InFlight(w, a) || HasWritten(w, a))
  }

  ghost predicate HasWritten(w: World, a: int) {
    exists p :: p in w.issuers && p.0 == a
  }

  predicate HasIssuer(r: Registry, a: int, url: string) {
    a in r.apps && IssuerOf(r, r.apps[a]) == Some(url)
  }

  predicate InFlight(w: World, a: int) {
    exists s :: s in w.sessions && IsBound(w, s) && w.sessions[s].app == a
  }

  /** Every issuer written for an app, and every one a session may still write, is the app's issuer. */
  ghost predicate OneIssuer(w: World) {
    && (forall s :: IsBound(w, s) ==> HasIssuer(w.registry, w.sessions[s].app, w.sessions[s].bound.value.publicUrl))
    && (forall p :: p in w.issuers ==> HasIssuer(w.registry, p.0, p.1))
  }

  lemma BindKeepsOneIssuer(w: World, step: Step, w': World)
    requires Inv(w) && OneIssuer(w) && Next(w, step, w') && step.Bind? && !RebindsLegacy(w, step)
    ensures OneIssuer(w')
  {
    var a := w.sessions[step.session].app;
    if Pinned(w.registry, a) {
      EnabledResolvesToIssuer(w.registry, a, step.bound);
    }
    assert forall b :: b in w.registry.apps && b != a ==> w'.registry.apps[b] == w.registry.apps[b];
    if w.registry.apps[a].instanceKey != w'.registry.apps[a].instanceKey && w.registry.legacy != Some(step.bound.publicUrl) {
      assert forall s :: IsBound(w, s) ==> w.sessions[s].app != a;
      assert forall p :: p in w.issuers ==> p.0 != a;
    }
  }

  lemma OtherKeepsOneIssuer(w: World, step: Step, w': World)
    requires Inv(w) && OneIssuer(w) && Next(w, step, w') && !step.Bind?
    ensures OneIssuer(w')
  {
    forall a | a in w.registry.apps ensures a in w'.registry.apps
      && IssuerOf(w'.registry, w'.registry.apps[a]) == IssuerOf(w.registry, w.registry.apps[a])
      && (Pinned(w.registry, a) ==> Pinned(w'.registry, a))
    {
      if Pinned(w.registry, a) { StepKeepsIssuer(w, step, w', a); }
    }
    if step.Reprovision? {
      EnabledResolvesToIssuer(w.registry, step.app, step.bound);
    }
  }

  lemma {:induction false} CleanRunKeepsOneIssuer(worlds: seq<World>, steps: seq<Step>, i: nat)
    requires IsRun(worlds, steps) && Inv(worlds[0]) && OneIssuer(worlds[0]) && i <= |steps|
    requires forall k :: 0 <= k < |steps| ==> !RebindsLegacy(worlds[k], steps[k])
    ensures OneIssuer(worlds[i])
  {
    if i > 0 {
      CleanRunKeepsOneIssuer(worlds, steps, i - 1);
      RunKeepsInv(worlds, steps, i - 1);
      if steps[i - 1].Bind? {
        BindKeepsOneIssuer(worlds[i - 1], steps[i - 1], worlds[i]);
      } else {
        OtherKeepsOneIssuer(worlds[i - 1], steps[i - 1], worlds[i]);
      }
    }
  }

  /** Without such a rebinding, all issuers ever written for an app are one value: the app's issuer. */
  lemma AllWrittenIssuersAgree(worlds: seq<World>, steps: seq<Step>, i: nat, a: int, url: string, url': string)
    requires IsRun(worlds, steps) && Inv(worlds[0]) && OneIssuer(worlds[0]) && i <= |steps|
    requires forall k :: 0 <= k < |steps| ==> !RebindsLegacy(worlds[k], steps[k])
    requires (a, url) in worlds[i].issuers && (a, url') in worlds[i].issuers
    ensures url == url' && HasIssuer(worlds[i].registry, a, url)
  {
    CleanRunKeepsOneIssuer(worlds, steps, i);
  }

  // ----- activations one after the other -----

  /** An activation starts while another one of the app is under way, or somebody deletes the app's keys. */
  predicate Disturbs(w: World, step: Step) {
    || step.ClearKeys?
    || (step.Check? && exists s :: s in w.sessions && w.sessions[s].app == step.app)
  }

  /** At most one activation per app, and none waits to bind an app that has issuers and is off. */
  ghost predicate Serial(w: World) {
    && (forall s, t :: s in w.sessions && t in w.sessions && w.sessions[s].app == w.sessions[t].app ==> s == t)
    && (forall p :: p in w.issuers ==> p.0 in w.held)
    && (forall s :: s in w.sessions && w.sessions[s].bound.None? && IsOff(w, w.sessions[s].app) ==> !HasWritten(w, w.sessions[s].app))
  }

  lemma SerialStep(w: World, step: Step, w': World)
    requires Inv(w) && Serial(w) && Next(w, step, w') && !Disturbs(w, step)
    ensures Serial(w')
    ensures !RebindsLegacy(w, step)
  {
    forall a | HasWritten(w', a) && !HasWritten(w, a)
      ensures step.WriteIssuer? || step.Reprovision?
      ensures step.WriteIssuer? ==> w.sessions[step.session].app == a
      ensures step.Reprovision? ==> step.app == a
    {
      var p :| p in w'.issuers && p.0 == a;
      assert p !in w.issuers;
    }
    forall s | s in w'.sessions && w'.sessions[s].bound.None? && IsOff(w', w'.sessions[s].app)
      ensures !HasWritten(w', w'.sessions[s].app)
    {
      var a := w'.sessions[s].app;
      if step.Check? && s == step.session {
        assert !HasWritten(w, a);
      } else {
        assert s in w.sessions && IsOff(w, a);
      }
    }
  }

  /**
   When no two activations of an app overlap and nobody deletes its keys, its issuers are one
   value, whatever dies and whatever administrators do.
   */
  lemma {:induction false} SerialActivationsAgree(worlds: seq<World>, steps: seq<Step>, i: nat)
    requires IsRun(worlds, steps) && Inv(worlds[0]) && OneIssuer(worlds[0]) && Serial(worlds[0]) && i <= |steps|
    requires forall k :: 0 <= k < |steps| ==> !Disturbs(worlds[k], steps[k])
    ensures OneIssuer(worlds[i]) && Serial(worlds[i])
  {
    if i > 0 {
      SerialActivationsAgree(worlds, steps, i - 1);
      RunKeepsInv(worlds, steps, i - 1);
      SerialStep(worlds[i - 1], steps[i - 1], worlds[i]);
      if steps[i - 1].Bind? {
        BindKeepsOneIssuer(worlds[i - 1], steps[i - 1], worlds[i]);
      } else {
        OtherKeepsOneIssuer(worlds[i - 1], steps[i - 1], worlds[i]);
      }
    }
  }

  // ----- and otherwise -----

  ghost predicate TwoIssuers(w: World, a: int) {
    exists url, url' :: url != url' && (a, url) in w.issuers && (a, url') in w.issuers
  }

  /**
   Where RebindsLegacy happens, the sessions then only have to write what they hold for the app to
   end with two issuers written. So the condition of AllWrittenIssuersAgree cannot be dropped.
   */
  lemma RebindingSplitsIssuers(w: World, step: Step, w': World) returns (worlds: seq<World>, steps: seq<Step>)
    requires Inv(w) && OneIssuer(w) && Next(w, step, w') && RebindsLegacy(w, step)
    ensures IsRun(worlds, steps) && worlds[0] == w'
    ensures forall k :: 0 <= k < |steps| ==> steps[k].WriteIssuer?
    ensures TwoIssuers(worlds[|steps|], w.sessions[step.session].app)
  {
    var a, own := w.sessions[step.session].app, step.bound.publicUrl;
    if p :| p in w.issuers && p.0 == a {
      var w1 := w'.(issuers := w'.issuers + {(a, own)}, held := w'.held + {a});
      worlds, steps := [w', w1], [WriteIssuer(step.session)];
      assert Next(w', steps[0], w1);
      assert (a, p.1) in w1.issuers && (a, own) in w1.issuers && p.1 != own;
    } else {
      var s :| IsBound(w, s) && w.sessions[s].app == a;
      var url := w.sessions[s].bound.value.publicUrl;
      var w1 := w'.(issuers := w'.issuers + {(a, url)}, held := w'.held + {a});
      var w2 := w1.(issuers := w1.issuers + {(a, own)}, held := w1.held + {a});
      worlds, steps := [w', w1, w2], [WriteIssuer(s), WriteIssuer(step.session)];
      assert Next(w', steps[0], w1) && Next(w1, steps[1], w2);
      assert (a, url) in w2.issuers && (a, own) in w2.issuers && url != own;
    }
  }

  const AKS := Instance(Some(5), "https://auth/clusters/aks", true)
  const GLOBAL := Resolved(None, "https://auth")
  const OWN := Resolved(Some("aks"), "https://auth/clusters/aks")

  /** App 1 on cluster 5, off, without instance and without variables; the cluster has an instance or not yet. */
  function Example(hasInstance: bool, bound: Option<string>, sessions: map<int, Session>, issuers: set<(int, string)>, held: set<int>): World {
    World(Registry(if hasInstance then map["aks" := AKS] else map[], map[1 := App(Some(5), false, bound)], {5}, Some("https://auth")),
          sessions, issuers, held)
  }

  /** Reached in flight: two activations pass their check, one binds to the global settings, the cluster gets an instance, the other binds. */
  lemma RebindingIsReachable() returns (worlds: seq<World>, steps: seq<Step>)
    ensures IsRun(worlds, steps) && Inv(worlds[0]) && OneIssuer(worlds[0])
    ensures |steps| == 5 && RebindsLegacy(worlds[4], steps[4]) && InFlight(worlds[4], 1)
  {
    var a, b := Session(1, None), Session(1, Some(GLOBAL));
    var w0 := Example(false, None, map[], {}, {});
    var w1 := Example(false, None, map[10 := a], {}, {});
    var w2 := Example(false, None, map[10 := a, 11 := a], {}, {});
    var w3 := Example(false, None, map[10 := b, 11 := a], {}, {});
    var w4 := Example(true, None, map[10 := b, 11 := a], {}, {});
    var w5 := Example(true, Some("aks"), map[10 := b, 11 := Session(1, Some(OWN))], {}, {});
    worlds := [w0, w1, w2, w3, w4, w5];
    steps := [Check(10, 1), Check(11, 1), Bind(10, GLOBAL), Upsert("aks", AKS), Bind(11, OWN)];
    assert Next(w0, steps[0], w1) && Next(w1, steps[1], w2);
    assert Next(w2, steps[2], w3);
    assert Next(w3, steps[3], w4);
    assert Next(w4, steps[4], w5);
    assert IsBound(w4, 10) && w4.sessions[10].app == 1;
  }

  /** Reached after a death: an activation writes the global issuer and dies, somebody deletes the keys, the next one binds to the instance. */
  lemma RebindingAfterDeathIsReachable() returns (worlds: seq<World>, steps: seq<Step>)
    ensures IsRun(worlds, steps) && Inv(worlds[0]) && OneIssuer(worlds[0])
    ensures |steps| == 8 && RebindsLegacy(worlds[7], steps[7]) && !InFlight(worlds[7], 1)
  {
    var front, frontSteps := WritesAndDies();
    var back, backSteps := ClearsAndBinds();
    worlds, steps := front + back[1..], frontSteps + backSteps;
    forall i | 0 <= i < |steps| ensures Next(worlds[i], steps[i], worlds[i + 1]) {
      if i < 4 {
        assert Next(front[i], frontSteps[i], front[i + 1]);
      } else {
        assert worlds[i] == back[i - 4] && worlds[i + 1] == back[i - 3];
        assert Next(back[i - 4], backSteps[i - 4], back[i - 3]);
      }
    }
    assert worlds[7] == back[3] && steps[7] == backSteps[3];
  }

  lemma WritesAndDies() returns (worlds: seq<World>, steps: seq<Step>)
    ensures |steps| == 4 && IsRun(worlds, steps) && Inv(worlds[0]) && OneIssuer(worlds[0])
    ensures worlds[4] == Example(false, None, map[], {(1, "https://auth")}, {1})
  {
    var written := {(1, "https://auth")};
    var w0 := Example(false, None, map[], {}, {});
    var w1 := Example(false, None, map[10 := Session(1, None)], {}, {});
    var w2 := Example(false, None, map[10 := Session(1, Some(GLOBAL))], {}, {});
    var w3 := Example(false, None, map[10 := Session(1, Some(GLOBAL))], written, {1});
    var w4 := Example(false, None, map[], written, {1});
    worlds, steps := [w0, w1, w2, w3, w4], [Check(10, 1), Bind(10, GLOBAL), WriteIssuer(10), Abandon(10)];
    assert Next(w0, steps[0], w1) && Next(w1, steps[1], w2);
    assert Next(w2, steps[2], w3) && Next(w3, steps[3], w4);
  }

  lemma ClearsAndBinds() returns (worlds: seq<World>, steps: seq<Step>)
    ensures |steps| == 4 && IsRun(worlds, steps)
    ensures worlds[0] == Example(false, None, map[], {(1, "https://auth")}, {1})
    ensures RebindsLegacy(worlds[3], steps[3]) && !InFlight(worlds[3], 1)
  {
    var written := {(1, "https://auth")};
    var w0 := Example(false, None, map[], written, {1});
    var w1 := Example(false, None, map[], written, {});
    var w2 := Example(true, None, map[], written, {});
    var w3 := Example(true, None, map[11 := Session(1, None)], written, {});
    var w4 := Example(true, Some("aks"), map[11 := Session(1, Some(OWN))], written, {});
    worlds, steps := [w0, w1, w2, w3, w4], [ClearKeys(1), Upsert("aks", AKS), Check(11, 1), Bind(11, OWN)];
    assert Next(w0, steps[0], w1) && Next(w1, steps[1], w2);
    assert Next(w2, steps[2], w3);
    assert Next(w3, steps[3], w4);
    assert (1, "https://auth") in w3.issuers && HasWritten(w3, 1);
  }
}
