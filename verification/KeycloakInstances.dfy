/**
 The registry of Keycloak instances and the binding of apps to them
 (backend/services/keycloak_instance_service.py). Each method below is one transaction: it
 holds the row locks it takes until its commit.
 */
module KeycloakInstances {
  import opened Options

  /** A registered instance; its credentials stay in Vault. */
  datatype Instance = Instance(cluster: Option<int>, publicUrl: string, enabled: bool)

  datatype App = App(cluster: Option<int>, authEnabled: bool, instanceKey: Option<string>)

  /** What an app resolves to: the instance (None: the global settings) and its public URL. */
  datatype Resolved = Resolved(instanceKey: Option<string>, publicUrl: string)

  /** `legacy` is the public URL of the global settings, None while they are off. */
  datatype Registry = Registry(instances: map<string, Instance>, apps: map<int, App>, clusters: set<int>, legacy: Option<string>)

  datatype Outcome = Done | BadRequest | AlreadyExists | NotFound | Conflict | Unavailable

  predicate UniqueClusters(instances: map<string, Instance>) {
    forall j, k :: j in instances && k in instances && j != k && instances[j].cluster.Some? ==> instances[j].cluster != instances[k].cluster
  }

  predicate Linked(apps: map<int, App>, key: string) {
    exists a :: a in apps && apps[a].instanceKey == Some(key)
  }

  /** The database's own constraints: one instance per cluster, no key of a missing instance. */
  predicate Valid(r: Registry) {
    && UniqueClusters(r.instances)
    && forall a :: a in r.apps && r.apps[a].instanceKey.Some? ==> r.apps[a].instanceKey.value in r.instances
  }

  /** Which instance _resolve reads for the app; None is the global settings. */
  ghost predicate Selects(r: Registry, app: App, key: Option<string>) {
    if app.instanceKey.Some? then key == app.instanceKey
    else if app.authEnabled || app.cluster.None? then key == None
    else match key
      case Some(k) => k in r.instances && r.instances[k].cluster == app.cluster
      case None => forall k :: k in r.instances ==> r.instances[k].cluster != app.cluster
  }

  /** _resolve succeeds with `res`: the selected instance exists and is enabled, or the settings are on. */
  ghost predicate Resolves(r: Registry, app: App, res: Resolved) {
    && Selects(r, app, res.instanceKey)
    && match res.instanceKey
       case Some(k) => k in r.instances && r.instances[k].enabled && res.publicUrl == r.instances[k].publicUrl
       case None => r.legacy == Some(res.publicUrl)
  }

  // ----- the transactions as relations -----

  ghost predicate Bound(before: Registry, after: Registry, app: int, res: Resolved) {
    && app in before.apps && Resolves(before, before.apps[app], res)
    && after == before.(apps := before.apps[app := before.apps[app].(instanceKey := res.instanceKey)])
  }

  ghost predicate Upserted(before: Registry, after: Registry, key: string, instance: Instance) {
    && (key in before.instances && Linked(before.apps, key) ==> instance.publicUrl == before.instances[key].publicUrl)
    && after == before.(instances := before.instances[key := instance])
    && UniqueClusters(after.instances)
  }

  ghost predicate Deleted(before: Registry, after: Registry, key: string) {
    && key in before.instances && !Linked(before.apps, key)
    && after == before.(instances := before.instances - {key})
  }

  class Service {
    var instances: map<string, Instance>
    var apps: map<int, App>
    var clusters: set<int>
    const legacy: Option<string>

    constructor (legacy: Option<string>)
      ensures State() == Registry(map[], map[], {}, legacy)
    {
      instances, apps, clusters, this.legacy := map[], map[], {}, legacy;
    }

    function State(): Registry
      reads this
    {
      Registry(instances, apps, clusters, legacy)
    }

    /** scalar_one_or_none over the unique column cluster_id. */
    method FindByCluster(cluster: int) returns (key: Option<string>)
      requires UniqueClusters(instances)
      ensures key.Some? ==> key.value in instances && instances[key.value].cluster == Some(cluster)
      ensures key.None? ==> forall k :: k in instances ==> instances[k].cluster != Some(cluster)
    {
      var matches := set k | k in instances && instances[k].cluster == Some(cluster);
      if matches == {} {
        assert forall k :: k in instances && instances[k].cluster == Some(cluster) ==> k in matches;
        return None;
      }
      var k := Pick(matches);
      key := Some(k);
    }

    /** _resolve; `credential` tells whether Vault yields the instance's secret. */
    method Resolve(app: App, credential: bool) returns (res: Option<Resolved>)
      requires Valid(State())
      ensures res.Some? ==> Resolves(State(), app, res.value) && (res.value.instanceKey.Some? ==> credential)
      ensures res.None? ==> forall r: Resolved :: Resolves(State(), app, r) ==> r.instanceKey.Some? && !credential
    {
      var key := app.instanceKey;
      if key.None? {
        if app.authEnabled || app.cluster.None? { return Legacy(); }
        key := FindByCluster(app.cluster.value);
        if key.None? { return Legacy(); }
      }
      if key.value !in instances || !instances[key.value].enabled || !credential {
        assert forall r: Resolved :: Resolves(State(), app, r) ==> r.instanceKey.Some? && r.instanceKey.value in instances;
        return None;
      }
      res := Some(Resolved(key, instances[key.value].publicUrl));
    }

    function Legacy(): Option<Resolved> {
      if legacy.Some? then Some(Resolved(None, legacy.value)) else None
    }

    /** bind_for_activation: resolve under the locks, store the key, commit. */
    method BindForActivation(app: int, credential: bool) returns (res: Option<Resolved>)
      requires Valid(State()) && app in apps
      modifies this`apps
      ensures res.None? ==> State() == old(State())
      ensures res.None? ==> forall r: Resolved :: Resolves(State(), apps[app], r) ==> r.instanceKey.Some? && !credential
      ensures res.Some? ==> Bound(old(State()), State(), app, res.value)
      ensures Valid(State())
    {
      res := Resolve(apps[app], credential);
      if res.Some? {
        apps := apps[app := apps[app].(instanceKey := res.value.instanceKey)];
      }
    }

    /**
     upsert. `wellFormed` is validate_for_key, `usable` whether an enabled instance's credential
     and master realm answer.
     */
    method Upsert(key: string, instance: Instance, createOnly: bool, wellFormed: bool, usable: bool) returns (outcome: Outcome)
      requires Valid(State())
      modifies this`instances
      ensures outcome == Done ==> Upserted(old(State()), State(), key, instance)
      ensures outcome != Done ==> State() == old(State())
      ensures outcome == Done <==>
        && wellFormed && !(createOnly && key in old(instances))
        && (instance.cluster.Some? ==> instance.cluster.value in clusters)
        && (key in old(instances) && Linked(apps, key) ==> instance.publicUrl == old(instances)[key].publicUrl)
        && (instance.enabled ==> usable)
        && UniqueClusters(old(instances)[key := instance])
      ensures Valid(State())
    {
      if !wellFormed { return BadRequest; }
      if key in instances && createOnly { return AlreadyExists; }
      if instance.cluster.Some? && instance.cluster.value !in clusters { return BadRequest; }
      if key in instances && Linked(apps, key) && instances[key].publicUrl != instance.publicUrl { return Conflict; }
      if instance.enabled && !usable { return Unavailable; }
      if !UniqueClusters(instances[key := instance]) {
        return if createOnly then AlreadyExists else Conflict;
      }
      instances := instances[key := instance];
      outcome := Done;
    }

    method Delete(key: string, wellFormed: bool) returns (outcome: Outcome)
      requires Valid(State())
      modifies this`instances
      ensures outcome == Done ==> Deleted(old(State()), State(), key)
      ensures outcome != Done ==> State() == old(State())
      ensures outcome == Done <==> wellFormed && key in old(instances) && !Linked(apps, key)
      ensures Valid(State())
    {
      if !wellFormed { return BadRequest; }
      if key !in instances { return NotFound; }
      if Linked(apps, key) { return Conflict; }
      instances := instances - {key};
      outcome := Done;
    }
  }

  // ----- the resolution, case by case -----

  /** An app bound to an instance resolves to it while it is enabled, and to nothing else. */
  lemma BoundResolution(r: Registry, app: App, key: string, res: Resolved)
    requires app.instanceKey == Some(key)
    ensures Resolves(r, app, res) <==>
      key in r.instances && r.instances[key].enabled && res.instanceKey == Some(key) && res.publicUrl == r.instances[key].publicUrl
  {
  }

  /** An unbound app that is enabled, or has no cluster, resolves to the global settings while they are on. */
  lemma GlobalResolution(r: Registry, app: App, res: Resolved)
    requires app.instanceKey == None && (app.authEnabled || app.cluster == None)
    ensures Resolves(r, app, res) <==> res.instanceKey == None && r.legacy == Some(res.publicUrl)
  {
  }

  /**
   An unbound app that is off resolves to its cluster's instance if there is one, and a disabled
   instance is refused: it never falls back to the global settings, which serve clusters without one.
   */
  lemma ClusterResolution(r: Registry, app: App, c: int, key: Option<string>, res: Resolved)
    requires Valid(r) && app.instanceKey == None && !app.authEnabled && app.cluster == Some(c)
    requires match key
             case Some(k) => k in r.instances && r.instances[k].cluster == Some(c)
             case None => forall k :: k in r.instances ==> r.instances[k].cluster != Some(c)
    ensures Resolves(r, app, res) <==>
      && res.instanceKey == key
      && match key
         case Some(k) => r.instances[k].enabled && res.publicUrl == r.instances[k].publicUrl
         case None => r.legacy == Some(res.publicUrl)
  {
  }

  /** An app resolves to one thing at most, and a binding stores just that. */
  lemma BindingMeaning(before: Registry, after: Registry, app: int, res: Resolved, other: Resolved)
    requires Valid(before) && Bound(before, after, app, res)
    ensures Resolves(before, before.apps[app], other) <==> other == res
    ensures after.apps.Keys == before.apps.Keys && after.apps[app].instanceKey == res.instanceKey
    ensures after.apps[app].cluster == before.apps[app].cluster && after.apps[app].authEnabled == before.apps[app].authEnabled
    ensures forall b :: b in before.apps && b != app ==> after.apps[b] == before.apps[b]
    ensures after.instances == before.instances && after.legacy == before.legacy
  {
  }
}
