/**
 Application environment variables in Vault: who may write which key
 (backend/services/env_var_service.py, and the Vault side of KeycloakService.activate).

 Every stored value carries its author. Group paths and the kind of an app's client are fixed.
 An activation is a session: its key checks of dev and of prod, its writes of dev and of prod and
 its commit are steps of their own, and anything else may happen between them.
 */
module EnvVars {
  import opened Options
  import opened Paths

  datatype Author = Developer | Cnp

  datatype Entry = Entry(value: string, author: Author)

  datatype App = App(groupPath: string, slug: string, isPublic: bool, authEnabled: bool)

  type Vault = map<string, map<string, Entry>>

  datatype Stage = DevChecked | Checked | DevWritten | BothWritten

  /** An activation past its key check of dev; one that died keeps what it wrote. */
  datatype Session = Session(app: int, stage: Stage, alive: bool)

  datatype World = World(apps: map<int, App>, vault: Vault, sessions: map<int, Session>)

  datatype Outcome = Done | BadEnv | NotFound | Managed

  const ENVS := ["dev", "prod"]
  const CLIENT_SECRET := "OIDC_CLIENT_SECRET"
  const MANAGED_KEYS: set<string> := {"OIDC_ISSUER_URL", "OIDC_CLIENT_ID", CLIENT_SECRET}

  /** vault_env_path. */
  function EnvPath(app: App, env: string): string {
    "apps/" + app.groupPath + "/" + app.slug + "/" + env
  }

  function ManagedKeys(app: App): set<string> {
    if app.authEnabled then MANAGED_KEYS else {}
  }

  /** The keys provision writes: a public client has no secret. */
  function WrittenKeys(app: App): (keys: set<string>)
    ensures keys <= MANAGED_KEYS
  {
    if app.isPublic then MANAGED_KEYS - {CLIENT_SECRET} else MANAGED_KEYS
  }

  function NextEnv(stage: Stage): string {
    if stage == Checked then "dev" else "prod"
  }

  function NextStage(stage: Stage): Stage {
    if stage == Checked then DevWritten else BothWritten
  }

  predicate HasWritten(s: Session, env: string) {
    (env == "dev" && (s.stage == DevWritten || s.stage == BothWritten)) || (env == "prod" && s.stage == BothWritten)
  }

  /** An app that was on when its activation started is not checked at all. */
  predicate HasChecked(s: Session, env: string) {
    env == "dev" || s.stage != DevChecked
  }

  predicate MayWrite(stage: Stage) {
    stage == Checked || stage == DevWritten
  }

  function At(vault: Vault, path: string, key: string): Option<Entry> {
    Lookup(Lookup(vault, path).GetOr(map[]), key)
  }

  function Written(vars: map<string, string>, author: Author): map<string, Entry> {
    map k | k in vars :: Entry(vars[k], author)
  }

  function Patched(vault: Vault, path: string, secret: map<string, Entry>): Vault {
    vault[path := Lookup(vault, path).GetOr(map[]) + secret]
  }

  /** Slugs are unique and hold no slash; group paths may hold some. */
  ghost predicate SlugsDistinct(apps: map<int, App>) {
    && (forall a :: a in apps ==> NoSlash(apps[a].slug))
    && (forall a, b :: a in apps && b in apps && a != b ==> apps[a].slug != apps[b].slug)
  }

  // ----- distinct apps and environments have distinct paths -----

  lemma PathsAreDistinct(a: App, b: App, env: string, env': string)
    requires NoSlash(a.slug) && NoSlash(b.slug) && NoSlash(env) && NoSlash(env')
    requires EnvPath(a, env) == EnvPath(b, env')
    ensures a.slug == b.slug && env == env'
  {
    LastSegment("apps/" + a.groupPath + "/" + a.slug, "apps/" + b.groupPath + "/" + b.slug, env, env');
    LastSegment("apps/" + a.groupPath, "apps/" + b.groupPath, a.slug, b.slug);
  }

  // ----- the code -----

  class Service {
    var apps: map<int, App>
    var vault: Vault
    var sessions: map<int, Session>

    constructor (apps: map<int, App>)
      ensures State() == World(apps, map[], map[])
    {
      this.apps, vault, sessions := apps, map[], map[];
    }

    ghost function State(): World
      reads this
    {
      World(apps, vault, sessions)
    }

    /** patch_secret: merge, creating the path if it has no data. */
    method PatchSecret(path: string, secret: map<string, Entry>)
      modifies this`vault
      ensures forall p, k :: At(vault, p, k) == if p == path && k in secret then Some(secret[k]) else At(old(vault), p, k)
    {
      if path in vault {
        vault := vault[path := vault[path] + secret];
      } else {
        vault := vault[path := secret];
      }
    }

    /** delete_secret_key: a path or key that does not exist is nothing to delete. */
    method DeleteSecretKey(path: string, key: string)
      modifies this`vault
      ensures forall p, k :: At(vault, p, k) == if p == path && k == key then None else At(old(vault), p, k)
    {
      if path !in vault || key !in vault[path] { return; }
      vault := vault[path := vault[path] - {key}];
    }

    method SetVars(app: int, env: string, variables: map<string, string>) returns (outcome: Outcome)
      modifies this`vault
      ensures outcome == (if env !in ENVS then BadEnv else if app !in apps then NotFound
                          else if ManagedKeys(apps[app]) * variables.Keys != {} then Managed else Done)
      ensures outcome != Done ==> vault == old(vault)
      ensures outcome == Done ==> Next(old(State()), Step.SetVars(app, env, variables), State())
    {
      if env !in ENVS { return BadEnv; }
      if app !in apps { return NotFound; }
      if ManagedKeys(apps[app]) * variables.Keys != {} { return Managed; }
      PatchSecret(EnvPath(apps[app], env), Written(variables, Developer));
      outcome := Done;
    }

    method DeleteKey(app: int, env: string, key: string) returns (outcome: Outcome)
      modifies this`vault
      ensures outcome == (if env !in ENVS then BadEnv else if app !in apps then NotFound
                          else if key in ManagedKeys(apps[app]) then Managed else Done)
      ensures outcome != Done ==> vault == old(vault)
      ensures outcome == Done ==> Next(old(State()), Step.DeleteKey(app, env, key), State())
    {
      if env !in ENVS { return BadEnv; }
      if app !in apps { return NotFound; }
      if key in ManagedKeys(apps[app]) { return Managed; }
      DeleteSecretKey(EnvPath(apps[app], env), key);
      outcome := Done;
    }

    /** One round of assert_no_foreign_oidc_keys: a path without data defines nothing. */
    method DefinesOidcKeys(app: int, env: string) returns (clash: bool)
      requires app in apps
      ensures clash <==> Clashes(State(), app, env)
    {
      var path := EnvPath(apps[app], env);
      if path !in vault { return false; }
      var clashing := MANAGED_KEYS * vault[path].Keys;
      if clashing != {} {
        var k := Pick(clashing);
        assert k in MANAGED_KEYS && At(vault, path, k).Some?;
        return true;
      }
      forall k | k in MANAGED_KEYS ensures At(vault, path, k).None? { assert k !in clashing; }
      clash := false;
    }

    /** activate up to its key check of dev, which only an app that is off undergoes. */
    method BeginActivation(app: int, session: int) returns (refused: bool)
      requires app in apps && session !in sessions
      modifies this`sessions
      ensures refused <==> !apps[app].authEnabled && Clashes(old(State()), app, "dev")
      ensures refused ==> State() == old(State())
      ensures !refused ==> Next(old(State()), CheckDev(session, app), State())
    {
      refused := false;
      var stage := Checked;
      if !apps[app].authEnabled {
        refused := DefinesOidcKeys(app, "dev");
        if refused { return; }
        stage := DevChecked;
      }
      sessions := sessions[session := Session(app, stage, true)];
    }

    /** The check of prod, which comes after other requests may have run. */
    method ContinueCheck(session: int) returns (refused: bool)
      requires Running(State(), session) && sessions[session].stage == DevChecked
      modifies this`sessions
      ensures refused <==> Clashes(old(State()), old(sessions)[session].app, "prod")
      ensures refused ==> Next(old(State()), Refuse(session), State())
      ensures !refused ==> Next(old(State()), CheckProd(session), State())
    {
      var s := sessions[session];
      refused := DefinesOidcKeys(s.app, "prod");
      if refused {
        sessions := sessions - {session};
      } else {
        sessions := sessions[session := s.(stage := Checked)];
      }
    }

    /** The Vault write of one provision call of a running activation. */
    method WriteVariables(session: int, variables: map<string, string>)
      requires session in sessions && sessions[session].alive && MayWrite(sessions[session].stage)
      requires sessions[session].app in apps && variables.Keys == WrittenKeys(apps[sessions[session].app])
      modifies this`vault, this`sessions
      ensures Next(old(State()), Write(session, variables), State())
    {
      var s := sessions[session];
      PatchSecret(EnvPath(apps[s.app], NextEnv(s.stage)), Written(variables, Cnp));
      sessions := sessions[session := s.(stage := NextStage(s.stage))];
    }

    /** The commit that ends an activation, whether provisioning went through or failed. */
    method FinishActivation(session: int)
      requires Running(State(), session) && sessions[session].stage != DevChecked
      modifies this`apps, this`sessions
      ensures Next(old(State()), Commit(session), State())
    {
      var app := sessions[session].app;
      apps := apps[app := apps[app].(authEnabled := true)];
      sessions := sessions - {session};
    }

    /** The writes of an activation, as far as provisioning gets: dev, then prod. */
    method WriteAll(session: int, written: map<string, map<string, string>>)
      requires Running(State(), session) && sessions[session].stage == Checked
      requires written.Keys == {} || written.Keys == {"dev"} || written.Keys == {"dev", "prod"}
      requires forall env :: env in written ==> written[env].Keys == WrittenKeys(apps[sessions[session].app])
      modifies this`vault, this`sessions
      ensures session in sessions && sessions[session].alive && sessions[session].stage != DevChecked
      ensures sessions[session].app == old(sessions)[session].app
      ensures sessions - {session} == old(sessions) - {session}
      ensures forall p, k :: At(vault, p, k) == AfterWrites(old(vault), apps[sessions[session].app], written, p, k)
    {
      if "dev" in written {
        WriteVariables(session, written["dev"]);
        if "prod" in written { WriteVariables(session, written["prod"]); }
      }
    }

    /**
     activate with nothing in between. `written` lists the environments whose provisioning got as
     far as writing, with the variables it wrote; `binds` is false when no instance could be bound.
     */
    method Activate(app: int, session: int, binds: bool, written: map<string, map<string, string>>) returns (refused: bool)
      requires app in apps && session !in sessions
      requires written.Keys == {} || written.Keys == {"dev"} || written.Keys == {"dev", "prod"}
      requires forall env :: env in written ==> written[env].Keys == WrittenKeys(apps[app])
      modifies this
      ensures refused <==> !old(apps)[app].authEnabled && (Clashes(old(State()), app, "dev") || Clashes(old(State()), app, "prod"))
      ensures sessions == old(sessions)
      ensures refused || !binds ==> State() == old(State())
      ensures !refused && binds ==> ActivateStep(old(State()), app, written, State())
    {
      refused := BeginActivation(app, session);
      if refused { return; }
      if sessions[session].stage == DevChecked {
        refused := ContinueCheck(session);
        if refused { return; }
      }
      assert sessions - {session} == old(sessions);
      if !binds {
        sessions := sessions - {session};
        return;
      }
      WriteAll(session, written);
      FinishActivation(session);
    }
  }

  predicate Clashes(w: World, app: int, env: string)
    requires app in w.apps
  {
    exists k :: k in MANAGED_KEYS && At(w.vault, EnvPath(w.apps[app], env), k).Some?
  }

  /** The entry at (p, k) once dev, then prod were provisioned as far as `written` says. */
  function AfterWrites(before: Vault, app: App, written: map<string, map<string, string>>, p: string, k: string): Option<Entry> {
    if p == EnvPath(app, "prod") && "prod" in written && k in written["prod"] then Some(Entry(written["prod"][k], Cnp))
    else if p == EnvPath(app, "dev") && "dev" in written && k in written["dev"] then Some(Entry(written["dev"][k], Cnp))
    else At(before, p, k)
  }

  ghost predicate ActivateStep(w: World, app: int, written: map<string, map<string, string>>, w': World) {
    && app in w.apps
    && (w.apps[app].authEnabled || (!Clashes(w, app, "dev") && !Clashes(w, app, "prod")))
    && w'.apps == w.apps[app := w.apps[app].(authEnabled := true)]
    && forall p, k :: At(w'.vault, p, k) == AfterWrites(w.vault, w.apps[app], written, p, k)
  }

  // ----- the steps as relations -----

  datatype Step =
    | SetVars(app: int, env: string, vars: map<string, string>)
    | DeleteKey(app: int, env: string, key: string)
    | CheckDev(session: int, ofApp: int)
    | CheckProd(session: int)
    | Refuse(session: int)
    | Write(session: int, vars: map<string, string>)
    | Commit(session: int)
    | Die(session: int)                                         // the process stops, or the request is cancelled
    | Reprovision(app: int, env: string, vars: map<string, string>)

  ghost predicate EntriesWritten(before: Vault, path: string, vars: map<string, string>, author: Author, after: Vault) {
    forall p, k :: At(after, p, k) == if p == path && k in vars then Some(Entry(vars[k], author)) else At(before, p, k)
  }

  predicate Running(w: World, session: int) {
    session in w.sessions && w.sessions[session].alive && w.sessions[session].app in w.apps
  }

  ghost predicate Next(w: World, step: Step, w': World) {
    match step
    case SetVars(a, env, vars) =>
      && env in ENVS && a in w.apps && ManagedKeys(w.apps[a]) * vars.Keys == {}
      && w'.apps == w.apps && w'.sessions == w.sessions
      && EntriesWritten(w.vault, EnvPath(w.apps[a], env), vars, Developer, w'.vault)
    case DeleteKey(a, env, key) =>
      && env in ENVS && a in w.apps && key !in ManagedKeys(w.apps[a])
      && w'.apps == w.apps && w'.sessions == w.sessions
      && forall p, k :: At(w'.vault, p, k) == if p == EnvPath(w.apps[a], env) && k == key then None else At(w.vault, p, k)
    case CheckDev(s, a) =>
      && s !in w.sessions && a in w.apps && (w.apps[a].authEnabled || !Clashes(w, a, "dev"))
      && w' == w.(sessions := w.sessions[s := Session(a, if w.apps[a].authEnabled then Checked else DevChecked, true)])
    case CheckProd(s) =>
      && Running(w, s) && w.sessions[s].stage == DevChecked && !Clashes(w, w.sessions[s].app, "prod")
      && w' == w.(sessions := w.sessions[s := w.sessions[s].(stage := Checked)])
    case Refuse(s) =>
      && Running(w, s) && w.sessions[s].stage == DevChecked && Clashes(w, w.sessions[s].app, "prod")
      && w' == w.(sessions := w.sessions - {s})
    case Write(s, vars) =>
      && Running(w, s) && MayWrite(w.sessions[s].stage)
      && var session := w.sessions[s];
      && vars.Keys == WrittenKeys(w.apps[session.app])
      && w'.apps == w.apps && w'.sessions == w.sessions[s := session.(stage := NextStage(session.stage))]
      && EntriesWritten(w.vault, EnvPath(w.apps[session.app], NextEnv(session.stage)), vars, Cnp, w'.vault)
    case Commit(s) =>
      && Running(w, s) && w.sessions[s].stage != DevChecked
      && var a := w.sessions[s].app;
      && w'.apps == w.apps[a := w.apps[a].(authEnabled := true)]
      && w'.sessions == w.sessions - {s} && w'.vault == w.vault
    case Die(s) =>
      Running(w, s) && w' == w.(sessions := w.sessions[s := w.sessions[s].(alive := false)])
    case Reprovision(a, env, vars) =>
      && env in ENVS && a in w.apps && w.apps[a].authEnabled && vars.Keys == WrittenKeys(w.apps[a])
      && w'.apps == w.apps && w'.sessions == w.sessions
      && EntriesWritten(w.vault, EnvPath(w.apps[a], env), vars, Cnp, w'.vault)
  }

  predicate ByDeveloper(step: Step) {
    step.SetVars? || step.DeleteKey?
  }

  /** The app whose variables the step may touch. */
  function AppOf(w: World, step: Step): Option<int> {
    match step
    case SetVars(a, _, _) => Some(a)
    case DeleteKey(a, _, _) => Some(a)
    case Reprovision(a, _, _) => Some(a)
    case Write(s, _) => if s in w.sessions then Some(w.sessions[s].app) else None
    case _ => None
  }

  /** CNP changes an entry a developer wrote, or a developer one CNP wrote. */
  ghost predicate Collides(w: World, step: Step, w': World) {
    exists a, env, k :: a in w.apps && env in ENVS && k in MANAGED_KEYS && CollidesAt(w, step, w', EnvPath(w.apps[a], env), k)
  }

  predicate CollidesAt(w: World, step: Step, w': World, path: string, k: string) {
    var before := At(w.vault, path, k);
    before.Some? && At(w'.vault, path, k) != before && (before.value.author == Cnp <==> ByDeveloper(step))
  }

  /**
   A developer touches a key that an activation past its check of the environment writes: sets one
   it has still to write, or sets or deletes one it has written and not committed. What a dead
   activation wrote stays uncommitted.
   */
  ghost predicate Meddles(w: World, step: Step) {
    match step
    case SetVars(a, env, vars) =>
      a in w.apps && exists s, k :: k in vars && k in WrittenKeys(w.apps[a]) && Concerns(w, s, a, env)
    case DeleteKey(a, env, key) =>
      a in w.apps && key in WrittenKeys(w.apps[a]) && exists s :: HasWrittenFor(w, s, a, env)
    case _ => false
  }

  predicate HasWrittenFor(w: World, s: int, a: int, env: string) {
    s in w.sessions && w.sessions[s].app == a && HasWritten(w.sessions[s], env)
  }

  /** Session s has written the environment of app a, or checked it and is going to. */
  predicate Concerns(w: World, s: int, a: int, env: string) {
    s in w.sessions && w.sessions[s].app == a && (HasWritten(w.sessions[s], env) || IsUnderWay(w.sessions[s], env))
  }

  predicate IsUnderWay(s: Session, env: string) {
    s.alive && HasChecked(s, env)
  }
}
