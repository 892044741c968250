/**
 Who wrote the variables in Vault, over every interleaving of developers and activations: when the
 two never overwrite each other, and what each operation leaves where.
 */
module EnvVarLaws {
  import opened Options
  import opened Paths
  import opened EnvVars

  // ----- developers and CNP never collide -----

  predicate ActivationRuns(w: World, a: int, env: string) {
    exists s :: s in w.sessions && w.sessions[s].app == a && IsUnderWay(w.sessions[s], env)
  }

  /** Where a developer's value may stand in a key that provision writes, and where CNP's may. */
  ghost predicate Authored(w: World, a: int, env: string, k: string)
    requires a in w.apps
  {
    var entry := At(w.vault, EnvPath(w.apps[a], env), k);
    && (entry.Some? && entry.value.author == Developer && k in WrittenKeys(w.apps[a]) ==>
          !w.apps[a].authEnabled && !ActivationRuns(w, a, env))
    && (entry.Some? && entry.value.author == Cnp ==>
          k in WrittenKeys(w.apps[a]) && (w.apps[a].authEnabled || exists s :: HasWrittenFor(w, s, a, env)))
    && (k in WrittenKeys(w.apps[a]) && (exists s :: HasWrittenFor(w, s, a, env)) ==>
          entry.Some? && entry.value.author == Cnp)
  }

  ghost predicate Inv(w: World) {
    && SlugsDistinct(w.apps)
    && (forall s :: s in w.sessions ==> w.sessions[s].app in w.apps)
    && (forall a, env, k :: a in w.apps && env in ENVS && k in MANAGED_KEYS ==> Authored(w, a, env, k))
  }

  lemma EnvsHaveNoSlash(env: string)
    requires env in ENVS
    ensures NoSlash(env) && (env == "dev" || env == "prod")
  {
  }

  lemma StagesAreEnvs(stage: Stage)
    ensures NextEnv(stage) in ENVS
  {
    assert ENVS[0] == "dev" && ENVS[1] == "prod";
  }

  lemma DistinctApps(w: World, a: int, env: string, b: int, env': string)
    requires SlugsDistinct(w.apps) && a in w.apps && b in w.apps && env in ENVS && env' in ENVS
    ensures EnvPath(w.apps[a], env) == EnvPath(w.apps[b], env') <==> a == b && env == env'
  {
    if EnvPath(w.apps[a], env) == EnvPath(w.apps[b], env') {
      EnvsHaveNoSlash(env);
      EnvsHaveNoSlash(env');
      PathsAreDistinct(w.apps[a], w.apps[b], env, env');
    }
  }

  /** A step on one app leaves the entries of the others as they were. */
  lemma OtherAppsKeepEntries(w: World, step: Step, w': World, a: int, env: string, k: string)
    requires SlugsDistinct(w.apps) && Next(w, step, w')
    requires a in w.apps && env in ENVS && AppOf(w, step) != Some(a)
    ensures At(w'.vault, EnvPath(w.apps[a], env), k) == At(w.vault, EnvPath(w.apps[a], env), k)
  {
    match step
    case SetVars(b, e, _) => DistinctApps(w, a, env, b, e);
    case DeleteKey(b, e, _) => DistinctApps(w, a, env, b, e);
    case Reprovision(b, e, _) => DistinctApps(w, a, env, b, e);
    case Write(s, _) =>
      StagesAreEnvs(w.sessions[s].stage);
      DistinctApps(w, a, env, w.sessions[s].app, NextEnv(w.sessions[s].stage));
    case _ =>
  }

  lemma NotAmong(k: string, s: set<string>, t: set<string>)
    requires s * t == {}
    ensures k in s ==> k !in t
  {
    assert k in s * t <==> k in s && k in t;
  }

  lemma NobodyConcerned(w: World, a: int, env: string)
    requires forall s :: !Concerns(w, s, a, env)
    ensures !ActivationRuns(w, a, env) && forall s :: !HasWrittenFor(w, s, a, env)
  {
    forall s | s in w.sessions && w.sessions[s].app == a ensures !IsUnderWay(w.sessions[s], env) {
      assert !Concerns(w, s, a, env);
    }
    forall s ensures !HasWrittenFor(w, s, a, env) {
      assert !Concerns(w, s, a, env);
    }
  }

  /** A developer's step reaches a managed key only while the app is off. */
  lemma DeveloperKeepsAuthored(w: World, step: Step, w': World, a: int, env: string, k: string)
    requires Inv(w) && Next(w, step, w') && ByDeveloper(step) && !Meddles(w, step)
    requires a in w.apps && env in ENVS && k in MANAGED_KEYS
    ensures Authored(w', a, env, k)
    ensures !CollidesAt(w, step, w', EnvPath(w.apps[a], env), k)
  {
    assert Authored(w, a, env, k);
    assert forall s :: HasWrittenFor(w', s, a, env) == HasWrittenFor(w, s, a, env);
    match step
    case SetVars(b, e, vars) =>
      DistinctApps(w, a, env, b, e);
      NotAmong(k, ManagedKeys(w.apps[b]), vars.Keys);
      if a == b && env == e && k in vars && k in WrittenKeys(w.apps[a]) {
        forall s ensures !Concerns(w, s, a, env) {
          if Concerns(w, s, a, env) { assert Meddles(w, step); assert false; }
        }
        NobodyConcerned(w, a, env);
      }
    case DeleteKey(b, e, key) =>
      DistinctApps(w, a, env, b, e);
  }

  /** CNP's writes reach keys of its own only. */
  lemma WriteKeepsAuthored(w: World, step: Step, w': World, a: int, env: string, k: string)
    requires Inv(w) && Next(w, step, w') && (step.Write? || step.Reprovision?)
    requires a in w.apps && env in ENVS && k in MANAGED_KEYS
    ensures Authored(w', a, env, k)
    ensures !CollidesAt(w, step, w', EnvPath(w.apps[a], env), k)
  {
    assert Authored(w, a, env, k);
    EnvsHaveNoSlash(env);
    if step.Write? {
      var s := w.sessions[step.session];
      StagesAreEnvs(s.stage);
      DistinctApps(w, a, env, s.app, NextEnv(s.stage));
      assert forall t :: HasWrittenFor(w', t, a, env) <==>
        HasWrittenFor(w, t, a, env) || (t == step.session && a == s.app && env == NextEnv(s.stage));
      assert forall t :: t in w.sessions ==> w'.sessions[t].alive == w.sessions[t].alive && w'.sessions[t].app == w.sessions[t].app;
      if a == s.app && env == NextEnv(s.stage) { assert HasWrittenFor(w', step.session, a, env); }
      assert a == s.app ==> ActivationRuns(w, a, env);
    } else {
      DistinctApps(w, a, env, step.app, step.env);
      assert forall t :: HasWrittenFor(w', t, a, env) == HasWrittenFor(w, t, a, env);
    }
  }

  /** Checks, refusals, commits and deaths write nothing. */
  lemma SilentKeepsAuthored(w: World, step: Step, w': World, a: int, env: string, k: string)
    requires Inv(w) && Next(w, step, w') && (step.CheckDev? || step.CheckProd? || step.Refuse? || step.Commit? || step.Die?)
    requires a in w.apps && env in ENVS && k in MANAGED_KEYS
    ensures a in w'.apps && Authored(w', a, env, k)
    ensures !CollidesAt(w, step, w', EnvPath(w.apps[a], env), k)
  {
    assert Authored(w, a, env, k);
    assert EnvPath(w'.apps[a], env) == EnvPath(w.apps[a], env) && WrittenKeys(w'.apps[a]) == WrittenKeys(w.apps[a]);
    EnvsHaveNoSlash(env);
    match step
    case CheckDev(s, b) =>
      assert forall t :: HasWrittenFor(w', t, a, env) == HasWrittenFor(w, t, a, env);
      assert ActivationRuns(w', a, env) ==> ActivationRuns(w, a, env) || (a == b && (w.apps[a].authEnabled || env == "dev"));
    case CheckProd(s) =>
      assert forall t :: HasWrittenFor(w', t, a, env) == HasWrittenFor(w, t, a, env);
      assert ActivationRuns(w', a, env) ==> ActivationRuns(w, a, env) || (a == w.sessions[s].app && env == "prod");
    case Refuse(s) =>
      assert forall t :: HasWrittenFor(w', t, a, env) == HasWrittenFor(w, t, a, env);
      assert ActivationRuns(w', a, env) ==> ActivationRuns(w, a, env);
    case Commit(s) =>
      assert forall t :: HasWrittenFor(w', t, a, env) <==> HasWrittenFor(w, t, a, env) && t != s;
      assert w.sessions[s].app == a ==> ActivationRuns(w, a, env);
      assert ActivationRuns(w', a, env) ==> ActivationRuns(w, a, env);
    case Die(s) =>
      assert forall t :: HasWrittenFor(w', t, a, env) == HasWrittenFor(w, t, a, env);
      assert ActivationRuns(w', a, env) ==> ActivationRuns(w, a, env);
  }

  lemma StepKeepsAuthored(w: World, step: Step, w': World, a: int, env: string, k: string)
    requires Inv(w) && Next(w, step, w') && !Meddles(w, step)
    requires a in w.apps && env in ENVS && k in MANAGED_KEYS
    ensures a in w'.apps && Authored(w', a, env, k)
    ensures !CollidesAt(w, step, w', EnvPath(w.apps[a], env), k)
  {
    if ByDeveloper(step) {
      DeveloperKeepsAuthored(w, step, w', a, env, k);
    } else if step.Write? || step.Reprovision? {
      WriteKeepsAuthored(w, step, w', a, env, k);
    } else {
      SilentKeepsAuthored(w, step, w', a, env, k);
    }
  }

  lemma StepKeepsApps(w: World, step: Step, w': World)
    requires Inv(w) && Next(w, step, w')
    ensures w'.apps.Keys == w.apps.Keys && SlugsDistinct(w'.apps)
    ensures forall s :: s in w'.sessions ==> w'.sessions[s].app in w'.apps
  {
  }

  lemma StepKeepsInv(w: World, step: Step, w': World)
    requires Inv(w) && Next(w, step, w') && !Meddles(w, step)
    ensures Inv(w')
    ensures !Collides(w, step, w')
  {
    StepKeepsApps(w, step, w');
    forall a, env, k | a in w'.apps && env in ENVS && k in MANAGED_KEYS ensures Authored(w', a, env, k) {
      StepKeepsAuthored(w, step, w', a, env, k);
    }
    StepDoesNotCollide(w, step, w');
  }

  lemma StepDoesNotCollide(w: World, step: Step, w': World)
    requires Inv(w) && Next(w, step, w') && !Meddles(w, step)
    ensures !Collides(w, step, w')
  {
    forall a, env, k | a in w.apps && env in ENVS && k in MANAGED_KEYS ensures !CollidesAt(w, step, w', EnvPath(w.apps[a], env), k) {
      StepKeepsAuthored(w, step, w', a, env, k);
    }
  }

  /** Provisioning changes managed keys of its own app only, in every state. */
  lemma ProvisioningKeepsOtherKeys(w: World, step: Step, w': World, path: string, k: string)
    requires Next(w, step, w') && !ByDeveloper(step)
    requires k !in MANAGED_KEYS
    ensures At(w'.vault, path, k) == At(w.vault, path, k)
  {
  }

  ghost predicate IsRun(worlds: seq<World>, steps: seq<Step>) {
    && |worlds| == |steps| + 1
    && forall i :: 0 <= i < |steps| ==> Next(worlds[i], steps[i], worlds[i + 1])
  }

  ghost predicate NobodyMeddles(worlds: seq<World>, steps: seq<Step>)
    requires IsRun(worlds, steps)
  {
    forall i :: 0 <= i < |steps| ==> !Meddles(worlds[i], steps[i])
  }

  lemma {:induction false} RunKeepsInv(worlds: seq<World>, steps: seq<Step>, i: nat)
    requires IsRun(worlds, steps) && NobodyMeddles(worlds, steps) && Inv(worlds[0]) && i <= |steps|
    ensures Inv(worlds[i])
  {
    if i > 0 {
      RunKeepsInv(worlds, steps, i - 1);
      StepKeepsInv(worlds[i - 1], steps[i - 1], worlds[i]);
    }
  }

  /**
   Over every interleaving in which no developer touches a key of an activation between its check
   of that environment and its commit, CNP overwrites no value a developer wrote, and developers change none CNP wrote.
   */
  lemma AuthorsNeverCollide(worlds: seq<World>, steps: seq<Step>, i: nat)
    requires IsRun(worlds, steps) && NobodyMeddles(worlds, steps) && Inv(worlds[0]) && i < |steps|
    ensures !Collides(worlds[i], steps[i], worlds[i + 1])
  {
    RunKeepsInv(worlds, steps, i);
    StepKeepsInv(worlds[i], steps[i], worlds[i + 1]);
  }

  // ----- and collide otherwise -----

  lemma PatchedMeaning(vault: Vault, path: string, vars: map<string, string>, author: Author)
    ensures EntriesWritten(vault, path, vars, author, Patched(vault, path, Written(vars, author)))
  {
  }

  /** The world after a running session wrote its next environment. */
  function WorldAfterWrite(w: World, s: int, vars: map<string, string>): World
    requires Running(w, s)
  {
    var session := w.sessions[s];
    w.(vault := Patched(w.vault, EnvPath(w.apps[session.app], NextEnv(session.stage)), Written(vars, Cnp)),
       sessions := w.sessions[s := session.(stage := NextStage(session.stage))])
  }

  lemma WriteIsAStep(w: World, s: int, vars: map<string, string>)
    requires Running(w, s) && MayWrite(w.sessions[s].stage) && vars.Keys == WrittenKeys(w.apps[w.sessions[s].app])
    ensures Next(w, Write(s, vars), WorldAfterWrite(w, s, vars))
  {
    PatchedMeaning(w.vault, EnvPath(w.apps[w.sessions[s].app], NextEnv(w.sessions[s].stage)), vars, Cnp);
  }

  /** Touching what a session has written collides at once. */
  lemma TouchingWrittenCollides(w: World, step: Step, w': World, s: int, k: string)
    requires Inv(w) && Next(w, step, w') && ByDeveloper(step)
    requires k in WrittenKeys(w.apps[step.app]) && (if step.SetVars? then k in step.vars else k == step.key)
    requires HasWrittenFor(w, s, step.app, step.env)
    ensures Collides(w, step, w')
  {
    assert Authored(w, step.app, step.env, k);
    assert CollidesAt(w, step, w', EnvPath(w.apps[step.app], step.env), k);
  }

  /** Writing an environment in which a developer's value stands in a written key collides. */
  lemma WritingOverCollides(w: World, s: int, vars: map<string, string>, k: string)
    requires Running(w, s) && MayWrite(w.sessions[s].stage) && vars.Keys == WrittenKeys(w.apps[w.sessions[s].app])
    requires k in vars
    requires var entry := At(w.vault, EnvPath(w.apps[w.sessions[s].app], NextEnv(w.sessions[s].stage)), k);
      entry.Some? && entry.value.author == Developer
    ensures Collides(w, Write(s, vars), WorldAfterWrite(w, s, vars))
  {
    var a, env := w.sessions[s].app, NextEnv(w.sessions[s].stage);
    StagesAreEnvs(w.sessions[s].stage);
    WriteIsAStep(w, s, vars);
    assert CollidesAt(w, Write(s, vars), WorldAfterWrite(w, s, vars), EnvPath(w.apps[a], env), k);
  }

  /** The last step of the run collides. */
  ghost predicate EndsInCollision(worlds: seq<World>, steps: seq<Step>)
    requires IsRun(worlds, steps)
  {
    steps != [] && Collides(worlds[|steps| - 1], steps[|steps| - 1], worlds[|steps|])
  }

  /**
   The converse: wherever a developer's step meddles, that step collides, or the session only has
   to go on for one of its writes to collide: it checks prod if it has yet to, and writes. A check of
   prod that would be refused passes once developers delete the keys it found.
   */
  lemma SplitActivationCollides(w: World, step: Step, w': World, values: map<string, string>)
    returns (worlds: seq<World>, steps: seq<Step>)
    requires Inv(w) && Next(w, step, w') && Meddles(w, step)
    requires values.Keys == WrittenKeys(w.apps[step.app])
    ensures IsRun(worlds, steps) && |steps| > 0 && worlds[0] == w && steps[0] == step && worlds[1] == w'
    ensures forall i :: 1 <= i < |steps| ==> GoesOn(w', step.app, steps[i])
    ensures EndsInCollision(worlds, steps)
  {
    worlds, steps := [w, w'], [step];
    if step.DeleteKey? {
      var s :| HasWrittenFor(w, s, step.app, step.env);
      TouchingWrittenCollides(w, step, w', s, step.key);
    } else {
      var s, k :| k in step.vars && k in WrittenKeys(w.apps[step.app]) && Concerns(w, s, step.app, step.env);
      if HasWritten(w.sessions[s], step.env) {
        TouchingWrittenCollides(w, step, w', s, k);
      } else {
        var more, moreSteps := GoOn(w, step, w', s, k, values);
        Joined(worlds, steps, more, moreSteps);
        worlds, steps := worlds + more[1..], steps + moreSteps;
      }
    }
  }

  lemma GoOn(w: World, step: Step, w': World, s: int, k: string, values: map<string, string>)
    returns (worlds: seq<World>, steps: seq<Step>)
    requires Inv(w) && Next(w, step, w') && step.SetVars? && k in step.vars && k in WrittenKeys(w.apps[step.app])
    requires Concerns(w, s, step.app, step.env) && !HasWritten(w.sessions[s], step.env)
    requires values.Keys == WrittenKeys(w.apps[step.app])
    ensures IsRun(worlds, steps) && worlds[0] == w' && EndsInCollision(worlds, steps)
    ensures forall i :: 0 <= i < |steps| ==> GoesOn(w', step.app, steps[i])
  {
    EnvsHaveNoSlash(step.env);
    AcceptedOnlyWhenOff(w, step, w', k);
    if w.sessions[s].stage == DevChecked {
      worlds, steps := GoOnChecking(w', s, k, values);
    } else {
      worlds, steps := GoOnWriting(w', s, step.env, k, values);
    }
  }

  /** A managed key is set only while the app is off. */
  lemma AcceptedOnlyWhenOff(w: World, step: Step, w': World, k: string)
    requires Next(w, step, w') && step.SetVars? && k in step.vars && k in MANAGED_KEYS
    ensures !w.apps[step.app].authEnabled && w'.apps == w.apps
    ensures At(w'.vault, EnvPath(w'.apps[step.app], step.env), k) == Some(Entry(step.vars[k], Developer))
  {
    NotAmong(k, ManagedKeys(w.apps[step.app]), step.vars.Keys);
  }

  predicate GoesOn(w: World, a: int, step: Step) {
    || step.Write? || step.CheckProd?
    || (step.DeleteKey? && step.app == a && step.env == "prod" && a in w.apps && Clashes(w, a, "prod"))
  }

  /** A run, and one from where it ended that ends in a collision. */
  lemma Joined(worlds: seq<World>, steps: seq<Step>, more: seq<World>, moreSteps: seq<Step>)
    requires IsRun(worlds, steps) && IsRun(more, moreSteps) && worlds[|steps|] == more[0]
    requires EndsInCollision(more, moreSteps)
    ensures IsRun(worlds + more[1..], steps + moreSteps)
    ensures EndsInCollision(worlds + more[1..], steps + moreSteps)
  {
    var all, n := worlds + more[1..], |steps|;
    forall i | 0 <= i < |steps + moreSteps| ensures Next(all[i], (steps + moreSteps)[i], all[i + 1]) {
      if i < n {
        assert Next(worlds[i], steps[i], worlds[i + 1]);
      } else {
        AfterJoint(worlds, more, i);
        AfterJoint(worlds, more, i + 1);
        assert Next(more[i - n], moreSteps[i - n], more[i - n + 1]);
      }
    }
    var last := n + |moreSteps|;
    AfterJoint(worlds, more, last - 1);
    AfterJoint(worlds, more, last);
  }

  lemma AfterJoint(worlds: seq<World>, more: seq<World>, i: nat)
    requires |worlds| > 0 && |more| > 0 && worlds[|worlds| - 1] == more[0]
    requires |worlds| - 1 <= i < |worlds| - 1 + |more|
    ensures (worlds + more[1..])[i] == more[i - (|worlds| - 1)]
  {
  }

  /** A session that has checked an environment in which a developer's value stands, and not written it yet. */
  lemma GoOnWriting(w: World, s: int, env: string, k: string, values: map<string, string>)
    returns (worlds: seq<World>, steps: seq<Step>)
    requires SlugsDistinct(w.apps) && Running(w, s) && w.sessions[s].stage != DevChecked && env in ENVS
    requires !HasWritten(w.sessions[s], env) && k in values && values.Keys == WrittenKeys(w.apps[w.sessions[s].app])
    requires var entry := At(w.vault, EnvPath(w.apps[w.sessions[s].app], env), k); entry.Some? && entry.value.author == Developer
    ensures IsRun(worlds, steps) && worlds[0] == w && EndsInCollision(worlds, steps)
    ensures forall i :: 0 <= i < |steps| ==> steps[i].Write?
  {
    EnvsHaveNoSlash(env);
    var a := w.sessions[s].app;
    var path := EnvPath(w.apps[a], env);
    var w1 := WorldAfterWrite(w, s, values);
    WriteIsAStep(w, s, values);
    if NextEnv(w.sessions[s].stage) == env {
      WritingOverCollides(w, s, values, k);
      worlds, steps := [w, w1], [Write(s, values)];
    } else {
      DistinctApps(w, a, "dev", a, "prod");
      assert At(w1.vault, path, k) == At(w.vault, path, k);
      var w2 := WorldAfterWrite(w1, s, values);
      WriteIsAStep(w1, s, values);
      WritingOverCollides(w1, s, values, k);
      worlds, steps := [w, w1, w2], [Write(s, values), Write(s, values)];
    }
  }

  /** Developers delete keys of one environment of an app that is off. */
  lemma {:induction false} DeleteKeys(w: World, a: int, env: string, keys: set<string>) returns (worlds: seq<World>, steps: seq<Step>)
    requires a in w.apps && !w.apps[a].authEnabled && env in ENVS
    ensures IsRun(worlds, steps) && worlds[0] == w
    ensures forall i :: 0 <= i < |steps| ==> steps[i].DeleteKey? && steps[i].app == a && steps[i].env == env
    ensures keys == {} ==> steps == []
    ensures var last := worlds[|steps|];
      && last.apps == w.apps && last.sessions == w.sessions
      && forall p, k :: At(last.vault, p, k) == if p == EnvPath(w.apps[a], env) && k in keys then None else At(w.vault, p, k)
    decreases |keys|
  {
    worlds, steps := [w], [];
    if keys != {} {
      var key :| key in keys;
      var path := EnvPath(w.apps[a], env);
      var next := w.(vault := if path in w.vault then w.vault[path := w.vault[path] - {key}] else w.vault);
      assert Next(w, DeleteKey(a, env, key), next);
      var more, moreSteps := DeleteKeys(next, a, env, keys - {key});
      worlds, steps := [w] + more, [DeleteKey(a, env, key)] + moreSteps;
    }
  }

  /** A session between its two checks, with a developer's value in dev, on an app that is off. */
  lemma GoOnChecking(w: World, s: int, k: string, values: map<string, string>) returns (worlds: seq<World>, steps: seq<Step>)
    requires SlugsDistinct(w.apps) && Running(w, s) && w.sessions[s].stage == DevChecked && !w.apps[w.sessions[s].app].authEnabled
    requires k in values && values.Keys == WrittenKeys(w.apps[w.sessions[s].app])
    requires var entry := At(w.vault, EnvPath(w.apps[w.sessions[s].app], "dev"), k); entry.Some? && entry.value.author == Developer
    ensures IsRun(worlds, steps) && worlds[0] == w && EndsInCollision(worlds, steps)
    ensures forall i :: 0 <= i < |steps| ==> GoesOn(w, w.sessions[s].app, steps[i])
  {
    var a := w.sessions[s].app;
    assert ENVS[0] == "dev" && ENVS[1] == "prod";
    DistinctApps(w, a, "dev", a, "prod");
    worlds, steps := DeleteKeys(w, a, "prod", if Clashes(w, a, "prod") then MANAGED_KEYS else {});
    var clear := worlds[|steps|];
    var checked := clear.(sessions := clear.sessions[s := clear.sessions[s].(stage := Checked)]);
    assert Next(clear, CheckProd(s), checked);
    var more, moreSteps := GoOnWriting(checked, s, "dev", k, values);
    Joined([clear, checked], [CheckProd(s)], more, moreSteps);
    more, moreSteps := [clear, checked] + more[1..], [CheckProd(s)] + moreSteps;
    Joined(worlds, steps, more, moreSteps);
    worlds, steps := worlds + more[1..], steps + moreSteps;
  }

  /** An app that is off and has no variables. */
  function Fresh(app: App): World {
    World(map[1 := app], map[], map[])
  }

  /** An app that is off and has no variables, an activation at `stage`, and what it wrote. */
  function Under(app: App, stage: Stage, vault: Vault): World {
    World(map[1 := app], vault, map[10 := Session(1, stage, true)])
  }

  lemma ChecksAreSteps(app: App)
    requires !app.authEnabled
    ensures Next(Fresh(app), CheckDev(10, 1), Under(app, DevChecked, map[]))
    ensures Next(Under(app, DevChecked, map[]), CheckProd(10), Under(app, Checked, map[]))
  {
  }

  lemma FreshIsFine(app: App)
    requires NoSlash(app.slug)
    ensures Inv(Fresh(app))
  {
  }

  lemma EditIsAStep(w: World, app: App, vars: map<string, string>) returns (w': World)
    requires 1 in w.apps && w.apps[1] == app && !app.authEnabled
    ensures Next(w, Step.SetVars(1, "dev", vars), w')
  {
    w' := w.(vault := Patched(w.vault, EnvPath(app, "dev"), Written(vars, Developer)));
    assert ENVS[0] == "dev";
    PatchedMeaning(w.vault, EnvPath(app, "dev"), vars, Developer);
  }

  /** One window is reached: between an activation's check of dev and its check of prod. */
  lemma WindowInsideCheck(app: App, vars: map<string, string>, key: string) returns (worlds: seq<World>, steps: seq<Step>)
    requires NoSlash(app.slug) && !app.authEnabled && key in vars && key in WrittenKeys(app)
    ensures IsRun(worlds, steps) && Inv(worlds[0])
    ensures steps == [CheckDev(10, 1), Step.SetVars(1, "dev", vars)] && Meddles(worlds[1], steps[1])
  {
    var w0, w1 := Fresh(app), Under(app, DevChecked, map[]);
    FreshIsFine(app);
    ChecksAreSteps(app);
    var w2 := EditIsAStep(w1, app, vars);
    worlds, steps := [w0, w1, w2], [CheckDev(10, 1), Step.SetVars(1, "dev", vars)];
    assert Concerns(w1, 10, 1, "dev");
  }

  /** Another one: between its check and its first write. */
  lemma WindowBeforeWrite(app: App, vars: map<string, string>, key: string) returns (worlds: seq<World>, steps: seq<Step>)
    requires NoSlash(app.slug) && !app.authEnabled && key in vars && key in WrittenKeys(app)
    ensures IsRun(worlds, steps) && Inv(worlds[0])
    ensures steps == [CheckDev(10, 1), CheckProd(10), Step.SetVars(1, "dev", vars)] && Meddles(worlds[2], steps[2])
  {
    var w0, w1, w2 := Fresh(app), Under(app, DevChecked, map[]), Under(app, Checked, map[]);
    FreshIsFine(app);
    ChecksAreSteps(app);
    var w3 := EditIsAStep(w2, app, vars);
    worlds, steps := [w0, w1, w2, w3], [CheckDev(10, 1), CheckProd(10), Step.SetVars(1, "dev", vars)];
    assert Concerns(w2, 10, 1, "dev");
  }

  /** The last one: between a write and the commit. */
  lemma WindowAfterWrite(app: App, vars: map<string, string>, key: string, values: map<string, string>)
    returns (worlds: seq<World>, steps: seq<Step>)
    requires NoSlash(app.slug) && !app.authEnabled && key in vars && key in WrittenKeys(app)
    requires values.Keys == WrittenKeys(app)
    ensures IsRun(worlds, steps) && Inv(worlds[0])
    ensures steps == [CheckDev(10, 1), CheckProd(10), Write(10, values), Step.SetVars(1, "dev", vars)] && Meddles(worlds[3], steps[3])
  {
    var w0, w1, w2 := Fresh(app), Under(app, DevChecked, map[]), Under(app, Checked, map[]);
    FreshIsFine(app);
    ChecksAreSteps(app);
    var w3 := WorldAfterWrite(w2, 10, values);
    WriteIsAStep(w2, 10, values);
    var w4 := EditIsAStep(w3, app, vars);
    worlds, steps := [w0, w1, w2, w3, w4], [CheckDev(10, 1), CheckProd(10), Write(10, values), Step.SetVars(1, "dev", vars)];
    assert Concerns(w3, 10, 1, "dev");
  }

  // ----- names and places -----

  /** The variables CNP manages, and for an app that is on nobody else sets or deletes. */
  predicate IsOidcKey(k: string) {
    k == "OIDC_ISSUER_URL" || k == "OIDC_CLIENT_ID" || k == "OIDC_CLIENT_SECRET"
  }

  /** Where an app's variables are. */
  function PlaceOf(app: App, env: string): string {
    "apps/" + app.groupPath + "/" + app.slug + "/" + env
  }

  /** set_vars and delete_key refuse exactly the three names, and only on an app that is on; a public client has no secret to write. */
  lemma ManagedMeaning(app: App, k: string)
    ensures k in ManagedKeys(app) <==> app.authEnabled && IsOidcKey(k)
    ensures k in WrittenKeys(app) <==> IsOidcKey(k) && !(app.isPublic && k == "OIDC_CLIENT_SECRET")
  {
  }

  /** The check finds any of the three names, whoever wrote it and whatever the kind of the client. */
  lemma ClashMeaning(w: World, a: int, env: string)
    requires a in w.apps
    ensures Clashes(w, a, env) <==> exists k :: IsOidcKey(k) && At(w.vault, PlaceOf(w.apps[a], env), k).Some?
  {
    assert EnvPath(w.apps[a], env) == PlaceOf(w.apps[a], env);
    forall k ensures k in MANAGED_KEYS <==> IsOidcKey(k) {
    }
  }

  /** An accepted set_vars writes exactly its values at the app's place, as the developer's. */
  lemma SetVarsMeaning(w: World, step: Step, w': World, k: string)
    requires Next(w, step, w') && step.SetVars?
    ensures step.env == "dev" || step.env == "prod"
    ensures w.apps[step.app].authEnabled && IsOidcKey(k) ==> k !in step.vars
    ensures At(w'.vault, PlaceOf(w.apps[step.app], step.env), k) ==
            if k in step.vars then Some(Entry(step.vars[k], Developer)) else At(w.vault, PlaceOf(w.apps[step.app], step.env), k)
    ensures forall p :: p != PlaceOf(w.apps[step.app], step.env) ==> At(w'.vault, p, k) == At(w.vault, p, k)
  {
    assert EnvPath(w.apps[step.app], step.env) == PlaceOf(w.apps[step.app], step.env);
    EnvsHaveNoSlash(step.env);
    if w.apps[step.app].authEnabled && IsOidcKey(k) { NotAmong(k, ManagedKeys(w.apps[step.app]), step.vars.Keys); }
  }

  /**
   An activation that nothing interrupts: it is let through iff the app is on or neither place
   holds one of the three names; then the app is on, and dev and prod each hold what was
   provisioned for that environment, and everything else is as before.
   */
  lemma ActivationMeaning(w: World, a: int, written: map<string, map<string, string>>, w': World, env: string, k: string)
    requires ActivateStep(w, a, written, w') && SlugsDistinct(w.apps)
    requires env == "dev" || env == "prod"
    ensures a in w.apps && a in w'.apps && w'.apps[a] == w.apps[a].(authEnabled := true)
    ensures forall b :: b in w.apps && b != a ==> b in w'.apps && w'.apps[b] == w.apps[b]
    ensures !w.apps[a].authEnabled && IsOidcKey(k) ==> At(w.vault, PlaceOf(w.apps[a], env), k).None?
    ensures At(w'.vault, PlaceOf(w.apps[a], env), k) ==
            if env in written && k in written[env] then Some(Entry(written[env][k], Cnp)) else At(w.vault, PlaceOf(w.apps[a], env), k)
    ensures forall p :: p != PlaceOf(w.apps[a], "dev") && p != PlaceOf(w.apps[a], "prod") ==> At(w'.vault, p, k) == At(w.vault, p, k)
  {
    var app := w.apps[a];
    assert EnvPath(app, env) == PlaceOf(app, env) && EnvPath(app, "dev") == PlaceOf(app, "dev") && EnvPath(app, "prod") == PlaceOf(app, "prod");
    assert ENVS[0] == "dev" && ENVS[1] == "prod";
    DistinctApps(w, a, "dev", a, "prod");
    if !app.authEnabled && IsOidcKey(k) { ClashMeaning(w, a, env); }
  }

  /** A running activation writes dev first, then prod, and marks the values as CNP's. */
  lemma WritesInOrder(w: World, step: Step, w': World, k: string)
    requires Next(w, step, w') && step.Write?
    ensures step.session in w.sessions && w.sessions[step.session].app in w.apps
    ensures var s := w.sessions[step.session];
      && (s.stage == Checked || s.stage == DevWritten)
      && step.session in w'.sessions && w'.sessions[step.session].stage == (if s.stage == Checked then DevWritten else BothWritten)
      && (k in step.vars ==> At(w'.vault, PlaceOf(w.apps[s.app], if s.stage == Checked then "dev" else "prod"), k) == Some(Entry(step.vars[k], Cnp)))
      && (k in step.vars <==> IsOidcKey(k) && !(w.apps[s.app].isPublic && k == "OIDC_CLIENT_SECRET"))
  {
    var s := w.sessions[step.session];
    assert EnvPath(w.apps[s.app], NextEnv(s.stage)) == PlaceOf(w.apps[s.app], if s.stage == Checked then "dev" else "prod");
    ManagedMeaning(w.apps[s.app], k);
    assert k in step.vars <==> k in step.vars.Keys;
  }
}
