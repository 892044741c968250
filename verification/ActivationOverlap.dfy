/**
 Activations of one app that overlap. Each works on the row it loaded, and its commit writes the
 columns whose value it changed and no others; another attempt may have committed in between.
 bind_for_activation loads the row anew, and so does every refresh.
 */
module ActivationOverlap {
  import opened Options
  import opened Activation

  /** The three columns; a list that was never written is NULL. */
  datatype Columns = Columns(enabled: bool, provisioned: Option<bool>, warnings: Option<seq<Warning>>)

  function Read(c: Columns): Auth {
    Auth(c.enabled, c.provisioned, c.warnings.GetOr([]))
  }

  /** What a session computes from the row it loaded before it commits. */
  datatype Outcome =
    | Succeeds
    | Fails(warning: Warning, enabling: bool)     // enabling: the failure came after auth_enabled was set
    | FindsChartMissing

  function Computed(loaded: Columns, o: Outcome): Columns {
    var a := Read(loaded);
    match o
    case Succeeds => Columns(true, Some(true), Some(WithoutActivationWarnings(a.warnings)))
    case Fails(w, enabling) =>
      var failed := Failed(a, w);
      Columns(a.enabled || enabling, failed.provisioned, Some(failed.warnings))
    case FindsChartMissing => loaded.(warnings := Some(Deduplicated(a.warnings + [ChartMissingEnvfrom])))
  }

  /** The commit: only what differs from the loaded value is written. */
  function Committed(row: Columns, loaded: Columns, now: Columns): Columns {
    Columns(if now.enabled != loaded.enabled then now.enabled else row.enabled,
            if now.provisioned != loaded.provisioned then now.provisioned else row.provisioned,
            if now.warnings != loaded.warnings then now.warnings else row.warnings)
  }

  datatype World = World(row: Columns, sessions: map<int, Columns>)

  datatype Step = Load(session: int) | Finish(session: int, outcome: Outcome)

  predicate Allows(o: Outcome) {
    o.Fails? ==> IsActivationWarning(o.warning)
  }

  ghost predicate Next(w: World, step: Step, w': World) {
    match step
    case Load(s) => w' == w.(sessions := w.sessions[s := w.row])
    case Finish(s, o) =>
      && s in w.sessions && Allows(o)
      && w' == World(Committed(w.row, w.sessions[s], Computed(w.sessions[s], o)), w.sessions - {s})
  }

  // ----- one commit -----

  predicate FailedOutcome(c: Columns) {
    c.provisioned == Some(false)
  }

  /**
   The commit writes one of the outcome and the list and not the other, and whether the app's last
   attempt failed, as the row has it now, is not what the session computed.
   */
  predicate Torn(row: Columns, loaded: Columns, o: Outcome) {
    var now := Computed(loaded, o);
    && (now.provisioned != loaded.provisioned) != (now.warnings != loaded.warnings)
    && FailedOutcome(row) != FailedOutcome(now)
  }

  lemma ComputedIsCoherent(loaded: Columns, o: Outcome)
    requires Coherent(Read(loaded)) && Allows(o)
    ensures Coherent(Read(Computed(loaded, o)))
    ensures loaded.enabled ==> Computed(loaded, o).enabled
    ensures ChartMissingEnvfrom in Read(Computed(loaded, o)).warnings <==>
            ChartMissingEnvfrom in Read(loaded).warnings || o.FindsChartMissing?
  {
    var a := Read(loaded);
    ClearedMeaning(a.warnings);
    match o
    case Succeeds =>
    case Fails(w, enabling) => FailedIsCoherent(a, w);
    case FindsChartMissing =>
      AddOne(a.warnings, ChartMissingEnvfrom);
      AppendedActivationWarnings(a.warnings, ChartMissingEnvfrom);
  }

  /** A commit over a coherent row leaves a coherent row exactly when it is not torn. */
  lemma CommitIsCoherentIff(row: Columns, loaded: Columns, o: Outcome)
    requires Coherent(Read(row)) && Coherent(Read(loaded)) && Allows(o)
    requires loaded.enabled ==> row.enabled
    ensures Coherent(Read(Committed(row, loaded, Computed(loaded, o)))) <==> !Torn(row, loaded, o)
  {
    ComputedIsCoherent(loaded, o);
  }

  /** A session that loaded the row as it still is never tears it: attempts that do not overlap are safe. */
  lemma CurrentSessionsNeverTear(row: Columns, o: Outcome)
    requires Coherent(Read(row)) && Allows(o)
    ensures !Torn(row, row, o)
    ensures Committed(row, row, Computed(row, o)) == Computed(row, o)
  {
    ComputedIsCoherent(row, o);
  }

  /** For a success: it found no list to clear, and a failure was recorded since it loaded the row. */
  lemma TornSuccessMeaning(row: Columns, loaded: Columns)
    requires Coherent(Read(loaded)) && loaded.provisioned != Some(true)
    ensures Torn(row, loaded, Succeeds) <==>
            loaded.provisioned == None && loaded.warnings.Some? && row.provisioned == Some(false)
  {
    var ws := Read(loaded).warnings;
    NothingToClear(ws);
    var now := Computed(loaded, Succeeds);
    assert now.provisioned != loaded.provisioned && !FailedOutcome(now);
    if loaded.warnings.Some? {
      assert now.warnings == loaded.warnings <==> ActivationWarnings(ws) == [];
      assert Read(loaded).warnings == ws && |ActivationWarnings(ws)| == if loaded.provisioned == Some(false) then 1 else 0;
      if loaded.provisioned.Some? {
        var outcome := loaded.provisioned.value;
        assert loaded.provisioned == Some(outcome) && !outcome;
      }
    } else {
      assert now.warnings != loaded.warnings;
    }
  }

  lemma {:induction false} NothingToClear(warnings: seq<Warning>)
    ensures ActivationWarnings(warnings) == [] <==> WithoutActivationWarnings(warnings) == warnings
  {
    if warnings != [] {
      NothingToClear(warnings[1..]);
      KeptCount(warnings[1..]);
      assert warnings == [warnings[0]] + warnings[1..];
      if !IsActivationWarning(warnings[0]) {
        assert WithoutActivationWarnings(warnings)[1..] == WithoutActivationWarnings(warnings[1..]);
      }
    }
  }

  lemma {:induction false} KeptCount(warnings: seq<Warning>)
    ensures |WithoutActivationWarnings(warnings)| + |ActivationWarnings(warnings)| == |warnings|
  {
    if warnings != [] { KeptCount(warnings[1..]); }
  }

  // ----- runs -----

  ghost predicate IsRun(worlds: seq<World>, steps: seq<Step>) {
    && |worlds| == |steps| + 1
    && forall i :: 0 <= i < |steps| ==> Next(worlds[i], steps[i], worlds[i + 1])
  }

  /** What sessions loaded was a coherent row, and no app is ever turned off. */
  ghost predicate Inv(w: World) {
    && Coherent(Read(w.row))
    && forall s :: s in w.sessions ==> Coherent(Read(w.sessions[s])) && (w.sessions[s].enabled ==> w.row.enabled)
  }

  predicate Tears(w: World, step: Step) {
    step.Finish? && step.session in w.sessions && Torn(w.row, w.sessions[step.session], step.outcome)
  }

  lemma StepKeepsInvIff(w: World, step: Step, w': World)
    requires Inv(w) && Next(w, step, w')
    ensures Inv(w') <==> !Tears(w, step)
    ensures !Tears(w, step) <==> Coherent(Read(w'.row))
  {
    if step.Finish? {
      var loaded := w.sessions[step.session];
      CommitIsCoherentIff(w.row, loaded, step.outcome);
      ComputedIsCoherent(loaded, step.outcome);
    }
  }

  ghost predicate NoTears(worlds: seq<World>, steps: seq<Step>, n: nat)
    requires IsRun(worlds, steps) && n <= |steps|
  {
    forall k :: 0 <= k < n ==> !Tears(worlds[k], steps[k])
  }

  ghost predicate NoForgets(worlds: seq<World>, steps: seq<Step>, i: nat, j: nat)
    requires IsRun(worlds, steps) && j <= |steps|
  {
    forall k :: i <= k < j ==> !Forgets(worlds[k], steps[k])
  }

  /** Over every interleaving, all committed rows are coherent as long as no commit is torn ... */
  lemma {:induction false} RowsAreCoherentUnlessTorn(worlds: seq<World>, steps: seq<Step>, i: nat)
    requires IsRun(worlds, steps) && Inv(worlds[0]) && i <= |steps|
    requires NoTears(worlds, steps, i)
    ensures Inv(worlds[i])
  {
    if i > 0 {
      RowsAreCoherentUnlessTorn(worlds, steps, i - 1);
      StepKeepsInvIff(worlds[i - 1], steps[i - 1], worlds[i]);
    }
  }

  /** ... and the first torn commit leaves a row that is not. */
  lemma FirstTornCommitIsIncoherent(worlds: seq<World>, steps: seq<Step>, i: nat)
    requires IsRun(worlds, steps) && Inv(worlds[0]) && i < |steps|
    requires NoTears(worlds, steps, i) && Tears(worlds[i], steps[i])
    ensures !Coherent(Read(worlds[i + 1].row))
  {
    RowsAreCoherentUnlessTorn(worlds, steps, i);
    StepKeepsInvIff(worlds[i], steps[i], worlds[i + 1]);
  }

  /** The commit replaces the list by one computed before the chart warning was recorded. */
  predicate Forgets(w: World, step: Step) {
    && step.Finish? && step.session in w.sessions
    && var loaded := w.sessions[step.session];
    && Computed(loaded, step.outcome).warnings != loaded.warnings
    && ChartMissingEnvfrom !in Read(loaded).warnings && !step.outcome.FindsChartMissing?
  }

  /** A recorded chart warning survives a step exactly when its commit does not forget it. */
  lemma ChartSurvivesStepIff(w: World, step: Step, w': World)
    requires Inv(w) && Next(w, step, w') && ChartMissingEnvfrom in Read(w.row).warnings
    ensures ChartMissingEnvfrom in Read(w'.row).warnings <==> !Forgets(w, step)
  {
    if step.Finish? { ComputedIsCoherent(w.sessions[step.session], step.outcome); }
  }

  /** One more step of a run with neither tears nor forgetting. */
  lemma LastStep(worlds: seq<World>, steps: seq<Step>, i: nat, n: nat)
    requires IsRun(worlds, steps) && i <= n < |steps|
    requires NoTears(worlds, steps, n + 1) && NoForgets(worlds, steps, i, n + 1)
    ensures NoTears(worlds, steps, n) && NoForgets(worlds, steps, i, n)
    ensures Next(worlds[n], steps[n], worlds[n + 1]) && !Forgets(worlds[n], steps[n])
  {
  }

  lemma {:induction false} ChartSurvivesUnlessForgotten(worlds: seq<World>, steps: seq<Step>, i: nat, j: nat)
    requires IsRun(worlds, steps) && Inv(worlds[0]) && i <= j <= |steps|
    requires NoTears(worlds, steps, j) && NoForgets(worlds, steps, i, j)
    requires ChartMissingEnvfrom in Read(worlds[i].row).warnings
    ensures ChartMissingEnvfrom in Read(worlds[j].row).warnings
  {
    if i < j {
      var n := j - 1;
      LastStep(worlds, steps, i, n);
      ChartSurvivesUnlessForgotten(worlds, steps, i, n);
      RowsAreCoherentUnlessTorn(worlds, steps, n);
      ChartSurvivesStepIff(worlds[n], steps[n], worlds[j]);
    }
  }

  /**
   Torn commits are reached from every app that was never attempted and has a written list: two
   activations load the row, one fails, the other succeeds.
   */
  lemma TwoAttemptsTear(row: Columns, w: Warning) returns (worlds: seq<World>, steps: seq<Step>)
    requires Coherent(Read(row)) && row.provisioned == None && row.warnings.Some? && IsActivationWarning(w)
    ensures IsRun(worlds, steps) && Inv(worlds[0]) && worlds[0] == World(row, map[])
    ensures steps == [Load(1), Load(2), Finish(2, Fails(w, true)), Finish(1, Succeeds)]
    ensures Tears(worlds[3], steps[3]) && !Coherent(Read(worlds[4].row))
  {
    var w0, w1, w2 := World(row, map[]), World(row, map[1 := row]), World(row, map[1 := row, 2 := row]);
    var failed := Computed(row, Fails(w, true));
    CurrentSessionsNeverTear(row, Fails(w, true));
    var w3 := World(failed, map[1 := row]);
    var w4 := World(Committed(failed, row, Computed(row, Succeeds)), map[]);
    assert w2.sessions - {2} == w3.sessions && w3.sessions - {1} == map[];
    worlds := [w0, w1, w2, w3, w4];
    steps := [Load(1), Load(2), Finish(2, Fails(w, true)), Finish(1, Succeeds)];
    assert Next(w0, steps[0], w1) && Next(w1, steps[1], w2) && Next(w2, steps[2], w3) && Next(w3, steps[3], w4);
    TornSuccessMeaning(failed, row);
    ComputedIsCoherent(row, Fails(w, true));
    CommitIsCoherentIff(failed, row, Succeeds);
  }

  /** The chart check makes such an app of one just created. */
  lemma ChartCheckWritesTheList() returns (worlds: seq<World>, steps: seq<Step>)
    ensures IsRun(worlds, steps) && worlds[0] == World(Columns(false, None, None), map[])
    ensures steps == [Load(0), Finish(0, FindsChartMissing)]
    ensures Inv(worlds[2]) && worlds[2].row.provisioned == None && worlds[2].row.warnings.Some?
  {
    var row := Columns(false, None, None);
    var charted := Computed(row, FindsChartMissing);
    CurrentSessionsNeverTear(row, FindsChartMissing);
    ComputedIsCoherent(row, FindsChartMissing);
    var w0, w1, w2 := World(row, map[]), World(row, map[0 := row]), World(charted, map[]);
    assert w1.sessions - {0} == map[];
    worlds, steps := [w0, w1, w2], [Load(0), Finish(0, FindsChartMissing)];
    assert Next(w0, steps[0], w1) && Next(w1, steps[1], w2);
  }

  // ----- the attempts of Activation as outcomes -----

  /** What an activation that commits anything computes from the row it loaded. */
  function OutcomeOf(a: Auth, x: Answers): Option<Outcome> {
    if a.enabled && a.provisioned != Some(false) then None
    else if !a.enabled && x.check == Clash then
      if a.provisioned == Some(false) then Some(Fails(OidcKeysConflict, false)) else None
    else if (!a.enabled && x.check == CheckFailed) || !x.binds then Some(Fails(InstanceUnavailable, false))
    else if !x.provisionsDev || !x.provisionsProd then Some(Fails(ProvisioningFailed, true))
    else Some(Succeeds)
  }

  /** Alone, a session leaves the row that Activation specifies. */
  lemma AloneIsActivation(row: Columns, x: Answers)
    requires Coherent(Read(row))
    ensures var o := OutcomeOf(Read(row), x);
      Activated(Read(row), x).0 == if o.Some? then Read(Committed(row, row, Computed(row, o.value))) else Read(row)
    ensures OutcomeOf(Read(row), x).Some? ==> Allows(OutcomeOf(Read(row), x).value)
  {
    var o := OutcomeOf(Read(row), x);
    if o.Some? { CurrentSessionsNeverTear(row, o.value); }
  }
}
