/**
 What an activation attempt leaves on the application row: auth_enabled, auth_provisioned and
 the warnings (backend/services/keycloak_service.py, lines 139-306; backend/services/app_service.py,
 lines 423-475). `saved` is the committed row, the other fields the row in the session.
 Here attempts on one app follow each other; ActivationOverlap lets them overlap.
 */
module Activation {
  import opened Options

  datatype Warning = InstanceUnavailable | ProvisioningFailed | OidcKeysConflict | ChartMissingEnvfrom

  datatype Auth = Auth(enabled: bool, provisioned: Option<bool>, warnings: seq<Warning>)

  /** What the search for OIDC_* variables the app defines itself finds. */
  datatype KeyCheck = NoKeys | Clash | CheckFailed

  /** How the outside world answers one activation. */
  datatype Answers = Answers(check: KeyCheck, binds: bool, provisionsDev: bool, provisionsProd: bool)

  datatype Event =
    | Activate(answers: Answers)        // the route POST /auth
    | CreateWith(answers: Answers)      // _provision_keycloak, never raising
    | CreateCrashes                     // _provision_keycloak, an unexpected error before activate's last commit
    | CreateCrashesLate(answers: Answers)   // the same after it, while the status is read
    | CheckChart(missing: bool)

  predicate IsActivationWarning(w: Warning) {
    w != ChartMissingEnvfrom
  }

  /** Keeps first occurrences, as dict.fromkeys does. */
  function Deduplicated(warnings: seq<Warning>): seq<Warning> {
    if warnings == [] then []
    else
      var rest := Deduplicated(warnings[..|warnings| - 1]);
      var last := warnings[|warnings| - 1];
      if last in rest then rest else rest + [last]
  }

  function WithoutActivationWarnings(warnings: seq<Warning>): seq<Warning> {
    if warnings == [] then []
    else (if IsActivationWarning(warnings[0]) then [] else [warnings[0]]) + WithoutActivationWarnings(warnings[1..])
  }

  function ActivationWarnings(warnings: seq<Warning>): seq<Warning> {
    if warnings == [] then []
    else (if IsActivationWarning(warnings[0]) then [warnings[0]] else []) + ActivationWarnings(warnings[1..])
  }

  predicate NoDuplicates(warnings: seq<Warning>) {
    forall i, j :: 0 <= i < j < |warnings| ==> warnings[i] != warnings[j]
  }

  /** The outcome invariant of every committed row. */
  predicate Coherent(a: Auth) {
    && NoDuplicates(a.warnings)
    && |ActivationWarnings(a.warnings)| == (if a.provisioned == Some(false) then 1 else 0)
    && (a.provisioned == Some(true) ==> a.enabled)
  }

  // ----- the two list helpers -----

  lemma {:induction false} DeduplicatedMeaning(warnings: seq<Warning>)
    ensures NoDuplicates(Deduplicated(warnings))
    ensures forall w :: w in Deduplicated(warnings) <==> w in warnings
  {
    if warnings != [] {
      DeduplicatedMeaning(warnings[..|warnings| - 1]);
      assert warnings == warnings[..|warnings| - 1] + [warnings[|warnings| - 1]];
    }
  }

  lemma {:induction false} DeduplicatedKeeps(warnings: seq<Warning>)
    requires NoDuplicates(warnings)
    ensures Deduplicated(warnings) == warnings
  {
    if warnings != [] {
      DeduplicatedKeeps(warnings[..|warnings| - 1]);
      assert warnings == warnings[..|warnings| - 1] + [warnings[|warnings| - 1]];
    }
  }

  /** Adding one warning: appended unless already there. */
  lemma AddOne(warnings: seq<Warning>, w: Warning)
    requires NoDuplicates(warnings)
    ensures Deduplicated(warnings + [w]) == if w in warnings then warnings else warnings + [w]
  {
    DeduplicatedKeeps(warnings);
    assert (warnings + [w])[..|warnings|] == warnings;
  }

  lemma KeptInFront(w: Warning, rest: seq<Warning>)
    ensures ActivationWarnings([w] + rest) == (if IsActivationWarning(w) then [w] else []) + ActivationWarnings(rest)
    ensures [] + rest == rest && ([w] + rest)[1..] == rest
  {
    assert ([w] + rest)[0] == w && ([w] + rest)[1..] == rest;
  }

  lemma {:induction false} ClearedHasNone(warnings: seq<Warning>)
    ensures ActivationWarnings(WithoutActivationWarnings(warnings)) == []
  {
    if warnings != [] {
      ClearedHasNone(warnings[1..]);
      KeptInFront(warnings[0], WithoutActivationWarnings(warnings[1..]));
    }
  }

  lemma {:induction false} ClearedMeaning(warnings: seq<Warning>)
    ensures forall w :: w in WithoutActivationWarnings(warnings) <==> w in warnings && !IsActivationWarning(w)
    ensures ActivationWarnings(WithoutActivationWarnings(warnings)) == []
    ensures NoDuplicates(warnings) ==> NoDuplicates(WithoutActivationWarnings(warnings))
  {
    ClearedHasNone(warnings);
    if warnings != [] {
      ClearedMeaning(warnings[1..]);
      assert warnings == [warnings[0]] + warnings[1..];
    }
  }

  lemma {:induction false} AppendedActivationWarnings(warnings: seq<Warning>, w: Warning)
    ensures ActivationWarnings(warnings + [w]) == ActivationWarnings(warnings) + (if IsActivationWarning(w) then [w] else [])
  {
    if warnings == [] {
      assert warnings + [w] == [w];
    } else {
      AppendedActivationWarnings(warnings[1..], w);
      assert (warnings + [w])[1..] == warnings[1..] + [w];
    }
  }

  // ----- the specification of each event on the committed row -----

  function Failed(a: Auth, w: Warning): Auth {
    a.(provisioned := Some(false), warnings := Deduplicated(WithoutActivationWarnings(a.warnings) + [w]))
  }

  /** activate: the row it commits and whether it raises instead. */
  function Activated(a: Auth, x: Answers): (Auth, bool) {
    if a.enabled && a.provisioned != Some(false) then (a, true)
    else if !a.enabled && x.check == Clash then
      (if a.provisioned == Some(false) then Failed(a, OidcKeysConflict) else a, true)
    else if (!a.enabled && x.check == CheckFailed) || !x.binds then (Failed(a, InstanceUnavailable), false)
    else if !x.provisionsDev || !x.provisionsProd then (Failed(a.(enabled := true), ProvisioningFailed), false)
    else (Auth(true, Some(true), WithoutActivationWarnings(a.warnings)), false)
  }

  function After(a: Auth, e: Event): Auth {
    match e
    case Activate(x) => Activated(a, x).0
    case CreateWith(x) =>
      var (b, raised) := Activated(a, x);
      if raised then Failed(b, OidcKeysConflict) else b
    case CreateCrashes => Failed(a, ProvisioningFailed)
    case CreateCrashesLate(x) =>
      var (b, raised) := Activated(a, x);
      Failed(b, if raised then OidcKeysConflict else ProvisioningFailed)
    case CheckChart(missing) => if missing then a.(warnings := Deduplicated(a.warnings + [ChartMissingEnvfrom])) else a
  }

  /** _provision_keycloak runs on an app just created, before any activation. */
  predicate Allowed(a: Auth, e: Event) {
    e.CreateWith? || e.CreateCrashes? || e.CreateCrashesLate? ==> !a.enabled
  }

  /** An unexpected error: before activate's last commit, with what it left in the session, or after it. */
  datatype Crash = NoCrash | Early(left: Auth) | Late

  function CreateEvent(x: Answers, crash: Crash): Event {
    match crash
    case NoCrash => CreateWith(x)
    case Early(_) => CreateCrashes
    case Late => CreateCrashesLate(x)
  }

  class Row {
    var enabled: bool
    var provisioned: Option<bool>
    var warnings: seq<Warning>
    var saved: Auth

    constructor ()
      ensures saved == Auth(false, None, []) && InSync()
    {
      enabled, provisioned, warnings := false, None, [];
      saved := Auth(false, None, []);
    }

    function State(): Auth
      reads this
    {
      Auth(enabled, provisioned, warnings)
    }

    predicate InSync()
      reads this
    {
      saved == State()
    }

    method Commit()
      modifies this`saved
      ensures saved == State()
    {
      saved := State();
    }

    method Rollback()
      modifies this`enabled, this`provisioned, this`warnings
      ensures InSync()
    {
      enabled, provisioned, warnings := saved.enabled, saved.provisioned, saved.warnings;
    }

    method AddAuthWarnings(more: seq<Warning>)
      modifies this`warnings
      ensures warnings == Deduplicated(old(warnings) + more)
    {
      warnings := Deduplicated(warnings + more);
    }

    method ClearActivationWarnings()
      modifies this`warnings
      ensures warnings == WithoutActivationWarnings(old(warnings))
    {
      warnings := WithoutActivationWarnings(warnings);
    }

    method MarkActivationFailed(w: Warning)
      modifies this
      ensures saved == Failed(old(State()), w) && InSync()
    {
      provisioned := Some(false);
      ClearActivationWarnings();
      AddAuthWarnings([w]);
      Commit();
    }

    method Activate(x: Answers) returns (raised: bool)
      requires InSync()
      modifies this
      ensures (saved, raised) == Activated(old(saved), x) && InSync()
    {
      if enabled && provisioned != Some(false) { return true; }
      if !enabled {
        if x.check == Clash {
          if provisioned == Some(false) { MarkActivationFailed(OidcKeysConflict); }
          return true;
        }
        if x.check == CheckFailed { MarkActivationFailed(InstanceUnavailable); return false; }
      }
      if !x.binds { MarkActivationFailed(InstanceUnavailable); return false; }
      enabled := true;
      if !x.provisionsDev || !x.provisionsProd { MarkActivationFailed(ProvisioningFailed); return false; }
      provisioned := Some(true);
      ClearActivationWarnings();
      Commit();
      raised := false;
    }

    /** _provision_keycloak; an early crash may have left anything uncommitted in the session. */
    method ProvisionKeycloak(x: Answers, crash: Crash)
      requires InSync() && !enabled
      modifies this
      ensures saved == After(old(saved), CreateEvent(x, crash)) && InSync()
    {
      if crash.Early? {
        enabled, provisioned, warnings := crash.left.enabled, crash.left.provisioned, crash.left.warnings;
        Rollback();
        MarkActivationFailed(ProvisioningFailed);
        return;
      }
      var raised := Activate(x);
      if raised {
        MarkActivationFailed(OidcKeysConflict);
      } else if crash.Late? {
        Rollback();
        MarkActivationFailed(ProvisioningFailed);
      }
    }

    method CheckEnvfromWarning(missing: bool)
      requires InSync()
      modifies this
      ensures saved == After(old(saved), CheckChart(missing)) && InSync()
    {
      if missing {
        AddAuthWarnings([ChartMissingEnvfrom]);
        Commit();
      }
    }
  }

  // ----- the invariant over every run -----

  lemma FailedIsCoherent(a: Auth, w: Warning)
    requires NoDuplicates(a.warnings) && IsActivationWarning(w)
    ensures Coherent(Failed(a, w))
    ensures forall v :: v in Failed(a, w).warnings <==> v == w || (v in a.warnings && !IsActivationWarning(v))
  {
    var cleared := WithoutActivationWarnings(a.warnings);
    ClearedMeaning(a.warnings);
    AddOne(cleared, w);
    AppendedActivationWarnings(cleared, w);
  }

  lemma ActivatedIsCoherent(a: Auth, x: Answers)
    requires Coherent(a)
    ensures Coherent(Activated(a, x).0)
    ensures ChartMissingEnvfrom in a.warnings ==> ChartMissingEnvfrom in Activated(a, x).0.warnings
  {
    ClearedMeaning(a.warnings);
    FailedIsCoherent(a, OidcKeysConflict);
    FailedIsCoherent(a, InstanceUnavailable);
    FailedIsCoherent(a.(enabled := true), ProvisioningFailed);
  }

  lemma EventKeepsCoherent(a: Auth, e: Event)
    requires Coherent(a) && Allowed(a, e)
    ensures Coherent(After(a, e))
    ensures ChartMissingEnvfrom in a.warnings ==> ChartMissingEnvfrom in After(a, e).warnings
  {
    match e
    case Activate(x) => ActivatedIsCoherent(a, x);
    case CreateWith(x) =>
      ActivatedIsCoherent(a, x);
      FailedIsCoherent(Activated(a, x).0, OidcKeysConflict);
    case CreateCrashes => FailedIsCoherent(a, ProvisioningFailed);
    case CreateCrashesLate(x) =>
      ActivatedIsCoherent(a, x);
      FailedIsCoherent(Activated(a, x).0, OidcKeysConflict);
      FailedIsCoherent(Activated(a, x).0, ProvisioningFailed);
    case CheckChart(_) =>
      AddOne(a.warnings, ChartMissingEnvfrom);
      AppendedActivationWarnings(a.warnings, ChartMissingEnvfrom);
  }

  ghost predicate IsRun(rows: seq<Auth>, events: seq<Event>) {
    && |rows| == |events| + 1
    && forall i :: 0 <= i < |events| ==> Allowed(rows[i], events[i]) && rows[i + 1] == After(rows[i], events[i])
  }

  /**
   In every committed row: auth_provisioned is False exactly when one activation warning is
   present (and never two), True only on an enabled app, and no warning is listed twice.
   */
  lemma {:induction false} CommittedRowsAreCoherent(rows: seq<Auth>, events: seq<Event>, i: nat)
    requires IsRun(rows, events) && i <= |events| && Coherent(rows[0])
    ensures Coherent(rows[i])
  {
    if i > 0 {
      CommittedRowsAreCoherent(rows, events, i - 1);
      EventKeepsCoherent(rows[i - 1], events[i - 1]);
    }
  }

  /** The chart warning, once recorded, survives every success, failure and retry. */
  lemma {:induction false} ChartWarningSurvives(rows: seq<Auth>, events: seq<Event>, i: nat, j: nat)
    requires IsRun(rows, events) && i <= j <= |events| && Coherent(rows[0])
    requires ChartMissingEnvfrom in rows[i].warnings
    ensures ChartMissingEnvfrom in rows[j].warnings
  {
    if i < j {
      ChartWarningSurvives(rows, events, i, j - 1);
      CommittedRowsAreCoherent(rows, events, j - 1);
      EventKeepsCoherent(rows[j - 1], events[j - 1]);
    }
  }

  /** The recorded reason is the last attempt's: a failure replaces an earlier one, a success clears it. */
  lemma LastAttemptGivesTheReason(a: Auth, x: Answers, w: Warning)
    requires Coherent(a) && !Activated(a, x).1 && IsActivationWarning(w)
    ensures w in Activated(a, x).0.warnings <==>
      (if (!a.enabled && x.check == CheckFailed) || !x.binds then w == InstanceUnavailable
       else if !(x.provisionsDev && x.provisionsProd) then w == ProvisioningFailed else false)
  {
    ClearedMeaning(a.warnings);
    FailedIsCoherent(a, InstanceUnavailable);
    FailedIsCoherent(a.(enabled := true), ProvisioningFailed);
  }

  // ----- the outcome, in plain terms -----

  /** The chart warning if there is one, then the reason of the last failure. */
  function Listed(a: Auth, reasons: seq<Warning>): seq<Warning> {
    (if ChartMissingEnvfrom in a.warnings then [ChartMissingEnvfrom] else []) + reasons
  }

  lemma {:induction false} ClearedIsChart(warnings: seq<Warning>)
    requires NoDuplicates(warnings)
    ensures WithoutActivationWarnings(warnings) == if ChartMissingEnvfrom in warnings then [ChartMissingEnvfrom] else []
  {
    if warnings != [] {
      assert warnings == [warnings[0]] + warnings[1..];
      assert warnings[0] !in warnings[1..];
      ClearedIsChart(warnings[1..]);
    }
  }

  lemma FailedMeaning(a: Auth, w: Warning)
    requires NoDuplicates(a.warnings) && IsActivationWarning(w)
    ensures Failed(a, w) == Auth(a.enabled, Some(false), Listed(a, [w]))
  {
    ClearedIsChart(a.warnings);
    AddOne(WithoutActivationWarnings(a.warnings), w);
  }

  /**
   What an activation leaves, for every app and every answer: refused and untouched if the app is
   on and not failed; refused for its own OIDC_* variables, which become the reason of an earlier
   failure; failed before the app is on if the variables cannot be read or no instance bound;
   failed with the app on if a realm was not provisioned; else on and provisioned.
   */
  predicate IsOutcome(a: Auth, x: Answers, now: Auth, raised: bool) {
    if a.enabled && a.provisioned != Some(false) then raised && now == a
    else if !a.enabled && x.check == Clash then
      raised && now == (if a.provisioned == Some(false) then Auth(false, Some(false), Listed(a, [OidcKeysConflict])) else a)
    else if (!a.enabled && x.check == CheckFailed) || !x.binds then
      !raised && now == Auth(a.enabled, Some(false), Listed(a, [InstanceUnavailable]))
    else if !x.provisionsDev || !x.provisionsProd then
      !raised && now == Auth(true, Some(false), Listed(a, [ProvisioningFailed]))
    else !raised && now == Auth(true, Some(true), Listed(a, []))
  }

  lemma ActivationOutcome(a: Auth, x: Answers)
    requires NoDuplicates(a.warnings)
    ensures IsOutcome(a, x, Activated(a, x).0, Activated(a, x).1)
  {
    ClearedIsChart(a.warnings);
    if a.enabled && a.provisioned != Some(false) {
    } else if !a.enabled && x.check == Clash {
      FailedMeaning(a, OidcKeysConflict);
    } else if (!a.enabled && x.check == CheckFailed) || !x.binds {
      FailedMeaning(a, InstanceUnavailable);
    } else {
      FailedMeaning(a.(enabled := true), ProvisioningFailed);
    }
  }

  /**
   What creating an app with authentication leaves, whatever crashes: on and provisioned if every
   answer is good and nothing crashes; on and failed if provisioning was reached; else off and
   failed, for the reason found.
   */
  predicate IsCreated(a: Auth, x: Answers, crash: Crash, now: Auth) {
    now ==
      if crash.Early? then Auth(false, Some(false), Listed(a, [ProvisioningFailed]))
      else if x.check == Clash then Auth(false, Some(false), Listed(a, [OidcKeysConflict]))
      else if crash.Late? then Auth(x.check == NoKeys && x.binds, Some(false), Listed(a, [ProvisioningFailed]))
      else if x.check == CheckFailed || !x.binds then Auth(false, Some(false), Listed(a, [InstanceUnavailable]))
      else if !x.provisionsDev || !x.provisionsProd then Auth(true, Some(false), Listed(a, [ProvisioningFailed]))
      else Auth(true, Some(true), Listed(a, []))
  }

  lemma CreationOutcome(a: Auth, x: Answers, crash: Crash)
    requires NoDuplicates(a.warnings) && !a.enabled
    ensures IsCreated(a, x, crash, After(a, CreateEvent(x, crash)))
  {
    if crash.Early? {
      FailedMeaning(a, ProvisioningFailed);
    } else {
      var b, raised := Activated(a, x).0, Activated(a, x).1;
      ActivationOutcome(a, x);
      OutcomeKeepsChart(a, x, b, raised);
      if raised {
        FailedAgain(a, b, OidcKeysConflict);
      } else if crash.Late? {
        FailedAgain(a, b, ProvisioningFailed);
      }
    }
  }

  lemma OutcomeKeepsChart(a: Auth, x: Answers, now: Auth, raised: bool)
    requires NoDuplicates(a.warnings) && IsOutcome(a, x, now, raised)
    ensures NoDuplicates(now.warnings) && (ChartMissingEnvfrom in now.warnings <==> ChartMissingEnvfrom in a.warnings)
  {
  }

  /** A failure recorded over another outcome of the same attempt. */
  lemma FailedAgain(a: Auth, b: Auth, w: Warning)
    requires NoDuplicates(b.warnings) && IsActivationWarning(w) && (ChartMissingEnvfrom in b.warnings <==> ChartMissingEnvfrom in a.warnings)
    ensures Failed(b, w) == Auth(b.enabled, Some(false), Listed(a, [w]))
  {
    FailedMeaning(b, w);
  }

  /** The chart check adds its warning at the end, once, and touches nothing else. */
  lemma ChartCheckOutcome(a: Auth, missing: bool)
    requires NoDuplicates(a.warnings)
    ensures var now := After(a, CheckChart(missing));
      && now.enabled == a.enabled && now.provisioned == a.provisioned
      && now.warnings == if missing && ChartMissingEnvfrom !in a.warnings then a.warnings + [ChartMissingEnvfrom] else a.warnings
  {
    AddOne(a.warnings, ChartMissingEnvfrom);
  }
}
