/**
 Keycloak console accounts over time: who holds one, and which changes take it away
 (backend/services/keycloak_service.py, backend/services/app_service.py add_member,
 backend/api/routes/users.py).

 An account stands for a user of an app's owned realm that carries the app's `cnp_user_id`
 attribute. A revocation may fail on some realms, and a sync hands over a project's lost
 maintainers for one of its apps only; the accounts that should have gone and are still there
 are recorded as owed until they are deleted, or granted anew to someone entitled. A sync that
 fails at its commit changes nothing.
 */
module ConsoleAccess {
  import opened Options
  import opened Tiers
  import opened GitLabSync
  import opened SyncLaws

  datatype Env = Dev | Prod

  datatype User = User(active: bool, admin: bool)

  datatype Account = Account(app: int, env: Env, user: int)

  datatype World = World(
    users: map<int, User>,
    links: map<int, int>,
    apps: map<int, App>,
    rows: Table,
    accounts: set<Account>,
    owed: set<Account>)

  /** One committed change; `down` are the realms that cannot be reached while it revokes. */
  datatype Step =
    | Grant(app: int, env: Env, user: int)
    | Sync(gl: GitLab, order: seq<int>, down: set<(int, Env)>)
    | AddMember(app: int, gitlabId: int, level: int, down: set<(int, Env)>)
    | Invite(projectId: int, email: string, level: int)
    | UpdateUser(user: int, admin: Option<bool>, active: Option<bool>, down: set<(int, Env)>)
    | LinkUser(gitlabId: int, user: int)
    | CreateUser(user: int, asAdmin: bool)
    | CreateApp(app: int, project: Option<int>, owningGroup: Option<int>)
    | EnableAuth(app: int)

  predicate MayHaveConsole(w: World, app: int, user: int) {
    && user in w.users && w.users[user].active
    && app in w.apps && w.apps[app].authEnabled
  }

  /** The account belongs to an active user who is admin or Maintainer and above on the app. */
  ghost predicate Justified(w: World, acc: Account) {
    && MayHaveConsole(w, acc.app, acc.user)
    && (w.users[acc.user].admin || MaintainsApp(w.rows, w.apps[acc.app], acc.user))
  }

  function Reachable(acc: Account, down: set<(int, Env)>): bool {
    (acc.app, acc.env) !in down
  }

  // ----- which accounts each change is to delete -----

  /** revoke_console_access_if_not_maintainer on one of `pairs`: rows and apps as committed. */
  ghost predicate DueForPairs(rows: Table, apps: map<int, App>, pairs: set<(int, int)>, acc: Account) {
    && (acc.app, acc.user) in pairs
    && acc.app in apps && apps[acc.app].authEnabled
    && !MaintainsApp(rows, apps[acc.app], acc.user)
  }

  /** A sync that fails at its commit revokes nothing. */
  ghost predicate DueForRun(rows: Table, before: World, gl: GitLab, order: seq<int>, acc: Account) {
    && !SharedNewcomer(before.rows, before.apps, gl, order)
    && acc.app in before.apps
    && RunHandsOver(before.rows, before.links, before.apps, gl, order, acc.app, acc.user)
    && !MaintainsApp(rows, before.apps[acc.app], acc.user)
  }

  /** The user was reported on the app and is below Maintainer, but another app of the project was handed over in its place. */
  ghost predicate OverlookedByRun(rows: Table, before: World, gl: GitLab, order: seq<int>, acc: Account) {
    && !SharedNewcomer(before.rows, before.apps, gl, order)
    && acc.app in before.apps
    && RunReportsPair(before.rows, before.links, before.apps, gl, acc.app, acc.user)
    && !RunHandsOver(before.rows, before.links, before.apps, gl, order, acc.app, acc.user)
    && !MaintainsApp(rows, before.apps[acc.app], acc.user)
  }

  ghost predicate DueForMember(rows: Table, before: World, app: int, id: RowId, level: int, acc: Account) {
    && id in before.rows && LosesConsoleTier(before.rows[id], Some(level))
    && id in rows && rows[id].cnpUser.Some?
    && DueForPairs(rows, before.apps, {(app, rows[id].cnpUser.value)}, acc)
  }

  /** The same for add_member: it re-checks the account on the app it was called for only. */
  ghost predicate OverlookedByMember(rows: Table, before: World, app: int, id: RowId, level: int, acc: Account) {
    && acc.app != app && SharesProject(before.apps, acc.app, app) && before.apps[acc.app].authEnabled
    && id in before.rows && LosesConsoleTier(before.rows[id], Some(level))
    && id in rows && rows[id].cnpUser == Some(acc.user)
    && !MaintainsApp(rows, before.apps[acc.app], acc.user)
  }

  predicate Deactivates(before: User, active: Option<bool>) {
    active == Some(false) && before.active
  }

  predicate Demotes(before: User, admin: Option<bool>) {
    admin == Some(false) && before.admin
  }

  ghost predicate DueForUser(before: World, user: int, admin: Option<bool>, active: Option<bool>, acc: Account) {
    && user in before.users && acc.user == user
    && acc.app in before.apps && before.apps[acc.app].authEnabled
    && (|| Deactivates(before.users[user], active)
        || (Demotes(before.users[user], admin) && !MaintainsApp(before.rows, before.apps[acc.app], user)))
  }

  ghost predicate Due(before: World, step: Step, after: World, acc: Account) {
    match step
    case Sync(gl, order, _) => DueForRun(after.rows, before, gl, order, acc)
    case AddMember(app, g, level, _) =>
      && app in before.apps && before.apps[app].project.Some?
      && DueForMember(after.rows, before, app, RowId(Project(before.apps[app].project.value), ByGitLabId(g)), level, acc)
    case UpdateUser(user, admin, active, _) => DueForUser(before, user, admin, active, acc)
    case _ => false
  }

  function Down(step: Step): set<(int, Env)> {
    match step
    case Sync(_, _, down) => down
    case AddMember(_, _, _, down) => down
    case UpdateUser(_, _, _, down) => down
    case _ => {}
  }

  // ----- the steps -----

  function UpdatedUser(user: User, admin: Option<bool>, active: Option<bool>): User {
    User(active.GetOr(user.active), admin.GetOr(user.admin))
  }

  function AddedMemberRow(w: World, id: RowId, gitlabId: int, level: int): Row {
    var link := Lookup(w.links, gitlabId);
    Row(level, if link.Some? || id !in w.rows then link else w.rows[id].cnpUser, Active)
  }

  /** What each step does to everything but the accounts. */
  ghost predicate DataStep(before: World, step: Step, after: World) {
    match step
    case Grant(app, env, user) =>
      && Justified(before, Account(app, env, user))
      && after.users == before.users && after.links == before.links && after.apps == before.apps && after.rows == before.rows
    case Sync(gl, order, _) =>
      && SyncStep(before.rows, after.rows, before.links, before.apps, gl, order)
      && after.users == before.users && after.links == before.links && after.apps == before.apps
    case AddMember(app, g, level, _) =>
      && app in before.apps && before.apps[app].project.Some?
      && var id := RowId(Project(before.apps[app].project.value), ByGitLabId(g));
      && after.rows == before.rows[id := AddedMemberRow(before, id, g, level)]
      && after.users == before.users && after.links == before.links && after.apps == before.apps
    case Invite(project, email, level) =>
      var id := RowId(Project(project), ByEmail(email));
      && after.rows == before.rows[id := Row(level, if id in before.rows then before.rows[id].cnpUser else None, PendingInvite)]
      && after.users == before.users && after.links == before.links && after.apps == before.apps
    case UpdateUser(user, admin, active, _) =>
      && user in before.users
      && after.users == before.users[user := UpdatedUser(before.users[user], admin, active)]
      && after.links == before.links && after.apps == before.apps && after.rows == before.rows
    case LinkUser(g, user) =>
      && g !in before.links
      && (forall id :: id in before.rows && id.key == ByGitLabId(g) && before.rows[id].cnpUser.Some? ==> before.rows[id].cnpUser == Some(user))
      && after.links == before.links[g := user]
      && after.users == before.users && after.apps == before.apps && after.rows == before.rows
    case CreateUser(user, admin) =>
      && user !in before.users && after.users == before.users[user := User(true, admin)]
      && after.links == before.links && after.apps == before.apps && after.rows == before.rows
    case CreateApp(app, project, group) =>
      && app !in before.apps
      && after.apps == before.apps[app := App(project, group, false)]
      && after.users == before.users && after.links == before.links && after.rows == before.rows
    case EnableAuth(app) =>
      && app in before.apps && after.apps == before.apps[app := before.apps[app].(authEnabled := true)]
      && after.users == before.users && after.links == before.links && after.rows == before.rows
  }

  ghost predicate IsGrantOf(step: Step, acc: Account) {
    step.Grant? && acc == Account(step.app, step.env, step.user)
  }

  /** The account is taken to belong to another app of its project. */
  ghost predicate Overlooked(before: World, step: Step, after: World, acc: Account) {
    match step
    case Sync(gl, order, _) => OverlookedByRun(after.rows, before, gl, order, acc)
    case AddMember(app, g, level, _) =>
      && app in before.apps && before.apps[app].project.Some?
      && OverlookedByMember(after.rows, before, app, RowId(Project(before.apps[app].project.value), ByGitLabId(g)), level, acc)
    case _ => false
  }

  /** An account that should go and stays. */
  ghost predicate LeftBehind(before: World, step: Step, after: World, acc: Account) {
    && acc in before.accounts
    && (|| (Due(before, step, after, acc) && !Reachable(acc, Down(step)))
        || Overlooked(before, step, after, acc))
  }

  ghost predicate AccountStep(before: World, step: Step, after: World) {
    && (forall acc :: acc in after.accounts <==>
          IsGrantOf(step, acc) || (acc in before.accounts && !(Due(before, step, after, acc) && Reachable(acc, Down(step)))))
    && (forall acc :: acc in after.owed <==>
          acc in after.accounts && !IsGrantOf(step, acc) && (acc in before.owed || LeftBehind(before, step, after, acc)))
  }

  ghost predicate Next(before: World, step: Step, after: World) {
    DataStep(before, step, after) && AccountStep(before, step, after)
  }

  ghost predicate Inv(w: World) {
    && RowsWellFormed(w.rows) && LinksStable(w.rows, w.links) && w.owed <= w.accounts
    && (forall acc :: acc in w.accounts ==> acc.app in w.apps && w.apps[acc.app].authEnabled && acc.user in w.users)
    && (forall acc :: acc in w.accounts ==> Justified(w, acc) || acc in w.owed)
  }

  // ----- the invariant, step by step -----

  lemma GrantsElsewhereStay(before: Table, after: Table, app: App, user: int, changed: RowId)
    requires forall id :: id != changed ==> Lookup(after, id) == Lookup(before, id)
    requires MaintainsApp(before, app, user)
    requires !GrantsConsole(before, changed, app, user) || GrantsConsole(after, changed, app, user)
    ensures MaintainsApp(after, app, user)
  {
    var id :| GrantsConsole(before, id, app, user);
    if id != changed {
      assert Lookup(after, id) == Lookup(before, id);
      assert GrantsConsole(after, id, app, user);
    }
  }

  lemma SyncKeepsJustified(before: World, step: Step, after: World, acc: Account)
    requires Inv(before) && Next(before, step, after) && step.Sync?
    requires acc in after.accounts && Justified(before, acc)
    ensures Justified(after, acc) || acc in after.owed
  {
    var app := before.apps[acc.app];
    if !before.users[acc.user].admin && !MaintainsApp(after.rows, app, acc.user) {
      assert !SharedNewcomer(before.rows, before.apps, step.gl, step.order);
      LostTierIsReported(before.rows, after.rows, before.links, before.apps, step.gl, acc.app, acc.user);
      assert Due(before, step, after, acc) || OverlookedByRun(after.rows, before, step.gl, step.order, acc);
    }
  }

  lemma AddMemberKeepsJustified(before: World, step: Step, after: World, acc: Account)
    requires Inv(before) && Next(before, step, after) && step.AddMember?
    requires acc in after.accounts && Justified(before, acc)
    ensures Justified(after, acc) || acc in after.owed
  {
    var app := before.apps[acc.app];
    var id := RowId(Project(before.apps[step.app].project.value), ByGitLabId(step.gitlabId));
    if MaintainsApp(before.rows, app, acc.user) && !MaintainsApp(after.rows, app, acc.user) {
      if !GrantsConsole(before.rows, id, app, acc.user) || GrantsConsole(after.rows, id, app, acc.user) {
        GrantsElsewhereStay(before.rows, after.rows, app, acc.user, id);
      }
      assert SharesProject(before.apps, acc.app, step.app);
      assert after.rows[id].cnpUser == Some(acc.user) by {
        assert Lookup(before.links, step.gitlabId).Some? ==> before.links[step.gitlabId] == acc.user;
      }
      assert Due(before, step, after, acc) || Overlooked(before, step, after, acc);
    }
  }

  lemma OtherStepKeepsJustified(before: World, step: Step, after: World, acc: Account)
    requires Inv(before) && Next(before, step, after) && !step.Sync? && !step.AddMember?
    requires acc in after.accounts && acc in before.accounts && Justified(before, acc)
    ensures Justified(after, acc) || acc in after.owed
  {
    if MaintainsApp(before.rows, before.apps[acc.app], acc.user) {
      match step
      case Invite(project, email, level) =>
        GrantsElsewhereStay(before.rows, after.rows, before.apps[acc.app], acc.user, RowId(Project(project), ByEmail(email)));
      case EnableAuth(app) =>
        var id :| GrantsConsole(before.rows, id, before.apps[acc.app], acc.user);
        assert GrantsConsole(after.rows, id, after.apps[acc.app], acc.user);
      case _ =>
    }
    if step.UpdateUser? && acc.user == step.user && !Justified(after, acc) {
      assert Due(before, step, after, acc);
    }
  }

  lemma StepKeepsTables(before: World, step: Step, after: World)
    requires Inv(before) && Next(before, step, after)
    ensures RowsWellFormed(after.rows) && LinksStable(after.rows, after.links) && after.owed <= after.accounts
  {
    if step.Sync? && !SharedNewcomer(before.rows, before.apps, step.gl, step.order) {
      RunKeepsRowsWellFormed(before.rows, after.rows, before.links, step.gl);
      RunKeepsLinksStable(before.rows, after.rows, before.links, step.gl);
    }
  }

  /** Every step keeps the invariant, whatever realms are down while it revokes. */
  lemma StepKeepsInv(before: World, step: Step, after: World)
    requires Inv(before) && Next(before, step, after)
    ensures Inv(after)
  {
    StepKeepsTables(before, step, after);
    forall acc | acc in after.accounts ensures Justified(after, acc) || acc in after.owed {
      if acc !in before.accounts {
        assert IsGrantOf(step, acc) && Justified(before, acc) && Justified(after, acc);
      } else if IsGrantOf(step, acc) {
        assert Justified(before, acc) && Justified(after, acc);
      } else if acc in before.owed {
      } else if step.Sync? {
        SyncKeepsJustified(before, step, after, acc);
      } else if step.AddMember? {
        AddMemberKeepsJustified(before, step, after, acc);
      } else {
        OtherStepKeepsJustified(before, step, after, acc);
      }
    }
  }

  // ----- runs -----

  ghost predicate IsRun(worlds: seq<World>, steps: seq<Step>) {
    && |worlds| == |steps| + 1
    && forall i :: 0 <= i < |steps| ==> Next(worlds[i], steps[i], worlds[i + 1])
  }

  lemma {:induction false} RunKeepsInv(worlds: seq<World>, steps: seq<Step>, i: nat)
    requires IsRun(worlds, steps) && Inv(worlds[0]) && i <= |steps|
    ensures Inv(worlds[i])
  {
    if i > 0 {
      RunKeepsInv(worlds, steps, i - 1);
      StepKeepsInv(worlds[i - 1], steps[i - 1], worlds[i]);
    }
  }

  /** Every revocation of the step reaches its realms, and it is not for one app of a shared project only. */
  ghost predicate Thorough(w: World, step: Step) {
    && Down(step) == {}
    && (step.Sync? ==> AllFirst(w.apps, step.gl, step.order))
    && (step.AddMember? ==> forall b :: SharesProject(w.apps, b, step.app) ==> b == step.app)
  }

  ghost predicate AllFirst(apps: map<int, App>, gl: GitLab, order: seq<int>) {
    forall a :: a in apps && apps[a].project.Some? && apps[a].project.value in gl.projectMembers ==> IsFirst(apps, order, a)
  }

  lemma FirstIsHandedOver(w: World, step: Step, scope: Scope, acc: Account)
    requires step.Sync? && Thorough(w, step) && FetchedMembers(step.gl, scope).Some?
    requires ReportsPair(w.rows, w.links, w.apps, scope, FetchedMembers(step.gl, scope).value, acc.app, acc.user)
    ensures RunHandsOver(w.rows, w.links, w.apps, step.gl, step.order, acc.app, acc.user)
  {
    assert scope.Project? ==> IsFirst(w.apps, step.order, acc.app);
  }

  lemma ThoroughStepsMissNobody(before: World, step: Step, after: World, acc: Account)
    requires Next(before, step, after) && Thorough(before, step)
    ensures !LeftBehind(before, step, after, acc)
  {
    if step.Sync? && OverlookedByRun(after.rows, before, step.gl, step.order, acc) {
      var gl := step.gl;
      var scope :| FetchedMembers(gl, scope).Some?
                   && ReportsPair(before.rows, before.links, before.apps, scope, FetchedMembers(gl, scope).value, acc.app, acc.user);
      FirstIsHandedOver(before, step, scope, acc);
      assert false;
    }
  }

  lemma {:induction false} NothingOwed(worlds: seq<World>, steps: seq<Step>, i: nat)
    requires IsRun(worlds, steps) && i <= |steps|
    requires worlds[0].owed == {} && forall k :: 0 <= k < |steps| ==> Thorough(worlds[k], steps[k])
    ensures worlds[i].owed == {}
  {
    if i > 0 {
      NothingOwed(worlds, steps, i - 1);
      assert Next(worlds[i - 1], steps[i - 1], worlds[i]);
      forall acc ensures acc !in worlds[i].owed {
        ThoroughStepsMissNobody(worlds[i - 1], steps[i - 1], worlds[i], acc);
      }
    }
  }

  /**
   Console safety over every run: an account that is not justified is owed, so a revocation due
   since its last grant could not reach its realm or was left to another app of the project.
   */
  lemma UnjustifiedAccountsAreOwed(worlds: seq<World>, steps: seq<Step>, i: nat)
    requires IsRun(worlds, steps) && Inv(worlds[0]) && i <= |steps|
    ensures forall acc :: acc in worlds[i].accounts && !Justified(worlds[i], acc) ==> acc in worlds[i].owed
    ensures worlds[i].owed <= worlds[i].accounts
  {
    RunKeepsInv(worlds, steps, i);
  }

  /** What is owed was missed by a step of the run, and neither deleted nor granted anew since. */
  lemma {:induction false} OwedWasLeftBehind(worlds: seq<World>, steps: seq<Step>, i: nat, acc: Account)
    requires IsRun(worlds, steps) && worlds[0].owed == {} && i <= |steps|
    requires acc in worlds[i].owed
    ensures exists k: nat :: LeftBehindAt(worlds, steps, k, acc) && k < i && StaysSince(worlds, steps, k, i, acc)
  {
    assert i > 0 && Next(worlds[i - 1], steps[i - 1], worlds[i]);
    if LeftBehind(worlds[i - 1], steps[i - 1], worlds[i], acc) {
      assert LeftBehindAt(worlds, steps, i - 1, acc) && StaysSince(worlds, steps, i - 1, i, acc);
    } else {
      OwedWasLeftBehind(worlds, steps, i - 1, acc);
      var k: nat :| LeftBehindAt(worlds, steps, k, acc) && k < i - 1 && StaysSince(worlds, steps, k, i - 1, acc);
      OneStepLonger(worlds, steps, k, i, acc);
    }
  }

  lemma OneStepLonger(worlds: seq<World>, steps: seq<Step>, k: nat, i: nat, acc: Account)
    requires IsRun(worlds, steps) && 0 < i <= |steps| && StaysSince(worlds, steps, k, i - 1, acc)
    requires acc in worlds[i].accounts && !IsGrantOf(steps[i - 1], acc)
    ensures StaysSince(worlds, steps, k, i, acc)
  {
  }

  ghost predicate LeftBehindAt(worlds: seq<World>, steps: seq<Step>, k: nat, acc: Account)
    requires IsRun(worlds, steps)
  {
    k < |steps| && LeftBehind(worlds[k], steps[k], worlds[k + 1], acc)
  }

  /** After step k and up to state i the account was always there, and no step granted it. */
  ghost predicate StaysSince(worlds: seq<World>, steps: seq<Step>, k: nat, i: nat, acc: Account)
    requires IsRun(worlds, steps) && i <= |steps|
  {
    && (forall j :: k < j <= i ==> acc in worlds[j].accounts)
    && (forall j :: k < j < i ==> !IsGrantOf(steps[j], acc))
  }

  /** When every step was thorough, every console account is justified at every point. */
  lemma AccountsAreJustified(worlds: seq<World>, steps: seq<Step>, i: nat)
    requires IsRun(worlds, steps) && Inv(worlds[0]) && i <= |steps|
    requires worlds[0].owed == {} && forall k :: 0 <= k < |steps| ==> Thorough(worlds[k], steps[k])
    ensures forall acc :: acc in worlds[i].accounts ==> Justified(worlds[i], acc)
  {
    RunKeepsInv(worlds, steps, i);
    NothingOwed(worlds, steps, i);
  }

  /** A sync visits every project once when no two apps share one. */
  lemma DistinctProjectsAreAllFirst(apps: map<int, App>, gl: GitLab, order: seq<int>)
    requires NoRepeats(order) && DistinctProjects(apps) && FetchesOnly(apps, order, gl)
    ensures AllFirst(apps, gl, order)
  {
    forall a | a in apps && apps[a].project.Some? && apps[a].project.value in gl.projectMembers ensures IsFirst(apps, order, a) {
      var p := apps[a].project.value;
      var i :| 0 <= i < |order| && order[i] in apps && apps[order[i]].project == Some(p);
      assert order[i] == a;
      forall j | 0 <= j < i ensures !SharesProject(apps, order[..i][j], a) {
        assert order[j] != order[i];
      }
      assert NoneShares(apps, order[..i], a);
    }
  }

  /** Precision: a sync takes an account only from a user who is below Maintainer on that app after it. */
  lemma SyncSparesMaintainers(before: World, step: Step, after: World, acc: Account)
    requires Next(before, step, after) && step.Sync?
    requires acc in before.accounts && acc !in after.accounts
    ensures acc.app in after.apps && !MaintainsApp(after.rows, after.apps[acc.app], acc.user)
    ensures exists id :: id in before.rows && InAppScope(id.scope, before.apps[acc.app])
                         && LevelGrantsConsole(Some(before.rows[id].accessLevel))
                         && !GrantsConsole(after.rows, id, before.apps[acc.app], acc.user)
  {
    HandedOverIsReported(before.rows, before.links, before.apps, step.gl, step.order, acc.app, acc.user);
    ReportedPairLostARow(before.rows, after.rows, before.links, before.apps, step.gl, acc.app, acc.user);
  }
}
