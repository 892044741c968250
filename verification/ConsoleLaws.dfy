/** What each change does to the console accounts: when one becomes unjustified, and which are taken. */
module ConsoleLaws {
  import opened Options
  import opened Tiers
  import opened GitLabSync
  import opened SyncLaws
  import opened ConsoleAccess

  // ----- when an account becomes unjustified -----

  predicate IsActiveAdmin(w: World, user: int) {
    user in w.users && w.users[user].active && w.users[user].admin
  }

  /**
   The exact condition, for every step: a justified account that owes nothing stays without being
   justified if and only if the step leaves it behind and its user is no active admin.
   */
  lemma BecomesUnjustifiedIff(before: World, step: Step, after: World, acc: Account)
    requires Inv(before) && Next(before, step, after)
    requires acc in before.accounts && acc !in before.owed && Justified(before, acc)
    ensures acc in after.accounts && !Justified(after, acc) <==>
            LeftBehind(before, step, after, acc) && !IsActiveAdmin(after, acc.user)
  {
    StepKeepsInv(before, step, after);
    if LeftBehind(before, step, after, acc) {
      assert acc in after.accounts;
      match step
      case Sync(_, _, _) => assert !MaintainsApp(after.rows, after.apps[acc.app], acc.user);
      case AddMember(_, _, _, _) => assert !MaintainsApp(after.rows, after.apps[acc.app], acc.user);
      case UpdateUser(_, _, _, _) =>
      case _ =>
    }
  }

  /** Nothing but row `id` gives the user Maintainer on the app. */
  ghost predicate HeldByRowAlone(rows: Table, id: RowId, app: App, user: int) {
    forall other :: GrantsConsole(rows, other, app, user) ==> other == id
  }

  /**
   add_member with every realm up: an account of somebody who is no admin becomes unjustified if
   and only if it is on another app of the project, and the row set below Maintainer is all that
   gave its user Maintainer there.
   */
  lemma AddMemberLeavesUnjustifiedIff(before: World, step: Step, after: World, acc: Account)
    requires Inv(before) && Next(before, step, after) && step.AddMember? && step.down == {}
    requires acc in before.accounts && acc !in before.owed && Justified(before, acc)
    ensures acc in after.accounts && !Justified(after, acc) <==>
            && !before.users[acc.user].admin && acc.app != step.app
            && !LevelGrantsConsole(Some(step.level))
            && HeldByRowAlone(before.rows, RowId(Project(before.apps[step.app].project.value), ByGitLabId(step.gitlabId)),
                              before.apps[acc.app], acc.user)
  {
    BecomesUnjustifiedIff(before, step, after, acc);
    if !before.users[acc.user].admin {
      var app := before.apps[acc.app];
      var id := RowId(Project(before.apps[step.app].project.value), ByGitLabId(step.gitlabId));
      LosesTheRow(before, step, after, id, acc);
      if HeldByRowAlone(before.rows, id, app, acc.user) && !LevelGrantsConsole(Some(step.level)) {
        assert GrantsConsole(before.rows, id, app, acc.user);
        assert after.rows[id].cnpUser == Some(acc.user) by {
          assert Lookup(before.links, step.gitlabId).Some? ==> before.links[step.gitlabId] == acc.user;
        }
      }
    }
  }

  /** Rewriting one row below Maintainer ends the tier exactly where that row was all there was. */
  lemma LosesTheRow(before: World, step: Step, after: World, id: RowId, acc: Account)
    requires Inv(before) && Next(before, step, after) && step.AddMember?
    requires id == RowId(Project(before.apps[step.app].project.value), ByGitLabId(step.gitlabId))
    requires acc.app in before.apps && MaintainsApp(before.rows, before.apps[acc.app], acc.user)
    ensures !MaintainsApp(after.rows, before.apps[acc.app], acc.user) <==>
            && !LevelGrantsConsole(Some(step.level))
            && HeldByRowAlone(before.rows, id, before.apps[acc.app], acc.user)
  {
    var app := before.apps[acc.app];
    var granting :| GrantsConsole(before.rows, granting, app, acc.user);
    forall other | other != id ensures GrantsConsole(after.rows, other, app, acc.user) == GrantsConsole(before.rows, other, app, acc.user) {
      assert Lookup(after.rows, other) == Lookup(before.rows, other);
    }
    if LevelGrantsConsole(Some(step.level)) && granting == id {
      assert Lookup(before.links, step.gitlabId).Some? ==> before.links[step.gitlabId] == acc.user;
      assert GrantsConsole(after.rows, id, app, acc.user);
    }
  }

  /**
   A sync with every realm up: an account of somebody who is no admin becomes unjustified if and
   only if its user falls below Maintainer on the app, the app is not the first one visited with its
   project, and no fetched owning group reports the user.
   */
  lemma SyncLeavesUnjustifiedIff(before: World, step: Step, after: World, acc: Account)
    requires Inv(before) && Next(before, step, after) && step.Sync? && step.down == {}
    requires acc in before.accounts && acc !in before.owed && Justified(before, acc)
    ensures acc in after.accounts && !Justified(after, acc) <==>
            && !before.users[acc.user].admin
            && !MaintainsApp(after.rows, before.apps[acc.app], acc.user)
            && !IsFirst(before.apps, step.order, acc.app)
            && !GroupReports(before.rows, before.links, before.apps, step.gl, acc.app, acc.user)
  {
    BecomesUnjustifiedIff(before, step, after, acc);
    if !before.users[acc.user].admin && !MaintainsApp(after.rows, before.apps[acc.app], acc.user) {
      assert !SharedNewcomer(before.rows, before.apps, step.gl, step.order);
      LostTierIsReported(before.rows, after.rows, before.links, before.apps, step.gl, acc.app, acc.user);
      LostTierIsHandedOverIffFirst(before.rows, after.rows, before.links, before.apps, step.gl, step.order, acc.app, acc.user);
    }
  }

  // ----- add_member leaves an account: a reachable case -----

  const NOTHING := World(map[], map[], map[], map[], {}, {})

  /** Two apps with authentication on, on project p, and user u with GitLab id g. */
  function TwoApps(u: int, g: int, p: int, a: int, b: int): World {
    NOTHING.(users := map[u := User(true, false)], links := map[g := u],
             apps := map[a := App(Some(p), None, true), b := App(Some(p), None, true)])
  }

  /** The same with u at `level` in the project. */
  function WithMember(u: int, g: int, p: int, a: int, b: int, level: int, accounts: set<Account>, owed: set<Account>): World {
    TwoApps(u, g, p, a, b).(rows := map[RowId(Project(p), ByGitLabId(g)) := Row(level, Some(u), Active)],
                            accounts := accounts, owed := owed)
  }

  /** A step other than a grant, while there are no accounts. */
  lemma NoAccountsYet(before: World, step: Step, after: World)
    requires DataStep(before, step, after) && !step.Grant?
    requires before.accounts == after.accounts == before.owed == after.owed == {}
    ensures Next(before, step, after)
  {
  }

  lemma TwoAppsAreReachable(u: int, g: int, p: int, a: int, b: int) returns (worlds: seq<World>, steps: seq<Step>)
    requires a != b
    ensures IsRun(worlds, steps) && worlds[0] == NOTHING && worlds[|steps|] == TwoApps(u, g, p, a, b)
    ensures forall i :: 0 <= i < |steps| ==> Down(steps[i]) == {}
  {
    var w1 := NOTHING.(users := map[u := User(true, false)]);
    var w2 := w1.(links := map[g := u]);
    var w3 := w2.(apps := map[a := App(Some(p), None, false)]);
    var w4 := w3.(apps := map[a := App(Some(p), None, false), b := App(Some(p), None, false)]);
    var w5 := w4.(apps := map[a := App(Some(p), None, true), b := App(Some(p), None, false)]);
    var w6 := TwoApps(u, g, p, a, b);
    steps := [CreateUser(u, false), LinkUser(g, u), CreateApp(a, Some(p), None), CreateApp(b, Some(p), None), EnableAuth(a), EnableAuth(b)];
    worlds := [NOTHING, w1, w2, w3, w4, w5, w6];
    NoAccountsYet(NOTHING, CreateUser(u, false), w1);
    NoAccountsYet(w1, LinkUser(g, u), w2);
    NoAccountsYet(w2, CreateApp(a, Some(p), None), w3);
    NoAccountsYet(w3, CreateApp(b, Some(p), None), w4);
    NoAccountsYet(w4, EnableAuth(a), w5);
    NoAccountsYet(w5, EnableAuth(b), w6);
  }

  lemma GrantIsAStep(w: World, acc: Account)
    requires Justified(w, acc) && w.owed == {}
    ensures Next(w, Grant(acc.app, acc.env, acc.user), w.(accounts := w.accounts + {acc}))
  {
  }

  lemma MemberMaintainsBoth(u: int, g: int, p: int, a: int, b: int, level: int, accounts: set<Account>, owed: set<Account>)
    requires a != b
    ensures var w := WithMember(u, g, p, a, b, level, accounts, owed);
      forall app :: app == a || app == b ==> (Justified(w, Account(app, Dev, u)) <==> level >= 40)
  {
    var w := WithMember(u, g, p, a, b, level, accounts, owed);
    forall app | app == a || app == b ensures Justified(w, Account(app, Dev, u)) <==> level >= 40 {
      if level >= 40 { assert GrantsConsole(w.rows, RowId(Project(p), ByGitLabId(g)), w.apps[app], u); }
    }
  }

  lemma MaintainerHasBothAccounts(u: int, g: int, p: int, a: int, b: int) returns (worlds: seq<World>, steps: seq<Step>)
    requires a != b
    ensures IsRun(worlds, steps) && worlds[0] == TwoApps(u, g, p, a, b)
    ensures worlds[|steps|] == WithMember(u, g, p, a, b, 40, {Account(a, Dev, u), Account(b, Dev, u)}, {})
    ensures forall i :: 0 <= i < |steps| ==> Down(steps[i]) == {}
  {
    var w0, w1 := TwoApps(u, g, p, a, b), WithMember(u, g, p, a, b, 40, {}, {});
    var w2 := WithMember(u, g, p, a, b, 40, {Account(a, Dev, u)}, {});
    var w3 := WithMember(u, g, p, a, b, 40, {Account(a, Dev, u), Account(b, Dev, u)}, {});
    NoAccountsYet(w0, AddMember(a, g, 40, {}), w1);
    MemberMaintainsBoth(u, g, p, a, b, 40, {}, {});
    MemberMaintainsBoth(u, g, p, a, b, 40, {Account(a, Dev, u)}, {});
    GrantIsAStep(w1, Account(a, Dev, u));
    GrantIsAStep(w2, Account(b, Dev, u));
    assert w1.accounts + {Account(a, Dev, u)} == w2.accounts;
    assert w2.accounts + {Account(b, Dev, u)} == w3.accounts;
    steps := [AddMember(a, g, 40, {}), Grant(a, Dev, u), Grant(b, Dev, u)];
    worlds := [w0, w1, w2, w3];
  }

  lemma DemotedThroughOneApp(u: int, g: int, p: int, a: int, b: int)
    requires a != b
    ensures Next(WithMember(u, g, p, a, b, 40, {Account(a, Dev, u), Account(b, Dev, u)}, {}), AddMember(a, g, 30, {}),
                 WithMember(u, g, p, a, b, 30, {Account(b, Dev, u)}, {Account(b, Dev, u)}))
    ensures !Justified(WithMember(u, g, p, a, b, 30, {Account(b, Dev, u)}, {Account(b, Dev, u)}), Account(b, Dev, u))
  {
    var before := WithMember(u, g, p, a, b, 40, {Account(a, Dev, u), Account(b, Dev, u)}, {});
    var step, after := AddMember(a, g, 30, {}), WithMember(u, g, p, a, b, 30, {Account(b, Dev, u)}, {Account(b, Dev, u)});
    MemberMaintainsBoth(u, g, p, a, b, 30, {Account(b, Dev, u)}, {Account(b, Dev, u)});
    assert Due(before, step, after, Account(a, Dev, u));
    assert LeftBehind(before, step, after, Account(b, Dev, u));
  }

  /**
   From nothing, with every realm up: a Maintainer has accounts on two apps of one project and is
   demoted through the first; the account on the second stays, and is not justified.
   */
  lemma AddMemberLeavesAnAccount(u: int, g: int, p: int, a: int, b: int) returns (worlds: seq<World>, steps: seq<Step>)
    requires a != b
    ensures IsRun(worlds, steps) && |steps| > 0 && worlds[0] == NOTHING && Inv(NOTHING)
    ensures forall i :: 0 <= i < |steps| ==> Down(steps[i]) == {}
    ensures var n := |steps|;
      && steps[n - 1] == AddMember(a, g, 30, {})
      && (forall app :: app == a || app == b ==> Account(app, Dev, u) in worlds[n - 1].accounts && Justified(worlds[n - 1], Account(app, Dev, u)))
      && Account(a, Dev, u) !in worlds[n].accounts
      && Account(b, Dev, u) in worlds[n].accounts && !Justified(worlds[n], Account(b, Dev, u))
  {
    var firstWorlds, firstSteps := TwoAppsAreReachable(u, g, p, a, b);
    var moreWorlds, moreSteps := MaintainerHasBothAccounts(u, g, p, a, b);
    worlds, steps := Continued(firstWorlds, firstSteps, moreWorlds, moreSteps);
    DemotedThroughOneApp(u, g, p, a, b);
    MemberMaintainsBoth(u, g, p, a, b, 40, {Account(a, Dev, u), Account(b, Dev, u)}, {});
    var last := WithMember(u, g, p, a, b, 30, {Account(b, Dev, u)}, {Account(b, Dev, u)});
    worlds, steps := worlds + [last], steps + [AddMember(a, g, 30, {})];
  }

  /** A run, and a run from where it ended. */
  lemma Continued(worlds: seq<World>, steps: seq<Step>, more: seq<World>, moreSteps: seq<Step>)
    returns (all: seq<World>, allSteps: seq<Step>)
    requires IsRun(worlds, steps) && IsRun(more, moreSteps) && worlds[|steps|] == more[0]
    requires (forall i :: 0 <= i < |steps| ==> Down(steps[i]) == {}) && forall i :: 0 <= i < |moreSteps| ==> Down(moreSteps[i]) == {}
    ensures IsRun(all, allSteps) && all[0] == worlds[0] && all[|allSteps|] == more[|moreSteps|]
    ensures forall i :: 0 <= i < |allSteps| ==> Down(allSteps[i]) == {}
  {
    all, allSteps := worlds + more[1..], steps + moreSteps;
    var n := |steps|;
    forall i | 0 <= i < |allSteps| ensures Next(all[i], allSteps[i], all[i + 1]) {
      if i < n {
        assert Next(worlds[i], steps[i], worlds[i + 1]);
      } else {
        assert Next(more[i - n], moreSteps[i - n], more[i - n + 1]);
        assert all[i + 1] == more[i - n + 1];
        assert all[i] == more[i - n];
      }
    }
  }

  // ----- the steps in plain terms -----

  /** What entitles to a console account, down to the rows. */
  lemma JustifiedMeaning(w: World, acc: Account)
    ensures Justified(w, acc) <==>
      && acc.user in w.users && w.users[acc.user].active
      && acc.app in w.apps && w.apps[acc.app].authEnabled
      && (w.users[acc.user].admin || exists id :: HoldsMaintainer(w, acc, id))
  {
    if MayHaveConsole(w, acc.app, acc.user) {
      forall id ensures HoldsMaintainer(w, acc, id) <==> GrantsConsole(w.rows, id, w.apps[acc.app], acc.user) {
      }
    }
  }

  /** An active row of the user, at 40 or above, in the app's project or owning group. */
  predicate HoldsMaintainer(w: World, acc: Account, id: RowId) {
    && acc.app in w.apps && id in w.rows
    && w.rows[id].status == Active && w.rows[id].accessLevel >= 40 && w.rows[id].cnpUser == Some(acc.user)
    && match id.scope
       case Group(g) => w.apps[acc.app].owningGroup == Some(g)
       case Project(p) => w.apps[acc.app].project == Some(p)
  }

  /** Precision of every step: an account is only taken from a user who is inactive or below Maintainer on that app afterwards. */
  lemma StepSparesMaintainers(before: World, step: Step, after: World, acc: Account)
    requires Inv(before) && Next(before, step, after)
    requires acc in before.accounts && acc !in after.accounts
    ensures acc.user in after.users && acc.app in after.apps
    ensures !after.users[acc.user].active || !MaintainsApp(after.rows, after.apps[acc.app], acc.user)
    ensures Reachable(acc, Down(step))
  {
  }

  /** The user fields a PATCH names get its values, everything else stays. */
  lemma UpdateSetsWhatItNames(before: World, step: Step, after: World)
    requires Next(before, step, after) && step.UpdateUser?
    ensures after.users.Keys == before.users.Keys && step.user in before.users
    ensures var (was, now) := (before.users[step.user], after.users[step.user]);
      && (step.active.Some? ==> now.active == step.active.value) && (step.active.None? ==> now.active == was.active)
      && (step.admin.Some? ==> now.admin == step.admin.value) && (step.admin.None? ==> now.admin == was.admin)
    ensures forall u :: u in before.users && u != step.user ==> after.users[u] == before.users[u]
    ensures after.rows == before.rows && after.apps == before.apps && after.links == before.links
  {
  }

  /** Deactivating a user takes every reachable account of theirs, demoting an admin every one they do not maintain the app for. */
  lemma UpdateRevokes(before: World, step: Step, after: World, acc: Account)
    requires Inv(before) && Next(before, step, after) && step.UpdateUser?
    requires acc in before.accounts && acc.user == step.user && (acc.app, acc.env) !in step.down
    requires before.users[step.user].active
    ensures step.active == Some(false) ==> acc !in after.accounts
    ensures step.admin == Some(false) && before.users[step.user].admin && !MaintainsApp(before.rows, before.apps[acc.app], acc.user) ==>
      acc !in after.accounts
    ensures step.active != Some(false) && step.admin != Some(false) ==> acc in after.accounts
  {
  }

  /** add_member: the member's row is active at the level, of the linked user if there is one; every other row stays. */
  lemma AddMemberSetsTheRow(before: World, step: Step, after: World, p: int)
    requires Next(before, step, after) && step.AddMember? && step.app in before.apps && before.apps[step.app].project == Some(p)
    ensures var id := RowId(Project(p), ByGitLabId(step.gitlabId));
      && id in after.rows && after.rows[id].status == Active && after.rows[id].accessLevel == step.level
      && (step.gitlabId in before.links ==> after.rows[id].cnpUser == Some(before.links[step.gitlabId]))
      && (step.gitlabId !in before.links ==> after.rows[id].cnpUser == if id in before.rows then before.rows[id].cnpUser else None)
      && forall other :: other != id ==> Lookup(after.rows, other) == Lookup(before.rows, other)
  {
  }

  /** add_member with the realms up: an account of the member on that app stays iff its user is Maintainer there afterwards, or never was through this row. */
  lemma AddMemberRevokesIff(before: World, step: Step, after: World, acc: Account, p: int)
    requires Inv(before) && Next(before, step, after) && step.AddMember? && step.down == {}
    requires step.app in before.apps && before.apps[step.app].project == Some(p)
    requires acc in before.accounts && acc.app == step.app
    ensures var id := RowId(Project(p), ByGitLabId(step.gitlabId));
      acc !in after.accounts <==>
        && id in before.rows && before.rows[id].status == Active && before.rows[id].accessLevel >= 40 && step.level < 40
        && after.rows[id].cnpUser == Some(acc.user) && !MaintainsApp(after.rows, after.apps[acc.app], acc.user)
  {
  }

  /** Row `id` of the app granted Maintainer before and does not after; the user is whose it is then. */
  predicate LostRow(before: Table, after: Table, id: RowId, app: App, user: int) {
    && InAppScope(id.scope, app) && id.key.ByGitLabId?
    && id in before && before[id].status == Active && before[id].accessLevel >= 40
    && id in after && (after[id].status != Active || after[id].accessLevel < 40) && after[id].cnpUser == Some(user)
  }

  /**
   A sync with the realms up takes exactly the accounts of users who lost such a row and are below
   Maintainer on that app afterwards, whether administrators or not; a project's rows count for the
   first app visited with it.
   */
  lemma SyncRevokesIff(before: World, step: Step, after: World, acc: Account)
    requires Inv(before) && Next(before, step, after) && step.Sync? && step.down == {}
    requires acc in before.accounts
    ensures acc !in after.accounts <==>
      && !MaintainsApp(after.rows, before.apps[acc.app], acc.user)
      && exists id :: LostRow(before.rows, after.rows, id, before.apps[acc.app], acc.user)
                      && (id.scope.Project? ==> IsFirst(before.apps, step.order, acc.app))
  {
    var app, gl := before.apps[acc.app], step.gl;
    if !SharedNewcomer(before.rows, before.apps, gl, step.order) {
      forall id: RowId | FetchedMembers(gl, id.scope).Some? && InAppScope(id.scope, app)
        ensures Reports(before.rows, before.links, id.scope, FetchedMembers(gl, id.scope).value, id, acc.user)
                <==> LostRow(before.rows, after.rows, id, app, acc.user)
      {
        ReportedIffLost(before.rows, after.rows, before.links, gl, id, acc.user);
      }
      HandedOverIffLost(before, step, after, acc);
    }
  }

  lemma HandedOverIffLost(before: World, step: Step, after: World, acc: Account)
    requires step.Sync? && RunOutcome(before.rows, after.rows, before.links, step.gl)
    requires acc.app in before.apps && before.apps[acc.app].authEnabled
    requires forall id: RowId :: FetchedMembers(step.gl, id.scope).Some? && InAppScope(id.scope, before.apps[acc.app]) ==>
      (Reports(before.rows, before.links, id.scope, FetchedMembers(step.gl, id.scope).value, id, acc.user)
       <==> LostRow(before.rows, after.rows, id, before.apps[acc.app], acc.user))
    ensures RunHandsOver(before.rows, before.links, before.apps, step.gl, step.order, acc.app, acc.user) <==>
      exists id :: LostRow(before.rows, after.rows, id, before.apps[acc.app], acc.user)
                   && (id.scope.Project? ==> IsFirst(before.apps, step.order, acc.app))
  {
    var app, gl := before.apps[acc.app], step.gl;
    if RunHandsOver(before.rows, before.links, before.apps, gl, step.order, acc.app, acc.user) {
      var scope :| FetchedMembers(gl, scope).Some?
                   && ReportsPair(before.rows, before.links, before.apps, scope, FetchedMembers(gl, scope).value, acc.app, acc.user)
                   && (scope.Project? ==> IsFirst(before.apps, step.order, acc.app));
      var id :| Reports(before.rows, before.links, scope, FetchedMembers(gl, scope).value, id, acc.user);
      assert id.scope == scope && LostRow(before.rows, after.rows, id, app, acc.user);
    }
    if id :| LostRow(before.rows, after.rows, id, app, acc.user) && (id.scope.Project? ==> IsFirst(before.apps, step.order, acc.app)) {
      assert Lookup(after.rows, id) == RowAfterRun(before.rows, before.links, gl, id);
      assert Reports(before.rows, before.links, id.scope, FetchedMembers(gl, id.scope).value, id, acc.user);
      assert ReportsPair(before.rows, before.links, before.apps, id.scope, FetchedMembers(gl, id.scope).value, acc.app, acc.user);
    }
  }
}
