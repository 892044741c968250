/** The code that grants and revokes console accounts, proved to take the steps of ConsoleAccess. */
module ConsoleService {
  import opened Options
  import opened Tiers
  import opened GitLabSync
  import opened SyncLaws
  import opened ConsoleAccess

  /** The accounts revoke_console_access_if_not_maintainer is to delete for `pairs`. */
  ghost function DueSet(accounts: set<Account>, rows: Table, apps: map<int, App>, pairs: set<(int, int)>): set<Account> {
    set acc | acc in accounts && DueForPairs(rows, apps, pairs, acc)
  }

  function Hit(due: set<Account>, down: set<(int, Env)>): set<Account> {
    set acc | acc in due && Reachable(acc, down)
  }

  function Missed(due: set<Account>, down: set<(int, Env)>): set<Account> {
    set acc | acc in due && !Reachable(acc, down)
  }

  ghost function OverlookedSet(accounts: set<Account>, rows: Table, before: World, gl: GitLab, order: seq<int>): set<Account> {
    set acc | acc in accounts && OverlookedByRun(rows, before, gl, order, acc)
  }

  function AccountsOn(accounts: set<Account>, app: int, user: int): set<Account> {
    set acc | acc in accounts && acc.app == app && acc.user == user
  }

  function EnabledApps(apps: map<int, App>): set<int> {
    set a | a in apps && apps[a].authEnabled
  }

  function AccountsOnAny(accounts: set<Account>, appIds: set<int>, user: int): set<Account> {
    set acc | acc in accounts && acc.app in appIds && acc.user == user
  }

  /**
   What Keycloak makes of a grant: no account (realm missing or foreign, username taken, an early
   error), an account but an error on the way, or everything done. RealmAccounts models the requests.
   */
  datatype KeycloakAnswer = NoAccount | Interrupted | Completed

  class Service {
    const mirror: Mirror
    var users: map<int, User>
    var accounts: set<Account>
    ghost var owed: set<Account>

    constructor (mirror: Mirror, users: map<int, User>)
      ensures this.mirror == mirror && this.users == users && accounts == {} && owed == {}
    {
      this.mirror, this.users, accounts, owed := mirror, users, {}, {};
    }

    /** What is owed is still there. */
    ghost predicate Valid()
      reads this
    {
      owed <= accounts
    }

    ghost function Snapshot(): World
      reads this, mirror
    {
      World(users, mirror.links, mirror.apps, mirror.rows, accounts, owed)
    }

    /** revoke_member: both realms, each on its own; a realm that cannot be reached keeps its account. */
    method RevokeMember(app: int, user: int, down: set<(int, Env)>)
      requires Valid()
      modifies this`accounts, this`owed
      ensures Valid()
      ensures accounts == old(accounts) - Hit(AccountsOn(old(accounts), app, user), down)
      ensures owed == (old(owed) + Missed(AccountsOn(old(accounts), app, user), down)) * accounts
    {
      var envs := [Dev, Prod];
      ghost var before := accounts;
      for i := 0 to |envs|
        invariant owed == old(owed)
        invariant forall acc :: acc in accounts <==>
          acc in before && !(acc in AccountsOn(before, app, user) && Reachable(acc, down) && acc.env in envs[..i])
      {
        if (app, envs[i]) !in down {
          accounts := accounts - {Account(app, envs[i], user)};
        }
      }
      assert envs[0] == Dev && envs[1] == Prod && envs[..|envs|] == envs;
      forall acc: Account ensures acc.env in envs {
        assert acc.env == envs[0] || acc.env == envs[1];
      }
      owed := (owed + Missed(AccountsOn(before, app, user), down)) * accounts;
    }

    /** revoke_console_access_if_not_maintainer, after the change is committed. */
    method RevokeIfNotMaintainer(app: int, cnpUser: Option<int>, down: set<(int, Env)>)
      requires Valid() && app in mirror.apps
      modifies this`accounts, this`owed
      ensures Valid()
      ensures var pairs := if cnpUser.Some? then {(app, cnpUser.value)} else {};
        && accounts == old(accounts) - Hit(DueSet(old(accounts), mirror.rows, mirror.apps, pairs), down)
        && owed == (old(owed) + Missed(DueSet(old(accounts), mirror.rows, mirror.apps, pairs), down)) * accounts
    {
      if cnpUser.None? || !mirror.apps[app].authEnabled { return; }
      var tier := GetEffectiveTier(mirror.rows, mirror.apps, cnpUser.value, app);
      ConsoleTierIsAGrant(tier, mirror.rows, mirror.apps[app], cnpUser.value);
      if HasConsoleTier(tier) { return; }
      RevokeMember(app, cnpUser.value, down);
      assert AccountsOn(old(accounts), app, cnpUser.value)
        == DueSet(old(accounts), mirror.rows, mirror.apps, {(app, cnpUser.value)});
    }

    /** revoke_lost_console_access: every pair on its own, apps that are gone are skipped. */
    method RevokeLostConsoleAccess(pairs: set<(int, int)>, down: set<(int, Env)>)
      requires Valid()
      modifies this`accounts, this`owed
      ensures Valid()
      ensures accounts == old(accounts) - Hit(DueSet(old(accounts), mirror.rows, mirror.apps, pairs), down)
      ensures owed == (old(owed) + Missed(DueSet(old(accounts), mirror.rows, mirror.apps, pairs), down)) * accounts
    {
      var rest := pairs;
      ghost var done: set<(int, int)> := {};
      ghost var before, owedBefore := accounts, owed;
      while rest != {}
        invariant Valid()
        invariant done !! rest && done + rest == pairs
        invariant accounts == before - Hit(DueSet(before, mirror.rows, mirror.apps, done), down)
        invariant owed == (owedBefore + Missed(DueSet(before, mirror.rows, mirror.apps, done), down)) * accounts
        decreases |rest|
      {
        var pair := Pick(rest);
        ghost var now := accounts;
        if pair.0 in mirror.apps {
          RevokeIfNotMaintainer(pair.0, Some(pair.1), down);
        }
        DueOneMore(before, now, mirror.rows, mirror.apps, done, pair, down);
        rest, done := rest - {pair}, done + {pair};
      }
      assert done == pairs;
    }

    lemma DueOneMore(before: set<Account>, now: set<Account>, rows: Table, apps: map<int, App>, done: set<(int, int)>,
                     pair: (int, int), down: set<(int, Env)>)
      requires pair !in done
      requires now == before - Hit(DueSet(before, rows, apps, done), down)
      ensures now - Hit(DueSet(now, rows, apps, {pair}), down) == before - Hit(DueSet(before, rows, apps, done + {pair}), down)
      ensures Missed(DueSet(before, rows, apps, done), down) + Missed(DueSet(now, rows, apps, {pair}), down)
           == Missed(DueSet(before, rows, apps, done + {pair}), down)
      ensures pair.0 !in apps ==> DueSet(now, rows, apps, {pair}) == {}
    {
    }

    /** grant_console_access behind the route's gate (active caller, admin or Maintainer and above); `answer` is what Keycloak makes of it. */
    method GrantConsoleAccess(app: int, env: Env, user: int, answer: KeycloakAnswer) returns (granted: bool)
      requires Valid()
      modifies this`accounts, this`owed
      ensures Valid()
      ensures granted <==> Justified(old(Snapshot()), Account(app, env, user)) && answer == Completed
      ensures if Justified(old(Snapshot()), Account(app, env, user)) && answer != NoAccount
              then Next(old(Snapshot()), Grant(app, env, user), Snapshot())
              else Snapshot() == old(Snapshot())
    {
      granted := false;
      if user !in users || !users[user].active || app !in mirror.apps || !mirror.apps[app].authEnabled { return; }
      if !users[user].admin {
        var tier := GetEffectiveTier(mirror.rows, mirror.apps, user, app);
        ConsoleTierIsAGrant(tier, mirror.rows, mirror.apps[app], user);
        if !HasConsoleTier(tier) { return; }
      }
      if answer == NoAccount { return; }
      accounts, owed := accounts + {Account(app, env, user)}, owed - {Account(app, env, user)};
      granted := answer == Completed;
    }

    /** run_gitlab_sync and run_gitlab_sync_for_user: sync, commit, then revoke; a commit that fails raises before that. */
    method SyncAndRevoke(groups: seq<int>, appIds: seq<int>, gl: GitLab, down: set<(int, Env)>) returns (committed: bool)
      requires Valid()
      requires WellFormed(gl) && NoRepeats(groups) && NoRepeats(appIds)
      requires forall a :: a in appIds ==> a in mirror.apps && mirror.apps[a].project.Some?
      modifies this`accounts, this`owed, mirror`rows, mirror`pending
      ensures Valid()
      ensures Next(old(Snapshot()), Sync(Visited(gl, Ids(groups), ProjectsOf(mirror.apps, appIds)), appIds, down), Snapshot())
      ensures committed <==> !SharedNewcomer(old(mirror.rows), mirror.apps, gl, appIds)
      ensures !committed ==> Snapshot() == old(Snapshot())
    {
      ghost var before := Snapshot();
      ghost var seen := Visited(gl, Ids(groups), ProjectsOf(mirror.apps, appIds));
      SameSharedNewcomer(mirror.rows, mirror.rows, mirror.apps, gl, Ids(groups), appIds);
      var groupStats, projectStats, lost;
      committed, groupStats, projectStats, lost := mirror.RunSync(groups, appIds, gl);
      if !committed {
        FailedSyncIsAStep(before, seen, appIds, down);
        return;
      }
      owed := owed + OverlookedSet(accounts, mirror.rows, before, seen, appIds);
      RevokeLostConsoleAccess(lost, down);
      CommittedSyncIsAStep(before, Snapshot(), seen, appIds, down, lost);
    }

    lemma FailedSyncIsAStep(w: World, seen: GitLab, order: seq<int>, down: set<(int, Env)>)
      requires SharedNewcomer(w.rows, w.apps, seen, order) && w.owed <= w.accounts
      ensures Next(w, Sync(seen, order, down), w)
    {
    }

    /** Deleting the accounts due for the pairs handed over is what the step demands. */
    lemma CommittedSyncIsAStep(before: World, after: World, seen: GitLab, order: seq<int>, down: set<(int, Env)>, lost: set<(int, int)>)
      requires !SharedNewcomer(before.rows, before.apps, seen, order)
      requires RunSoFar(before.rows, after.rows, before.links, before.apps, seen, order, {}, lost)
      requires after.users == before.users && after.links == before.links && after.apps == before.apps
      requires after.accounts == before.accounts - Hit(DueSet(before.accounts, after.rows, before.apps, lost), down)
      requires after.owed == (before.owed + OverlookedSet(before.accounts, after.rows, before, seen, order)
                              + Missed(DueSet(before.accounts, after.rows, before.apps, lost), down)) * after.accounts
      ensures Next(before, Sync(seen, order, down), after)
    {
      forall acc | acc in before.accounts
        ensures acc in DueSet(before.accounts, after.rows, before.apps, lost) <==> Due(before, Sync(seen, order, down), after, acc)
      {
        assert (acc.app, acc.user) in lost <==> RunHandsOver(before.rows, before.links, before.apps, seen, order, acc.app, acc.user);
      }
    }

    /** add_member, once GitLab accepted the change. */
    method AddMember(app: int, gitlabId: int, level: int, down: set<(int, Env)>)
      requires Valid() && app in mirror.apps && mirror.apps[app].project.Some?
      modifies this`accounts, this`owed, mirror`rows
      ensures Valid()
      ensures Next(old(Snapshot()), ConsoleAccess.AddMember(app, gitlabId, level, down), Snapshot())
    {
      var id := RowId(Project(mirror.apps[app].project.value), ByGitLabId(gitlabId));
      var link := Lookup(mirror.links, gitlabId);
      var losesConsoleTier := false;
      var row;
      if id in mirror.rows {
        row := mirror.rows[id];
        losesConsoleTier := LosesConsoleTier(row, Some(level));
        row := Row(level, if link.Some? then link else row.cnpUser, Active);
      } else {
        row := Row(level, link, Active);
      }
      ghost var before := Snapshot();
      mirror.rows := mirror.rows[id := row];
      owed := owed + set acc | acc in accounts && OverlookedByMember(mirror.rows, before, app, id, level, acc);
      if losesConsoleTier {
        RevokeIfNotMaintainer(app, row.cnpUser, down);
      }
    }

    /** PATCH /users/{id} with its background revocation. */
    method UpdateUser(user: int, admin: Option<bool>, active: Option<bool>, down: set<(int, Env)>)
      requires Valid() && user in users
      modifies this
      ensures Valid()
      ensures Next(old(Snapshot()), ConsoleAccess.UpdateUser(user, admin, active, down), Snapshot())
    {
      var deactivated := active == Some(false) && users[user].active;
      var demoted := admin == Some(false) && users[user].admin;
      users := users[user := User(active.GetOr(users[user].active), admin.GetOr(users[user].admin))];
      if deactivated {
        RevokeUserEverywhere(user, down);
      } else if demoted {
        var pairs := set a | a in mirror.apps && mirror.apps[a].authEnabled :: (a, user);
        RevokeLostConsoleAccess(pairs, down);
      }
    }

    /** revoke_user_everywhere: every app with Keycloak on, whatever the tier. */
    method RevokeUserEverywhere(user: int, down: set<(int, Env)>)
      requires Valid()
      modifies this`accounts, this`owed
      ensures Valid()
      ensures accounts == old(accounts) - Hit(AccountsOnAny(old(accounts), EnabledApps(mirror.apps), user), down)
      ensures owed == (old(owed) + Missed(AccountsOnAny(old(accounts), EnabledApps(mirror.apps), user), down)) * accounts
    {
      var enabled := EnabledApps(mirror.apps);
      var rest: set<int>, done: set<int> := enabled, {};
      ghost var before, owedBefore := accounts, owed;
      while rest != {}
        invariant Valid()
        invariant done !! rest && done + rest == enabled
        invariant accounts == before - Hit(AccountsOnAny(before, done, user), down)
        invariant owed == (owedBefore + Missed(AccountsOnAny(before, done, user), down)) * accounts
        decreases |rest|
      {
        var a := Pick(rest);
        RevokeMember(a, user, down);
        rest, done := rest - {a}, done + {a};
      }
      assert done == enabled;
    }
  }
}
