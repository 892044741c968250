/**
 The accounts of one owned realm: CNP's console accounts next to the app's own end users
 (backend/keycloak/client.py, lines 307-417). Any request may be refused, or take effect
 while its reply is lost.
 */
module RealmAccounts {
  import opened Options
  import opened Provisioning

  /** `cnpUser` is the attribute cnp_user_id; `roles` are the realm-management roles mapped directly. */
  datatype KcUser = KcUser(username: string, enabled: bool, cnpUser: Option<int>, roles: set<string>, password: Option<string>)

  type Users = map<string, KcUser>

  const TEAM_CONSOLE_ROLES: set<string> := {
    "view-realm", "view-users", "query-users", "query-groups", "manage-users", "view-clients",
    "query-clients", "manage-clients", "view-events", "manage-events", "view-identity-providers",
    "manage-identity-providers"}

  /** The CNP users holding a console account in the realm. */
  ghost function Holders(users: Users): set<int> {
    set id | id in users && users[id].cnpUser.Some? :: users[id].cnpUser.value
  }

  predicate UsernameTaken(users: Users, username: string) {
    exists id :: id in users && users[id].username == username
  }

  /** Accounts CNP did not create for `user` are exactly as they were. */
  ghost predicate SparesOthers(before: Users, after: Users, user: int) {
    && (forall id :: id in before && before[id].cnpUser != Some(user) ==> id in after && after[id] == before[id])
    && (forall id :: id in after && after[id].cnpUser != Some(user) ==> id in before && before[id] == after[id])
  }

  lemma SparesOthersTwice(a: Users, b: Users, c: Users, user: int)
    requires SparesOthers(a, b, user) && SparesOthers(b, c, user)
    ensures SparesOthers(a, c, user)
  {
  }

  /** Sparing the others means: nobody else gains or loses a console account. */
  lemma OtherHoldersStay(before: Users, after: Users, user: int)
    requires SparesOthers(before, after, user)
    ensures Holders(after) - {user} == Holders(before) - {user}
  {
    forall u | u != user ensures u in Holders(after) <==> u in Holders(before) {
      if u in Holders(after) {
        var id :| id in after && after[id].cnpUser == Some(u);
        assert id in before && before[id].cnpUser == Some(u);
      }
      if u in Holders(before) {
        var id :| id in before && before[id].cnpUser == Some(u);
        assert id in after && after[id].cnpUser == Some(u);
      }
    }
  }

  lemma HolderHasAccount(users: Users, user: int)
    ensures user in Holders(users) <==> (set id | id in users && users[id].cnpUser == Some(user)) != {}
  {
    var accounts := set id | id in users && users[id].cnpUser == Some(user);
    if user in Holders(users) {
      var id :| id in users && users[id].cnpUser == Some(user);
      assert id in accounts;
    } else {
      assert forall id :: id !in accounts;
    }
  }

  class Realm {
    var users: Users
    var adminEdit: bool                     // the profile policy: without it attributes are dropped on write
    var calls: nat
    const offered: Option<set<string>>      // the roles of the realm-management client, None if it is missing
    const faults: nat -> Fault

    constructor (users: Users, adminEdit: bool, offered: Option<set<string>>, faults: nat -> Fault)
      ensures this.users == users && this.adminEdit == adminEdit && this.offered == offered && this.faults == faults
    {
      this.users, this.adminEdit, this.calls, this.offered, this.faults := users, adminEdit, 0, offered, faults;
    }

    predicate OffersTeamRoles() {
      offered.Some? && TEAM_CONSOLE_ROLES <= offered.value
    }

    /** _enable_unmanaged_user_attributes. */
    method EnableAttributes() returns (ok: bool)
      modifies this`calls, this`adminEdit
      ensures FaultFree() ==> ok
      ensures ok ==> adminEdit
      ensures old(adminEdit) ==> adminEdit
    {
      var read := Send();
      if read != Fine { return false; }
      if adminEdit { return true; }
      var put := Send();
      adminEdit := put != Refused;
      ok := put == Fine;
    }

    ghost predicate FaultFree() {
      forall n: nat :: faults(n) == Fine
    }

    method Send() returns (fate: Fault)
      modifies this`calls
      ensures FaultFree() ==> fate == Fine
    {
      fate := faults(calls);
      calls := calls + 1;
    }

    method FindByAttribute(user: int) returns (ok: bool, ids: set<string>)
      modifies this`calls
      ensures FaultFree() ==> ok
      ensures ok ==> ids == set id | id in users && users[id].cnpUser == Some(user)
    {
      var fate := Send();
      ok, ids := fate == Fine, set id | id in users && users[id].cnpUser == Some(user);
    }

    /**
     ensure_cnp_admin_user: the account is found by its attribute, never by its name. A name
     held by another account is a conflict, and then nothing changes.
     */
    method EnsureAdminUser(username: string, user: int, freshId: string) returns (ok: bool, id: string)
      requires freshId !in users
      modifies this`calls, this`users, this`adminEdit
      ensures SparesOthers(old(users), users, user)
      ensures ok ==> adminEdit && id in users && users[id].cnpUser == Some(user) && users[id].enabled
      ensures ok && user in Holders(old(users)) ==> id in old(users)
      ensures FaultFree() ==> (ok <==> user in Holders(old(users)) || !UsernameTaken(old(users), username))
      ensures user !in Holders(old(users)) && UsernameTaken(old(users), username) ==> users == old(users)
      ensures user in Holders(old(users)) ==> users.Keys == old(users).Keys
      ensures ok ==> users == old(users)[id := if user in Holders(old(users)) then old(users)[id].(enabled := true)
                                               else KcUser(username, true, Some(user), {}, None)]
    {
      var found;
      id := "";
      ok := EnableAttributes();
      if !ok { return; }
      ok, found := FindByAttribute(user);
      if !ok { return; }
      HolderHasAccount(users, user);
      if found != {} {
        id := Pick(found);
        var put := Send();
        if put != Refused { users := users[id := users[id].(enabled := true)]; }
        ok := put == Fine;
        return;
      }
      var lookup := Send();
      if lookup != Fine || UsernameTaken(users, username) { return false, ""; }
      var post := Send();
      if post != Refused { users := users[freshId := KcUser(username, true, Some(user), {}, None)]; }
      if post != Fine { return false, ""; }
      ok, found := FindByAttribute(user);
      if !ok { return; }
      assert found == {freshId};
      id := Pick(found);
    }

    /** set_team_console_roles: drop what is not a team role, then add what is missing. */
    method SetTeamConsoleRoles(id: string) returns (ok: bool)
      requires id in users
      modifies this`calls, this`users
      ensures FaultFree() ==> (ok <==> OffersTeamRoles())
      ensures ok ==> users == old(users)[id := old(users)[id].(roles := TEAM_CONSOLE_ROLES)]
      ensures exists roles :: users == old(users)[id := old(users)[id].(roles := roles)]
    {
      ghost var before := users;
      assert users == before[id := before[id].(roles := before[id].roles)];
      var findClient := Send();
      if findClient != Fine || offered.None? { return false; }
      var listRoles := Send();
      if listRoles != Fine || !(TEAM_CONSOLE_ROLES <= offered.value) { return false; }
      var read := Send();
      if read != Fine { return false; }
      var current := users[id].roles;
      var extra := current - TEAM_CONSOLE_ROLES;
      if extra != {} {
        var fate := Send();
        if fate != Refused { users := users[id := users[id].(roles := current - extra)]; }
        if fate != Fine { return false; }
      }
      var missing := TEAM_CONSOLE_ROLES - current;
      if missing != {} {
        var fate := Send();
        if fate != Refused { users := users[id := users[id].(roles := users[id].roles + missing)]; }
        if fate != Fine { return false; }
      }
      assert (current - extra) + missing == TEAM_CONSOLE_ROLES;
      assert extra == {} ==> current - extra == current;
      assert missing == {} ==> (current - extra) + missing == current - extra;
      assert users == before[id := before[id].(roles := TEAM_CONSOLE_ROLES)];
      ok := true;
    }

    method SetTemporaryPassword(id: string, password: string) returns (ok: bool)
      requires id in users
      modifies this`calls, this`users
      ensures FaultFree() ==> ok
      ensures users == old(users)[id := old(users)[id].(password := Some(password))] || (!ok && users == old(users))
    {
      var fate := Send();
      if fate != Refused { users := users[id := users[id].(password := Some(password))]; }
      ok := fate == Fine;
    }

    /** grant_console_access, inside an owned realm. */
    method Grant(username: string, user: int, freshId: string, password: string) returns (ok: bool, id: string)
      requires freshId !in users
      modifies this`calls, this`users, this`adminEdit
      ensures SparesOthers(old(users), users, user)
      ensures ok ==> id in users && users[id].cnpUser == Some(user) && users[id].enabled && users[id].roles == TEAM_CONSOLE_ROLES
      ensures ok ==> users[id].password == Some(password)
      ensures ok ==> Holders(users) == Holders(old(users)) + {user}
      ensures FaultFree() ==>
        (ok <==> (user in Holders(old(users)) || !UsernameTaken(old(users), username)) && OffersTeamRoles())
    {
      ok, id := EnsureAdminUser(username, user, freshId);
      if !ok { OtherHoldersStay(old(users), users, user); return; }
      ghost var found := users;
      ok := SetTeamConsoleRoles(id);
      SparesOthersTwice(old(users), found, users, user);
      if !ok { return; }
      ghost var mapped := users;
      ok := SetTemporaryPassword(id, password);
      SparesOthersTwice(old(users), mapped, users, user);
      OtherHoldersStay(old(users), users, user);
      assert user in Holders(users);
    }

    /** delete_users_by_attribute: one request per account found, stopping at the first error. */
    method Revoke(user: int) returns (ok: bool)
      modifies this`calls, this`users
      ensures FaultFree() ==> ok
      ensures SparesOthers(old(users), users, user)
      ensures ok ==> Holders(users) == Holders(old(users)) - {user}
    {
      var found;
      ok, found := FindByAttribute(user);
      if !ok { return; }
      ghost var before := users;
      var rest := found;
      while rest != {}
        invariant rest <= found
        invariant forall id :: id in users <==> id in before && id !in found - rest
        invariant forall id :: id in users ==> users[id] == before[id]
        decreases |rest|
      {
        var id := Pick(rest);
        var fate := Send();
        if fate != Refused { users := map i | i in users && i != id :: users[i]; }
        if fate != Fine { return false; }
        rest := rest - {id};
      }
      OtherHoldersStay(before, users, user);
      assert user !in Holders(users);
    }
  }

  /** What a team gets manages users, clients and events of its realm, never the realm itself. */
  lemma TeamRolesStayInside(user: KcUser)
    requires user.roles == TEAM_CONSOLE_ROLES
    ensures {"manage-users", "manage-clients", "manage-events", "manage-identity-providers"} <= user.roles
    ensures forall r :: r in user.roles ==> r !in {"realm-admin", "manage-realm", "create-client", "impersonation"}
  {
  }
}
