/**
 The GitLab membership mirror (backend/services/gitlab_sync_service.py): what one sync does to
 the two membership tables, and which (app, user) pairs it hands over for revocation.
 */
module GitLabSync {
  import opened Options
  import opened Tiers
  import opened Pending

  datatype GlMember = GlMember(id: int, accessLevel: int)

  /** An invitation may come without an access level; the sync then uses 10. */
  datatype GlInvite = GlInvite(email: string, accessLevel: Option<int>)

  datatype Stats = Stats(created: nat, updated: nat, revoked: nat)

  /** What GitLab answers; a missing entry is a fetch that failed. */
  datatype GitLab = GitLab(
    groupMembers: map<int, seq<GlMember>>,
    projectMembers: map<int, seq<GlMember>>,
    invitations: map<int, seq<GlInvite>>)

  const NO_STATS := Stats(0, 0, 0)

  function MemberLevel(members: seq<GlMember>, id: int): Option<int> {
    if members == [] then None
    else
      var last := members[|members| - 1];
      if last.id == id then Some(last.accessLevel) else MemberLevel(members[..|members| - 1], id)
  }

  function InviteLevel(invites: seq<GlInvite>, email: string): Option<int> {
    if invites == [] then None
    else
      var last := invites[|invites| - 1];
      if last.email == email then Some(last.accessLevel.GetOr(10)) else InviteLevel(invites[..|invites| - 1], email)
  }

  predicate DistinctMembers(members: seq<GlMember>) {
    forall i, j :: 0 <= i < j < |members| ==> members[i].id != members[j].id
  }

  predicate DistinctInvites(invites: seq<GlInvite>) {
    forall i, j :: 0 <= i < j < |invites| ==> invites[i].email != invites[j].email
  }

  /** The hypotheses on the fetched lists: no id and no email twice. */
  predicate WellFormed(gl: GitLab) {
    && (forall g :: g in gl.groupMembers ==> DistinctMembers(gl.groupMembers[g]))
    && (forall p :: p in gl.projectMembers ==> DistinctMembers(gl.projectMembers[p]))
    && (forall p :: p in gl.invitations ==> DistinctInvites(gl.invitations[p]))
  }

  // ----- what one sync of one scope makes of one row -----

  /** A row after a sync that fetched `level` for it (None: absent), its id linked to `link`. */
  function MemberRowAfter(prior: Option<Row>, level: Option<int>, link: Option<int>): Option<Row> {
    match level
    case Some(l) => Some(Row(l, if link.Some? || prior.None? then link else prior.value.cnpUser, Active))
    case None => if prior.Some? && prior.value.status == Active then Some(prior.value.(status := Left)) else prior
  }

  function InviteRowAfter(prior: Option<Row>, level: Option<int>): Option<Row> {
    match level
    case Some(l) => Some(Row(l, if prior.Some? then prior.value.cnpUser else None, PendingInvite))
    case None => if prior.Some? && prior.value.status == PendingInvite then Some(prior.value.(status := Left)) else prior
  }

  function RowAfterGroup(before: Table, links: map<int, int>, group: int, members: seq<GlMember>, id: RowId): Option<Row> {
    var prior := Lookup(before, id);
    if id.scope == Group(group) && id.key.ByGitLabId?
    then MemberRowAfter(prior, MemberLevel(members, id.key.gitlabId), Lookup(links, id.key.gitlabId))
    else prior
  }

  function RowAfterProject(before: Table, links: map<int, int>, project: int,
                           members: seq<GlMember>, invites: seq<GlInvite>, id: RowId): Option<Row> {
    var prior := Lookup(before, id);
    if id.scope != Project(project) then prior
    else match id.key
      case ByGitLabId(g) => MemberRowAfter(prior, MemberLevel(members, g), Lookup(links, g))
      case ByEmail(e) => InviteRowAfter(prior, InviteLevel(invites, e))
  }

  /** A row the session had read, after the two member loops; a row it had not read stays away. */
  function MemberSynced(before: Table, links: map<int, int>, scope: Scope, members: seq<GlMember>, id: RowId): Option<Row> {
    if id in before && id.scope == scope && id.key.ByGitLabId?
    then MemberRowAfter(Lookup(before, id), MemberLevel(members, id.key.gitlabId), Lookup(links, id.key.gitlabId))
    else Lookup(before, id)
  }

  /** The same after the two invitation loops. */
  function InviteSynced(before: Table, project: int, invites: seq<GlInvite>, id: RowId): Option<Row> {
    if id in before && id.scope == Project(project) && id.key.ByEmail?
    then InviteRowAfter(Lookup(before, id), InviteLevel(invites, id.key.email))
    else Lookup(before, id)
  }

  function RowAfterScope(before: Table, links: map<int, int>, scope: Scope,
                         members: seq<GlMember>, invites: seq<GlInvite>, id: RowId): Option<Row> {
    match scope
    case Group(g) => RowAfterGroup(before, links, g, members, id)
    case Project(p) => RowAfterProject(before, links, p, members, invites, id)
  }

  predicate LosesConsoleTier(row: Row, newLevel: Option<int>) {
    && row.status == Active
    && LevelGrantsConsole(Some(row.accessLevel))
    && !LevelGrantsConsole(newLevel)
  }

  /** Who is reported when a row loses the console tier: the row's user, else the user its GitLab id now resolves to. */
  function Reported(row: Row, newLevel: Option<int>, link: Option<int>): Option<int> {
    if row.cnpUser.Some? then row.cnpUser else if newLevel.Some? then link else None
  }

  /** Row `id` of `scope` makes the sync report `user`. */
  predicate Reports(before: Table, links: map<int, int>, scope: Scope, members: seq<GlMember>, id: RowId, user: int) {
    && id in before && id.scope == scope && id.key.ByGitLabId?
    && var level := MemberLevel(members, id.key.gitlabId);
       LosesConsoleTier(before[id], level) && Reported(before[id], level, Lookup(links, id.key.gitlabId)) == Some(user)
  }

  /** The sync of `scope` hands the pair (app, user) over for revocation. */
  ghost predicate ReportsPair(before: Table, links: map<int, int>, apps: map<int, App>, scope: Scope, members: seq<GlMember>,
                              app: int, user: int) {
    && app in apps && apps[app].authEnabled && InAppScope(scope, apps[app])
    && exists id :: Reports(before, links, scope, members, id, user)
  }

  /** The users whose fetched level drops their row below the console tier. */
  ghost predicate DroppedSoFar(before: Table, links: map<int, int>, scope: Scope, members: seq<GlMember>, dropped: set<int>) {
    forall u :: u in dropped <==>
      exists id :: Reports(before, links, scope, members, id, u) && MemberLevel(members, id.key.gitlabId).Some?
  }

  /** Whom the fetched member m drops, if anybody. */
  function DroppedBy(before: Table, links: map<int, int>, scope: Scope, m: GlMember): set<int> {
    var id := RowId(scope, ByGitLabId(m.id));
    if id in before && LosesConsoleTier(before[id], Some(m.accessLevel)) then
      match Reported(before[id], Some(m.accessLevel), Lookup(links, m.id))
      case Some(who) => {who}
      case None => {}
    else {}
  }

  /** The fetched member's row, if the session had read it, is as the sync demands. */
  ghost predicate MemberWritten(before: Table, after: Table, links: map<int, int>, scope: Scope, m: GlMember) {
    forall id :: Lookup(after, id) ==
      if id in before && id == RowId(scope, ByGitLabId(m.id)) then MemberRowAfter(Lookup(before, id), Some(m.accessLevel), Lookup(links, m.id))
      else Lookup(before, id)
  }

  lemma NotYetUpserted(before: Table, now: Table, links: map<int, int>, scope: Scope, members: seq<GlMember>, i: nat)
    requires DistinctMembers(members) && i < |members|
    requires forall id :: Lookup(now, id) == MemberUpserted(before, links, scope, members[..i], id)
    ensures Lookup(now, RowId(scope, ByGitLabId(members[i].id))) == Lookup(before, RowId(scope, ByGitLabId(members[i].id)))
  {
    AbsentMember(members[..i], members[i].id);
  }

  lemma UpsertedOneMore(before: Table, now: Table, after: Table, links: map<int, int>, scope: Scope, members: seq<GlMember>, i: nat)
    requires DistinctMembers(members) && i < |members|
    requires forall id :: Lookup(now, id) == MemberUpserted(before, links, scope, members[..i], id)
    requires MemberWritten(now, after, links, scope, members[i])
    ensures forall id :: Lookup(after, id) == MemberUpserted(before, links, scope, members[..i + 1], id)
  {
    NotYetUpserted(before, now, links, scope, members, i);
    forall id ensures Lookup(after, id) == MemberUpserted(before, links, scope, members[..i + 1], id) {
      assert Lookup(now, id) == MemberUpserted(before, links, scope, members[..i], id);
      if id.key.ByGitLabId? { MemberLevelPrefix(members, i, id.key.gitlabId); }
    }
  }

  lemma DroppedOneMore(before: Table, links: map<int, int>, scope: Scope, members: seq<GlMember>, i: nat, dropped: set<int>)
    requires DistinctMembers(members) && i < |members|
    requires DroppedSoFar(before, links, scope, members[..i], dropped)
    ensures DroppedSoFar(before, links, scope, members[..i + 1], dropped + DroppedBy(before, links, scope, members[i]))
  {
    var m, now, prior := members[i], members[..i + 1], members[..i];
    var id := RowId(scope, ByGitLabId(m.id));
    AbsentMember(prior, m.id);
    forall g ensures MemberLevel(now, g) == if m.id == g then Some(m.accessLevel) else MemberLevel(prior, g) {
      MemberLevelPrefix(members, i, g);
    }
    forall u ensures u in dropped + DroppedBy(before, links, scope, m) <==>
      exists id' :: Reports(before, links, scope, now, id', u) && MemberLevel(now, id'.key.gitlabId).Some?
    {
      if u in dropped {
        var id' :| Reports(before, links, scope, prior, id', u) && MemberLevel(prior, id'.key.gitlabId).Some?;
        assert Reports(before, links, scope, now, id', u);
      } else if u in DroppedBy(before, links, scope, m) {
        assert Reports(before, links, scope, now, id, u);
      }
      if id' :| Reports(before, links, scope, now, id', u) && MemberLevel(now, id'.key.gitlabId).Some? {
        if id' != id { assert Reports(before, links, scope, prior, id', u); }
      }
    }
  }

  /** The dropped and the departed together are whom the scope reports. */
  lemma DroppedAndLeft(before: Table, upserted: Table, links: map<int, int>, scope: Scope, members: seq<GlMember>, dropped: set<int>, u: int)
    requires forall id :: Lookup(upserted, id) == MemberUpserted(before, links, scope, members, id)
    requires DroppedSoFar(before, links, scope, members, dropped)
    ensures u in dropped + LeavingUsers(upserted, MemberIds(before, scope), members) <==>
            exists id :: Reports(before, links, scope, members, id, u)
  {
    var existing := MemberIds(before, scope);
    if u in LeavingUsers(upserted, existing, members) {
      var id :| id in existing && MemberLevel(members, id.key.gitlabId).None?
                && id in upserted && LosesConsoleTier(upserted[id], None) && upserted[id].cnpUser == Some(u);
      assert Lookup(upserted, id) == Lookup(before, id);
      assert Reports(before, links, scope, members, id, u);
    }
    if id :| Reports(before, links, scope, members, id, u) {
      if MemberLevel(members, id.key.gitlabId).None? {
        assert id in existing && Lookup(upserted, id) == Lookup(before, id);
      }
    }
  }

  /** The pairs of one app are the project's reports on it. */
  lemma ProjectPairs(before: Table, links: map<int, int>, apps: map<int, App>, appId: int, members: seq<GlMember>, lostTier: set<int>)
    requires appId in apps && apps[appId].project.Some?
    requires forall u :: u in lostTier <==> exists id :: Reports(before, links, Project(apps[appId].project.value), members, id, u)
    ensures forall a, u ::
      a == appId && ReportsPair(before, links, apps, Project(apps[appId].project.value), members, a, u)
      <==> apps[appId].authEnabled && (a, u) in Pairs({appId}, lostTier)
  {
  }

  /** Every user on every app. */
  function Pairs(appIds: set<int>, users: set<int>): (pairs: set<(int, int)>)
    ensures forall a, u :: (a, u) in pairs <==> a in appIds && u in users
  {
    set a, u | a in appIds && u in users :: (a, u)
  }

  lemma MemberLevelPrefix(members: seq<GlMember>, i: nat, id: int)
    requires i < |members|
    ensures MemberLevel(members[..i + 1], id) ==
            if members[i].id == id then Some(members[i].accessLevel) else MemberLevel(members[..i], id)
  {
    assert members[..i + 1][..i] == members[..i];
  }

  lemma InviteLevelPrefix(invites: seq<GlInvite>, i: nat, email: string)
    requires i < |invites|
    ensures InviteLevel(invites[..i + 1], email) ==
            if invites[i].email == email then Some(invites[i].accessLevel.GetOr(10)) else InviteLevel(invites[..i], email)
  {
    assert invites[..i + 1][..i] == invites[..i];
  }

  lemma {:induction false} AbsentMember(members: seq<GlMember>, id: int)
    ensures MemberLevel(members, id).Some? <==> exists k :: 0 <= k < |members| && members[k].id == id
  {
    if members != [] {
      var n := |members| - 1;
      AbsentMember(members[..n], id);
      assert forall k :: 0 <= k < n ==> members[..n][k] == members[k];
    }
  }

  lemma {:induction false} AbsentInvite(invites: seq<GlInvite>, email: string)
    ensures InviteLevel(invites, email).Some? <==> exists k :: 0 <= k < |invites| && invites[k].email == email
  {
    if invites != [] {
      var n := |invites| - 1;
      AbsentInvite(invites[..n], email);
      assert forall k :: 0 <= k < n ==> invites[..n][k] == invites[k];
    }
  }

  // ----- what a session adds -----

  /** The rows added for fetched members without a row. */
  function NewMembers(rows: Table, links: map<int, int>, scope: Scope, members: seq<GlMember>): seq<Added> {
    if members == [] then []
    else
      var last := members[|members| - 1];
      var id := RowId(scope, ByGitLabId(last.id));
      NewMembers(rows, links, scope, members[..|members| - 1])
      + if id in rows then [] else [Added(id, Row(last.accessLevel, Lookup(links, last.id), Active))]
  }

  function NewInvites(rows: Table, project: int, invites: seq<GlInvite>): seq<Added> {
    if invites == [] then []
    else
      var last := invites[|invites| - 1];
      var id := RowId(Project(project), ByEmail(last.email));
      NewInvites(rows, project, invites[..|invites| - 1])
      + if id in rows then [] else [Added(id, Row(last.accessLevel.GetOr(10), None, PendingInvite))]
  }

  function ScopeAdds(rows: Table, links: map<int, int>, scope: Scope, members: seq<GlMember>, invites: seq<GlInvite>): seq<Added> {
    match scope
    case Group(_) => NewMembers(rows, links, scope, members)
    case Project(p) => NewMembers(rows, links, scope, members) + NewInvites(rows, p, invites)
  }

  /** The rows the session had read are as the sync of the scope demands, and no other row is visible. */
  ghost predicate Rewritten(before: Table, after: Table, links: map<int, int>, scope: Scope,
                            members: seq<GlMember>, invites: seq<GlInvite>) {
    && after.Keys == before.Keys
    && forall id :: id in before ==> Some(after[id]) == RowAfterScope(before, links, scope, members, invites, id)
  }

  /** The row added for an id: its newcomer's, at the fetched level. */
  function NewMemberRow(rows: Table, links: map<int, int>, scope: Scope, members: seq<GlMember>, id: RowId): Option<Row> {
    if id in rows || id.scope != scope || !id.key.ByGitLabId? then None
    else
      var level := MemberLevel(members, id.key.gitlabId);
      if level.Some? then Some(Row(level.value, Lookup(links, id.key.gitlabId), Active)) else None
  }

  function NewInviteRow(rows: Table, project: int, invites: seq<GlInvite>, id: RowId): Option<Row> {
    if id in rows || id.scope != Project(project) || !id.key.ByEmail? then None
    else
      var level := InviteLevel(invites, id.key.email);
      if level.Some? then Some(Row(level.value, None, PendingInvite)) else None
  }

  lemma {:induction false} NewMembersMeaning(rows: Table, links: map<int, int>, scope: Scope, members: seq<GlMember>, id: RowId)
    ensures AddedRow(NewMembers(rows, links, scope, members), id) == NewMemberRow(rows, links, scope, members, id)
  {
    if members != [] {
      var n := |members| - 1;
      var init := NewMembers(rows, links, scope, members[..n]);
      NewMembersMeaning(rows, links, scope, members[..n], id);
      if RowId(scope, ByGitLabId(members[n].id)) in rows {
        assert NewMembers(rows, links, scope, members) == init;
      } else {
        assert NewMembers(rows, links, scope, members)[..|init|] == init;
      }
    }
  }

  lemma {:induction false} NewMembersInsertable(rows: Table, links: map<int, int>, scope: Scope, members: seq<GlMember>)
    requires DistinctMembers(members)
    ensures Insertable(rows, NewMembers(rows, links, scope, members))
  {
    if members != [] {
      var n := |members| - 1;
      var init, id := NewMembers(rows, links, scope, members[..n]), RowId(scope, ByGitLabId(members[n].id));
      NewMembersInsertable(rows, links, scope, members[..n]);
      if id in rows {
        assert NewMembers(rows, links, scope, members) == init;
      } else {
        NewMembersMeaning(rows, links, scope, members[..n], id);
        AbsentMember(members[..n], members[n].id);
        AddedRowMeaning(init, id);
      }
    }
  }

  lemma {:induction false} NewInvitesMeaning(rows: Table, project: int, invites: seq<GlInvite>, id: RowId)
    ensures AddedRow(NewInvites(rows, project, invites), id) == NewInviteRow(rows, project, invites, id)
  {
    if invites != [] {
      var n := |invites| - 1;
      var init := NewInvites(rows, project, invites[..n]);
      NewInvitesMeaning(rows, project, invites[..n], id);
      if RowId(Project(project), ByEmail(invites[n].email)) in rows {
        assert NewInvites(rows, project, invites) == init;
      } else {
        assert NewInvites(rows, project, invites)[..|init|] == init;
      }
    }
  }

  lemma {:induction false} NewInvitesInsertable(rows: Table, project: int, invites: seq<GlInvite>)
    requires DistinctInvites(invites)
    ensures Insertable(rows, NewInvites(rows, project, invites))
  {
    if invites != [] {
      var n := |invites| - 1;
      var init, id := NewInvites(rows, project, invites[..n]), RowId(Project(project), ByEmail(invites[n].email));
      NewInvitesInsertable(rows, project, invites[..n]);
      if id in rows {
        assert NewInvites(rows, project, invites) == init;
      } else {
        NewInvitesMeaning(rows, project, invites[..n], id);
        AbsentInvite(invites[..n], invites[n].email);
        AddedRowMeaning(init, id);
      }
    }
  }

  lemma {:induction false} SameNewInvites(before: Table, mid: Table, project: int, invites: seq<GlInvite>)
    requires mid.Keys == before.Keys
    ensures NewInvites(mid, project, invites) == NewInvites(before, project, invites)
  {
    if invites != [] { SameNewInvites(before, mid, project, invites[..|invites| - 1]); }
  }

  /** A scope's sync adds exactly the rows it demands that the session does not see. */
  lemma ScopeAddsMeaning(rows: Table, links: map<int, int>, scope: Scope, members: seq<GlMember>, invites: seq<GlInvite>, id: RowId)
    ensures AddedRow(ScopeAdds(rows, links, scope, members, invites), id) ==
              if id in rows || id.scope != scope then None else RowAfterScope(rows, links, scope, members, invites, id)
  {
    NewMembersMeaning(rows, links, scope, members, id);
    if scope.Project? {
      NewInvitesMeaning(rows, scope.projectId, invites, id);
      AddedConcat(NewMembers(rows, links, scope, members), NewInvites(rows, scope.projectId, invites), id);
    }
  }

  lemma ScopeAddsInsertable(rows: Table, links: map<int, int>, scope: Scope, members: seq<GlMember>, invites: seq<GlInvite>)
    requires DistinctMembers(members) && DistinctInvites(invites)
    ensures Insertable(rows, ScopeAdds(rows, links, scope, members, invites))
  {
    NewMembersInsertable(rows, links, scope, members);
    if scope.Project? {
      var news, invited := NewMembers(rows, links, scope, members), NewInvites(rows, scope.projectId, invites);
      NewInvitesInsertable(rows, scope.projectId, invites);
      forall id ensures AddedRow(news, id).None? || AddedRow(invited, id).None? {
        NewMembersMeaning(rows, links, scope, members, id);
        NewInvitesMeaning(rows, scope.projectId, invites, id);
      }
      BothInsertable(rows, news, invited);
    }
  }

  /** A row the session had read, after the fetched members were written and before anyone is marked as left. */
  function MemberUpserted(before: Table, links: map<int, int>, scope: Scope, members: seq<GlMember>, id: RowId): Option<Row> {
    var prior := Lookup(before, id);
    if prior.Some? && id.scope == scope && id.key.ByGitLabId? && MemberLevel(members, id.key.gitlabId).Some?
    then MemberRowAfter(prior, MemberLevel(members, id.key.gitlabId), Lookup(links, id.key.gitlabId))
    else prior
  }

  function InviteUpserted(before: Table, project: int, invites: seq<GlInvite>, id: RowId): Option<Row> {
    var prior := Lookup(before, id);
    if prior.Some? && id.scope == Project(project) && id.key.ByEmail? && InviteLevel(invites, id.key.email).Some?
    then InviteRowAfter(prior, InviteLevel(invites, id.key.email))
    else prior
  }

  /** existing_by_gl_id and existing_by_email: the rows of the scope before the sync. */
  function MemberIds(rows: Table, scope: Scope): set<RowId> {
    set id | id in rows && id.scope == scope && id.key.ByGitLabId?
  }

  function InviteIds(rows: Table, scope: Scope): set<RowId> {
    set id | id in rows && id.scope == scope && id.key.ByEmail?
  }

  /** The rows a sync marks as left, among the rows it read before the upserts. */
  ghost function Departing(before: Table, existing: set<RowId>, members: seq<GlMember>): set<RowId> {
    set id | id in existing && id in before && id.key.ByGitLabId?
             && before[id].status == Active && MemberLevel(members, id.key.gitlabId).None?
  }

  ghost function Withdrawn(before: Table, existing: set<RowId>, invites: seq<GlInvite>): set<RowId> {
    set id | id in existing && id in before && id.key.ByEmail?
             && before[id].status == PendingInvite && InviteLevel(invites, id.key.email).None?
  }

  lemma SameDeparting(before: Table, after: Table, existing: set<RowId>, members: seq<GlMember>)
    requires forall id: RowId | id in existing && id.key.ByGitLabId? && MemberLevel(members, id.key.gitlabId).None? ::
      Lookup(before, id) == Lookup(after, id)
    ensures Departing(before, existing, members) == Departing(after, existing, members)
  {
    forall id | id in existing && id.key.ByGitLabId? && MemberLevel(members, id.key.gitlabId).None?
      ensures id in before <==> id in after
      ensures id in before ==> before[id] == after[id]
    {
      assert Lookup(before, id) == Lookup(after, id);
    }
  }

  lemma SameWithdrawn(before: Table, after: Table, existing: set<RowId>, invites: seq<GlInvite>)
    requires forall id: RowId | id in existing && id.key.ByEmail? && InviteLevel(invites, id.key.email).None? ::
      Lookup(before, id) == Lookup(after, id)
    ensures Withdrawn(before, existing, invites) == Withdrawn(after, existing, invites)
  {
    forall id | id in existing && id.key.ByEmail? && InviteLevel(invites, id.key.email).None?
      ensures id in before <==> id in after
      ensures id in before ==> before[id] == after[id]
    {
      assert Lookup(before, id) == Lookup(after, id);
    }
  }

  lemma DepartingStep(before: Table, done: set<RowId>, id: RowId, members: seq<GlMember>)
    requires id !in done && id in before && id.key.ByGitLabId?
    ensures |Departing(before, done + {id}, members)| == |Departing(before, done, members)| +
              if before[id].status == Active && MemberLevel(members, id.key.gitlabId).None? then 1 else 0
  {
    assert Departing(before, done + {id}, members) == Departing(before, done, members) +
      if before[id].status == Active && MemberLevel(members, id.key.gitlabId).None? then {id} else {};
  }

  lemma WithdrawnStep(before: Table, done: set<RowId>, id: RowId, invites: seq<GlInvite>)
    requires id !in done && id in before && id.key.ByEmail?
    ensures |Withdrawn(before, done + {id}, invites)| == |Withdrawn(before, done, invites)| +
              if before[id].status == PendingInvite && InviteLevel(invites, id.key.email).None? then 1 else 0
  {
    assert Withdrawn(before, done + {id}, invites) == Withdrawn(before, done, invites) +
      if before[id].status == PendingInvite && InviteLevel(invites, id.key.email).None? then {id} else {};
  }

  /** The member step leaves the invitation rows alone, so that the two steps together do what a project sync should. */
  lemma MembersThenInvites(before: Table, mid: Table, after: Table, links: map<int, int>, project: int,
                           members: seq<GlMember>, invites: seq<GlInvite>)
    requires forall id: RowId :: Lookup(mid, id) == MemberSynced(before, links, Project(project), members, id)
    requires forall id: RowId :: Lookup(after, id) == InviteSynced(mid, project, invites, id)
    ensures Rewritten(before, after, links, Project(project), members, invites)
    ensures NewInvites(mid, project, invites) == NewInvites(before, project, invites)
    ensures Withdrawn(mid, InviteIds(mid, Project(project)), invites) == Withdrawn(before, InviteIds(before, Project(project)), invites)
  {
    forall id: RowId ensures id in mid <==> id in before
                     ensures id in after <==> id in before
                     ensures id in before ==> Some(after[id]) == RowAfterProject(before, links, project, members, invites, id) {
      assert Lookup(mid, id) == MemberSynced(before, links, Project(project), members, id);
      assert Lookup(after, id) == InviteSynced(mid, project, invites, id);
    }
    SameNewInvites(before, mid, project, invites);
    assert InviteIds(mid, Project(project)) == InviteIds(before, Project(project));
    SameWithdrawn(before, mid, InviteIds(before, Project(project)), invites);
  }

  /** The state of the loop that marks absent members as left. */
  ghost predicate RevokedSoFar(before: Table, now: Table, done: set<RowId>, members: seq<GlMember>, revoked: nat, lostTier: set<int>) {
    && (forall id :: Lookup(now, id) == MemberRevoked(before, done, members, id))
    && |now| == |before|
    && revoked == |Departing(before, done, members)|
    && lostTier == LeavingUsers(before, done, members)
  }

  /** The users of the departing rows that granted the console tier. */
  function LeavingUsers(before: Table, done: set<RowId>, members: seq<GlMember>): set<int> {
    set id | id in done && id in before && id.key.ByGitLabId? && MemberLevel(members, id.key.gitlabId).None?
             && LosesConsoleTier(before[id], None) && before[id].cnpUser.Some? :: before[id].cnpUser.value
  }

  lemma LeavingUsersStep(before: Table, done: set<RowId>, id: RowId, members: seq<GlMember>)
    requires id !in done && id in before && id.key.ByGitLabId?
    ensures LeavingUsers(before, done + {id}, members) == LeavingUsers(before, done, members) +
              if MemberLevel(members, id.key.gitlabId).None? && LosesConsoleTier(before[id], None) && before[id].cnpUser.Some?
              then {before[id].cnpUser.value} else {}
  {
  }

  function MemberRevoked(before: Table, done: set<RowId>, members: seq<GlMember>, id: RowId): Option<Row> {
    var prior := Lookup(before, id);
    if id in done && id.key.ByGitLabId? && MemberLevel(members, id.key.gitlabId).None?
    then MemberRowAfter(prior, None, None) else prior
  }

  lemma StillThere(before: Table, now: Table, done: set<RowId>, id: RowId, members: seq<GlMember>, revoked: nat, lostTier: set<int>)
    requires RevokedSoFar(before, now, done, members, revoked, lostTier)
    requires id !in done && id in before
    ensures id in now && now[id] == before[id]
  {
    assert Lookup(now, id) == MemberRevoked(before, done, members, id);
  }

  lemma RevokedOneMore(before: Table, prev: Table, now: Table, done: set<RowId>, id: RowId, members: seq<GlMember>,
                       revoked: nat, lostTier: set<int>, left: nat, lost: set<int>)
    requires id !in done && id in before && id.key.ByGitLabId?
    requires RevokedSoFar(before, prev, done, members, revoked, lostTier)
    requires forall o :: Lookup(now, o) == MemberRevoked(prev, {id}, members, o)
    requires |now| == |prev|
    requires var absent := MemberLevel(members, id.key.gitlabId).None?;
      var row := before[id];
      && left == (if absent && row.status == Active then 1 else 0)
      && lost == (if absent && LosesConsoleTier(row, None) && row.cnpUser.Some? then {row.cnpUser.value} else {})
    ensures RevokedSoFar(before, now, done + {id}, members, revoked + left, lostTier + lost)
  {
    DepartingStep(before, done, id, members);
    LeavingUsersStep(before, done, id, members);
    forall o ensures Lookup(now, o) == MemberRevoked(before, done + {id}, members, o) {
      assert Lookup(now, o) == MemberRevoked(prev, {id}, members, o);
      assert Lookup(prev, o) == MemberRevoked(before, done, members, o);
    }
  }

  // ----- a whole run over several groups and projects -----

  function Ids(ids: seq<int>): set<int> {
    set i | i in ids
  }

  function ProjectsOf(apps: map<int, App>, appIds: seq<int>): set<int>
    requires forall a :: a in appIds ==> a in apps && apps[a].project.Some?
  {
    set a | a in appIds :: apps[a].project.value
  }

  /** What a run fetches: the answers for the groups and projects it visits. */
  function Visited(gl: GitLab, groups: set<int>, projects: set<int>): GitLab {
    GitLab(map g | g in gl.groupMembers && g in groups :: gl.groupMembers[g],
           map p | p in gl.projectMembers && p in projects :: gl.projectMembers[p],
           map p | p in gl.invitations && p in projects :: gl.invitations[p])
  }

  function FetchedMembers(gl: GitLab, scope: Scope): Option<seq<GlMember>> {
    match scope
    case Group(g) => Lookup(gl.groupMembers, g)
    case Project(p) => Lookup(gl.projectMembers, p)
  }

  function FetchedInvites(gl: GitLab, project: int): seq<GlInvite> {
    Lookup(gl.invitations, project).GetOr([])
  }

  /** Groups have no invitations. */
  function ScopeInvites(gl: GitLab, scope: Scope): seq<GlInvite> {
    match scope
    case Group(_) => []
    case Project(p) => FetchedInvites(gl, p)
  }

  /** Every row after a run, each computed from the same row before it. */
  function RowAfterRun(before: Table, links: map<int, int>, gl: GitLab, id: RowId): Option<Row> {
    match FetchedMembers(gl, id.scope)
    case None => Lookup(before, id)
    case Some(members) => RowAfterScope(before, links, id.scope, members, ScopeInvites(gl, id.scope), id)
  }

  /** Some synced scope of the app reports the user. */
  ghost predicate RunReportsPair(before: Table, links: map<int, int>, apps: map<int, App>, gl: GitLab, app: int, user: int) {
    exists scope :: FetchedMembers(gl, scope).Some?
                    && ReportsPair(before, links, apps, scope, FetchedMembers(gl, scope).value, app, user)
  }

  predicate SharesProject(apps: map<int, App>, a: int, b: int) {
    a in apps && b in apps && apps[a].project == apps[b].project
  }

  /** The app is visited, and no app visited before it has its project. */
  predicate IsFirst(apps: map<int, App>, order: seq<int>, app: int) {
    exists i :: 0 <= i < |order| && order[i] == app && NoneShares(apps, order[..i], app)
  }

  predicate NoneShares(apps: map<int, App>, order: seq<int>, app: int) {
    forall j :: 0 <= j < |order| ==> !SharesProject(apps, order[j], app)
  }

  /**
   The pairs a run hands over, `order` being the apps whose projects it visits: an owning group
   reports the user, or the project does and the app is the first one visited with it.
   */
  ghost predicate RunHandsOver(before: Table, links: map<int, int>, apps: map<int, App>, gl: GitLab, order: seq<int>, app: int, user: int) {
    exists scope :: FetchedMembers(gl, scope).Some?
                    && ReportsPair(before, links, apps, scope, FetchedMembers(gl, scope).value, app, user)
                    && (scope.Project? ==> IsFirst(apps, order, app))
  }

  ghost predicate RunOutcome(before: Table, after: Table, links: map<int, int>, gl: GitLab) {
    forall id :: Lookup(after, id) == RowAfterRun(before, links, gl, id)
  }

  /** No two apps share a project. */
  predicate DistinctProjects(apps: map<int, App>) {
    forall a, b :: a in apps && b in apps && a != b && apps[a].project.Some? ==> apps[a].project != apps[b].project
  }

  predicate NoRepeats(ids: seq<int>) {
    forall i, j :: 0 <= i < j < |ids| ==> ids[i] != ids[j]
  }

  /** A scope's reports depend on that scope's rows only. */
  lemma ReportsAreLocal(before: Table, now: Table, links: map<int, int>, apps: map<int, App>, scope: Scope,
                        members: seq<GlMember>, app: int, user: int)
    requires forall id: RowId :: id.scope == scope ==> Lookup(before, id) == Lookup(now, id)
    ensures ReportsPair(before, links, apps, scope, members, app, user) == ReportsPair(now, links, apps, scope, members, app, user)
  {
    forall id ensures Reports(before, links, scope, members, id, user) == Reports(now, links, scope, members, id, user) {
      assert id.scope == scope ==> Lookup(before, id) == Lookup(now, id);
    }
  }

  /** Visiting one more scope adds exactly that scope's pairs, of the app first visited with it if it is a project. */
  lemma OneMoreScope(before: Table, links: map<int, int>, apps: map<int, App>, gl: GitLab, more: GitLab, order: seq<int>, orderNow: seq<int>,
                     scope: Scope, members: seq<GlMember>, app: int, user: int)
    requires FetchedMembers(gl, scope).None? && FetchedMembers(more, scope) == Some(members)
    requires forall s :: s != scope ==> FetchedMembers(more, s) == FetchedMembers(gl, s)
    requires SameFirsts(apps, order, orderNow, scope)
    ensures RunHandsOver(before, links, apps, more, orderNow, app, user) <==>
            || RunHandsOver(before, links, apps, gl, order, app, user)
            || (ReportsPair(before, links, apps, scope, members, app, user) && (scope.Project? ==> IsFirst(apps, orderNow, app)))
  {
    if RunHandsOver(before, links, apps, gl, order, app, user) {
      var s :| FetchedMembers(gl, s).Some? && ReportsPair(before, links, apps, s, FetchedMembers(gl, s).value, app, user)
               && (s.Project? ==> IsFirst(apps, order, app));
      assert FetchedMembers(more, s) == FetchedMembers(gl, s);
    }
    if ReportsPair(before, links, apps, scope, members, app, user) && (scope.Project? ==> IsFirst(apps, orderNow, app)) {
      assert FetchedMembers(more, scope).Some?;
    }
  }

  /** The apps of every other project are first in both orders or in neither. */
  ghost predicate SameFirsts(apps: map<int, App>, order: seq<int>, orderNow: seq<int>, scope: Scope) {
    forall a :: a in apps && apps[a].project.Some? && Project(apps[a].project.value) != scope ==>
      IsFirst(apps, orderNow, a) == IsFirst(apps, order, a)
  }

  /** One more app in the order: it is first if none before shares its project; nothing changes for the others. */
  lemma FirstGrows(apps: map<int, App>, order: seq<int>, i: nat, app: int)
    requires i < |order|
    ensures IsFirst(apps, order[..i + 1], app) <==>
            IsFirst(apps, order[..i], app) || (app == order[i] && NoneShares(apps, order[..i], app))
  {
    var now, before := order[..i + 1], order[..i];
    if IsFirst(apps, before, app) {
      var k :| 0 <= k < |before| && before[k] == app && NoneShares(apps, before[..k], app);
      assert now[k] == app && now[..k] == before[..k];
    }
    if app == order[i] && NoneShares(apps, before, app) {
      assert now[i] == app && now[..i] == before;
    }
    if IsFirst(apps, now, app) {
      var k :| 0 <= k < |now| && now[k] == app && NoneShares(apps, now[..k], app);
      if k < i { assert before[k] == app && before[..k] == now[..k]; } else { assert now[..k] == before; }
    }
  }

  function AddStats(a: Stats, b: Stats): Stats {
    Stats(a.created + b.created, a.updated + b.updated, a.revoked + b.revoked)
  }

  /** The state of a run after it visited the scopes of `gl`. */
  ghost predicate RunSoFar(before: Table, now: Table, links: map<int, int>, apps: map<int, App>, gl: GitLab, order: seq<int>,
                           lostIn: set<(int, int)>, lost: set<(int, int)>) {
    && RunOutcome(before, now, links, gl)
    && forall a, u :: (a, u) in lost <==> (a, u) in lostIn || RunHandsOver(before, links, apps, gl, order, a, u)
  }

  /** The rows a sync or a run marked as left. */
  ghost function NewlyLeft(before: Table, after: Table): set<RowId> {
    set id | id in before && id in after && before[id].status != Left && after[id].status == Left
  }

  /** When each row changes in one of two phases at most, the rows left in the two add up. */
  lemma LeavingAddsUp(before: Table, mid: Table, after: Table)
    requires forall id: RowId :: Lookup(mid, id) == Lookup(before, id) || Lookup(after, id) == Lookup(mid, id)
    ensures |NewlyLeft(before, after)| == |NewlyLeft(before, mid)| + |NewlyLeft(mid, after)|
  {
    var first, second := NewlyLeft(before, mid), NewlyLeft(mid, after);
    forall id: RowId ensures id in NewlyLeft(before, after) <==> id in first + second {
      assert Lookup(mid, id) == Lookup(before, id) || Lookup(after, id) == Lookup(mid, id);
    }
    forall id | id in first ensures id !in second {
      assert Lookup(mid, id) == Lookup(before, id) || Lookup(after, id) == Lookup(mid, id);
    }
    assert NewlyLeft(before, after) == first + second;
  }

  /** A scope that was not visited yet leaves after the others. */
  lemma ScopeLeaves(before: Table, now: Table, after: Table, links: map<int, int>, seen: GitLab, scope: Scope)
    requires RunOutcome(before, now, links, seen) && FetchedMembers(seen, scope).None?
    requires forall id: RowId :: id.scope != scope ==> Lookup(after, id) == Lookup(now, id)
    ensures |NewlyLeft(before, after)| == |NewlyLeft(before, now)| + |NewlyLeft(now, after)|
  {
    forall id: RowId ensures Lookup(now, id) == Lookup(before, id) || Lookup(after, id) == Lookup(now, id) {
      if id.scope == scope { assert Lookup(now, id) == RowAfterRun(before, links, seen, id); }
    }
    LeavingAddsUp(before, now, after);
  }

  lemma GroupLeft(before: Table, after: Table, links: map<int, int>, group: int, members: seq<GlMember>)
    requires Rewritten(before, after, links, Group(group), members, [])
    ensures Departing(before, MemberIds(before, Group(group)), members) == NewlyLeft(before, after)
  {
    forall id ensures id in Departing(before, MemberIds(before, Group(group)), members) <==> id in NewlyLeft(before, after) {
      assert id in before ==> Some(after[id]) == RowAfterGroup(before, links, group, members, id);
    }
  }

  lemma ProjectLeft(before: Table, after: Table, links: map<int, int>, project: int, members: seq<GlMember>, invites: seq<GlInvite>)
    requires Rewritten(before, after, links, Project(project), members, invites)
    ensures var scope := Project(project);
      |NewlyLeft(before, after)| == |Departing(before, MemberIds(before, scope), members)| + |Withdrawn(before, InviteIds(before, scope), invites)|
  {
    var scope := Project(project);
    var departing, withdrawn := Departing(before, MemberIds(before, scope), members), Withdrawn(before, InviteIds(before, scope), invites);
    forall id ensures id in NewlyLeft(before, after) <==> id in departing + withdrawn {
      ProjectRowLeft(before, after, links, project, members, invites, id);
    }
    assert departing !! withdrawn;
    assert NewlyLeft(before, after) == departing + withdrawn;
  }

  lemma ProjectRowLeft(before: Table, after: Table, links: map<int, int>, project: int,
                       members: seq<GlMember>, invites: seq<GlInvite>, id: RowId)
    requires Rewritten(before, after, links, Project(project), members, invites)
    ensures id in NewlyLeft(before, after) <==>
      || id in Departing(before, MemberIds(before, Project(project)), members)
      || id in Withdrawn(before, InviteIds(before, Project(project)), invites)
  {
    if id in before {
      assert Some(after[id]) == RowAfterProject(before, links, project, members, invites, id);
    }
  }

  /** The members and invitations a run fetched. */
  function FetchedByGroups(gl: GitLab, groups: seq<int>): nat {
    if groups == [] then 0
    else FetchedByGroups(gl, groups[..|groups| - 1]) + |Lookup(gl.groupMembers, groups[|groups| - 1]).GetOr([])|
  }

  function FetchedByProjects(gl: GitLab, apps: map<int, App>, appIds: seq<int>): nat
    requires forall a :: a in appIds ==> a in apps && apps[a].project.Some?
  {
    if appIds == [] then 0
    else
      var last := appIds[|appIds| - 1];
      assert last in appIds;
      FetchedByProjects(gl, apps, appIds[..|appIds| - 1]) + FetchedByProject(gl, apps[last].project.value)
  }

  function FetchedByProject(gl: GitLab, project: int): nat {
    if project in gl.projectMembers then |gl.projectMembers[project]| + |FetchedInvites(gl, project)| else 0
  }

  lemma FetchedByNext(gl: GitLab, apps: map<int, App>, appIds: seq<int>, i: nat)
    requires i < |appIds| && forall a :: a in appIds ==> a in apps && apps[a].project.Some?
    ensures appIds[i] in apps && apps[appIds[i]].project.Some?
    ensures FetchedByProjects(gl, apps, appIds[..i + 1]) ==
            FetchedByProjects(gl, apps, appIds[..i]) + FetchedByProject(gl, apps[appIds[i]].project.value)
  {
    var app := appIds[i];
    assert app in appIds;
    assert appIds[..i + 1][..i] == appIds[..i];
  }

  /** The counters of a loop: rows created, rows marked as left, and every other fetched entry updated. */
  ghost predicate Counted(before: Table, now: Table, stats: Stats, fetched: nat) {
    && |now| == |before| + stats.created
    && |NewlyLeft(before, now)| == stats.revoked
    && stats.created + stats.updated == fetched
  }

  /** One step of a run's loop: a scope not visited before is synced from the current rows. */
  lemma ScopeSynced(before: Table, now: Table, after: Table, links: map<int, int>, apps: map<int, App>, seen: GitLab, more: GitLab,
                    order: seq<int>, orderNow: seq<int>, scope: Scope, members: seq<GlMember>,
                    lostIn: set<(int, int)>, lostNow: set<(int, int)>, lost: set<(int, int)>)
    requires RunSoFar(before, now, links, apps, seen, order, lostIn, lostNow)
    requires FetchedMembers(seen, scope).None? && FetchedMembers(more, scope) == Some(members)
    requires forall s :: s != scope ==> FetchedMembers(more, s) == FetchedMembers(seen, s)
    requires forall p :: Project(p) != scope ==> FetchedInvites(more, p) == FetchedInvites(seen, p)
    requires SameFirsts(apps, order, orderNow, scope)
    requires forall id :: Lookup(after, id) == RowAfterScope(now, links, scope, members, ScopeInvites(more, scope), id)
    requires forall a, u :: (a, u) in lost <==>
               || (a, u) in lostNow
               || (ReportsPair(now, links, apps, scope, members, a, u) && (scope.Project? ==> IsFirst(apps, orderNow, a)))
    ensures RunSoFar(before, after, links, apps, more, orderNow, lostIn, lost)
  {
    forall id: RowId | id.scope == scope ensures Lookup(now, id) == Lookup(before, id) {
      assert Lookup(now, id) == RowAfterRun(before, links, seen, id);
    }
    forall a, u ensures (a, u) in lost <==> (a, u) in lostIn || RunHandsOver(before, links, apps, more, orderNow, a, u) {
      ReportsAreLocal(before, now, links, apps, scope, members, a, u);
      OneMoreScope(before, links, apps, seen, more, order, orderNow, scope, members, a, u);
    }
    forall id ensures Lookup(after, id) == RowAfterRun(before, links, more, id) {
      assert Lookup(now, id) == RowAfterRun(before, links, seen, id);
    }
  }

  /** A step that fetched nothing new, on a project already visited or not answered, leaves the run as it was. */
  lemma NothingNew(before: Table, now: Table, links: map<int, int>, apps: map<int, App>, seen: GitLab, more: GitLab,
                   order: seq<int>, orderNow: seq<int>, lostIn: set<(int, int)>, lost: set<(int, int)>)
    requires RunSoFar(before, now, links, apps, seen, order, lostIn, lost)
    requires forall s :: FetchedMembers(more, s) == FetchedMembers(seen, s)
    requires forall p :: p in seen.projectMembers ==> FetchedInvites(more, p) == FetchedInvites(seen, p)
    requires forall a :: a in apps && apps[a].project.Some? && apps[a].project.value in seen.projectMembers ==>
               IsFirst(apps, orderNow, a) == IsFirst(apps, order, a)
    ensures RunSoFar(before, now, links, apps, more, orderNow, lostIn, lost)
  {
    forall id ensures Lookup(now, id) == RowAfterRun(before, links, more, id) {
      assert Lookup(now, id) == RowAfterRun(before, links, seen, id);
    }
    forall a, u ensures RunHandsOver(before, links, apps, more, orderNow, a, u) == RunHandsOver(before, links, apps, seen, order, a, u) {
    }
  }

  // ----- the session of a run -----

  ghost predicate SameKeysAt(before: Table, rows: Table, scope: Scope) {
    forall id: RowId :: id.scope == scope ==> (id in before <==> id in rows)
  }

  /** GitLab lists a member or an invitation of the project that has no row. */
  ghost predicate HasNewcomer(rows: Table, gl: GitLab, project: int) {
    project in gl.projectMembers && exists key :: IsNewcomer(rows, gl, project, key)
  }

  predicate IsNewcomer(rows: Table, gl: GitLab, project: int, key: MemberKey)
    requires project in gl.projectMembers
  {
    && RowId(Project(project), key) !in rows
    && match key
       case ByGitLabId(g) => MemberLevel(gl.projectMembers[project], g).Some?
       case ByEmail(e) => InviteLevel(FetchedInvites(gl, project), e).Some?
  }

  /** Two apps of the run share a project with a newcomer: the session adds the same row twice. */
  ghost predicate SharedNewcomer(rows: Table, apps: map<int, App>, gl: GitLab, order: seq<int>) {
    exists i, j :: 0 <= i < j < |order| && NewcomerOfBoth(rows, apps, gl, order[i], order[j])
  }

  ghost predicate NewcomerOfBoth(rows: Table, apps: map<int, App>, gl: GitLab, a: int, b: int) {
    SharesProject(apps, a, b) && apps[a].project.Some? && HasNewcomer(rows, gl, apps[a].project.value)
  }

  /** Syncing a scope none of whose rows the session added is, once written, the specified sync. */
  lemma ScopeFlushed(before: Table, adds: seq<Added>, after: Table, news: seq<Added>, links: map<int, int>, apps: map<int, App>,
                     scope: Scope, members: seq<GlMember>, invites: seq<GlInvite>)
    requires Insertable(before, adds) && Rewritten(before, after, links, scope, members, invites)
    requires DistinctMembers(members) && DistinctInvites(invites)
    requires forall id: RowId :: id.scope == scope ==> AddedRow(adds, id).None?
    requires news == ScopeAdds(before, links, scope, members, invites)
    ensures Insertable(after, adds + news)
    ensures forall id :: Lookup(Flushed(after, adds + news), id)
                         == RowAfterScope(Flushed(before, adds), links, scope, members, invites, id)
    ensures NewlyLeft(Flushed(before, adds), Flushed(after, adds + news)) == NewlyLeft(before, after)
    ensures forall a, u :: ReportsPair(Flushed(before, adds), links, apps, scope, members, a, u)
                           == ReportsPair(before, links, apps, scope, members, a, u)
  {
    forall id ensures AddedRow(news, id) ==
        if id in before || id.scope != scope then None else RowAfterScope(before, links, scope, members, invites, id) {
      ScopeAddsMeaning(before, links, scope, members, invites, id);
    }
    ScopeAddsInsertable(before, links, scope, members, invites);
    BothInsertable(before, adds, news);
    forall id
      ensures Lookup(Flushed(before, adds), id) == if AddedRow(adds, id).Some? then AddedRow(adds, id) else Lookup(before, id)
      ensures Lookup(Flushed(after, adds + news), id) == RowAfterScope(Flushed(before, adds), links, scope, members, invites, id)
      ensures AddedRow(adds, id).Some? ==> id !in before && Lookup(Flushed(after, adds + news), id) == AddedRow(adds, id)
    {
      AddedRowMeaning(adds, id);
      AddedConcat(adds, news, id);
      FlushedLookup(before, adds, id);
      FlushedLookup(after, adds + news, id);
    }
    LeftOfFlushed(before, adds, after, news);
    forall a, u ensures ReportsPair(Flushed(before, adds), links, apps, scope, members, a, u)
                        == ReportsPair(before, links, apps, scope, members, a, u) {
      ReportsAreLocal(Flushed(before, adds), before, links, apps, scope, members, a, u);
    }
  }

  lemma LeftOfFlushed(before: Table, adds: seq<Added>, after: Table, news: seq<Added>)
    requires after.Keys == before.Keys && Insertable(before, adds) && Insertable(after, adds + news)
    ensures NewlyLeft(Flushed(before, adds), Flushed(after, adds + news)) == NewlyLeft(before, after)
  {
    forall id ensures id in NewlyLeft(Flushed(before, adds), Flushed(after, adds + news)) <==> id in NewlyLeft(before, after) {
      AddedRowMeaning(adds, id);
      AddedRowMeaning(news, id);
      AddedRowMeaning(adds + news, id);
      AddedConcat(adds, news, id);
      FlushedLookup(before, adds, id);
      FlushedLookup(after, adds + news, id);
      if AddedRow(adds, id).Some? && AddedRow(news, id).Some? { AddedTwice(after, adds, news, id); }
    }
  }

  /** Nothing was added to a scope the run has not visited. */
  lemma UnvisitedHasNoAdds(before: Table, rows: Table, adds: seq<Added>, links: map<int, int>, seen: GitLab, scope: Scope)
    requires SameKeysAt(before, rows, scope) && Insertable(rows, adds)
    requires RunOutcome(before, Flushed(rows, adds), links, seen) && FetchedMembers(seen, scope).None?
    ensures forall id: RowId :: id.scope == scope ==> AddedRow(adds, id).None?
  {
    forall id: RowId | id.scope == scope ensures AddedRow(adds, id).None? {
      assert Lookup(Flushed(rows, adds), id) == RowAfterRun(before, links, seen, id);
      FlushedLookup(rows, adds, id);
      AddedRowMeaning(adds, id);
    }
  }

  /**
   A second app with a project the session has visited: no row it sees changes and nobody is
   reported, but its SELECT does not see the rows added for the first app, so every newcomer is
   added again, and the session can be committed if and only if there is none.
   */
  lemma ProjectAgain(before: Table, rows: Table, adds: seq<Added>, after: Table, news: seq<Added>, links: map<int, int>,
                     apps: map<int, App>, seen: GitLab, project: int)
    requires SameKeysAt(before, rows, Project(project)) && Insertable(rows, adds)
    requires RunOutcome(before, Flushed(rows, adds), links, seen) && project in seen.projectMembers
    requires var members, invites := seen.projectMembers[project], FetchedInvites(seen, project);
      && Rewritten(rows, after, links, Project(project), members, invites)
      && news == ScopeAdds(rows, links, Project(project), members, invites)
    ensures after == rows
    ensures forall a, u :: !ReportsPair(rows, links, apps, Project(project), seen.projectMembers[project], a, u)
    ensures forall id :: AddedRow(news, id).Some? ==> AddedRow(adds, id).Some?
    ensures news != [] <==> HasNewcomer(before, seen, project)
    ensures Insertable(after, adds + news) <==> !HasNewcomer(before, seen, project)
  {
    forall id
      ensures id in rows ==> Some(rows[id]) == RowAfterRun(before, links, seen, id)
      ensures id !in rows && RowAfterRun(before, links, seen, id).Some? ==> AddedRow(adds, id).Some?
    {
      SeenRow(before, rows, adds, links, seen, id);
    }
    AgainChangesNothing(before, rows, after, links, apps, seen, project);
    AgainMeansTwice(before, rows, adds, news, links, seen, project);
    if HasNewcomer(before, seen, project) {
      AddedRowMeaning(news, news[0].id);
      AddedTwice(after, adds, news, news[0].id);
    } else {
      assert adds + news == adds;
    }
  }

  /** What a committable session reads and what it added are the specified rows. */
  lemma SeenRow(before: Table, rows: Table, adds: seq<Added>, links: map<int, int>, seen: GitLab, id: RowId)
    requires Insertable(rows, adds) && RunOutcome(before, Flushed(rows, adds), links, seen)
    ensures id in rows ==> Some(rows[id]) == RowAfterRun(before, links, seen, id)
    ensures id !in rows && RowAfterRun(before, links, seen, id).Some? ==> AddedRow(adds, id).Some?
  {
    FlushedLookup(rows, adds, id);
    AddedRowMeaning(adds, id);
    assert Lookup(Flushed(rows, adds), id) == RowAfterRun(before, links, seen, id);
  }

  lemma AgainChangesNothing(before: Table, rows: Table, after: Table, links: map<int, int>, apps: map<int, App>, seen: GitLab, project: int)
    requires project in seen.projectMembers
    requires forall id :: id in rows ==> Some(rows[id]) == RowAfterRun(before, links, seen, id)
    requires Rewritten(rows, after, links, Project(project), seen.projectMembers[project], FetchedInvites(seen, project))
    ensures after == rows
    ensures forall a, u :: !ReportsPair(rows, links, apps, Project(project), seen.projectMembers[project], a, u)
  {
    forall id | id in rows ensures after[id] == rows[id] {
      assert Some(rows[id]) == RowAfterRun(before, links, seen, id);
    }
    forall id: RowId, u ensures !Reports(rows, links, Project(project), seen.projectMembers[project], id, u) {
      if id in rows { assert Some(rows[id]) == RowAfterRun(before, links, seen, id); }
    }
  }

  lemma AgainMeansTwice(before: Table, rows: Table, adds: seq<Added>, news: seq<Added>, links: map<int, int>, seen: GitLab, project: int)
    requires SameKeysAt(before, rows, Project(project)) && project in seen.projectMembers
    requires forall id :: id !in rows && RowAfterRun(before, links, seen, id).Some? ==> AddedRow(adds, id).Some?
    requires news == ScopeAdds(rows, links, Project(project), seen.projectMembers[project], FetchedInvites(seen, project))
    ensures forall id :: AddedRow(news, id).Some? ==> AddedRow(adds, id).Some?
    ensures news != [] <==> HasNewcomer(before, seen, project)
  {
    var members, invites := seen.projectMembers[project], FetchedInvites(seen, project);
    forall id: RowId ensures AddedRow(news, id).Some? <==> id.scope == Project(project) && IsNewcomer(before, seen, project, id.key)
                     ensures AddedRow(news, id).Some? ==> AddedRow(adds, id).Some? {
      ScopeAddsMeaning(rows, links, Project(project), members, invites, id);
    }
    if news != [] {
      AddedRowMeaning(news, news[0].id);
      assert IsNewcomer(before, seen, project, news[0].id.key);
    }
    if key :| IsNewcomer(before, seen, project, key) {
      assert AddedRow(news, RowId(Project(project), key)).Some?;
    }
  }

  /** One more app: it collides with an earlier app of its project, or nothing about collisions changes. */
  lemma NextShared(rows: Table, apps: map<int, App>, gl: GitLab, appIds: seq<int>, i: nat)
    requires i < |appIds| && forall a :: a in appIds ==> a in apps && apps[a].project.Some?
    ensures appIds[i] in apps && apps[appIds[i]].project.Some?
    ensures var p := apps[appIds[i]].project.value;
      SharedNewcomer(rows, apps, gl, appIds[..i + 1]) <==>
        || SharedNewcomer(rows, apps, gl, appIds[..i])
        || (p in ProjectsOf(apps, appIds[..i]) && HasNewcomer(rows, gl, p))
  {
    var app := appIds[i];
    assert app in appIds;
    var now, before, p := appIds[..i + 1], appIds[..i], apps[app].project.value;
    if SharedNewcomer(rows, apps, gl, before) {
      var j, k :| 0 <= j < k < |before| && NewcomerOfBoth(rows, apps, gl, before[j], before[k]);
      assert NewcomerOfBoth(rows, apps, gl, now[j], now[k]);
    }
    if p in ProjectsOf(apps, before) && HasNewcomer(rows, gl, p) {
      var a :| a in before && apps[a].project.value == p;
      var j :| 0 <= j < |before| && before[j] == a;
      assert NewcomerOfBoth(rows, apps, gl, now[j], now[i]);
    }
    if SharedNewcomer(rows, apps, gl, now) {
      var j, k :| 0 <= j < k < |now| && NewcomerOfBoth(rows, apps, gl, now[j], now[k]);
      if k < i {
        assert NewcomerOfBoth(rows, apps, gl, before[j], before[k]);
      } else {
        assert before[j] in before;
      }
    }
  }

  /** Newcomers of the visited projects depend on those projects' rows and answers only. */
  lemma SameSharedNewcomer(rows: Table, now: Table, apps: map<int, App>, gl: GitLab, groups: set<int>, order: seq<int>)
    requires forall id: RowId :: id.scope.Project? ==> (id in rows <==> id in now)
    requires forall a :: a in order ==> a in apps && apps[a].project.Some?
    ensures SharedNewcomer(now, apps, gl, order) == SharedNewcomer(rows, apps, gl, order)
    ensures SharedNewcomer(rows, apps, Visited(gl, groups, ProjectsOf(apps, order)), order) == SharedNewcomer(rows, apps, gl, order)
  {
    var seen := Visited(gl, groups, ProjectsOf(apps, order));
    forall i, j | 0 <= i < j < |order|
      ensures NewcomerOfBoth(now, apps, gl, order[i], order[j]) == NewcomerOfBoth(rows, apps, gl, order[i], order[j])
      ensures NewcomerOfBoth(rows, apps, seen, order[i], order[j]) == NewcomerOfBoth(rows, apps, gl, order[i], order[j])
    {
      var a := order[i];
      assert a in order;
      var p := apps[a].project.value;
      assert p in ProjectsOf(apps, order);
      if p in gl.projectMembers {
        assert FetchedInvites(seen, p) == FetchedInvites(gl, p);
        forall key ensures IsNewcomer(now, gl, p, key) == IsNewcomer(rows, gl, p, key)
                   ensures IsNewcomer(rows, seen, p, key) == IsNewcomer(rows, gl, p, key) {
        }
      }
    }
  }

  /**
   The session after a run visited the projects of `order`: it can be committed iff no project
   of two of them has a newcomer, and then the run is as specified once the adds are written.
   */
  ghost predicate ProjectsSoFar(before: Table, rows: Table, adds: seq<Added>, links: map<int, int>, apps: map<int, App>, gl: GitLab,
                                order: seq<int>, lostIn: set<(int, int)>, lost: set<(int, int)>)
    requires forall a :: a in order ==> a in apps && apps[a].project.Some?
  {
    && (forall p :: SameKeysAt(before, rows, Project(p)))
    && (Insertable(rows, adds) <==> !SharedNewcomer(before, apps, gl, order))
    && (Insertable(rows, adds) ==>
          RunSoFar(before, Flushed(rows, adds), links, apps, Visited(gl, {}, ProjectsOf(apps, order)), order, lostIn, lost))
  }

  /** What visiting one more app means for the answers seen. */
  lemma NextProject(apps: map<int, App>, appIds: seq<int>, i: nat, gl: GitLab, seen: GitLab, more: GitLab)
    requires i < |appIds|
    requires forall a :: a in appIds ==> a in apps && apps[a].project.Some?
    requires seen == Visited(gl, {}, ProjectsOf(apps, appIds[..i]))
    requires more == Visited(gl, {}, ProjectsOf(apps, appIds[..i + 1]))
    ensures var scope := Project(apps[appIds[i]].project.value);
      && FetchedMembers(more, scope) == FetchedMembers(gl, scope)
      && FetchedInvites(more, scope.projectId) == FetchedInvites(gl, scope.projectId)
      && (forall s :: s != scope ==> FetchedMembers(more, s) == FetchedMembers(seen, s))
      && (forall p :: p != scope.projectId ==> FetchedInvites(more, p) == FetchedInvites(seen, p))
    ensures var p := apps[appIds[i]].project.value;
      if p in ProjectsOf(apps, appIds[..i]) then seen == more else p !in seen.projectMembers
  {
    var app := appIds[i];
    assert app in appIds;
    var p := apps[app].project.value;
    assert appIds[..i + 1] == appIds[..i] + [app];
    assert ProjectsOf(apps, appIds[..i + 1]) == ProjectsOf(apps, appIds[..i]) + {p};
    if p in ProjectsOf(apps, appIds[..i]) {
      assert ProjectsOf(apps, appIds[..i + 1]) == ProjectsOf(apps, appIds[..i]);
    }
  }

  /** What it means for the firsts: an app whose project was visited changes nothing, another one becomes its project's first. */
  lemma NextFirst(apps: map<int, App>, appIds: seq<int>, i: nat)
    requires NoRepeats(appIds) && i < |appIds|
    requires forall a :: a in appIds ==> a in apps && apps[a].project.Some?
    ensures appIds[i] in apps && apps[appIds[i]].project.Some?
    ensures var p := apps[appIds[i]].project.value;
      && SameFirsts(apps, appIds[..i], appIds[..i + 1], Project(p))
      && (p in ProjectsOf(apps, appIds[..i]) ==> forall a :: IsFirst(apps, appIds[..i + 1], a) == IsFirst(apps, appIds[..i], a))
      && (p !in ProjectsOf(apps, appIds[..i]) ==>
            forall a :: a in apps && apps[a].project == Some(p) ==> (IsFirst(apps, appIds[..i + 1], a) <==> a == appIds[i]))
  {
    assert appIds[i] in appIds;
    var p, before := apps[appIds[i]].project.value, appIds[..i];
    forall a ensures IsFirst(apps, appIds[..i + 1], a) <==> IsFirst(apps, before, a) || (a == appIds[i] && NoneShares(apps, before, a)) {
      FirstGrows(apps, appIds, i, a);
    }
    if p in ProjectsOf(apps, before) {
      SomeShares(apps, before, appIds[i], p);
    } else {
      NobodyShares(apps, before, p);
    }
  }

  lemma SomeShares(apps: map<int, App>, order: seq<int>, app: int, p: int)
    requires forall a :: a in order ==> a in apps && apps[a].project.Some?
    requires p in ProjectsOf(apps, order) && app in apps && apps[app].project == Some(p)
    ensures !NoneShares(apps, order, app)
  {
    var b :| b in order && apps[b].project.value == p;
    var j :| 0 <= j < |order| && order[j] == b;
    assert SharesProject(apps, order[j], app);
  }

  lemma NobodyShares(apps: map<int, App>, order: seq<int>, p: int)
    requires forall a :: a in order ==> a in apps && apps[a].project.Some?
    requires p !in ProjectsOf(apps, order)
    ensures forall a :: a in apps && apps[a].project == Some(p) ==> NoneShares(apps, order, a) && !IsFirst(apps, order, a)
  {
    forall a | a in apps && apps[a].project == Some(p) ensures NoneShares(apps, order, a) && !IsFirst(apps, order, a) {
      forall j | 0 <= j < |order| ensures !SharesProject(apps, order[j], a) {
        assert order[j] in order;
      }
    }
  }

  lemma NothingVisited(rows: Table, links: map<int, int>, apps: map<int, App>, gl: GitLab, lost: set<(int, int)>)
    ensures RunSoFar(rows, rows, links, apps, Visited(gl, {}, {}), [], lost, lost)
  {
    forall a, u ensures !RunHandsOver(rows, links, apps, Visited(gl, {}, {}), [], a, u) {
    }
  }

  /** A project's reports are the same before and after the groups were synced. */
  lemma SameProjectReports(before: Table, mid: Table, links: map<int, int>, apps: map<int, App>, first: GitLab, project: int,
                           members: seq<GlMember>, app: int, user: int)
    requires RunOutcome(before, mid, links, first) && first.projectMembers == map[]
    ensures ReportsPair(before, links, apps, Project(project), members, app, user)
         == ReportsPair(mid, links, apps, Project(project), members, app, user)
  {
    forall id: RowId | id.scope == Project(project) ensures Lookup(mid, id) == Lookup(before, id) {
      assert Lookup(mid, id) == RowAfterRun(before, links, first, id);
    }
    ReportsAreLocal(before, mid, links, apps, Project(project), members, app, user);
  }

  lemma GroupsThenProjectsHandOver(before: Table, mid: Table, links: map<int, int>, apps: map<int, App>, gl: GitLab,
                                   groups: set<int>, projects: set<int>, order: seq<int>, app: int, user: int)
    requires RunOutcome(before, mid, links, Visited(gl, groups, {}))
    ensures RunHandsOver(before, links, apps, Visited(gl, groups, projects), order, app, user) <==>
      || RunHandsOver(before, links, apps, Visited(gl, groups, {}), [], app, user)
      || RunHandsOver(mid, links, apps, Visited(gl, {}, projects), order, app, user)
  {
    var first, second, both := Visited(gl, groups, {}), Visited(gl, {}, projects), Visited(gl, groups, projects);
    forall scope: Scope
      ensures scope.Group? ==> FetchedMembers(both, scope) == FetchedMembers(first, scope) && FetchedMembers(second, scope).None?
      ensures scope.Project? ==> FetchedMembers(both, scope) == FetchedMembers(second, scope) && FetchedMembers(first, scope).None?
    {
    }
    forall p | p in second.projectMembers
      ensures ReportsPair(before, links, apps, Project(p), second.projectMembers[p], app, user)
           == ReportsPair(mid, links, apps, Project(p), second.projectMembers[p], app, user)
    {
      SameProjectReports(before, mid, links, apps, first, p, second.projectMembers[p], app, user);
    }
  }

  lemma GroupsThenProjects(before: Table, mid: Table, after: Table, links: map<int, int>, apps: map<int, App>, gl: GitLab,
                           groups: set<int>, projects: set<int>, order: seq<int>, lostMid: set<(int, int)>, lost: set<(int, int)>)
    requires RunSoFar(before, mid, links, apps, Visited(gl, groups, {}), [], {}, lostMid)
    requires RunSoFar(mid, after, links, apps, Visited(gl, {}, projects), order, lostMid, lost)
    ensures RunSoFar(before, after, links, apps, Visited(gl, groups, projects), order, {}, lost)
  {
    forall id ensures Lookup(after, id) == RowAfterRun(before, links, Visited(gl, groups, projects), id) {
      assert Lookup(mid, id) == RowAfterRun(before, links, Visited(gl, groups, {}), id);
      assert Lookup(after, id) == RowAfterRun(mid, links, Visited(gl, {}, projects), id);
    }
    forall a, u ensures (a, u) in lost <==> RunHandsOver(before, links, apps, Visited(gl, groups, projects), order, a, u) {
      GroupsThenProjectsHandOver(before, mid, links, apps, gl, groups, projects, order, a, u);
    }
  }

  ghost predicate LeftSoFar(before: Table, rows: Table, adds: seq<Added>, revoked: nat) {
    Insertable(rows, adds) ==> |NewlyLeft(before, Flushed(rows, adds))| == revoked
  }

  /** Syncing the groups adds group rows only. */
  lemma OnlyGroupAdds(before: Table, rows: Table, adds: seq<Added>, links: map<int, int>, gl: GitLab, groups: set<int>)
    requires rows.Keys == before.Keys && RunOutcome(before, Flushed(rows, adds), links, Visited(gl, groups, {}))
    ensures forall id: RowId :: id.scope.Project? ==> (id in before <==> id in Flushed(rows, adds))
    ensures forall p :: SameKeysAt(Flushed(rows, adds), rows, Project(p))
  {
    forall id: RowId | id.scope.Project? ensures id in before <==> id in Flushed(rows, adds) {
      assert Lookup(Flushed(rows, adds), id) == RowAfterRun(before, links, Visited(gl, groups, {}), id);
    }
  }

  /** One step of the loop over projects, from a session that could be committed. */
  lemma ProjectVisited(before: Table, now: Table, adds: seq<Added>, rows: Table, pending: seq<Added>, links: map<int, int>,
                       apps: map<int, App>, gl: GitLab, appIds: seq<int>, i: nat, stats: Stats,
                       lostIn: set<(int, int)>, lostNow: set<(int, int)>, lost: set<(int, int)>)
    requires WellFormed(gl) && NoRepeats(appIds) && i < |appIds|
    requires forall a :: a in appIds ==> a in apps && apps[a].project.Some?
    requires appIds[i] in apps && apps[appIds[i]].project.Some?
    requires ProjectsSoFar(before, now, adds, links, apps, gl, appIds[..i], lostIn, lostNow) && Insertable(now, adds)
    requires stats.revoked == |NewlyLeft(now, rows)|
    requires var p := apps[appIds[i]].project.value;
      if p !in gl.projectMembers then rows == now && pending == adds && lost == lostNow
      else
        var members, invites := gl.projectMembers[p], FetchedInvites(gl, p);
        && Rewritten(now, rows, links, Project(p), members, invites)
        && pending == adds + ScopeAdds(now, links, Project(p), members, invites)
        && forall a, u ::
             ((a, u) in lost <==>
              || (a, u) in lostNow
              || (a == appIds[i] && ReportsPair(now, links, apps, Project(p), members, a, u)))
    ensures ProjectsSoFar(before, rows, pending, links, apps, gl, appIds[..i + 1], lostIn, lost)
    ensures Insertable(rows, pending) ==>
      |NewlyLeft(before, Flushed(rows, pending))| == |NewlyLeft(before, Flushed(now, adds))| + stats.revoked
  {
    var id := appIds[i];
    var p := apps[id].project.value;
    var seen, more := Visited(gl, {}, ProjectsOf(apps, appIds[..i])), Visited(gl, {}, ProjectsOf(apps, appIds[..i + 1]));
    NextProject(apps, appIds, i, gl, seen, more);
    NextFirst(apps, appIds, i);
    NextShared(before, apps, gl, appIds, i);
    var view := Flushed(now, adds);
    if p !in gl.projectMembers {
      assert NewlyLeft(now, now) == {};
      NothingNew(before, view, links, apps, seen, more, appIds[..i], appIds[..i + 1], lostIn, lost);
    } else {
      var members, invites := gl.projectMembers[p], FetchedInvites(gl, p);
      var news := ScopeAdds(now, links, Project(p), members, invites);
      if p in seen.projectMembers {
        ProjectAgain(before, now, adds, rows, news, links, apps, seen, p);
        assert NewlyLeft(now, now) == {};
        SeenNewcomers(before, gl, seen, p);
        if Insertable(rows, pending) {
          assert pending == adds;
          NothingNew(before, view, links, apps, seen, more, appIds[..i], appIds[..i + 1], lostIn, lost);
        }
      } else {
        UnvisitedHasNoAdds(before, now, adds, links, seen, Project(p));
        ScopeFlushed(now, adds, rows, news, links, apps, Project(p), members, invites);
        ScopeSynced(before, view, Flushed(rows, pending), links, apps, seen, more, appIds[..i], appIds[..i + 1], Project(p), members,
                    lostIn, lostNow, lost);
        ScopeLeaves(before, view, Flushed(rows, pending), links, seen, Project(p));
      }
    }
  }

  lemma SeenNewcomers(rows: Table, gl: GitLab, seen: GitLab, p: int)
    requires p in gl.projectMembers && p in seen.projectMembers && seen.projectMembers[p] == gl.projectMembers[p]
    requires FetchedInvites(seen, p) == FetchedInvites(gl, p)
    ensures HasNewcomer(rows, seen, p) == HasNewcomer(rows, gl, p)
  {
    forall key ensures IsNewcomer(rows, seen, p, key) == IsNewcomer(rows, gl, p, key) {
    }
  }

  /**
   `rows` is the membership table; during a run, as the session's SELECTs see it. The session does
   not flush before it reads (autoflush=False), so what it added stays in `pending` until the commit.
   */
  class Mirror {
    var rows: Table
    var pending: seq<Added>
    var links: map<int, int>   // users.gitlab_user_id -> users.id
    var apps: map<int, App>

    constructor (rows: Table, links: map<int, int>, apps: map<int, App>)
      ensures this.rows == rows && this.links == links && this.apps == apps && pending == []
    {
      this.rows, this.links, this.apps, pending := rows, links, apps, [];
    }

    /** The loop "upsert active members" of _sync_group and _sync_project. */
    method UpsertMembers(scope: Scope, members: seq<GlMember>) returns (created: nat, lostTier: set<int>)
      requires DistinctMembers(members)
      modifies this`rows, this`pending
      ensures forall id :: Lookup(rows, id) == MemberUpserted(old(rows), links, scope, members, id)
      ensures pending == old(pending) + NewMembers(old(rows), links, scope, members)
      ensures |pending| == |old(pending)| + created && created <= |members|
      ensures DroppedSoFar(old(rows), links, scope, members, lostTier)
    {
      created, lostTier := 0, {};
      ghost var before := rows;
      for i := 0 to |members|
        invariant forall id :: Lookup(rows, id) == MemberUpserted(before, links, scope, members[..i], id)
        invariant pending == old(pending) + NewMembers(before, links, scope, members[..i])
        invariant |pending| == |old(pending)| + created && created <= i
        invariant DroppedSoFar(before, links, scope, members[..i], lostTier)
      {
        ghost var prev := rows;
        NotYetUpserted(before, prev, links, scope, members, i);
        DroppedOneMore(before, links, scope, members, i, lostTier);
        assert members[..i + 1][..i] == members[..i];
        var isNew, dropped := UpsertMember(scope, members[i]);
        UpsertedOneMore(before, prev, rows, links, scope, members, i);
        if isNew { created := created + 1; }
        lostTier := lostTier + dropped;
      }
      assert members[..|members|] == members;
    }

    /** The body of that loop. */
    method UpsertMember(scope: Scope, m: GlMember) returns (isNew: bool, dropped: set<int>)
      modifies this`rows, this`pending
      ensures MemberWritten(old(rows), rows, links, scope, m)
      ensures isNew <==> RowId(scope, ByGitLabId(m.id)) !in old(rows)
      ensures pending == old(pending) +
                if isNew then [Added(RowId(scope, ByGitLabId(m.id)), Row(m.accessLevel, Lookup(links, m.id), Active))] else []
      ensures dropped == DroppedBy(old(rows), links, scope, m)
    {
      var id := RowId(scope, ByGitLabId(m.id));
      var link := Lookup(links, m.id);
      isNew, dropped := id !in rows, {};
      if id in rows {
        var row := rows[id];
        var who := if row.cnpUser.Some? then row.cnpUser else link;
        if LosesConsoleTier(row, Some(m.accessLevel)) && who.Some? { dropped := {who.value}; }
        rows := rows[id := Row(m.accessLevel, if link.Some? then link else row.cnpUser, Active)];
      } else {
        pending := pending + [Added(id, Row(m.accessLevel, link, Active))];
      }
    }

    /** The loop "upsert pending invites" of _sync_project. */
    method UpsertInvites(project: int, invites: seq<GlInvite>) returns (created: nat)
      requires DistinctInvites(invites)
      modifies this`rows, this`pending
      ensures forall id :: Lookup(rows, id) == InviteUpserted(old(rows), project, invites, id)
      ensures pending == old(pending) + NewInvites(old(rows), project, invites)
      ensures |pending| == |old(pending)| + created && created <= |invites|
    {
      created := 0;
      ghost var before := rows;
      for i := 0 to |invites|
        invariant forall id :: Lookup(rows, id) == InviteUpserted(before, project, invites[..i], id)
        invariant pending == old(pending) + NewInvites(before, project, invites[..i])
        invariant |pending| == |old(pending)| + created && created <= i
      {
        var inv := invites[i];
        var id := RowId(Project(project), ByEmail(inv.email));
        var level := inv.accessLevel.GetOr(10);
        ghost var prev := rows;
        AbsentInvite(invites[..i], inv.email);
        assert Lookup(rows, id) == Lookup(before, id);
        assert invites[..i + 1][..i] == invites[..i];
        if id in rows {
          rows := rows[id := Row(level, rows[id].cnpUser, PendingInvite)];
        } else {
          pending := pending + [Added(id, Row(level, None, PendingInvite))];
          created := created + 1;
        }
        forall e ensures InviteLevel(invites[..i + 1], e) ==
            if inv.email == e then Some(level) else InviteLevel(invites[..i], e) {
          InviteLevelPrefix(invites, i, e);
        }
        forall other: RowId ensures Lookup(rows, other) == InviteUpserted(before, project, invites[..i + 1], other) {
          if other != id { assert Lookup(rows, other) == Lookup(prev, other); }
        }
      }
      assert invites[..|invites|] == invites;
    }

    /** `row.status = MemberStatus.LEFT`. */
    method MarkLeft(id: RowId)
      requires id in rows
      modifies this`rows
      ensures forall o :: Lookup(rows, o) == if o == id then Some(old(rows)[id].(status := Left)) else Lookup(old(rows), o)
      ensures |rows| == |old(rows)|
    {
      rows := rows[id := rows[id].(status := Left)];
    }

    /** The body of that loop. */
    method RevokeIfAbsent(id: RowId, members: seq<GlMember>) returns (left: nat, lost: set<int>)
      requires id in rows && id.key.ByGitLabId?
      modifies this`rows
      ensures forall o :: Lookup(rows, o) == MemberRevoked(old(rows), {id}, members, o)
      ensures |rows| == |old(rows)|
      ensures var absent := MemberLevel(members, id.key.gitlabId).None?;
        var row := old(rows)[id];
        && left == (if absent && row.status == Active then 1 else 0)
        && lost == (if absent && LosesConsoleTier(row, None) && row.cnpUser.Some? then {row.cnpUser.value} else {})
    {
      left, lost := 0, {};
      var row := rows[id];
      if MemberLevel(members, id.key.gitlabId).None? && row.status == Active {
        if LosesConsoleTier(row, None) && row.cnpUser.Some? { lost := {row.cnpUser.value}; }
        MarkLeft(id);
        left := 1;
      }
    }

    /** The loop "soft-revoke absent active members"; `existing` was read before the upserts. */
    method RevokeAbsentMembers(existing: set<RowId>, members: seq<GlMember>) returns (revoked: nat, lostTier: set<int>)
      requires forall id :: id in existing ==> id in rows && id.key.ByGitLabId?
      modifies this`rows
      ensures RevokedSoFar(old(rows), rows, existing, members, revoked, lostTier)
    {
      revoked, lostTier := 0, {};
      ghost var before := rows;
      var rest := existing;
      assert existing - rest == {};
      while rest != {}
        invariant rest <= existing
        invariant RevokedSoFar(before, rows, existing - rest, members, revoked, lostTier)
        decreases |rest|
      {
        var id := Pick(rest);
        StillThere(before, rows, existing - rest, id, members, revoked, lostTier);
        ghost var prev := rows;
        var left, lost := RevokeIfAbsent(id, members);
        RevokedOneMore(before, prev, rows, existing - rest, id, members, revoked, lostTier, left, lost);
        revoked, lostTier := revoked + left, lostTier + lost;
        assert existing - (rest - {id}) == (existing - rest) + {id};
        rest := rest - {id};
      }
      assert existing - rest == existing;
    }

    /** The loop "soft-revoke pending invites no longer in the invitation list". */
    method RevokeWithdrawnInvites(existing: set<RowId>, invites: seq<GlInvite>) returns (revoked: nat)
      requires forall id :: id in existing ==> id in rows && id.key.ByEmail?
      modifies this`rows
      ensures forall id :: Lookup(rows, id) ==
                (if id in existing && InviteLevel(invites, id.key.email).None?
                 then InviteRowAfter(Lookup(old(rows), id), None) else Lookup(old(rows), id))
      ensures |rows| == |old(rows)|
      ensures revoked == |Withdrawn(old(rows), existing, invites)|
    {
      revoked := 0;
      ghost var before := rows;
      var rest := existing;
      ghost var done: set<RowId> := {};
      while rest != {}
        invariant done !! rest && done + rest == existing
        invariant forall id :: Lookup(rows, id) ==
                    (if id in done && InviteLevel(invites, id.key.email).None?
                     then InviteRowAfter(Lookup(before, id), None) else Lookup(before, id))
        invariant |rows| == |before|
        invariant revoked == |Withdrawn(before, done, invites)|
        decreases |rest|
      {
        var id := Pick(rest);
        assert Lookup(rows, id) == Lookup(before, id);
        WithdrawnStep(before, done, id, invites);
        var row := rows[id];
        if InviteLevel(invites, id.key.email).None? && row.status == PendingInvite {
          MarkLeft(id);
          revoked := revoked + 1;
        }
        rest, done := rest - {id}, done + {id};
      }
    }

    /** What _sync_project does with the invitations: upsert the listed, then mark the withdrawn as left. */
    method SyncInvites(project: int, invites: seq<GlInvite>) returns (created: nat, revoked: nat)
      requires DistinctInvites(invites)
      modifies this`rows, this`pending
      ensures forall id: RowId :: Lookup(rows, id) == InviteSynced(old(rows), project, invites, id)
      ensures pending == old(pending) + NewInvites(old(rows), project, invites)
      ensures |pending| == |old(pending)| + created && created <= |invites|
      ensures revoked == |Withdrawn(old(rows), InviteIds(old(rows), Project(project)), invites)|
    {
      ghost var before := rows;
      var pending := InviteIds(rows, Project(project));
      created := UpsertInvites(project, invites);
      ghost var upserted := rows;
      assert forall id: RowId :: Lookup(upserted, id) == InviteUpserted(before, project, invites, id);
      forall id | id in pending ensures id in rows { assert Lookup(upserted, id).Some?; }
      revoked := RevokeWithdrawnInvites(pending, invites);
      SameWithdrawn(before, upserted, pending, invites);
      forall id: RowId ensures Lookup(rows, id) == InviteSynced(before, project, invites, id) {
        assert Lookup(upserted, id) == InviteUpserted(before, project, invites, id);
      }
    }

    /** What _sync_group and _sync_project do with the members: upsert the fetched, then mark the absent as left. */
    method SyncMembers(scope: Scope, members: seq<GlMember>) returns (created: nat, revoked: nat, lostTier: set<int>)
      requires DistinctMembers(members)
      modifies this`rows, this`pending
      ensures forall id: RowId :: Lookup(rows, id) == MemberSynced(old(rows), links, scope, members, id)
      ensures pending == old(pending) + NewMembers(old(rows), links, scope, members)
      ensures |pending| == |old(pending)| + created && created <= |members|
      ensures revoked == |Departing(old(rows), MemberIds(old(rows), scope), members)|
      ensures forall u :: u in lostTier <==> exists id :: Reports(old(rows), links, scope, members, id, u)
    {
      ghost var before := rows;
      var existing := MemberIds(rows, scope);
      var dropped, left;
      created, dropped := UpsertMembers(scope, members);
      ghost var upserted := rows;
      assert forall id: RowId :: Lookup(upserted, id) == MemberUpserted(before, links, scope, members, id);
      forall id | id in existing ensures id in rows { assert Lookup(upserted, id).Some?; }
      revoked, left := RevokeAbsentMembers(existing, members);
      SameDeparting(before, upserted, existing, members);
      forall id: RowId ensures Lookup(rows, id) == MemberSynced(before, links, scope, members, id) {
        assert Lookup(upserted, id) == MemberUpserted(before, links, scope, members, id);
      }
      lostTier := dropped + left;
      forall u ensures u in lostTier <==> exists id :: Reports(before, links, scope, members, id, u) {
        DroppedAndLeft(before, upserted, links, scope, members, dropped, u);
      }
    }

    /** _sync_group. A failed fetch (None) changes nothing. */
    method SyncGroup(group: int, fetched: Option<seq<GlMember>>, lostIn: set<(int, int)>) returns (stats: Stats, lost: set<(int, int)>)
      requires fetched.Some? ==> DistinctMembers(fetched.value)
      modifies this`rows, this`pending
      ensures fetched.None? ==> rows == old(rows) && pending == old(pending) && stats == NO_STATS && lost == lostIn
      ensures fetched.Some? ==>
        && Rewritten(old(rows), rows, links, Group(group), fetched.value, [])
        && pending == old(pending) + ScopeAdds(old(rows), links, Group(group), fetched.value, [])
        && stats.created + stats.updated == |fetched.value|
      ensures |pending| == |old(pending)| + stats.created
      ensures stats.revoked == |NewlyLeft(old(rows), rows)|
      ensures fetched.Some? ==> forall a, u ::
        (a, u) in lost <==> (a, u) in lostIn || ReportsPair(old(rows), links, apps, Group(group), fetched.value, a, u)
    {
      stats, lost := NO_STATS, lostIn;
      if fetched.None? { assert NewlyLeft(rows, rows) == {}; return; }
      var members := fetched.value;
      var created, revoked, lostTier := SyncMembers(Group(group), members);
      forall id ensures id in rows <==> id in old(rows)
                ensures id in old(rows) ==> Some(rows[id]) == RowAfterGroup(old(rows), links, group, members, id) {
        assert Lookup(rows, id) == MemberSynced(old(rows), links, Group(group), members, id);
      }
      GroupLeft(old(rows), rows, links, group, members);
      stats := Stats(created, |members| - created, revoked);
      if lostTier != {} {
        var owned := set a | a in apps && apps[a].owningGroup == Some(group) && apps[a].authEnabled;
        lost := lost + Pairs(owned, lostTier);
      }
      forall a, u ensures (a, u) in lost <==> (a, u) in lostIn || ReportsPair(old(rows), links, apps, Group(group), members, a, u) {
        assert u in lostTier <==> exists id :: Reports(old(rows), links, Group(group), members, id, u);
      }
    }

    /** _sync_project, for an app with a project. Failed invitations count as none. */
    method SyncProject(appId: int, fetched: Option<seq<GlMember>>, invited: Option<seq<GlInvite>>, lostIn: set<(int, int)>)
      returns (stats: Stats, lost: set<(int, int)>)
      requires appId in apps && apps[appId].project.Some?
      requires fetched.Some? ==> DistinctMembers(fetched.value)
      requires invited.Some? ==> DistinctInvites(invited.value)
      modifies this`rows, this`pending
      ensures fetched.None? ==> rows == old(rows) && pending == old(pending) && stats == NO_STATS && lost == lostIn
      ensures fetched.Some? ==>
        && var scope := Project(apps[appId].project.value);
        && Rewritten(old(rows), rows, links, scope, fetched.value, invited.GetOr([]))
        && pending == old(pending) + ScopeAdds(old(rows), links, scope, fetched.value, invited.GetOr([]))
        && stats.created + stats.updated == |fetched.value| + |invited.GetOr([])|
      ensures |pending| == |old(pending)| + stats.created
      ensures stats.revoked == |NewlyLeft(old(rows), rows)|
      ensures fetched.Some? ==> forall a, u ::
        ((a, u) in lost <==>
         || (a, u) in lostIn
         || (a == appId && ReportsPair(old(rows), links, apps, Project(apps[appId].project.value), fetched.value, a, u)))
    {
      stats, lost := NO_STATS, lostIn;
      if fetched.None? { assert NewlyLeft(rows, rows) == {}; return; }
      var project, members, invites := apps[appId].project.value, fetched.value, invited.GetOr([]);
      ghost var before := rows;
      // The invitation steps touch other rows than the member steps, so their order does not matter.
      var created, revoked, lostTier := SyncMembers(Project(project), members);
      ghost var mid := rows;
      var invitesCreated, invitesRevoked := SyncInvites(project, invites);
      MembersThenInvites(before, mid, rows, links, project, members, invites);
      ProjectLeft(before, rows, links, project, members, invites);
      stats := Stats(created + invitesCreated, |members| + |invites| - created - invitesCreated, revoked + invitesRevoked);
      if apps[appId].authEnabled {
        lost := lost + Pairs({appId}, lostTier);
      }
      ProjectPairs(before, links, apps, appId, members, lostTier);
    }

    method SyncGroups(groups: seq<int>, gl: GitLab) returns (stats: Stats, lost: set<(int, int)>)
      requires WellFormed(gl) && NoRepeats(groups) && pending == []
      modifies this`rows, this`pending
      ensures rows.Keys == old(rows).Keys && Insertable(rows, pending)
      ensures RunSoFar(old(rows), Flushed(rows, pending), links, apps, Visited(gl, Ids(groups), {}), [], {}, lost)
      ensures Counted(old(rows), Flushed(rows, pending), stats, FetchedByGroups(gl, groups))
    {
      stats, lost := NO_STATS, {};
      ghost var before := rows;
      NothingVisited(rows, links, apps, gl, lost);
      for i := 0 to |groups|
        invariant rows.Keys == before.Keys && Insertable(rows, pending)
        invariant RunSoFar(before, Flushed(rows, pending), links, apps, Visited(gl, Ids(groups[..i]), {}), [], {}, lost)
        invariant Counted(before, Flushed(rows, pending), stats, FetchedByGroups(gl, groups[..i]))
      {
        assert groups[..i + 1][..i] == groups[..i];
        FlushedSize(rows, pending);
        var s;
        s, lost := SyncNextGroup(before, groups, i, gl, lost);
        FlushedSize(rows, pending);
        stats := AddStats(stats, s);
      }
      assert groups[..|groups|] == groups;
    }

    /** The body of the loop over groups. */
    method SyncNextGroup(ghost before: Table, groups: seq<int>, i: nat, gl: GitLab, lostNow: set<(int, int)>)
      returns (stats: Stats, lost: set<(int, int)>)
      requires WellFormed(gl) && NoRepeats(groups) && i < |groups|
      requires rows.Keys == before.Keys && Insertable(rows, pending)
      requires RunSoFar(before, Flushed(rows, pending), links, apps, Visited(gl, Ids(groups[..i]), {}), [], {}, lostNow)
      modifies this`rows, this`pending
      ensures rows.Keys == before.Keys && Insertable(rows, pending)
      ensures RunSoFar(before, Flushed(rows, pending), links, apps, Visited(gl, Ids(groups[..i + 1]), {}), [], {}, lost)
      ensures |pending| == |old(pending)| + stats.created
      ensures stats.created + stats.updated == |Lookup(gl.groupMembers, groups[i]).GetOr([])|
      ensures |NewlyLeft(before, Flushed(rows, pending))| == |NewlyLeft(before, old(Flushed(rows, pending)))| + stats.revoked
    {
      var g := groups[i];
      ghost var seen, more := Visited(gl, Ids(groups[..i]), {}), Visited(gl, Ids(groups[..i + 1]), {});
      assert groups[..i + 1] == groups[..i] + [g] && g !in groups[..i];
      ghost var now, adds := rows, pending;
      ghost var view := Flushed(now, adds);
      stats, lost := SyncGroup(g, Lookup(gl.groupMembers, g), lostNow);
      if g in gl.groupMembers {
        UnvisitedHasNoAdds(before, now, adds, links, seen, Group(g));
        ScopeFlushed(now, adds, rows, ScopeAdds(now, links, Group(g), gl.groupMembers[g], []), links, apps, Group(g), gl.groupMembers[g], []);
        ScopeSynced(before, view, Flushed(rows, pending), links, apps, seen, more, [], [], Group(g), gl.groupMembers[g], {}, lostNow, lost);
        ScopeLeaves(before, view, Flushed(rows, pending), links, seen, Group(g));
      } else {
        assert seen == more;
      }
    }

    method SyncProjects(appIds: seq<int>, gl: GitLab, lostIn: set<(int, int)>) returns (stats: Stats, lost: set<(int, int)>)
      requires WellFormed(gl) && NoRepeats(appIds) && Insertable(rows, pending)
      requires forall a :: a in appIds ==> a in apps && apps[a].project.Some?
      requires forall p :: SameKeysAt(Flushed(rows, pending), rows, Project(p))
      modifies this`rows, this`pending
      ensures rows.Keys == old(rows).Keys
      ensures ProjectsSoFar(old(Flushed(rows, pending)), rows, pending, links, apps, gl, appIds, lostIn, lost)
      ensures Insertable(rows, pending) ==>
        Counted(old(Flushed(rows, pending)), Flushed(rows, pending), stats, FetchedByProjects(gl, apps, appIds))
    {
      stats, lost := NO_STATS, lostIn;
      ghost var before := Flushed(rows, pending);
      NothingVisited(before, links, apps, gl, lost);
      assert ProjectsOf(apps, appIds[..0]) == {};
      FlushedSize(rows, pending);
      for i := 0 to |appIds|
        invariant rows.Keys == old(rows).Keys && |pending| == |old(pending)| + stats.created
        invariant ProjectsSoFar(before, rows, pending, links, apps, gl, appIds[..i], lostIn, lost)
        invariant stats.created + stats.updated == FetchedByProjects(gl, apps, appIds[..i])
        invariant LeftSoFar(before, rows, pending, stats.revoked)
      {
        FetchedByNext(gl, apps, appIds, i);
        var s;
        s, lost := SyncNextProject(before, appIds, i, gl, lostIn, lost, stats.revoked);
        stats := AddStats(stats, s);
      }
      assert appIds[..|appIds|] == appIds;
      if Insertable(rows, pending) { FlushedSize(rows, pending); }
    }

    /** The body of the loop over the apps with a project. */
    method SyncNextProject(ghost before: Table, appIds: seq<int>, i: nat, gl: GitLab, ghost lostIn: set<(int, int)>, lostNow: set<(int, int)>,
                           ghost revoked: nat)
      returns (stats: Stats, lost: set<(int, int)>)
      requires WellFormed(gl) && NoRepeats(appIds) && i < |appIds|
      requires forall a :: a in appIds ==> a in apps && apps[a].project.Some?
      requires ProjectsSoFar(before, rows, pending, links, apps, gl, appIds[..i], lostIn, lostNow)
      requires LeftSoFar(before, rows, pending, revoked)
      modifies this`rows, this`pending
      ensures rows.Keys == old(rows).Keys && |pending| == |old(pending)| + stats.created
      ensures ProjectsSoFar(before, rows, pending, links, apps, gl, appIds[..i + 1], lostIn, lost)
      ensures stats.created + stats.updated == FetchedByProject(gl, apps[appIds[i]].project.value)
      ensures LeftSoFar(before, rows, pending, revoked + stats.revoked)
    {
      var id := appIds[i];
      var p := apps[id].project.value;
      ghost var now, adds := rows, pending;
      ghost var members, invites := Lookup(gl.projectMembers, p), FetchedInvites(gl, p);
      stats, lost := SyncProject(id, Lookup(gl.projectMembers, p), Lookup(gl.invitations, p), lostNow);
      NextShared(before, apps, gl, appIds, i);
      if !Insertable(now, adds) {
        if p in gl.projectMembers { StaysUninsertable(now, rows, adds, ScopeAdds(now, links, Project(p), members.value, invites)); }
      } else {
        ProjectVisited(before, now, adds, rows, pending, links, apps, gl, appIds, i, stats, lostIn, lostNow, lost);
      }
    }

    /** The COMMIT: the inserts run into a unique constraint, or all are written; `committed` is what a rollback restores. */
    method Commit(committed: Table) returns (ok: bool)
      modifies this`rows, this`pending
      ensures ok <==> Insertable(old(rows), old(pending))
      ensures rows == if ok then Flushed(old(rows), old(pending)) else committed
      ensures pending == []
    {
      var adds := pending;
      pending := [];
      for i := 0 to |adds|
        invariant Insertable(old(rows), adds[..i]) && pending == []
        invariant rows == Flushed(old(rows), adds[..i])
      {
        assert adds[..i + 1][..i] == adds[..i];
        FlushedLookup(old(rows), adds[..i], adds[i].id);
        AddedRowMeaning(adds[..i], adds[i].id);
        if adds[i].id in rows {
          rows := committed;
          return false;
        }
        rows := rows[adds[i].id := adds[i].row];
      }
      assert adds[..|adds|] == adds;
      return true;
    }

    /**
     The two loops of run_gitlab_sync and run_gitlab_sync_for_user in a session of their own: the
     groups, then the projects of the apps, then the commit. The former passes every registered
     group and every app with a project, the latter the groups of one user and the apps those
     groups own or the user has a row on. When the commit fails nothing is returned.
     */
    method RunSync(groups: seq<int>, appIds: seq<int>, gl: GitLab)
      returns (committed: bool, groupStats: Stats, projectStats: Stats, lost: set<(int, int)>)
      requires WellFormed(gl) && NoRepeats(groups) && NoRepeats(appIds)
      requires forall a :: a in appIds ==> a in apps && apps[a].project.Some?
      modifies this`rows, this`pending
      ensures committed <==> !SharedNewcomer(old(rows), apps, gl, appIds)
      ensures !committed ==> rows == old(rows) && lost == {}
      ensures committed ==>
        && RunSoFar(old(rows), rows, links, apps, Visited(gl, Ids(groups), ProjectsOf(apps, appIds)), appIds, {}, lost)
        && |rows| == |old(rows)| + groupStats.created + projectStats.created
        && |NewlyLeft(old(rows), rows)| == groupStats.revoked + projectStats.revoked
        && groupStats.created + groupStats.updated == FetchedByGroups(gl, groups)
        && projectStats.created + projectStats.updated == FetchedByProjects(gl, apps, appIds)
    {
      var before := rows;
      pending := [];
      groupStats, lost := SyncGroups(groups, gl);
      ghost var mid, lostMid := Flushed(rows, pending), lost;
      OnlyGroupAdds(before, rows, pending, links, gl, Ids(groups));
      projectStats, lost := SyncProjects(appIds, gl, lost);
      ghost var after := Flushed(rows, pending);
      SameSharedNewcomer(before, mid, apps, gl, {}, appIds);
      committed := Commit(before);
      if !committed {
        groupStats, projectStats, lost := NO_STATS, NO_STATS, {};
        return;
      }
      GroupsThenProjects(before, mid, after, links, apps, gl, Ids(groups), ProjectsOf(apps, appIds), appIds, lostMid, lost);
      forall id: RowId ensures Lookup(mid, id) == Lookup(before, id) || Lookup(after, id) == Lookup(mid, id) {
        assert Lookup(mid, id) == RowAfterRun(before, links, Visited(gl, Ids(groups), {}), id);
        assert Lookup(after, id) == RowAfterRun(mid, links, Visited(gl, {}, ProjectsOf(apps, appIds)), id);
      }
      LeavingAddsUp(before, mid, after);
    }
  }
}
