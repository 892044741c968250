/** What the GitLab sync guarantees: when it commits, what the mirror then says, and whom it hands over. */
module SyncLaws {
  import opened Options
  import opened Tiers
  import opened GitLabSync

  /** Rows keyed by a GitLab id are never pending; rows keyed by an email are never active. */
  ghost predicate RowsWellFormed(rows: Table) {
    forall id :: id in rows ==> rows[id].status != (if id.key.ByGitLabId? then PendingInvite else Active)
  }

  /** A GitLab id linked by a row is not linked to another user. */
  ghost predicate LinksStable(rows: Table, links: map<int, int>) {
    forall id :: id in rows && id.key.ByGitLabId? && rows[id].cnpUser.Some? && id.key.gitlabId in links ==>
      rows[id].cnpUser == Some(links[id.key.gitlabId])
  }

  /** Row `id` alone gives `user` the console tier on `app`. */
  predicate GrantsConsole(rows: Table, id: RowId, app: App, user: int) {
    Counts(rows, id, app, user) && LevelGrantsConsole(Some(rows[id].accessLevel))
  }

  ghost predicate MaintainsApp(rows: Table, app: App, user: int) {
    exists id :: GrantsConsole(rows, id, app, user)
  }

  lemma ConsoleTierIsAGrant(tier: Tier, rows: Table, app: App, user: int)
    requires IsEffectiveTier(tier, rows, app, user)
    ensures HasConsoleTier(tier) <==> MaintainsApp(rows, app, user)
  {
    assert TierAtLeast(tier, Maintainer) <==>
      exists id :: Counts(rows, id, app, user) && TierAtLeast(AccessLevelToTier(rows[id].accessLevel), Maintainer);
    if id :| Counts(rows, id, app, user) && TierAtLeast(AccessLevelToTier(rows[id].accessLevel), Maintainer) {
      assert GrantsConsole(rows, id, app, user);
    }
  }

  // ----- one row -----

  /** A granting row stops granting only if its scope was fetched and the row itself reports the user. */
  lemma LostGrantIsReported(before: Table, after: Table, links: map<int, int>, gl: GitLab, id: RowId, app: App, user: int)
    requires RunOutcome(before, after, links, gl)
    requires RowsWellFormed(before) && LinksStable(before, links)
    requires GrantsConsole(before, id, app, user) && !GrantsConsole(after, id, app, user)
    ensures FetchedMembers(gl, id.scope).Some?
    ensures Reports(before, links, id.scope, FetchedMembers(gl, id.scope).value, id, user)
  {
    assert Lookup(after, id) == RowAfterRun(before, links, gl, id);
    assert id.key.ByGitLabId?;
    if FetchedMembers(gl, id.scope).Some? {
      var members := FetchedMembers(gl, id.scope).value;
      assert Lookup(after, id) ==
        MemberRowAfter(Lookup(before, id), MemberLevel(members, id.key.gitlabId), Lookup(links, id.key.gitlabId));
    }
  }

  /**
   Every user of an app with authentication on whose effective tier fell from Maintainer or
   above to below is reported by a synced scope of the app, whichever of the two memberships
   was lost.
   */
  lemma LostTierIsReported(before: Table, after: Table, links: map<int, int>, apps: map<int, App>, gl: GitLab, app: int, user: int)
    requires RunOutcome(before, after, links, gl)
    requires RowsWellFormed(before) && LinksStable(before, links)
    requires app in apps && apps[app].authEnabled
    requires MaintainsApp(before, apps[app], user) && !MaintainsApp(after, apps[app], user)
    ensures RunReportsPair(before, links, apps, gl, app, user)
  {
    var id :| GrantsConsole(before, id, apps[app], user);
    LostGrantIsReported(before, after, links, gl, id, apps[app], user);
    var members := FetchedMembers(gl, id.scope).value;
    assert Reports(before, links, id.scope, members, id, user);
    assert ReportsPair(before, links, apps, id.scope, members, app, user);
  }

  /** An owning group reports the pair. */
  ghost predicate GroupReports(before: Table, links: map<int, int>, apps: map<int, App>, gl: GitLab, app: int, user: int) {
    exists g :: g in gl.groupMembers && ReportsPair(before, links, apps, Group(g), gl.groupMembers[g], app, user)
  }

  /**
   Completeness, exactly: such a user is handed over if and only if the app is the first one
   visited with its project, or a fetched owning group reports them.
   */
  lemma LostTierIsHandedOverIffFirst(before: Table, after: Table, links: map<int, int>, apps: map<int, App>, gl: GitLab,
                                     order: seq<int>, app: int, user: int)
    requires RunOutcome(before, after, links, gl)
    requires RowsWellFormed(before) && LinksStable(before, links)
    requires app in apps && apps[app].authEnabled
    requires MaintainsApp(before, apps[app], user) && !MaintainsApp(after, apps[app], user)
    ensures RunHandsOver(before, links, apps, gl, order, app, user) <==>
            IsFirst(apps, order, app) || GroupReports(before, links, apps, gl, app, user)
  {
    LostTierIsReported(before, after, links, apps, gl, app, user);
    var scope :| FetchedMembers(gl, scope).Some? && ReportsPair(before, links, apps, scope, FetchedMembers(gl, scope).value, app, user);
    if GroupReports(before, links, apps, gl, app, user) {
      var g :| g in gl.groupMembers && ReportsPair(before, links, apps, Group(g), gl.groupMembers[g], app, user);
      assert FetchedMembers(gl, Group(g)) == Some(gl.groupMembers[g]);
    }
    if RunHandsOver(before, links, apps, gl, order, app, user) && !IsFirst(apps, order, app) {
      var s :| FetchedMembers(gl, s).Some? && ReportsPair(before, links, apps, s, FetchedMembers(gl, s).value, app, user)
               && (s.Project? ==> IsFirst(apps, order, app));
      assert s.Group? && s.groupId in gl.groupMembers;
    }
  }

  /** A run fetches the projects of the apps it visits and no others. */
  predicate FetchesOnly(apps: map<int, App>, order: seq<int>, gl: GitLab) {
    forall p :: p in gl.projectMembers ==> exists i :: 0 <= i < |order| && order[i] in apps && apps[order[i]].project == Some(p)
  }

  /** So when no two apps share a project, nobody who lost the tier is missed. */
  lemma DistinctProjectsMissNobody(before: Table, after: Table, links: map<int, int>, apps: map<int, App>, gl: GitLab,
                                   order: seq<int>, app: int, user: int)
    requires RunOutcome(before, after, links, gl) && FetchesOnly(apps, order, gl)
    requires RowsWellFormed(before) && LinksStable(before, links)
    requires NoRepeats(order) && DistinctProjects(apps)
    requires app in apps && apps[app].authEnabled
    requires MaintainsApp(before, apps[app], user) && !MaintainsApp(after, apps[app], user)
    ensures RunHandsOver(before, links, apps, gl, order, app, user)
  {
    LostTierIsHandedOverIffFirst(before, after, links, apps, gl, order, app, user);
    LostTierIsReported(before, after, links, apps, gl, app, user);
    var scope :| FetchedMembers(gl, scope).Some? && ReportsPair(before, links, apps, scope, FetchedMembers(gl, scope).value, app, user);
    if scope.Project? {
      var i :| 0 <= i < |order| && order[i] in apps && apps[order[i]].project == Some(scope.projectId);
      assert order[i] == app;
      forall j | 0 <= j < i ensures !SharesProject(apps, order[..i][j], app) {
        assert order[j] != order[i];
      }
      assert NoneShares(apps, order[..i], app);
    } else {
      assert scope.groupId in gl.groupMembers;
    }
  }

  /** What is handed over was reported. */
  lemma HandedOverIsReported(before: Table, links: map<int, int>, apps: map<int, App>, gl: GitLab, order: seq<int>, app: int, user: int)
    requires RunHandsOver(before, links, apps, gl, order, app, user)
    ensures RunReportsPair(before, links, apps, gl, app, user)
  {
  }

  /**
   Precision of what is handed over: a reported user really lost a granting row on that app;
   whether another membership still covers them is decided after the commit.
   */
  lemma ReportedPairLostARow(before: Table, after: Table, links: map<int, int>, apps: map<int, App>, gl: GitLab, app: int, user: int)
    requires RunOutcome(before, after, links, gl)
    requires RunReportsPair(before, links, apps, gl, app, user)
    ensures app in apps && apps[app].authEnabled
    ensures exists id :: id in before && InAppScope(id.scope, apps[app])
                         && before[id].status == Active && LevelGrantsConsole(Some(before[id].accessLevel))
                         && !GrantsConsole(after, id, apps[app], user)
                         && (before[id].cnpUser == Some(user)
                             || (before[id].cnpUser.None? && id.key.ByGitLabId? && Lookup(links, id.key.gitlabId) == Some(user)))
  {
    var scope :| FetchedMembers(gl, scope).Some? && ReportsPair(before, links, apps, scope, FetchedMembers(gl, scope).value, app, user);
    var members := FetchedMembers(gl, scope).value;
    var id :| Reports(before, links, scope, members, id, user);
    assert Lookup(after, id) == RowAfterRun(before, links, gl, id);
    assert Lookup(after, id) ==
      MemberRowAfter(Lookup(before, id), MemberLevel(members, id.key.gitlabId), Lookup(links, id.key.gitlabId));
    assert !GrantsConsole(after, id, apps[app], user);
  }

  // ----- the mirror -----

  lemma RunKeepsRowsWellFormed(before: Table, after: Table, links: map<int, int>, gl: GitLab)
    requires RunOutcome(before, after, links, gl)
    requires RowsWellFormed(before)
    ensures RowsWellFormed(after)
  {
    forall id | id in after ensures after[id].status != (if id.key.ByGitLabId? then PendingInvite else Active) {
      assert Lookup(after, id) == RowAfterRun(before, links, gl, id);
    }
  }

  lemma RunKeepsLinksStable(before: Table, after: Table, links: map<int, int>, gl: GitLab)
    requires RunOutcome(before, after, links, gl)
    requires LinksStable(before, links)
    ensures LinksStable(after, links)
  {
    forall id | id in after && id.key.ByGitLabId? && after[id].cnpUser.Some? && id.key.gitlabId in links
      ensures after[id].cnpUser == Some(links[id.key.gitlabId])
    {
      assert Lookup(after, id) == RowAfterRun(before, links, gl, id);
      assert Lookup(links, id.key.gitlabId) == Some(links[id.key.gitlabId]);
    }
  }

  /** What a whole run leaves: nothing when its commit fails, else every row as specified. */
  ghost predicate SyncStep(before: Table, after: Table, links: map<int, int>, apps: map<int, App>, gl: GitLab, order: seq<int>) {
    if SharedNewcomer(before, apps, gl, order) then after == before else RunOutcome(before, after, links, gl)
  }

  /**
   The scope's active rows are exactly GitLab's members with their levels, and the pending rows of
   a project are exactly its invitations.
   */
  ghost predicate Mirrors(rows: Table, gl: GitLab, scope: Scope)
    requires FetchedMembers(gl, scope).Some?
  {
    && (forall g, l :: HasRow(rows, RowId(scope, ByGitLabId(g)), Active, l) <==> MemberLevel(FetchedMembers(gl, scope).value, g) == Some(l))
    && (scope.Project? ==> forall e, l ::
          HasRow(rows, RowId(scope, ByEmail(e)), PendingInvite, l) <==> InviteLevel(FetchedInvites(gl, scope.projectId), e) == Some(l))
  }

  predicate HasRow(rows: Table, id: RowId, status: MemberStatus, level: int) {
    id in rows && rows[id].status == status && rows[id].accessLevel == level
  }

  lemma CommittedScopeMirrors(before: Table, after: Table, links: map<int, int>, gl: GitLab, scope: Scope)
    requires RunOutcome(before, after, links, gl) && RowsWellFormed(before)
    requires FetchedMembers(gl, scope).Some?
    ensures Mirrors(after, gl, scope)
  {
    var members := FetchedMembers(gl, scope).value;
    forall g, l ensures HasRow(after, RowId(scope, ByGitLabId(g)), Active, l) <==> MemberLevel(members, g) == Some(l) {
      var id := RowId(scope, ByGitLabId(g));
      assert Lookup(after, id) == RowAfterRun(before, links, gl, id);
      assert Lookup(after, id) == MemberRowAfter(Lookup(before, id), MemberLevel(members, g), Lookup(links, g));
    }
    if scope.Project? {
      forall e, l ensures
        HasRow(after, RowId(scope, ByEmail(e)), PendingInvite, l) <==> InviteLevel(FetchedInvites(gl, scope.projectId), e) == Some(l)
      {
        assert Lookup(after, RowId(scope, ByEmail(e))) == RowAfterRun(before, links, gl, RowId(scope, ByEmail(e)));
      }
    }
  }

  /** A listed newcomer who still has no row. */
  lemma NewcomerIsNotMirrored(rows: Table, gl: GitLab, project: int)
    requires HasNewcomer(rows, gl, project)
    ensures FetchedMembers(gl, Project(project)).Some? && !Mirrors(rows, gl, Project(project))
  {
    var key :| IsNewcomer(rows, gl, project, key);
    match key
    case ByGitLabId(g) => assert !HasRow(rows, RowId(Project(project), key), Active, MemberLevel(gl.projectMembers[project], g).value);
    case ByEmail(e) => assert !HasRow(rows, RowId(Project(project), key), PendingInvite, InviteLevel(FetchedInvites(gl, project), e).value);
  }

  /**
   Mirror agreement, exactly: after a run every fetched scope mirrors GitLab if and only if no
   project of two visited apps had a newcomer; and no row ever disappears.
   */
  lemma MirrorAgrees(before: Table, after: Table, links: map<int, int>, apps: map<int, App>, gl: GitLab, order: seq<int>)
    requires SyncStep(before, after, links, apps, gl, order) && RowsWellFormed(before)
    ensures (forall scope :: FetchedMembers(gl, scope).Some? ==> Mirrors(after, gl, scope)) <==> !SharedNewcomer(before, apps, gl, order)
    ensures before.Keys <= after.Keys
  {
    if SharedNewcomer(before, apps, gl, order) {
      var i, j :| 0 <= i < j < |order| && NewcomerOfBoth(before, apps, gl, order[i], order[j]);
      NewcomerIsNotMirrored(before, gl, apps[order[i]].project.value);
    } else {
      forall scope | FetchedMembers(gl, scope).Some? ensures Mirrors(after, gl, scope) {
        CommittedScopeMirrors(before, after, links, gl, scope);
      }
      forall id | id in before ensures id in after {
        assert Lookup(after, id) == RowAfterRun(before, links, gl, id);
      }
    }
  }

  /** A run always commits when no two apps share a project. */
  lemma DistinctProjectsCommit(rows: Table, apps: map<int, App>, gl: GitLab, order: seq<int>)
    requires NoRepeats(order) && DistinctProjects(apps)
    ensures !SharedNewcomer(rows, apps, gl, order)
  {
    forall i, j | 0 <= i < j < |order| ensures !NewcomerOfBoth(rows, apps, gl, order[i], order[j]) {
      assert order[i] != order[j];
    }
  }

  ghost predicate SyncRuns(tables: seq<Table>, links: map<int, int>, apps: map<int, App>, gls: seq<GitLab>, order: seq<int>) {
    && |tables| == |gls| + 1
    && forall n :: 0 <= n < |gls| ==> SyncStep(tables[n], tables[n + 1], links, apps, gls[n], order)
  }

  /**
   Runs fail for as long as GitLab lists the newcomer of a shared project and nobody else adds the
   row: no later run writes anything, whatever else its answers say.
   */
  lemma {:induction false} RunsStayStuck(tables: seq<Table>, links: map<int, int>, apps: map<int, App>, gls: seq<GitLab>, order: seq<int>,
                                         i: nat, j: nat, key: MemberKey, n: nat)
    requires SyncRuns(tables, links, apps, gls, order) && n <= |gls|
    requires i < j < |order| && SharesProject(apps, order[i], order[j]) && apps[order[i]].project.Some?
    requires forall k :: 0 <= k < |gls| ==> Lists(gls[k], apps[order[i]].project.value, key)
    requires RowId(Project(apps[order[i]].project.value), key) !in tables[0]
    ensures tables[n] == tables[0]
  {
    if n > 0 {
      RunsStayStuck(tables, links, apps, gls, order, i, j, key, n - 1);
      assert SyncStep(tables[n - 1], tables[n], links, apps, gls[n - 1], order);
      assert Lists(gls[n - 1], apps[order[i]].project.value, key);
      assert IsNewcomer(tables[n - 1], gls[n - 1], apps[order[i]].project.value, key);
      assert NewcomerOfBoth(tables[n - 1], apps, gls[n - 1], order[i], order[j]);
    }
  }

  predicate Lists(gl: GitLab, project: int, key: MemberKey) {
    project in gl.projectMembers && IsNewcomer(map[], gl, project, key)
  }

  /** Two apps on project 1, an empty table, one member: the run cannot be committed. */
  lemma SharedProjectFailsOnANewcomer()
    ensures
      var apps := map[1 := App(Some(1), None, true), 2 := App(Some(1), None, true)];
      var gl := GitLab(map[], map[1 := [GlMember(100, 30)]], map[]);
      SharedNewcomer(map[], apps, gl, [1, 2])
  {
    var apps := map[1 := App(Some(1), None, true), 2 := App(Some(1), None, true)];
    var gl := GitLab(map[], map[1 := [GlMember(100, 30)]], map[]);
    assert MemberLevel([GlMember(100, 30)], 100) == Some(30);
    assert IsNewcomer(map[], gl, 1, ByGitLabId(100));
    assert NewcomerOfBoth(map[], apps, gl, [1, 2][0], [1, 2][1]);
  }

  /** A row after a run does not change in a second run on the same answers. */
  lemma SecondRunKeepsRow(before: Table, after: Table, links: map<int, int>, gl: GitLab, id: RowId)
    requires RunOutcome(before, after, links, gl)
    ensures RowAfterRun(after, links, gl, id) == Lookup(after, id)
  {
    assert Lookup(after, id) == RowAfterRun(before, links, gl, id);
  }

  /** After a scope was synced, syncing it again on the same answer reports nobody and revokes nobody. */
  lemma SyncedScopeReportsNothing(before: Table, after: Table, links: map<int, int>, gl: GitLab, scope: Scope, members: seq<GlMember>)
    requires RunOutcome(before, after, links, gl)
    requires FetchedMembers(gl, scope) == Some(members)
    ensures forall id, u :: !Reports(after, links, scope, members, id, u)
    ensures Departing(after, MemberIds(after, scope), members) == {}
    ensures scope.Project? ==> Withdrawn(after, InviteIds(after, scope), FetchedInvites(gl, scope.projectId)) == {}
  {
    forall id: RowId | id in after && id.scope == scope
      ensures Lookup(after, id) == RowAfterScope(before, links, scope, members, ScopeInvites(gl, scope), id)
    {
      assert Lookup(after, id) == RowAfterRun(before, links, gl, id);
    }
  }

  /** After a committed run every listed member has a row, so the next run on the same answers commits. */
  lemma SecondRunCommits(before: Table, after: Table, links: map<int, int>, apps: map<int, App>, gl: GitLab, order: seq<int>)
    requires RunOutcome(before, after, links, gl)
    ensures !SharedNewcomer(after, apps, gl, order)
  {
    forall p | p in gl.projectMembers ensures !HasNewcomer(after, gl, p) {
      forall key ensures !IsNewcomer(after, gl, p, key) {
        assert Lookup(after, RowId(Project(p), key)) == RowAfterRun(before, links, gl, RowId(Project(p), key));
      }
    }
  }

  /**
   A second run on unchanged GitLab data commits, changes no row and hands over no pair, and its
   counters, which RunSync keeps as stated here, report nothing created and nothing revoked.
   */
  lemma SecondRunIsQuiet(before: Table, after: Table, again: Table, links: map<int, int>, apps: map<int, App>, gl: GitLab,
                         order: seq<int>, groupStats: Stats, projectStats: Stats)
    requires RunOutcome(before, after, links, gl)
    requires SyncStep(after, again, links, apps, gl, order)
    requires !SharedNewcomer(after, apps, gl, order) ==>
      && |again| == |after| + groupStats.created + projectStats.created
      && |NewlyLeft(after, again)| == groupStats.revoked + projectStats.revoked
    ensures !SharedNewcomer(after, apps, gl, order)
    ensures again == after
    ensures forall a, u :: !RunReportsPair(after, links, apps, gl, a, u)
    ensures forall a, u :: !RunHandsOver(after, links, apps, gl, order, a, u)
    ensures groupStats.created == projectStats.created == groupStats.revoked == projectStats.revoked == 0
  {
    SecondRunCommits(before, after, links, apps, gl, order);
    forall id ensures Lookup(again, id) == Lookup(after, id) {
      SecondRunKeepsRow(before, after, links, gl, id);
      assert Lookup(again, id) == RowAfterRun(after, links, gl, id);
    }
    SameLookups(again, after);
    assert NewlyLeft(after, again) == {};
    forall a, u ensures !RunReportsPair(after, links, apps, gl, a, u) {
      forall scope | FetchedMembers(gl, scope).Some? ensures !ReportsPair(after, links, apps, scope, FetchedMembers(gl, scope).value, a, u) {
        SyncedScopeReportsNothing(before, after, links, gl, scope, FetchedMembers(gl, scope).value);
      }
    }
    forall a, u ensures !RunHandsOver(after, links, apps, gl, order, a, u) {
      assert !RunReportsPair(after, links, apps, gl, a, u);
    }
  }

  /**
   Two apps on project 1, user 7 demoted from Maintainer, both apps visited: the run commits and
   hands over (1, 7) and not (2, 7), although user 7 lost the tier on both.
   */
  lemma SharedProjectHidesSecondApp()
    ensures
      var id := RowId(Project(1), ByGitLabId(100));
      var apps := map[1 := App(Some(1), None, true), 2 := App(Some(1), None, true)];
      var before: Table := map[id := Row(40, Some(7), Active)];
      var after: Table := map[id := Row(30, Some(7), Active)];
      var gl := GitLab(map[], map[1 := [GlMember(100, 30)]], map[]);
      && !SharedNewcomer(before, apps, gl, [1, 2]) && RunOutcome(before, after, map[], gl)
      && MaintainsApp(before, apps[1], 7) && !MaintainsApp(after, apps[1], 7)
      && MaintainsApp(before, apps[2], 7) && !MaintainsApp(after, apps[2], 7)
      && RunHandsOver(before, map[], apps, gl, [1, 2], 1, 7)
      && !RunHandsOver(before, map[], apps, gl, [1, 2], 2, 7)
  {
    var id := RowId(Project(1), ByGitLabId(100));
    var apps := map[1 := App(Some(1), None, true), 2 := App(Some(1), None, true)];
    var before: Table := map[id := Row(40, Some(7), Active)];
    var after: Table := map[id := Row(30, Some(7), Active)];
    var members := [GlMember(100, 30)];
    var gl := GitLab(map[], map[1 := members], map[]);
    assert MemberLevel(members, 100) == Some(30);
    assert forall g :: g != 100 ==> MemberLevel(members, g).None?;
    assert forall key :: !IsNewcomer(before, gl, 1, key);
    forall i ensures Lookup(after, i) == RowAfterRun(before, map[], gl, i) {
      if i == id { assert Lookup(before, i) == Some(Row(40, Some(7), Active)); }
    }
    assert GrantsConsole(before, id, apps[1], 7) && GrantsConsole(before, id, apps[2], 7);
    LostTierIsHandedOverIffFirst(before, after, map[], apps, gl, [1, 2], 1, 7);
    LostTierIsHandedOverIffFirst(before, after, map[], apps, gl, [1, 2], 2, 7);
    assert [1, 2][0] == 1 && NoneShares(apps, [1, 2][..0], 1);
    assert !IsFirst(apps, [1, 2], 2) by {
      assert [1, 2][..1][0] == 1 && SharesProject(apps, 1, 2);
    }
  }

  // ----- from GitLab's lists to the rows, in GitLab's terms -----

  lemma {:induction false} FetchedLevel(members: seq<GlMember>, g: int, l: int)
    requires DistinctMembers(members)
    ensures MemberLevel(members, g) == Some(l) <==> GlMember(g, l) in members
  {
    if members != [] {
      var n := |members| - 1;
      FetchedLevel(members[..n], g, l);
      assert members == members[..n] + [members[n]];
    }
  }

  lemma {:induction false} ListedLevel(invites: seq<GlInvite>, e: string, l: int)
    requires DistinctInvites(invites)
    ensures InviteLevel(invites, e) == Some(l) <==> GlInvite(e, Some(l)) in invites || (l == 10 && GlInvite(e, None) in invites)
  {
    if invites != [] {
      var n := |invites| - 1;
      ListedLevel(invites[..n], e, l);
      assert invites == invites[..n] + [invites[n]];
    }
  }

  /**
   A member GitLab lists has an active row at that level after the run. Its user is the one the
   GitLab id is linked to; without a link it is whoever the row belonged to.
   */
  lemma ListedMembersRow(before: Table, after: Table, links: map<int, int>, gl: GitLab, scope: Scope, g: int, l: int)
    requires RunOutcome(before, after, links, gl) && WellFormed(gl)
    requires FetchedMembers(gl, scope).Some? && GlMember(g, l) in FetchedMembers(gl, scope).value
    ensures var id := RowId(scope, ByGitLabId(g));
      && id in after && after[id].status == Active && after[id].accessLevel == l
      && (g in links ==> after[id].cnpUser == Some(links[g]))
      && (g !in links ==> after[id].cnpUser == if id in before then before[id].cnpUser else None)
  {
    var id := RowId(scope, ByGitLabId(g));
    FetchedLevel(FetchedMembers(gl, scope).value, g, l);
    assert Lookup(after, id) == RowAfterRun(before, links, gl, id);
  }

  /** A member GitLab no longer lists: an active row is marked as left and keeps its level and user; nothing else changes. */
  lemma UnlistedMembersRow(before: Table, after: Table, links: map<int, int>, gl: GitLab, scope: Scope, g: int)
    requires RunOutcome(before, after, links, gl)
    requires FetchedMembers(gl, scope).Some? && forall m :: m in FetchedMembers(gl, scope).value ==> m.id != g
    ensures var id := RowId(scope, ByGitLabId(g));
      && (id in after <==> id in before)
      && (id in before ==> after[id].status == (if before[id].status == Active then Left else before[id].status)
                           && after[id].accessLevel == before[id].accessLevel && after[id].cnpUser == before[id].cnpUser)
  {
    var id := RowId(scope, ByGitLabId(g));
    AbsentMember(FetchedMembers(gl, scope).value, g);
    assert Lookup(after, id) == RowAfterRun(before, links, gl, id);
  }

  /** The same for invitations: a listed one is pending at its level, 10 if it has none, and keeps its user; a withdrawn one has left. */
  lemma InvitationsRow(before: Table, after: Table, links: map<int, int>, gl: GitLab, p: int, e: string)
    requires RunOutcome(before, after, links, gl) && WellFormed(gl) && p in gl.projectMembers
    ensures var id, invites := RowId(Project(p), ByEmail(e)), FetchedInvites(gl, p);
      && (forall i :: i in invites && i.email == e ==>
            && id in after && after[id].status == PendingInvite
            && after[id].accessLevel == (if i.accessLevel.Some? then i.accessLevel.value else 10)
            && after[id].cnpUser == (if id in before then before[id].cnpUser else None))
      && ((forall i :: i in invites ==> i.email != e) ==>
            && (id in after <==> id in before)
            && (id in before ==> after[id].status == (if before[id].status == PendingInvite then Left else before[id].status)
                                 && after[id].accessLevel == before[id].accessLevel && after[id].cnpUser == before[id].cnpUser))
  {
    var id, invites := RowId(Project(p), ByEmail(e)), FetchedInvites(gl, p);
    assert Lookup(after, id) == RowAfterRun(before, links, gl, id);
    AbsentInvite(invites, e);
    forall i | i in invites && i.email == e ensures InviteLevel(invites, e) == Some(if i.accessLevel.Some? then i.accessLevel.value else 10) {
      ListedLevel(invites, e, if i.accessLevel.Some? then i.accessLevel.value else 10);
      assert i == GlInvite(e, i.accessLevel);
    }
  }

  /** Rows of a scope that was not fetched stay as they were. */
  lemma UnfetchedRowsStay(before: Table, after: Table, links: map<int, int>, gl: GitLab, id: RowId)
    requires RunOutcome(before, after, links, gl)
    requires match id.scope
             case Group(g) => g !in gl.groupMembers
             case Project(p) => p !in gl.projectMembers
    ensures id in after <==> id in before
    ensures id in before ==> after[id] == before[id]
  {
    assert Lookup(after, id) == RowAfterRun(before, links, gl, id);
  }

  /** A member GitLab lists at 40 or above in a scope of the app, and who is linked, is a Maintainer of the app after the run. */
  lemma LinkedMaintainersMaintain(before: Table, after: Table, links: map<int, int>, gl: GitLab, scope: Scope, g: int, l: int, app: App)
    requires RunOutcome(before, after, links, gl) && WellFormed(gl)
    requires FetchedMembers(gl, scope).Some? && GlMember(g, l) in FetchedMembers(gl, scope).value
    requires l >= 40 && g in links && InAppScope(scope, app)
    ensures MaintainsApp(after, app, links[g])
  {
    ListedMembersRow(before, after, links, gl, scope, g, l);
    assert GrantsConsole(after, RowId(scope, ByGitLabId(g)), app, links[g]);
  }

  /** The lowest GitLab level of each tier. */
  function LowestLevel(tier: Tier): int {
    match tier
    case Viewer => 0
    case Developer => 30
    case Maintainer => 40
    case Owner => 50
  }

  lemma TiersByLevel(level: int, tier: Tier)
    ensures TierAtLeast(AccessLevelToTier(level), tier) <==> tier == Viewer || level >= LowestLevel(tier)
  {
  }

  /** GitLab lists the user in the scope at `level`: through the link of the GitLab id, or without one through the row's user. */
  ghost predicate ListedAt(before: Table, links: map<int, int>, gl: GitLab, scope: Scope, g: int, level: int, user: int) {
    && FetchedMembers(gl, scope).Some? && GlMember(g, level) in FetchedMembers(gl, scope).value
    && var id := RowId(scope, ByGitLabId(g));
       if g in links then links[g] == user else id in before && before[id].cnpUser == Some(user)
  }

  /** After a run that fetched the scopes of an app, a user's tier on it is the best level GitLab lists the user at there. */
  lemma TierFollowsGitLab(tier: Tier, before: Table, after: Table, links: map<int, int>, gl: GitLab, app: App, user: int, t: Tier)
    requires RunOutcome(before, after, links, gl) && WellFormed(gl) && RowsWellFormed(before)
    requires forall scope :: InAppScope(scope, app) ==> FetchedMembers(gl, scope).Some?
    requires IsEffectiveTier(tier, after, app, user)
    ensures TierAtLeast(tier, t) <==>
      t == Viewer || exists scope, g, level :: InAppScope(scope, app) && ListedAt(before, links, gl, scope, g, level, user) && level >= LowestLevel(t)
  {
    assert TierAtLeast(tier, t) <==> t == Viewer || exists id :: Counts(after, id, app, user) && TierAtLeast(AccessLevelToTier(after[id].accessLevel), t);
    if t != Viewer {
      if id :| Counts(after, id, app, user) && TierAtLeast(AccessLevelToTier(after[id].accessLevel), t) {
        CountingRowIsListed(before, after, links, gl, id, app, user);
        TiersByLevel(after[id].accessLevel, t);
        assert ListedAt(before, links, gl, id.scope, id.key.gitlabId, after[id].accessLevel, user);
      }
      if scope, g, level :| InAppScope(scope, app) && ListedAt(before, links, gl, scope, g, level, user) && level >= LowestLevel(t) {
        ListedMembersRow(before, after, links, gl, scope, g, level);
        TiersByLevel(level, t);
        assert Counts(after, RowId(scope, ByGitLabId(g)), app, user);
      }
    }
  }

  lemma CountingRowIsListed(before: Table, after: Table, links: map<int, int>, gl: GitLab, id: RowId, app: App, user: int)
    requires RunOutcome(before, after, links, gl) && WellFormed(gl) && RowsWellFormed(before)
    requires Counts(after, id, app, user) && FetchedMembers(gl, id.scope).Some?
    ensures id.key.ByGitLabId? && ListedAt(before, links, gl, id.scope, id.key.gitlabId, after[id].accessLevel, user)
  {
    RunKeepsRowsWellFormed(before, after, links, gl);
    var g, members := id.key.gitlabId, FetchedMembers(gl, id.scope).value;
    CommittedScopeMirrors(before, after, links, gl, id.scope);
    assert id == RowId(id.scope, ByGitLabId(g));
    assert HasRow(after, RowId(id.scope, ByGitLabId(g)), Active, after[id].accessLevel);
    FetchedLevel(members, g, after[id].accessLevel);
    ListedMembersRow(before, after, links, gl, id.scope, g, after[id].accessLevel);
  }

  /** A row makes a fetched scope report exactly the user it has after the run, when it granted Maintainer before and does not any more. */
  lemma ReportedIffLost(before: Table, after: Table, links: map<int, int>, gl: GitLab, id: RowId, user: int)
    requires RunOutcome(before, after, links, gl) && LinksStable(before, links) && FetchedMembers(gl, id.scope).Some?
    ensures Reports(before, links, id.scope, FetchedMembers(gl, id.scope).value, id, user) <==>
      && id.key.ByGitLabId? && id in before && before[id].status == Active && before[id].accessLevel >= 40
      && id in after && (after[id].status != Active || after[id].accessLevel < 40) && after[id].cnpUser == Some(user)
  {
    assert Lookup(after, id) == RowAfterRun(before, links, gl, id);
  }

  /** A failed fetch of a project's invitations counts as an empty list: every pending invitation of it has left. */
  lemma FailedInvitationsWithdrawAll(before: Table, after: Table, links: map<int, int>, gl: GitLab, p: int, e: string)
    requires RunOutcome(before, after, links, gl) && WellFormed(gl) && p in gl.projectMembers && p !in gl.invitations
    requires RowId(Project(p), ByEmail(e)) in before && before[RowId(Project(p), ByEmail(e))].status == PendingInvite
    ensures RowId(Project(p), ByEmail(e)) in after && after[RowId(Project(p), ByEmail(e))].status == Left
  {
    InvitationsRow(before, after, links, gl, p, e);
  }
}
