/**
 Access tiers derived from the mirrored GitLab memberships (backend/services/tier_service.py).

 Both membership tables are one map here: a row is identified by its scope (a group or a
 project) and by its GitLab user id or its invitation email, never both.
 */
module Tiers {
  import opened Options

  datatype Tier = Viewer | Developer | Maintainer | Owner

  datatype MemberStatus = Active | PendingInvite | Left

  datatype Scope = Group(groupId: int) | Project(projectId: int)

  datatype MemberKey = ByGitLabId(gitlabId: int) | ByEmail(email: string)

  datatype RowId = RowId(scope: Scope, key: MemberKey)

  datatype Row = Row(accessLevel: int, cnpUser: Option<int>, status: MemberStatus)

  type Table = map<RowId, Row>

  datatype App = App(project: Option<int>, owningGroup: Option<int>, authEnabled: bool)

  /** Position in TIER_ORDER. */
  function Rank(tier: Tier): nat {
    match tier
    case Viewer => 0
    case Developer => 1
    case Maintainer => 2
    case Owner => 3
  }

  function AccessLevelToTier(level: int): Tier {
    if level >= 50 then Owner
    else if level >= 40 then Maintainer
    else if level >= 30 then Developer
    else Viewer
  }

  predicate TierAtLeast(tier: Tier, minTier: Tier) {
    Rank(tier) >= Rank(minTier)
  }

  predicate HasConsoleTier(tier: Tier) {
    TierAtLeast(tier, Maintainer)
  }

  predicate LevelGrantsConsole(level: Option<int>) {
    level.Some? && HasConsoleTier(AccessLevelToTier(level.value))
  }

  /** A row that counts for a user's tier on an app: active, linked to the user, in a scope of the app. */
  predicate Counts(rows: Table, id: RowId, app: App, user: int) {
    && id in rows
    && rows[id].status == Active
    && rows[id].cnpUser == Some(user)
    && InAppScope(id.scope, app)
  }

  predicate InAppScope(scope: Scope, app: App) {
    match scope
    case Group(g) => app.owningGroup == Some(g)
    case Project(p) => app.project == Some(p)
  }

  /**
   The tier as a statement about rows, without any list or maximum: each tier is reached
   exactly when some counting row reaches it.
   */
  ghost predicate IsEffectiveTier(tier: Tier, rows: Table, app: App, user: int) {
    forall t: Tier :: TierAtLeast(tier, t) <==>
      t == Viewer || exists id :: Counts(rows, id, app, user) && TierAtLeast(AccessLevelToTier(rows[id].accessLevel), t)
  }

  /** One SELECT of get_effective_tier: the access levels of the user's active rows in one scope. */
  method SelectLevels(rows: Table, scope: Scope, user: int) returns (levels: seq<int>)
    ensures forall l :: l in levels <==>
      exists id :: id in rows && id.scope == scope && rows[id].status == Active
                   && rows[id].cnpUser == Some(user) && rows[id].accessLevel == l
  {
    levels := [];
    var rest := rows.Keys;
    while rest != {}
      invariant rest <= rows.Keys
      invariant forall l :: l in levels <==>
        exists id :: id in rows.Keys - rest && id.scope == scope && rows[id].status == Active
                     && rows[id].cnpUser == Some(user) && rows[id].accessLevel == l
      decreases |rest|
    {
      var id :| id in rest;
      var row := rows[id];
      ghost var before := levels;
      if id.scope == scope && row.status == Active && row.cnpUser == Some(user) {
        levels := levels + [row.accessLevel];
      }
      forall l ensures l in levels <==>
        exists i :: i in rows.Keys - (rest - {id}) && i.scope == scope && rows[i].status == Active
                    && rows[i].cnpUser == Some(user) && rows[i].accessLevel == l
      {
        if l in before {
          var i :| i in rows.Keys - rest && i.scope == scope && rows[i].status == Active
                   && rows[i].cnpUser == Some(user) && rows[i].accessLevel == l;
          assert i in rows.Keys - (rest - {id});
        }
        if l in levels && l !in before {
          assert id in rows.Keys - (rest - {id});
        }
      }
      rest := rest - {id};
    }
  }

  method MaxLevel(levels: seq<int>) returns (m: int)
    requires levels != []
    ensures m in levels
    ensures forall l :: l in levels ==> l <= m
  {
    m := levels[0];
    for i := 1 to |levels|
      invariant m in levels
      invariant forall k :: 0 <= k < i ==> levels[k] <= m
    {
      if levels[i] > m { m := levels[i]; }
    }
  }

  /** The list get_effective_tier builds holds the levels of the counting rows and nothing else. */
  ghost predicate LevelsOf(levels: seq<int>, rows: Table, app: App, user: int) {
    forall l :: l in levels <==> exists id :: Counts(rows, id, app, user) && rows[id].accessLevel == l
  }

  lemma CountedLevelIsListed(levels: seq<int>, rows: Table, app: App, user: int, id: RowId)
    requires LevelsOf(levels, rows, app, user)
    requires Counts(rows, id, app, user)
    ensures rows[id].accessLevel in levels
  {
  }

  /** The tier of the highest level is the effective tier. */
  lemma TopLevelGivesTier(levels: seq<int>, top: int, rows: Table, app: App, user: int)
    requires LevelsOf(levels, rows, app, user)
    requires top in levels && forall l :: l in levels ==> l <= top
    ensures IsEffectiveTier(AccessLevelToTier(top), rows, app, user)
  {
    var best :| Counts(rows, best, app, user) && rows[best].accessLevel == top;
    forall id | Counts(rows, id, app, user) ensures rows[id].accessLevel <= top {
      CountedLevelIsListed(levels, rows, app, user, id);
    }
  }

  lemma NoLevelGivesViewer(levels: seq<int>, rows: Table, app: App, user: int)
    requires LevelsOf(levels, rows, app, user)
    requires levels == []
    ensures IsEffectiveTier(Viewer, rows, app, user)
  {
    forall id ensures !Counts(rows, id, app, user) {
      if Counts(rows, id, app, user) {
        CountedLevelIsListed(levels, rows, app, user, id);
        assert false;
      }
    }
  }

  lemma EffectiveTierUnique(s: Tier, t: Tier, rows: Table, app: App, user: int)
    requires IsEffectiveTier(s, rows, app, user) && IsEffectiveTier(t, rows, app, user)
    ensures s == t
  {
    assert TierAtLeast(s, s) && TierAtLeast(t, t);
    assert TierAtLeast(t, s) && TierAtLeast(s, t);
  }

  /** get_effective_tier: project rows first, then owning-group rows, then the maximum. */
  method GetEffectiveTier(rows: Table, apps: map<int, App>, user: int, appId: int) returns (tier: Tier)
    ensures appId !in apps ==> tier == Viewer
    ensures appId in apps ==> IsEffectiveTier(tier, rows, apps[appId], user)
  {
    if appId !in apps { return Viewer; }
    var app := apps[appId];
    var levels := [];
    if app.project.Some? {
      levels := SelectLevels(rows, Project(app.project.value), user);
    }
    if app.owningGroup.Some? {
      var more := SelectLevels(rows, Group(app.owningGroup.value), user);
      levels := levels + more;
    }
    assert LevelsOf(levels, rows, app, user);
    if levels == [] {
      NoLevelGivesViewer(levels, rows, app, user);
      return Viewer;
    }
    var m := MaxLevel(levels);
    TopLevelGivesTier(levels, m, rows, app, user);
    tier := AccessLevelToTier(m);
  }
}
