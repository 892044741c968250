/**
 The assistant's own role computation and the tool gate (backend/services/assistant_tools.py).

 A PlatformTools object serves one question: it caches the user's project levels and visible
 groups the first time it needs them. `db` is the database a method reads.
 */
module AssistantRoles {
  import opened Options
  import opened Tiers

  /** ROLE_ORDER: the four tiers, then the platform administrator. */
  datatype Role = Member(tier: Tier) | Admin

  function RoleRank(role: Role): nat {
    match role
    case Member(t) => Rank(t)
    case Admin => 4
  }

  datatype GitLabGroup = GitLabGroup(groupId: int, name: string)

  /** The membership tables and the synchronised groups, in name order. */
  datatype Database = Database(rows: Table, groups: seq<GitLabGroup>)

  const SYSTEM_GROUPS: set<string> := {"cnp-templates", "4k-cnp-2027", "cnp-apps", "subgroup-team-1-test"}

  /** The tables' keys: a group id names one group, and a group row belongs to a known group. */
  predicate WellFormed(db: Database) {
    && (forall i, j :: 0 <= i < j < |db.groups| ==> db.groups[i].groupId != db.groups[j].groupId)
    && (forall id :: id in db.rows && id.scope.Group? ==>
          exists i :: 0 <= i < |db.groups| && db.groups[i].groupId == id.scope.groupId)
  }

  /** A system group, which the assistant does not see. */
  predicate Hidden(db: Database, scope: Scope) {
    scope.Group? && exists i :: 0 <= i < |db.groups| && db.groups[i].groupId == scope.groupId && db.groups[i].name in SYSTEM_GROUPS
  }

  /** An active membership of the user. */
  predicate Mine(rows: Table, id: RowId, user: int) {
    id in rows && rows[id].status == Active && rows[id].cnpUser == Some(user)
  }

  /** `tier` is the highest tier the levels reach, and Viewer if there is none. */
  ghost predicate IsBest(tier: Tier, levels: set<int>) {
    forall t: Tier :: TierAtLeast(tier, t) <==> t == Viewer || exists l :: l in levels && TierAtLeast(AccessLevelToTier(l), t)
  }

  /** The scopes of one app, or every scope when no app is given. */
  predicate InScope(scope: Scope, app: Option<App>) {
    app.None? || InAppScope(scope, app.value)
  }

  /** A visible membership of the user, on the app if one is given. */
  predicate Seen(db: Database, id: RowId, user: int, app: Option<App>) {
    Mine(db.rows, id, user) && InScope(id.scope, app) && !Hidden(db, id.scope)
  }

  /** The levels the user holds through visible memberships. */
  ghost function SeenLevels(db: Database, user: int, app: Option<App>): set<int> {
    set id | id in db.rows && Seen(db, id, user, app) :: db.rows[id].accessLevel
  }

  // ----- _tier -----

  /** _TIER_BY_LEVEL, highest first. */
  const TIER_BY_LEVEL: seq<(int, Tier)> := [(50, Owner), (40, Maintainer), (30, Developer)]

  /** The first entry from position i whose threshold is reached. */
  function FirstReached(level: int, i: nat): Tier
    requires i <= |TIER_BY_LEVEL|
    decreases |TIER_BY_LEVEL| - i
  {
    if i == |TIER_BY_LEVEL| then Viewer
    else if level >= TIER_BY_LEVEL[i].0 then TIER_BY_LEVEL[i].1
    else FirstReached(level, i + 1)
  }

  /** The assistant's threshold table and access_level_to_tier, written apart, are the same function. */
  lemma {:induction false} ThresholdTableAgrees(level: int)
    ensures FirstReached(level, 0) == AccessLevelToTier(level)
  {
    assert FirstReached(level, 3) == Viewer;
    assert FirstReached(level, 2) == if level >= 30 then Developer else Viewer;
    assert FirstReached(level, 1) == if level >= 40 then Maintainer else FirstReached(level, 2);
  }

  /**
   The role of a list that stands for a set of levels: it has nothing higher than the set but
   zeros, and something as high as every level of the set.
   */
  ghost predicate StandsFor(list: seq<int>, levels: set<int>) {
    && (forall l :: l in list ==> l == 0 || l in levels)
    && (forall l :: l in levels ==> exists i :: 0 <= i < |list| && list[i] >= l)
  }

  /** `_tier(max(levels)) if levels else "viewer"`. */
  method TierOf(list: seq<int>, ghost levels: set<int>) returns (tier: Tier)
    requires StandsFor(list, levels)
    ensures IsBest(tier, levels)
  {
    if list == [] { return Viewer; }
    var top := MaxLevel(list);
    ThresholdTableAgrees(top);
    tier := FirstReached(top, 0);
    forall t: Tier
      ensures TierAtLeast(tier, t) <==> t == Viewer || exists l :: l in levels && TierAtLeast(AccessLevelToTier(l), t)
    {
      forall l | l in levels ensures l <= top {
        var i :| 0 <= i < |list| && list[i] >= l;
        assert list[i] in list;
      }
    }
  }

  // ----- tools -----

  /** TOOL_MIN_ROLE; tools that are not listed need no more than Viewer. */
  const TOOL_MIN_ROLE: map<string, Role> := map[
    "get_app_logs" := Member(Developer),
    "get_pod_status" := Member(Developer),
    "get_ci_failure" := Member(Developer),
    "list_env_var_keys" := Member(Developer),
    "get_platform_health" := Admin
  ]

  /** The tools with a handler, which are also the tools with a definition. */
  const TOOLS: seq<string> := [
    "list_my_groups", "list_apps", "get_app_details", "get_metrics", "get_costs", "list_group_members",
    "get_recent_activity", "get_app_logs", "get_pod_status", "get_ci_failure", "list_env_var_keys",
    "get_platform_health", "search_platform_docs"
  ]

  function MinRole(tool: string): Role {
    Lookup(TOOL_MIN_ROLE, tool).GetOr(Member(Viewer))
  }

  datatype Verdict = UnknownTool | Unavailable(minRole: Role) | Dispatched

  datatype Env = Dev | Prod

  datatype Check = UnknownEnv | UnknownApp | NotAllowed | RoleTooLow | Passed(app: App, env: Env)

  /** `(env or default).lower()` if it names an environment; the text is given lower-cased. */
  function ParseEnv(env: string, default: Env): Option<Env> {
    if env == "" then Some(default) else if env == "dev" then Some(Dev) else if env == "prod" then Some(Prod) else None
  }

  class PlatformTools {
    const user: int
    const isAdmin: bool
    var projectLevels: Option<map<int, int>>
    var groups: Option<seq<(GitLabGroup, Option<int>)>>

    constructor (user: int, isAdmin: bool)
      ensures this.user == user && this.isAdmin == isAdmin && projectLevels == None && groups == None
    {
      this.user, this.isAdmin, projectLevels, groups := user, isAdmin, None, None;
    }

    // ----- what the caches hold -----

    ghost predicate IsProjectLevels(levels: map<int, int>, rows: Table) {
      && (forall id :: Mine(rows, id, user) && id.scope.Project? ==>
            id.scope.projectId in levels && rows[id].accessLevel <= levels[id.scope.projectId])
      && (forall p :: p in levels ==> FromProject(levels[p], rows, p))
    }

    /** A project's cached level is one the user holds there, or the 0 the maximum starts from. */
    ghost predicate FromProject(level: int, rows: Table, p: int) {
      exists id :: Mine(rows, id, user) && id.scope == Project(p) && (level == rows[id].accessLevel || level == 0)
    }

    /** One row of the outer join of a group with the user's active memberships. */
    ghost predicate Joined(rows: Table, g: GitLabGroup, level: Option<int>) {
      if level.Some? then exists id :: Mine(rows, id, user) && id.scope == Group(g.groupId) && rows[id].accessLevel == level.value
      else !exists id :: Mine(rows, id, user) && id.scope == Group(g.groupId)
    }

    ghost predicate IsGroups(list: seq<(GitLabGroup, Option<int>)>, db: Database, n: nat)
      requires n <= |db.groups|
    {
      forall e :: e in list <==>
        && (exists i :: 0 <= i < n && db.groups[i] == e.0)
        && e.0.name !in SYSTEM_GROUPS
        && Joined(db.rows, e.0, e.1)
        && (isAdmin || e.1.Some?)
    }

    /** What was cached is what the tables say. It stays so as long as the memberships do not change. */
    ghost predicate CachesAgree(db: Database)
      reads this
    {
      && (projectLevels.Some? ==> IsProjectLevels(projectLevels.value, db.rows))
      && (groups.Some? ==> IsGroups(groups.value, db, |db.groups|))
    }

    /** _project_levels. */
    method ProjectLevels(db: Database) returns (levels: map<int, int>)
      requires CachesAgree(db)
      modifies this`projectLevels
      ensures CachesAgree(db) && IsProjectLevels(levels, db.rows)
    {
      if projectLevels.Some? { return projectLevels.value; }
      levels := map[];
      var rest := db.rows.Keys;
      ghost var done: Table := map[];
      while rest != {}
        invariant rest <= db.rows.Keys
        invariant done == map id | id in db.rows && id !in rest :: db.rows[id]
        invariant IsProjectLevels(levels, done)
        decreases |rest|
      {
        var id := Pick(rest);
        var row := db.rows[id];
        ghost var before := levels;
        if id.scope.Project? && row.status == Active && row.cnpUser == Some(user) {
          var p, known := id.scope.projectId, Lookup(levels, id.scope.projectId).GetOr(0);
          levels := levels[p := if row.accessLevel > known then row.accessLevel else known];
        }
        OneMoreRow(before, levels, done, id, row);
        done := done[id := row];
        rest := rest - {id};
      }
      assert done == db.rows;
      projectLevels := Some(levels);
    }

    lemma OneMoreRow(before: map<int, int>, after: map<int, int>, done: Table, id: RowId, row: Row)
      requires IsProjectLevels(before, done) && id !in done
      requires after == if id.scope.Project? && row.status == Active && row.cnpUser == Some(user)
                        then var known := Lookup(before, id.scope.projectId).GetOr(0);
                             before[id.scope.projectId := if row.accessLevel > known then row.accessLevel else known]
                        else before
      ensures IsProjectLevels(after, done[id := row])
    {
      var now := done[id := row];
      forall p | p in after ensures FromProject(after[p], now, p) {
        if p in before {
          var j :| Mine(done, j, user) && j.scope == Project(p) && (before[p] == done[j].accessLevel || before[p] == 0);
          assert Mine(now, j, user);
        }
        if after != before {
          assert Mine(now, id, user);
        }
      }
    }

    /** _groups. */
    method Groups(db: Database) returns (list: seq<(GitLabGroup, Option<int>)>)
      requires CachesAgree(db)
      modifies this`groups
      ensures CachesAgree(db) && IsGroups(list, db, |db.groups|)
    {
      if groups.Some? { return groups.value; }
      list := [];
      for i := 0 to |db.groups|
        invariant IsGroups(list, db, i)
      {
        var g := db.groups[i];
        var entries := [];
        if g.name !in SYSTEM_GROUPS { entries := Entries(db.rows, g); }
        list := list + entries;
      }
      groups := Some(list);
    }

    /** The joined rows of one group that the user may see. */
    method Entries(rows: Table, g: GitLabGroup) returns (entries: seq<(GitLabGroup, Option<int>)>)
      ensures forall e :: e in entries <==> e.0 == g && Joined(rows, g, e.1) && (isAdmin || e.1.Some?)
    {
      var levels := SelectLevels(rows, Group(g.groupId), user);
      entries := [];
      for k := 0 to |levels|
        invariant forall e :: e in entries <==> e.0 == g && e.1.Some? && e.1.value in levels[..k]
      {
        entries := entries + [(g, Some(levels[k]))];
      }
      assert levels[..|levels|] == levels;
      forall l ensures l in levels <==> Joined(rows, g, Some(l)) {
      }
      if levels == [] {
        forall id ensures !(Mine(rows, id, user) && id.scope == Group(g.groupId)) {
          if Mine(rows, id, user) && id.scope == Group(g.groupId) {
            LevelIsSelected(rows, id, levels);
            assert false;
          }
        }
        if isAdmin { entries := entries + [(g, None)]; }
      } else {
        assert levels[0] in levels;
        assert !Joined(rows, g, None);
      }
    }

    lemma LevelIsSelected(rows: Table, id: RowId, levels: seq<int>)
      requires Mine(rows, id, user)
      requires forall l :: l in levels <==>
        exists j :: j in rows && j.scope == id.scope && rows[j].status == Active
                    && rows[j].cnpUser == Some(user) && rows[j].accessLevel == l
      ensures rows[id].accessLevel in levels
    {
    }

    // ----- roles -----

    /** The levels of the visible groups in scope. */
    ghost predicate FromGroups(list: seq<int>, visible: seq<(GitLabGroup, Option<int>)>, app: Option<App>, n: nat)
      requires n <= |visible|
    {
      forall l :: l in list <==> exists k :: 0 <= k < n && InScope(Group(visible[k].0.groupId), app) && visible[k].1 == Some(l)
    }

    method GroupLevels(visible: seq<(GitLabGroup, Option<int>)>, app: Option<App>) returns (list: seq<int>)
      ensures FromGroups(list, visible, app, |visible|)
    {
      list := [];
      for i := 0 to |visible|
        invariant FromGroups(list, visible, app, i)
      {
        var (g, level) := visible[i];
        if InScope(Group(g.groupId), app) && level.Some? { list := list + [level.value]; }
      }
    }

    /** The cached levels of the projects in scope. */
    ghost predicate FromProjects(list: seq<int>, levels: map<int, int>, app: Option<App>) {
      && (forall l :: l in list ==> exists p :: p in levels && levels[p] == l && InScope(Project(p), app))
      && (forall p :: p in levels && InScope(Project(p), app) ==> levels[p] in list)
    }

    /** The list stands for the user's levels on the projects in scope. */
    ghost predicate StandsForProjects(list: seq<int>, rows: Table, app: Option<App>) {
      && (forall l :: l in list ==>
            l == 0 || exists id :: Mine(rows, id, user) && id.scope.Project? && InScope(id.scope, app) && rows[id].accessLevel == l)
      && (forall id :: Mine(rows, id, user) && id.scope.Project? && InScope(id.scope, app) ==>
            exists i :: 0 <= i < |list| && list[i] >= rows[id].accessLevel)
    }

    lemma CachedProjectsStand(levels: map<int, int>, rows: Table, app: Option<App>, list: seq<int>)
      requires IsProjectLevels(levels, rows) && FromProjects(list, levels, app)
      ensures StandsForProjects(list, rows, app)
    {
      forall l | l in list
        ensures l == 0 || exists id :: Mine(rows, id, user) && id.scope.Project? && InScope(id.scope, app) && rows[id].accessLevel == l
      {
        var p :| p in levels && levels[p] == l && InScope(Project(p), app);
        assert FromProject(levels[p], rows, p);
      }
      forall id | Mine(rows, id, user) && id.scope.Project? && InScope(id.scope, app)
        ensures exists i :: 0 <= i < |list| && list[i] >= rows[id].accessLevel
      {
        assert levels[id.scope.projectId] in list;
      }
    }

    /** The project and group levels in scope, together, stand for the visible levels there. */
    lemma TogetherTheyStandForSeen(db: Database, visible: seq<(GitLabGroup, Option<int>)>, app: Option<App>,
        fromProjects: seq<int>, fromGroups: seq<int>)
      requires WellFormed(db) && !isAdmin
      requires IsGroups(visible, db, |db.groups|)
      requires StandsForProjects(fromProjects, db.rows, app) && FromGroups(fromGroups, visible, app, |visible|)
      ensures StandsFor(fromProjects + fromGroups, SeenLevels(db, user, app))
    {
      var list, seen := fromProjects + fromGroups, SeenLevels(db, user, app);
      forall l | l in fromGroups ensures l in seen {
        var k :| 0 <= k < |visible| && InScope(Group(visible[k].0.groupId), app) && visible[k].1 == Some(l);
        assert visible[k] in visible;
        VisibleGroupIsNotHidden(db, visible[k].0);
      }
      forall id | id in db.rows && Seen(db, id, user, app)
        ensures exists i :: 0 <= i < |list| && list[i] >= db.rows[id].accessLevel
      {
        if id.scope.Project? {
          var i :| 0 <= i < |fromProjects| && fromProjects[i] >= db.rows[id].accessLevel;
          assert list[i] == fromProjects[i];
        } else {
          var i :| 0 <= i < |db.groups| && db.groups[i].groupId == id.scope.groupId;
          var entry := (db.groups[i], Some(db.rows[id].accessLevel));
          assert Joined(db.rows, entry.0, entry.1);
          assert entry in visible;
          assert db.rows[id].accessLevel in fromGroups;
          assert db.rows[id].accessLevel in list;
        }
      }
    }

    lemma VisibleGroupIsNotHidden(db: Database, g: GitLabGroup)
      requires WellFormed(db) && g in db.groups && g.name !in SYSTEM_GROUPS
      ensures !Hidden(db, Group(g.groupId))
    {
    }

    /** role_for_app: the best visible membership on the app. */
    method RoleForApp(db: Database, app: App) returns (role: Role)
      requires WellFormed(db) && CachesAgree(db)
      modifies this
      ensures CachesAgree(db)
      ensures role == Admin <==> isAdmin
      ensures !isAdmin ==> IsBest(role.tier, SeenLevels(db, user, Some(app)))
    {
      if isAdmin { return Admin; }
      var fromProject := [];
      if app.project.Some? {
        var levels := ProjectLevels(db);
        var p := app.project.value;
        if p in levels { fromProject := [levels[p]]; }
        assert p in levels ==> levels[p] in fromProject;
        CachedProjectsStand(levels, db.rows, Some(app), fromProject);
      }
      var visible := Groups(db);
      var fromGroups := GroupLevels(visible, Some(app));
      TogetherTheyStandForSeen(db, visible, Some(app), fromProject, fromGroups);
      var tier := TierOf(fromProject + fromGroups, SeenLevels(db, user, Some(app)));
      role := Member(tier);
    }

    /** max_role: the best visible membership anywhere. */
    method MaxRole(db: Database) returns (role: Role)
      requires WellFormed(db) && CachesAgree(db)
      modifies this
      ensures CachesAgree(db)
      ensures IsMaxRole(db, role)
    {
      if isAdmin { return Admin; }
      var visible := Groups(db);
      var fromGroups := GroupLevels(visible, None);
      var levels := ProjectLevels(db);
      var fromProjects := [];
      var rest := levels.Keys;
      while rest != {}
        invariant rest <= levels.Keys && CachesAgree(db)
        invariant forall l :: l in fromProjects ==> exists p :: p in levels && levels[p] == l && InScope(Project(p), None)
        invariant forall p :: p in levels && p !in rest ==> levels[p] in fromProjects
        decreases |rest|
      {
        var p := Pick(rest);
        fromProjects := fromProjects + [levels[p]];
        rest := rest - {p};
      }
      CachedProjectsStand(levels, db.rows, None, fromProjects);
      TogetherTheyStandForSeen(db, visible, None, fromProjects, fromGroups);
      var tier := TierOf(fromProjects + fromGroups, SeenLevels(db, user, None));
      role := Member(tier);
    }

    ghost predicate IsMaxRole(db: Database, role: Role) {
      (role == Admin <==> isAdmin) && (!isAdmin ==> IsBest(role.tier, SeenLevels(db, user, None)))
    }

    // ----- the gate -----

    /** The user is an administrator or holds a visible membership of at least tier t, on the app if one is given. */
    ghost predicate Holds(db: Database, app: Option<App>, t: Tier) {
      isAdmin || exists id :: Seen(db, id, user, app) && TierAtLeast(AccessLevelToTier(db.rows[id].accessLevel), t)
    }

    ghost predicate MayUse(db: Database, tool: string) {
      match MinRole(tool)
      case Admin => isAdmin
      case Member(t) => t == Viewer || Holds(db, None, t)
    }

    lemma RoleReachesWhatIsHeld(db: Database, app: Option<App>, role: Role, t: Tier)
      requires role == Admin <==> isAdmin
      requires !isAdmin ==> IsBest(role.tier, SeenLevels(db, user, app))
      ensures RoleRank(role) >= Rank(t) <==> t == Viewer || Holds(db, app, t)
    {
      if !isAdmin {
        var levels := SeenLevels(db, user, app);
        assert TierAtLeast(role.tier, t) <==> t == Viewer || exists l :: l in levels && TierAtLeast(AccessLevelToTier(l), t);
        forall id | Seen(db, id, user, app) ensures db.rows[id].accessLevel in levels {
        }
      }
    }

    /** The gate of `call`. */
    method Gate(db: Database, tool: string) returns (verdict: Verdict)
      requires WellFormed(db) && CachesAgree(db)
      modifies this
      ensures CachesAgree(db)
      ensures verdict == if tool !in TOOLS then UnknownTool
                         else if MayUse(db, tool) then Dispatched
                         else Unavailable(MinRole(tool))
    {
      if tool !in TOOLS { return UnknownTool; }
      var minRole := MinRole(tool);
      var role := MaxRole(db);
      if minRole.Member? { RoleReachesWhatIsHeld(db, None, role, minRole.tier); }
      verdict := if RoleRank(role) < RoleRank(minRole) then Unavailable(minRole) else Dispatched;
    }

    /** The tools of a list that the user may use, in their order. */
    ghost function Usable(db: Database, tools: seq<string>): seq<string> {
      if tools == [] then []
      else Usable(db, tools[..|tools| - 1]) + if MayUse(db, tools[|tools| - 1]) then [tools[|tools| - 1]] else []
    }

    lemma {:induction false} UsableMeaning(db: Database, tools: seq<string>)
      ensures forall t :: t in Usable(db, tools) <==> t in tools && MayUse(db, t)
    {
      if tools != [] {
        UsableMeaning(db, tools[..|tools| - 1]);
        assert tools == tools[..|tools| - 1] + [tools[|tools| - 1]];
      }
    }

    method Filter(db: Database, role: Role, tools: seq<string>) returns (usable: seq<string>)
      requires IsMaxRole(db, role)
      ensures usable == Usable(db, tools)
    {
      usable := [];
      for k := 0 to |tools|
        invariant usable == Usable(db, tools[..k])
      {
        assert tools[..k + 1][..k] == tools[..k];
        var minRole := MinRole(tools[k]);
        if minRole.Member? { RoleReachesWhatIsHeld(db, None, role, minRole.tier); }
        if RoleRank(minRole) <= RoleRank(role) { usable := usable + [tools[k]]; }
      }
      assert tools[..|tools|] == tools;
    }

    /** available_definitions: exactly the tools the gate would let through, in their order. */
    method AvailableDefinitions(db: Database) returns (tools: seq<string>)
      requires WellFormed(db) && CachesAgree(db)
      modifies this
      ensures CachesAgree(db)
      ensures tools == Usable(db, TOOLS)
    {
      var role := MaxRole(db);
      tools := Filter(db, role, TOOLS);
    }

    // ----- the checks behind the gate -----

    /** The check shared by get_app_logs, get_pod_status and get_ci_failure. `allowed` is the per-app data setting. */
    method DiagnosableApp(db: Database, app: Option<App>, env: string, allowed: bool) returns (check: Check)
      requires WellFormed(db) && CachesAgree(db)
      modifies this
      ensures CachesAgree(db)
      ensures check == CheckOf(db, app, ParseEnv(env, Prod), allowed, Developer)
    {
      var parsed := ParseEnv(env, Prod);
      if parsed.None? { return UnknownEnv; }
      if app.None? { return UnknownApp; }
      if !allowed { return NotAllowed; }
      var role := RoleForApp(db, app.value);
      RoleReachesWhatIsHeld(db, app, role, Developer);
      check := if RoleRank(role) < Rank(Developer) then RoleTooLow else Passed(app.value, parsed.value);
    }

    /** The check of list_env_var_keys: production variables need a maintainer. */
    method EnvVarKeysCheck(db: Database, app: Option<App>, env: string, allowed: bool) returns (check: Check)
      requires WellFormed(db) && CachesAgree(db)
      modifies this
      ensures CachesAgree(db)
      ensures check == CheckOf(db, app, ParseEnv(env, Dev), allowed, KeysTier(ParseEnv(env, Dev).GetOr(Dev)))
    {
      var parsed := ParseEnv(env, Dev);
      if parsed.None? { return UnknownEnv; }
      if app.None? { return UnknownApp; }
      if !allowed { return NotAllowed; }
      var role := RoleForApp(db, app.value);
      var needed := if parsed.value == Dev then Developer else Maintainer;
      RoleReachesWhatIsHeld(db, app, role, needed);
      check := if RoleRank(role) < Rank(needed) then RoleTooLow else Passed(app.value, parsed.value);
    }

    function KeysTier(env: Env): Tier {
      if env == Dev then Developer else Maintainer
    }

    ghost function CheckOf(db: Database, app: Option<App>, env: Option<Env>, allowed: bool, needed: Tier): Check {
      if env.None? then UnknownEnv
      else if app.None? then UnknownApp
      else if !allowed then NotAllowed
      else if Holds(db, app, needed) then Passed(app.value, env.value)
      else RoleTooLow
    }

    /** A tool that checks a tier on an app is never withheld by the gate from a user who holds that tier. */
    lemma GateNeverBlocksACheckThatPasses(db: Database, tool: string, app: App, env: Env)
      requires (tool in {"get_app_logs", "get_pod_status", "get_ci_failure"} && Holds(db, Some(app), Developer))
            || (tool == "list_env_var_keys" && Holds(db, Some(app), KeysTier(env)))
      ensures tool in TOOLS && MayUse(db, tool)
    {
      assert TOOLS[7] == "get_app_logs" && TOOLS[8] == "get_pod_status" && TOOLS[9] == "get_ci_failure" && TOOLS[10] == "list_env_var_keys";
      if !isAdmin {
        var id :| Seen(db, id, user, Some(app)) && TierAtLeast(AccessLevelToTier(db.rows[id].accessLevel), Developer);
        assert Seen(db, id, user, None);
      }
    }
  }

  // ----- agreement with the API -----

  /** Every membership through a hidden owning group is matched by a visible one, or gives no more than Viewer. */
  ghost predicate HiddenAddsNothing(db: Database, user: int, app: App) {
    forall id :: Counts(db.rows, id, app, user) && Hidden(db, id.scope) ==>
      Matched(db, user, app, AccessLevelToTier(db.rows[id].accessLevel))
  }

  ghost predicate Matched(db: Database, user: int, app: App, t: Tier) {
    t == Viewer || exists j :: Seen(db, j, user, Some(app)) && TierAtLeast(AccessLevelToTier(db.rows[j].accessLevel), t)
  }

  lemma BestIsMatched(db: Database, user: int, app: App, role: Tier, t: Tier)
    requires IsBest(role, SeenLevels(db, user, Some(app)))
    ensures TierAtLeast(role, t) <==> Matched(db, user, app, t)
  {
    var levels := SeenLevels(db, user, Some(app));
    assert TierAtLeast(role, t) <==> t == Viewer || exists l :: l in levels && TierAtLeast(AccessLevelToTier(l), t);
    forall j | Seen(db, j, user, Some(app)) ensures db.rows[j].accessLevel in levels {
    }
  }

  /** max_role is at least role_for_app, for every app. */
  lemma MaxRoleCoversEveryApp(db: Database, user: int, app: App, role: Tier, highest: Tier)
    requires IsBest(role, SeenLevels(db, user, Some(app))) && IsBest(highest, SeenLevels(db, user, None))
    ensures TierAtLeast(highest, role)
  {
    BestIsMatched(db, user, app, role, role);
    if role != Viewer {
      var j :| Seen(db, j, user, Some(app)) && TierAtLeast(AccessLevelToTier(db.rows[j].accessLevel), role);
      assert Seen(db, j, user, None);
      assert db.rows[j].accessLevel in SeenLevels(db, user, None);
    }
  }

  /** The assistant never gives a user more than the API does. */
  lemma RoleNeverExceedsApi(db: Database, user: int, app: App, role: Tier, tier: Tier)
    requires IsBest(role, SeenLevels(db, user, Some(app)))
    requires IsEffectiveTier(tier, db.rows, app, user)
    ensures TierAtLeast(tier, role)
  {
    BestIsMatched(db, user, app, role, role);
    if role != Viewer {
      var j :| Seen(db, j, user, Some(app)) && TierAtLeast(AccessLevelToTier(db.rows[j].accessLevel), role);
      assert Counts(db.rows, j, app, user);
    }
  }

  /**
   role_for_app is the tier of get_effective_tier exactly when no hidden owning group adds to
   it, so always when the owning group is not a system group.
   */
  lemma RoleAgreesWithApi(db: Database, user: int, app: App, role: Tier, tier: Tier)
    requires IsBest(role, SeenLevels(db, user, Some(app)))
    requires IsEffectiveTier(tier, db.rows, app, user)
    ensures role == tier <==> HiddenAddsNothing(db, user, app)
    ensures (app.owningGroup.Some? ==> !Hidden(db, Group(app.owningGroup.value))) ==> role == tier
  {
    RoleNeverExceedsApi(db, user, app, role, tier);
    BestIsMatched(db, user, app, role, tier);
    if role == tier {
      forall id | Counts(db.rows, id, app, user) && Hidden(db, id.scope)
        ensures Matched(db, user, app, AccessLevelToTier(db.rows[id].accessLevel))
      {
        var t := AccessLevelToTier(db.rows[id].accessLevel);
        BestIsMatched(db, user, app, role, t);
        assert TierAtLeast(tier, t);
      }
    }
    if HiddenAddsNothing(db, user, app) && tier != Viewer {
      assert TierAtLeast(tier, tier);
      var id :| Counts(db.rows, id, app, user) && TierAtLeast(AccessLevelToTier(db.rows[id].accessLevel), tier);
      if !Hidden(db, id.scope) {
        assert Seen(db, id, user, Some(app));
      } else {
        assert Matched(db, user, app, AccessLevelToTier(db.rows[id].accessLevel));
      }
      assert Matched(db, user, app, tier);
    }
  }

  /** A maintainer of an app only through a system group is a viewer to the assistant. */
  lemma SystemGroupHidesTheRole() returns (db: Database, app: App, role: Tier, tier: Tier)
    ensures WellFormed(db)
    ensures IsBest(role, SeenLevels(db, 7, Some(app))) && role == Viewer
    ensures IsEffectiveTier(tier, db.rows, app, 7) && tier == Maintainer
  {
    var id := RowId(Group(3), ByGitLabId(5));
    app, role, tier := App(None, Some(3), true), Viewer, Maintainer;
    db := Database(map[id := Row(40, Some(7), Active)], [GitLabGroup(3, "cnp-apps")]);
    assert db.groups[0].name in SYSTEM_GROUPS;
    assert Counts(db.rows, id, app, 7);
    assert SeenLevels(db, 7, Some(app)) == {};
  }

  // ----- the gate, tool by tool -----

  /** Platform health is for administrators; logs, pods, CI failures and variable names need a visible Developer membership; the rest is open. */
  lemma GateMeaning(tools: PlatformTools, db: Database, tool: string)
    ensures tools.MayUse(db, tool) <==>
      if tool == "get_platform_health" then tools.isAdmin
      else if tool == "get_app_logs" || tool == "get_pod_status" || tool == "get_ci_failure" || tool == "list_env_var_keys" then
        tools.isAdmin || exists id :: Seen(db, id, tools.user, None) && db.rows[id].accessLevel >= 30
      else true
  {
    forall id | Seen(db, id, tools.user, None)
      ensures TierAtLeast(AccessLevelToTier(db.rows[id].accessLevel), Developer) <==> db.rows[id].accessLevel >= 30
    {
    }
  }

  predicate IsSystemGroup(group: GitLabGroup, g: int) {
    group.groupId == g && group.name in {"cnp-templates", "4k-cnp-2027", "cnp-apps", "subgroup-team-1-test"}
  }

  /** A visible membership: an active row of the user, in a scope of the app, not of a system group. */
  lemma SeenMeaning(db: Database, id: RowId, user: int, app: App)
    ensures Seen(db, id, user, Some(app)) <==>
      && id in db.rows && db.rows[id].status == Active && db.rows[id].cnpUser == Some(user)
      && match id.scope
         case Project(p) => app.project == Some(p)
         case Group(g) => app.owningGroup == Some(g) && !exists i :: 0 <= i < |db.groups| && IsSystemGroup(db.groups[i], g)
  {
  }

  /** Variable names need a visible membership on the app at 40 for prod and 30 for dev; the environment is dev unless prod is asked for. */
  lemma KeysCheckMeaning(tools: PlatformTools, db: Database, app: App, env: string)
    requires env in {"", "dev", "prod"}
    ensures ParseEnv(env, Dev) == Some(if env == "prod" then Prod else Dev)
    ensures tools.CheckOf(db, Some(app), ParseEnv(env, Dev), true, tools.KeysTier(ParseEnv(env, Dev).GetOr(Dev))).Passed? <==>
      || tools.isAdmin
      || exists id :: Seen(db, id, tools.user, Some(app)) && db.rows[id].accessLevel >= if env == "prod" then 40 else 30
  {
    var t, least := if env == "prod" then Maintainer else Developer, if env == "prod" then 40 else 30;
    forall id | Seen(db, id, tools.user, Some(app))
      ensures TierAtLeast(AccessLevelToTier(db.rows[id].accessLevel), t) <==> db.rows[id].accessLevel >= least
    {
    }
  }
}
