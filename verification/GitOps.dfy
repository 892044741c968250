/**
 The values files of the GitOps repository and the three writers that share them
 (backend/gitlab/client.py upsert_gitops_ingress and push_replica_overrides_batch,
 backend/api/routes/apps.py rollback_app). Files hold parsed YAML; dumping and loading a
 mapping gives the mapping back.
 */
module GitOps {
  import opened Options
  import opened Paths

  datatype Yaml = Null | Text(s: string) | Number(n: int) | Flag(b: bool) | Mapping(entries: map<string, Yaml>)

  type Data = map<string, Yaml>

  type Files = map<string, Yaml>

  /** One entry of push_replica_overrides_batch: replicas None clears the override. */
  datatype Change = Change(cluster: string, slug: string, env: string, replicas: Option<int>)

  datatype Action = Create(path: string, content: Yaml) | Update(path: string, content: Yaml)

  const APPS := "apps/"
  const VALUES := "values-"
  const YAML := ".yaml"
  const REPLICAS := "replicas"
  const INGRESS := "ingress"
  const IMAGE := "image"

  function ValuesPath(cluster: string, slug: string, env: string): string {
    APPS + cluster + "/" + slug + "/" + (VALUES + env + YAML)
  }

  function PathOf(c: Change): string {
    ValuesPath(c.cluster, c.slug, c.env)
  }

  /** Environments and slugs hold no slash, cluster names may: distinct triples have distinct files. */
  lemma ValuesPathsAreDistinct(cluster: string, slug: string, env: string, cluster': string, slug': string, env': string)
    requires NoSlash(slug) && NoSlash(slug') && NoSlash(env) && NoSlash(env')
    requires ValuesPath(cluster, slug, env) == ValuesPath(cluster', slug', env')
    ensures cluster == cluster' && slug == slug' && env == env'
  {
    NoSlashIn(VALUES, env, YAML);
    NoSlashIn(VALUES, env', YAML);
    LastSegment(APPS + cluster + "/" + slug, APPS + cluster' + "/" + slug', VALUES + env + YAML, VALUES + env' + YAML);
    SameMiddle(VALUES, env, env', YAML);
    LastSegment(APPS + cluster, APPS + cluster', slug, slug');
    assert APPS + cluster + "" == APPS + cluster' + "";
    SameMiddle(APPS, cluster, cluster', "");
  }

  // ----- reading a file as a mapping -----

  /** yaml.safe_load(raw) or {}: a falsy document counts as empty; None when it is no mapping. */
  function Loaded(y: Yaml): Option<Data> {
    match y
    case Mapping(m) => Some(m)
    case Null => Some(map[])
    case Text(s) => if s == "" then Some(map[]) else None
    case Number(n) => if n == 0 then Some(map[]) else None
    case Flag(b) => if b then None else Some(map[])
  }

  /** What a writer starts from; a missing file is empty. */
  function DataAt(files: Files, path: string): Option<Data> {
    if path in files then Loaded(files[path]) else Some(map[])
  }

  function Overridden(data: Data, replicas: Option<int>): Data {
    if replicas.None? then data - {REPLICAS} else data[REPLICAS := Number(replicas.value)]
  }

  // ----- the writers of one values file; None is a missing file, a failed writer leaves it as it was -----

  datatype Writer = SetReplicas(replicas: Option<int>) | SetIngress(enabled: bool, host: string) | SetImageTag(tag: string)

  function IngressOf(data: Data): Option<Data> {
    if INGRESS !in data then Some(map[])
    else if data[INGRESS].Mapping? then Some(data[INGRESS].entries) else None
  }

  function IngressEntries(before: Data, enabled: bool, host: string): Data {
    before["enabled" := Flag(enabled)]["className" := Text("nginx")]["host" := Text(if enabled then host else "")]["tls" := Flag(false)]
  }

  predicate Writable(file: Option<Yaml>, w: Writer) {
    match w
    case SetReplicas(_) => file.None? || Loaded(file.value).Some?
    case SetIngress(_, _) => file.None? || (Loaded(file.value).Some? && IngressOf(Loaded(file.value).value).Some?)
    case SetImageTag(_) =>
      file.Some? && file.value.Mapping? && IMAGE in file.value.entries && file.value.entries[IMAGE].Mapping?
  }

  function Write(file: Option<Yaml>, w: Writer): Option<Yaml> {
    if !Writable(file, w) then file
    else
      var data := if file.Some? then Loaded(file.value).GetOr(map[]) else map[];
      match w
      case SetReplicas(r) => Some(Mapping(Overridden(data, r)))
      case SetIngress(enabled, host) => Some(Mapping(data[INGRESS := Mapping(IngressEntries(IngressOf(data).GetOr(map[]), enabled, host))]))
      case SetImageTag(tag) => Some(Mapping(data[IMAGE := Mapping(Loaded(data[IMAGE]).GetOr(map[])["tag" := Text(tag)])]))
  }

  ghost predicate OneFileWritten(before: Files, path: string, w: Writer, after: Files) {
    forall p :: Lookup(after, p) == if p == path then Write(Lookup(before, p), w) else Lookup(before, p)
  }

  // ----- a commit of the GitLab API: all its actions or none -----

  /** Creating a file that is there, or updating one that is not, makes GitLab refuse the commit. */
  ghost predicate Accepts(files: Files, actions: seq<Action>) {
    forall i :: 0 <= i < |actions| ==>
      if actions[i].Create?
      then actions[i].path !in files && forall j :: 0 <= j < i ==> actions[j].path != actions[i].path
      else actions[i].path in files || exists j :: 0 <= j < i && actions[j].path == actions[i].path
  }

  function LastContent(actions: seq<Action>, path: string): Option<Yaml> {
    if actions == [] then None
    else if actions[|actions| - 1].path == path then Some(actions[|actions| - 1].content)
    else LastContent(actions[..|actions| - 1], path)
  }

  function CommittedFile(before: Files, actions: seq<Action>, path: string): Option<Yaml> {
    var last := LastContent(actions, path);
    if last.Some? then last else Lookup(before, path)
  }

  function LastChange(changes: seq<Change>, path: string): Option<Change> {
    if changes == [] then None
    else if PathOf(changes[|changes| - 1]) == path then Some(changes[|changes| - 1])
    else LastChange(changes[..|changes| - 1], path)
  }

  /** The file a batch leaves at a path: the last change for it, applied to the data from before the batch. */
  function BatchedFile(files: Files, changes: seq<Change>, path: string): Option<Yaml> {
    match LastChange(changes, path)
    case None => Lookup(files, path)
    case Some(c) => Some(Mapping(Overridden(DataAt(files, path).GetOr(map[]), c.replicas)))
  }

  /** The batch left exactly that. */
  ghost predicate Batched(before: Files, changes: seq<Change>, after: Files) {
    && (forall i :: 0 <= i < |changes| ==> DataAt(before, PathOf(changes[i])).Some?)
    && forall p :: Lookup(after, p) == BatchedFile(before, changes, p)
  }

  /** No file that does not exist yet is meant twice. */
  ghost predicate NewFilesOnce(files: Files, changes: seq<Change>) {
    forall i, j :: 0 <= j < i < |changes| && PathOf(changes[i]) !in files ==> PathOf(changes[j]) != PathOf(changes[i])
  }

  lemma SingleAction(files: Files, a: Action)
    ensures Accepts(files, [a]) <==> (a.Create? <==> a.path !in files)
    ensures forall p :: CommittedFile(files, [a], p) == if p == a.path then Some(a.content) else Lookup(files, p)
  {
    assert [a][0] == a;
    assert [a][..|[a]| - 1] == [];
    forall p ensures LastContent([a], p) == if p == a.path then Some(a.content) else None {
      assert LastContent([a][..|[a]| - 1], p) == None;
    }
  }

  /** An action is accepted after accepted ones exactly if it creates a file that is missing by then, or updates one that exists. */
  lemma NextAction(files: Files, actions: seq<Action>, i: nat)
    requires i < |actions| && Accepts(files, actions[..i])
    ensures var present := CommittedFile(files, actions[..i], actions[i].path).Some?;
      && (Accepts(files, actions[..i + 1]) <==> actions[i].Create? != present)
      && (actions[i].Create? == present ==> !Accepts(files, actions))
    ensures forall p :: CommittedFile(files, actions[..i + 1], p)
                     == (if p == actions[i].path then Some(actions[i].content) else CommittedFile(files, actions[..i], p))
  {
    var before, now := actions[..i], actions[..i + 1];
    assert now[..i] == before;
    TouchedBefore(before, actions[i].path);
    assert forall j :: 0 <= j < i ==> before[j] == actions[j] && now[j] == actions[j];
    assert now[i] == actions[i];
  }

  class Repository {
    var files: Files

    constructor (files: Files)
      ensures this.files == files
    {
      this.files := files;
    }

    method Commit(actions: seq<Action>) returns (ok: bool)
      modifies this
      ensures ok <==> Accepts(old(files), actions)
      ensures !ok ==> files == old(files)
      ensures ok ==> forall p :: Lookup(files, p) == CommittedFile(old(files), actions, p)
    {
      var tree := files;
      for i := 0 to |actions|
        invariant files == old(files)
        invariant Accepts(files, actions[..i])
        invariant forall p :: Lookup(tree, p) == CommittedFile(files, actions[..i], p)
      {
        var a := actions[i];
        assert a.path in tree <==> Lookup(tree, a.path).Some?;
        NextAction(files, actions, i);
        if a.Create? == (a.path in tree) { return false; }
        ghost var prev := tree;
        tree := tree[a.path := a.content];
        forall p ensures Lookup(tree, p) == CommittedFile(files, actions[..i + 1], p) {
          if p != a.path { assert Lookup(tree, p) == Lookup(prev, p); }
        }
      }
      assert actions[..|actions|] == actions;
      files := tree;
      ok := true;
    }

    /** upsert_gitops_ingress; `readable` is false when reading the file fails, which the code takes for a missing file. */
    method UpsertIngress(cluster: string, slug: string, env: string, enabled: bool, host: string, readable: bool) returns (ok: bool)
      modifies this
      ensures var path := ValuesPath(cluster, slug, env);
        && (!ok ==> files == old(files))
        && (ok ==> Writable(Lookup(old(files), path), SetIngress(enabled, host)))
        && (ok ==> OneFileWritten(old(files), path, SetIngress(enabled, host), files))
        && (readable ==> (ok <==> Writable(Lookup(old(files), path), SetIngress(enabled, host))))
    {
      var path := ValuesPath(cluster, slug, env);
      var there := readable && path in files;
      var loaded := if there then Loaded(files[path]) else Some(map[]);
      if loaded.None? { return false; }
      var data := loaded.value;
      if INGRESS !in data { data := data[INGRESS := Mapping(map[])]; }
      if !data[INGRESS].Mapping? { return false; }
      var ingress := data[INGRESS].entries;
      ingress := ingress["enabled" := Flag(enabled)];
      ingress := ingress["className" := Text("nginx")];
      ingress := ingress["host" := Text(if enabled then host else "")];
      ingress := ingress["tls" := Flag(false)];
      data := data[INGRESS := Mapping(ingress)];
      var action := if there then Update(path, Mapping(data)) else Create(path, Mapping(data));
      SingleAction(files, action);
      ok := Commit([action]);
      assert data == loaded.value[INGRESS := Mapping(ingress)];
    }

    /** The file rewrite of rollback_app: the file and its image mapping must be there, and both requests go through. */
    method RollbackImage(cluster: string, slug: string, env: string, tag: string, readable: bool, pushes: bool) returns (ok: bool)
      modifies this
      ensures var path := ValuesPath(cluster, slug, env);
        && (ok <==> readable && pushes && Writable(Lookup(old(files), path), SetImageTag(tag)))
        && (!ok ==> files == old(files))
        && (ok ==> OneFileWritten(old(files), path, SetImageTag(tag), files))
    {
      var path := ValuesPath(cluster, slug, env);
      if !readable || path !in files || !files[path].Mapping? { return false; }
      var data := files[path].entries;
      if IMAGE !in data || !data[IMAGE].Mapping? { return false; }
      data := data[IMAGE := Mapping(data[IMAGE].entries["tag" := Text(tag)])];
      if !pushes { return false; }
      files := files[path := Mapping(data)];
      ok := true;
    }

    /**
     push_replica_overrides_batch. `listed` is false when the tree could not be listed,
     `unreadable` are the files whose read fails. Whatever fails, an accepted commit kept every
     other key of every file it wrote.
     */
    method PushReplicaOverridesBatch(changes: seq<Change>, listed: bool, unreadable: set<string>) returns (ok: bool)
      modifies this
      ensures !ok ==> files == old(files)
      ensures ok ==> Batched(old(files), changes, files)
      ensures listed && unreadable == {} ==>
        (ok <==> NewFilesOnce(old(files), changes) && forall i :: 0 <= i < |changes| ==> DataAt(old(files), PathOf(changes[i])).Some?)
    {
      var existing := if listed then files.Keys else {};
      var actions: seq<Action> := [];
      for i := 0 to |changes|
        invariant files == old(files)
        invariant |actions| == i
        invariant forall k :: 0 <= k < i ==> Planned(files, existing, unreadable, changes[k], actions[k])
      {
        var c := changes[i];
        var path := PathOf(c);
        var there := path in existing && path !in unreadable;
        var data := if there then Loaded(files[path]) else Some(map[]);
        if data.None? { return false; }
        var content := Mapping(Overridden(data.value, c.replicas));
        actions := actions + [if there then Update(path, content) else Create(path, content)];
      }
      if actions == [] {
        assert forall p :: LastChange(changes, p).None?;
        return true;
      }
      ok := Commit(actions);
      if ok {
        AcceptedPlan(old(files), existing, unreadable, changes, actions, files);
      }
      if listed && unreadable == {} {
        assert Accepts(old(files), actions) <==> NewFilesOnce(old(files), changes);
      }
    }
  }

  /** The action the batch plans for one change. */
  ghost predicate Planned(files: Files, existing: set<string>, unreadable: set<string>, c: Change, a: Action) {
    && a.path == PathOf(c)
    && existing <= files.Keys
    && (a.Update? <==> a.path in existing && a.path !in unreadable)
    && (if a.Update? then DataAt(files, a.path).Some? && a.content == Mapping(Overridden(DataAt(files, a.path).value, c.replicas))
        else a.content == Mapping(Overridden(map[], c.replicas)))
  }

  lemma {:induction false} TouchedBefore(actions: seq<Action>, path: string)
    ensures LastContent(actions, path).Some? <==> exists j :: 0 <= j < |actions| && actions[j].path == path
  {
    if actions != [] {
      var n := |actions| - 1;
      TouchedBefore(actions[..n], path);
      assert forall j :: 0 <= j < n ==> actions[..n][j] == actions[j];
    }
  }

  lemma {:induction false} PlannedContent(files: Files, existing: set<string>, unreadable: set<string>, changes: seq<Change>,
                                          actions: seq<Action>, path: string)
    requires |changes| == |actions|
    requires forall k :: 0 <= k < |actions| ==> Planned(files, existing, unreadable, changes[k], actions[k])
    requires forall k :: 0 <= k < |actions| && actions[k].Create? ==> actions[k].path !in files
    ensures LastContent(actions, path) ==
      match LastChange(changes, path)
      case None => None
      case Some(c) => Some(Mapping(Overridden(DataAt(files, path).GetOr(map[]), c.replicas)))
  {
    if actions != [] {
      var n := |actions| - 1;
      assert Planned(files, existing, unreadable, changes[n], actions[n]);
      PlannedContent(files, existing, unreadable, changes[..n], actions[..n], path);
    }
  }

  lemma AcceptedPlan(before: Files, existing: set<string>, unreadable: set<string>, changes: seq<Change>, actions: seq<Action>, after: Files)
    requires |changes| == |actions|
    requires forall k :: 0 <= k < |actions| ==> Planned(before, existing, unreadable, changes[k], actions[k])
    requires Accepts(before, actions)
    requires forall p :: Lookup(after, p) == CommittedFile(before, actions, p)
    ensures Batched(before, changes, after)
  {
    forall p ensures Lookup(after, p) == BatchedFile(before, changes, p) {
      PlannedContent(before, existing, unreadable, changes, actions, p);
    }
    forall k | 0 <= k < |changes| ensures DataAt(before, PathOf(changes[k])).Some? {
      assert Planned(before, existing, unreadable, changes[k], actions[k]);
    }
  }
}
