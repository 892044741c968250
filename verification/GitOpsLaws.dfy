/** How the writers of the values files compose: batches, round trips and independence. */
module GitOpsLaws {
  import opened Options
  import opened GitOps

  // ----- a batch against the same changes one at a time -----

  /** Applying the changes one commit after the other. */
  function OneByOne(files: Files, changes: seq<Change>): Files {
    if changes == [] then files
    else
      var before := OneByOne(files, changes[..|changes| - 1]);
      var last := changes[|changes| - 1];
      var file := Write(Lookup(before, PathOf(last)), SetReplicas(last.replicas));
      if file.Some? then before[PathOf(last) := file.value] else before
  }

  /** Clearing or pinning replicas forgets any earlier override. */
  lemma OverrideForgets(data: Data, r: Option<int>, s: Option<int>)
    ensures Overridden(Overridden(data, r), s) == Overridden(data, s)
  {
  }

  lemma {:induction false} OneByOneFile(files: Files, changes: seq<Change>, path: string)
    requires forall i :: 0 <= i < |changes| ==> DataAt(files, PathOf(changes[i])).Some?
    ensures Lookup(OneByOne(files, changes), path) == BatchedFile(files, changes, path)
  {
    if changes != [] {
      var n := |changes| - 1;
      var last := changes[n];
      OneByOneFile(files, changes[..n], path);
      if PathOf(last) == path {
        assert DataAt(files, path).Some?;
        if LastChange(changes[..n], path).Some? {
          OverrideForgets(DataAt(files, path).value, LastChange(changes[..n], path).value.replicas, last.replicas);
        }
      }
    }
  }

  /** An accepted batch leaves exactly the files that applying its changes one at a time leaves. */
  lemma BatchEqualsOneByOne(before: Files, changes: seq<Change>, after: Files)
    requires Batched(before, changes, after)
    ensures after == OneByOne(before, changes)
  {
    forall p ensures Lookup(after, p) == Lookup(OneByOne(before, changes), p) {
      OneByOneFile(before, changes, p);
    }
    SameLookups(after, OneByOne(before, changes));
  }

  /**
   A batch over distinct apps or environments is always one GitLab accepts. (The general
   condition is NewFilesOnce; a file that does not exist yet and is meant twice makes the batch
   fail, although one at a time the changes would pass.)
   */
  lemma DistinctTargetsAreAccepted(files: Files, changes: seq<Change>)
    requires forall i :: 0 <= i < |changes| ==> '/' !in changes[i].slug && '/' !in changes[i].env
    requires forall i, j :: 0 <= j < i < |changes| ==> (changes[i].slug, changes[i].env) != (changes[j].slug, changes[j].env)
    ensures NewFilesOnce(files, changes)
  {
    forall i, j | 0 <= j < i < |changes| && PathOf(changes[i]) !in files ensures PathOf(changes[j]) != PathOf(changes[i]) {
      if PathOf(changes[j]) == PathOf(changes[i]) {
        var a, b := changes[i], changes[j];
        ValuesPathsAreDistinct(a.cluster, a.slug, a.env, b.cluster, b.slug, b.env);
        assert false;
      }
    }
  }

  // ----- stop, then resume -----

  /** Stopping and resuming gives a file back exactly when it is no mapping at all, or a mapping without its own replicas. */
  lemma StopThenResume(file: Option<Yaml>)
    ensures Write(Write(file, SetReplicas(Some(0))), SetReplicas(None)) == file <==>
      file.Some? && (Loaded(file.value).None? || (file.value.Mapping? && REPLICAS !in file.value.entries))
  {
    if file.Some? && file.value.Mapping? {
      var m := file.value.entries;
      assert m[REPLICAS := Number(0)] - {REPLICAS} == m - {REPLICAS};
      assert REPLICAS !in m - {REPLICAS};
      if REPLICAS !in m { assert m - {REPLICAS} == m; }
    }
  }

  // ----- independence of the writers -----

  predicate SameKind(v: Writer, w: Writer) {
    || (v.SetReplicas? && w.SetReplicas?)
    || (v.SetIngress? && w.SetIngress?)
    || (v.SetImageTag? && w.SetImageTag?)
  }

  /** A writer never decides whether another kind of writer succeeds, except by creating the missing file. */
  lemma WritableIsIndependent(file: Option<Yaml>, v: Writer, w: Writer)
    requires !SameKind(v, w)
    ensures Writable(Write(file, v), w) == Writable(file, w)
  {
  }

  /** One key each: the edit a writable file undergoes. */
  function Edited(data: Data, w: Writer): Data {
    match w
    case SetReplicas(r) => Overridden(data, r)
    case SetIngress(enabled, host) => data[INGRESS := Mapping(IngressEntries(IngressOf(data).GetOr(map[]), enabled, host))]
    case SetImageTag(tag) =>
      if IMAGE in data then data[IMAGE := Mapping(Loaded(data[IMAGE]).GetOr(map[])["tag" := Text(tag)])] else data
  }

  lemma WriteIsEdit(file: Option<Yaml>, w: Writer)
    requires Writable(file, w)
    ensures Write(file, w) == Some(Mapping(Edited(if file.Some? then Loaded(file.value).GetOr(map[]) else map[], w)))
  {
  }

  lemma EditsCommute(data: Data, v: Writer, w: Writer)
    requires !SameKind(v, w)
    ensures Edited(Edited(data, v), w) == Edited(Edited(data, w), v)
  {
    assert KeyOf(v) != KeyOf(w);
    forall k ensures Lookup(Edited(Edited(data, v), w), k) == Lookup(Edited(Edited(data, w), v), k) {
      EditIsLocal(data, data, v, k);
      EditIsLocal(data, data, w, k);
      EditIsLocal(data, data, v, KeyOf(w));
      EditIsLocal(data, data, w, KeyOf(v));
      EditIsLocal(Edited(data, v), data, w, k);
      EditIsLocal(Edited(data, w), data, v, k);
    }
    SameLookups(Edited(Edited(data, v), w), Edited(Edited(data, w), v));
  }

  function KeyOf(w: Writer): string {
    match w
    case SetReplicas(_) => REPLICAS
    case SetIngress(_, _) => INGRESS
    case SetImageTag(_) => IMAGE
  }

  /** An edit changes its own key only, and what it makes of it depends on that key only. */
  lemma EditIsLocal(data: Data, other: Data, w: Writer, k: string)
    ensures k != KeyOf(w) ==> Lookup(Edited(data, w), k) == Lookup(data, k)
    ensures Lookup(data, KeyOf(w)) == Lookup(other, KeyOf(w)) ==> Lookup(Edited(data, w), KeyOf(w)) == Lookup(Edited(other, w), KeyOf(w))
  {
  }

  /** Replica, ingress and rollback writers commute on every file, including when one of them fails. */
  lemma WritersCommute(file: Option<Yaml>, v: Writer, w: Writer)
    requires !SameKind(v, w)
    ensures Write(Write(file, v), w) == Write(Write(file, w), v)
  {
    WritableIsIndependent(file, v, w);
    WritableIsIndependent(file, w, v);
    if Writable(file, v) && Writable(file, w) {
      var data := if file.Some? then Loaded(file.value).GetOr(map[]) else map[];
      WriteIsEdit(file, v);
      WriteIsEdit(file, w);
      WriteIsEdit(Write(file, v), w);
      WriteIsEdit(Write(file, w), v);
      EditsCommute(data, v, w);
    }
  }

  /** The replicas entry of a file; None when there is no file, no mapping or no override. */
  function ReplicasOf(file: Option<Yaml>): Option<Yaml> {
    if file.Some? && file.value.Mapping? then Lookup(file.value.entries, REPLICAS) else None
  }

  /** The ingress and rollback writers never touch the override. */
  lemma OtherWritersKeepReplicas(file: Option<Yaml>, w: Writer)
    requires !w.SetReplicas?
    ensures ReplicasOf(Write(file, w)) == ReplicasOf(file)
  {
  }

  // ----- what a file says -----

  /** The entry of a file's mapping; None when there is no file or no mapping. */
  function Top(file: Option<Yaml>, k: string): Option<Yaml> {
    if file.Some? && file.value.Mapping? then Lookup(file.value.entries, k) else None
  }

  function Under(file: Option<Yaml>, k: string, sub: string): Option<Yaml> {
    Top(Top(file, k), sub)
  }

  /** Nothing but the given key of the file differs, a missing or empty file having no keys. */
  ghost predicate KeepsOthers(before: Option<Yaml>, after: Option<Yaml>, key: string) {
    after.Some? && after.value.Mapping? && forall k :: k != key ==> Top(after, k) == Top(before, k)
  }

  /** An override pins replicas to the number, or removes the key; no other key of the file changes. */
  lemma ReplicasWritten(file: Option<Yaml>, r: Option<int>)
    requires Writable(file, SetReplicas(r))
    ensures var now := Write(file, SetReplicas(r));
      && KeepsOthers(file, now, "replicas")
      && Top(now, "replicas") == (if r.Some? then Some(Number(r.value)) else None)
  {
  }

  /** The ingress writer: enabled as asked, nginx, the host or none, no tls; other ingress keys and the rest of the file stay. */
  lemma IngressWritten(file: Option<Yaml>, enabled: bool, host: string)
    requires Writable(file, SetIngress(enabled, host))
    ensures var now := Write(file, SetIngress(enabled, host));
      && KeepsOthers(file, now, "ingress")
      && Under(now, "ingress", "enabled") == Some(Flag(enabled))
      && Under(now, "ingress", "className") == Some(Text("nginx"))
      && Under(now, "ingress", "host") == Some(Text(if enabled then host else ""))
      && Under(now, "ingress", "tls") == Some(Flag(false))
      && forall k :: k !in {"enabled", "className", "host", "tls"} ==> Under(now, "ingress", k) == Under(file, "ingress", k)
  {
  }

  /** A rollback sets image.tag; other image keys and the rest of the file stay. */
  lemma ImageTagWritten(file: Option<Yaml>, tag: string)
    requires Writable(file, SetImageTag(tag))
    ensures var now := Write(file, SetImageTag(tag));
      && KeepsOthers(file, now, "image")
      && Under(now, "image", "tag") == Some(Text(tag))
      && forall k :: k != "tag" ==> Under(now, "image", k) == Under(file, "image", k)
  {
  }

  /** When each writer goes through, by what the file holds: empty documents count as empty mappings. */
  lemma WritableMeaning(file: Option<Yaml>, w: Writer)
    ensures Writable(file, w) <==>
      match w
      case SetReplicas(_) => IsData(file)
      case SetIngress(_, _) => IsData(file) && (Top(file, "ingress").Some? ==> Top(file, "ingress").value.Mapping?)
      case SetImageTag(_) => Top(file, "image").Some? && Top(file, "image").value.Mapping?
  {
  }

  /** Missing, a mapping, or a falsy document. */
  predicate IsData(file: Option<Yaml>) {
    file.None? || file.value.Mapping? || file.value in {Null, Text(""), Number(0), Flag(false)}
  }

  /** A batch leaves every file it means with the last override given for it and its other keys, and every other file as it was. */
  lemma BatchWritten(before: Files, changes: seq<Change>, after: Files, i: nat)
    requires Batched(before, changes, after) && i < |changes|
    requires forall j :: i < j < |changes| ==> PathOf(changes[j]) != PathOf(changes[i])
    ensures var c := changes[i];
      var path := "apps/" + c.cluster + "/" + c.slug + "/" + ("values-" + c.env + ".yaml");
      && KeepsOthers(Lookup(before, path), Lookup(after, path), "replicas")
      && Top(Lookup(after, path), "replicas") == (if c.replicas.Some? then Some(Number(c.replicas.value)) else None)
  {
    var c := changes[i];
    LastOfPath(changes, i);
    assert PathOf(c) == "apps/" + c.cluster + "/" + c.slug + "/" + ("values-" + c.env + ".yaml");
    assert Lookup(after, PathOf(c)) == BatchedFile(before, changes, PathOf(c));
    assert DataAt(before, PathOf(c)).Some?;
  }

  lemma {:induction false} LastOfPath(changes: seq<Change>, i: nat)
    requires i < |changes| && forall j :: i < j < |changes| ==> PathOf(changes[j]) != PathOf(changes[i])
    ensures LastChange(changes, PathOf(changes[i])) == Some(changes[i])
  {
    var n := |changes| - 1;
    if i < n {
      assert PathOf(changes[n]) != PathOf(changes[i]);
      LastOfPath(changes[..n], i);
    }
  }

  lemma {:induction false} NoOverrideMeansSame(changes: seq<Change>, path: string)
    requires forall j :: 0 <= j < |changes| ==> PathOf(changes[j]) != path
    ensures LastChange(changes, path) == None
  {
    if changes != [] { NoOverrideMeansSame(changes[..|changes| - 1], path); }
  }

  lemma OtherFilesStay(before: Files, changes: seq<Change>, after: Files, path: string)
    requires Batched(before, changes, after) && forall j :: 0 <= j < |changes| ==> PathOf(changes[j]) != path
    ensures Lookup(after, path) == Lookup(before, path)
  {
    NoOverrideMeansSame(changes, path);
    assert Lookup(after, path) == BatchedFile(before, changes, path);
  }
}
