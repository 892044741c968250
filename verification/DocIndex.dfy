/** The incremental index of documentation chunks (backend/services/platform_knowledge_service.py ingest_local_dir). */
module DocIndex {
  import opened Options
  import opened Text
  import opened Markdown

  /** A row of platform_doc_chunks, keyed by (source, path, ordinal). */
  datatype RowId = RowId(source: string, path: string, ordinal: nat)

  datatype DocRow = DocRow(heading: Option<string>, text: string, tokenCount: nat, fileHash: string)

  type Table = map<RowId, DocRow>

  /** A directory: the markdown files by relative path, None for a file that cannot be read. */
  type Directory = map<string, Option<string>>

  datatype Config = Config(redact: string -> string, hash: string -> string, maxTokens: nat)

  datatype Stats = Stats(seen: nat, indexed: nat, skipped: nat, chunksWritten: nat)

  ghost predicate CollisionFree(cfg: Config) {
    forall s, t :: cfg.hash(s) == cfg.hash(t) ==> s == t
  }

  function MakeRow(cfg: Config, text: string, c: Chunk): DocRow {
    DocRow(c.heading, cfg.redact(c.text), |Words(cfg.redact(c.text))|, cfg.hash(text))
  }

  /** The row a from-scratch ingest of `text` stores at an ordinal. */
  function FreshRow(cfg: Config, text: string, ordinal: nat): Option<DocRow>
    requires cfg.maxTokens >= 1
  {
    var chunks := Chunks(text, cfg.maxTokens);
    if ordinal < |chunks| then Some(MakeRow(cfg, text, chunks[ordinal])) else None
  }

  /** The rows of one path come from one text, in full. */
  ghost predicate StoredFrom(rows: Table, cfg: Config, source: string, path: string, text: string)
    requires cfg.maxTokens >= 1
  {
    forall n: nat :: Lookup(rows, RowId(source, path, n)) == FreshRow(cfg, text, n)
  }

  /** A table built by earlier runs: every path holds the rows of some text (the empty text for none). */
  ghost predicate Consistent(rows: Table, cfg: Config)
    requires cfg.maxTokens >= 1
  {
    forall s, p :: FromSomeText(rows, cfg, s, p)
  }

  ghost predicate FromSomeText(rows: Table, cfg: Config, source: string, path: string)
    requires cfg.maxTokens >= 1
  {
    exists t :: StoredFrom(rows, cfg, source, path, t)
  }

  /** What an ingest of the directory leaves at a key. */
  function RowAfter(before: Table, cfg: Config, source: string, dir: Directory, id: RowId): Option<DocRow>
    requires cfg.maxTokens >= 1
  {
    if id.source != source then Lookup(before, id)
    else if id.path !in dir then None
    else match dir[id.path]
      case None => Lookup(before, id)
      case Some(text) => FreshRow(cfg, text, id.ordinal)
  }

  class Index {
    var rows: Table
    const cfg: Config

    constructor (cfg: Config)
      ensures rows == map[] && this.cfg == cfg
    {
      rows, this.cfg := map[], cfg;
    }

    /** SELECT file_hash ... LIMIT 1: the hash of some row of the path. */
    method StoredHash(source: string, path: string) returns (h: Option<string>)
      ensures h.None? ==> forall n: nat :: RowId(source, path, n) !in rows
      ensures h.Some? ==> exists n: nat :: RowId(source, path, n) in rows && rows[RowId(source, path, n)].fileHash == h.value
    {
      var matching := set id | id in rows && id.source == source && id.path == path;
      if matching == {} {
        forall n: nat ensures RowId(source, path, n) !in rows {
          assert RowId(source, path, n) !in matching;
        }
        return None;
      }
      var id := Pick(matching);
      assert id == RowId(source, path, id.ordinal);
      h := Some(rows[id].fileHash);
    }

    method DeletePath(source: string, path: string)
      modifies this`rows
      ensures forall id :: Lookup(rows, id) == if id.source == source && id.path == path then None else Lookup(old(rows), id)
    {
      rows := map id | id in rows && !(id.source == source && id.path == path) :: rows[id];
    }

    /** DELETE ... WHERE path NOT IN current. */
    method DeleteOthers(source: string, current: set<string>)
      modifies this`rows
      ensures forall id :: Lookup(rows, id) == if id.source == source && id.path !in current then None else Lookup(old(rows), id)
    {
      rows := map id | id in rows && !(id.source == source && id.path !in current) :: rows[id];
    }

    /** The chunks of one file, added one by one. */
    method AddChunks(source: string, path: string, text: string) returns (written: nat)
      requires cfg.maxTokens >= 1
      requires forall n: nat :: RowId(source, path, n) !in rows
      modifies this`rows
      ensures forall id :: Lookup(rows, id) ==
                (if id.source == source && id.path == path then FreshRow(cfg, text, id.ordinal) else Lookup(old(rows), id))
      ensures written == |Chunks(text, cfg.maxTokens)|
    {
      var chunks := ChunkMarkdown(text, cfg.maxTokens);
      ghost var before := rows;
      written := 0;
      for ordinal := 0 to |chunks|
        invariant written == ordinal
        invariant forall id :: Lookup(rows, id) ==
                    (if id.source == source && id.path == path && id.ordinal < ordinal
                     then Some(MakeRow(cfg, text, chunks[id.ordinal])) else Lookup(before, id))
      {
        var safe := cfg.redact(chunks[ordinal].text);
        ghost var prev := rows;
        rows := rows[RowId(source, path, ordinal) := DocRow(chunks[ordinal].heading, safe, |Words(safe)|, cfg.hash(text))];
        forall id ensures Lookup(rows, id) ==
            (if id.source == source && id.path == path && id.ordinal < ordinal + 1
             then Some(MakeRow(cfg, text, chunks[id.ordinal])) else Lookup(before, id)) {
          if id != RowId(source, path, ordinal) { assert Lookup(rows, id) == Lookup(prev, id); }
        }
        written := written + 1;
      }
      forall id ensures Lookup(rows, id) ==
          (if id.source == source && id.path == path then FreshRow(cfg, text, id.ordinal) else Lookup(before, id)) {
        if id.source == source && id.path == path { assert id == RowId(source, path, id.ordinal); }
      }
    }

    /** One readable file: skipped if its hash is stored, else its rows are replaced. */
    method IngestFile(source: string, path: string, text: string) returns (skipped: bool, written: nat)
      requires cfg.maxTokens >= 1 && CollisionFree(cfg)
      requires FromSomeText(rows, cfg, source, path)
      modifies this`rows
      ensures forall id :: Lookup(rows, id) ==
                (if id.source == source && id.path == path then FreshRow(cfg, text, id.ordinal) else Lookup(old(rows), id))
      ensures skipped ==> rows == old(rows)
      ensures skipped <==> IsSkipped(old(rows), cfg, source, path, text)
      ensures written == if skipped then 0 else |Chunks(text, cfg.maxTokens)|
    {
      ghost var t :| StoredFrom(rows, cfg, source, path, t);
      var stored := StoredHash(source, path);
      HashTellsText(rows, cfg, source, path, t, text, stored);
      if stored == Some(cfg.hash(text)) {
        assert StoredFrom(rows, cfg, source, path, text);
        forall id: RowId | id.source == source && id.path == path ensures Lookup(rows, id) == FreshRow(cfg, text, id.ordinal) {
          assert id == RowId(source, path, id.ordinal);
        }
        return true, 0;
      }
      DeletePath(source, path);
      forall n: nat ensures RowId(source, path, n) !in rows {
        assert Lookup(rows, RowId(source, path, n)).None?;
      }
      written := AddChunks(source, path, text);
      skipped := false;
    }

    /** ingest_local_dir; `order` is the sorted list of the files found. */
    method IngestLocalDir(dir: Directory, order: seq<string>, source: string) returns (stats: Stats)
      requires cfg.maxTokens >= 1 && CollisionFree(cfg) && Consistent(rows, cfg)
      requires (forall p :: p in order <==> p in dir) && forall i, j :: 0 <= i < j < |order| ==> order[i] != order[j]
      modifies this`rows
      ensures forall id :: Lookup(rows, id) == RowAfter(old(rows), cfg, source, dir, id)
      ensures stats == StatsOf(old(rows), cfg, source, dir, order)
    {
      ghost var before := rows;
      stats := Stats(0, 0, 0, 0);
      for i := 0 to |order|
        invariant stats == StatsOf(before, cfg, source, dir, order[..i])
        invariant IngestedSoFar(before, rows, cfg, source, dir, order[..i])
      {
        assert order[..i + 1] == order[..i] + [order[i]] && order[i] !in order[..i];
        stats := IngestNext(before, dir, order[..i], order[i], source, stats);
      }
      assert order[..|order|] == order;
      ghost var ingested := rows;
      DeleteOthers(source, dir.Keys);
      forall id ensures Lookup(rows, id) == RowAfter(before, cfg, source, dir, id) {
        assert Lookup(ingested, id) == RowSoFar(before, cfg, source, dir, order, id);
      }
    }

    /** The body of the loop over the files. */
    method IngestNext(ghost before: Table, dir: Directory, ghost done: seq<string>, path: string, source: string, statsIn: Stats)
      returns (stats: Stats)
      requires cfg.maxTokens >= 1 && CollisionFree(cfg) && Consistent(before, cfg)
      requires path in dir && path !in done
      requires IngestedSoFar(before, rows, cfg, source, dir, done)
      requires statsIn == StatsOf(before, cfg, source, dir, done)
      modifies this`rows
      ensures IngestedSoFar(before, rows, cfg, source, dir, done + [path])
      ensures stats == StatsOf(before, cfg, source, dir, done + [path])
    {
      stats := statsIn.(seen := statsIn.seen + 1);
      ghost var prev := rows;
      assert (done + [path])[..|done|] == done;
      if dir[path].None? {
        forall id ensures Lookup(rows, id) == RowSoFar(before, cfg, source, dir, done + [path], id) {
          assert Lookup(prev, id) == RowSoFar(before, cfg, source, dir, done, id);
        }
        return;
      }
      forall n: nat ensures Lookup(prev, RowId(source, path, n)) == Lookup(before, RowId(source, path, n)) {
        assert Lookup(prev, RowId(source, path, n)) == RowSoFar(before, cfg, source, dir, done, RowId(source, path, n));
      }
      SamePathRows(before, prev, cfg, source, path);
      assert FromSomeText(before, cfg, source, path);
      var skipped, written := IngestFile(source, path, dir[path].value);
      stats := if skipped then stats.(skipped := stats.skipped + 1)
               else stats.(indexed := stats.indexed + 1, chunksWritten := stats.chunksWritten + written);
      forall id ensures Lookup(rows, id) == RowSoFar(before, cfg, source, dir, done + [path], id) {
        assert Lookup(prev, id) == RowSoFar(before, cfg, source, dir, done, id);
      }
    }
  }

  /** Every readable file of the directory has its current rows. */
  ghost predicate UpToDate(rows: Table, cfg: Config, source: string, dir: Directory)
    requires cfg.maxTokens >= 1
  {
    forall p :: p in dir && dir[p].Some? ==> StoredFrom(rows, cfg, source, p, dir[p].value)
  }

  /** A file is skipped if it has chunks and they are all stored already. */
  ghost predicate IsSkipped(rows: Table, cfg: Config, source: string, path: string, text: string)
    requires cfg.maxTokens >= 1
  {
    StoredFrom(rows, cfg, source, path, text) && Chunks(text, cfg.maxTokens) != []
  }

  /** The counters after the files `done`: every file is seen; a readable one is skipped, or indexed with all its chunks. */
  ghost function StatsOf(before: Table, cfg: Config, source: string, dir: Directory, done: seq<string>): Stats
    requires cfg.maxTokens >= 1
  {
    if done == [] then Stats(0, 0, 0, 0)
    else
      var path, s := done[|done| - 1], StatsOf(before, cfg, source, dir, done[..|done| - 1]);
      if path !in dir || dir[path].None? then s.(seen := s.seen + 1)
      else if IsSkipped(before, cfg, source, path, dir[path].value) then s.(seen := s.seen + 1, skipped := s.skipped + 1)
      else s.(seen := s.seen + 1, indexed := s.indexed + 1,
              chunksWritten := s.chunksWritten + |Chunks(dir[path].value, cfg.maxTokens)|)
  }

  /** The table after the files `done`, before removed files are dropped. */
  function RowSoFar(before: Table, cfg: Config, source: string, dir: Directory, done: seq<string>, id: RowId): Option<DocRow>
    requires cfg.maxTokens >= 1
  {
    if id.source == source && id.path in done && id.path in dir && dir[id.path].Some?
    then FreshRow(cfg, dir[id.path].value, id.ordinal)
    else Lookup(before, id)
  }

  ghost predicate IngestedSoFar(before: Table, now: Table, cfg: Config, source: string, dir: Directory, done: seq<string>)
    requires cfg.maxTokens >= 1
  {
    forall id :: Lookup(now, id) == RowSoFar(before, cfg, source, dir, done, id)
  }

  /** With collision-free hashes, the stored hash tells whether the stored text is the current one. */
  lemma HashTellsText(rows: Table, cfg: Config, source: string, path: string, stored: string, text: string, h: Option<string>)
    requires cfg.maxTokens >= 1 && CollisionFree(cfg)
    requires StoredFrom(rows, cfg, source, path, stored)
    requires h.None? ==> forall n: nat :: RowId(source, path, n) !in rows
    requires h.Some? ==> exists n: nat :: RowId(source, path, n) in rows && rows[RowId(source, path, n)].fileHash == h.value
    ensures h.Some? ==> h.value == cfg.hash(stored) && Chunks(stored, cfg.maxTokens) != []
    ensures h == Some(cfg.hash(text)) <==> StoredFrom(rows, cfg, source, path, text) && Chunks(text, cfg.maxTokens) != []
  {
    if h.Some? {
      var n: nat :| RowId(source, path, n) in rows && rows[RowId(source, path, n)].fileHash == h.value;
      assert Lookup(rows, RowId(source, path, n)) == FreshRow(cfg, stored, n);
    }
    if StoredFrom(rows, cfg, source, path, text) && Chunks(text, cfg.maxTokens) != [] {
      assert Lookup(rows, RowId(source, path, 0)) == FreshRow(cfg, text, 0);
      assert Lookup(rows, RowId(source, path, 0)) == FreshRow(cfg, stored, 0);
    }
  }

  lemma SamePathRows(before: Table, now: Table, cfg: Config, source: string, path: string)
    requires cfg.maxTokens >= 1
    requires forall n: nat :: Lookup(now, RowId(source, path, n)) == Lookup(before, RowId(source, path, n))
    ensures forall t :: StoredFrom(now, cfg, source, path, t) == StoredFrom(before, cfg, source, path, t)
    ensures FromSomeText(now, cfg, source, path) == FromSomeText(before, cfg, source, path)
  {
    forall t ensures StoredFrom(now, cfg, source, path, t) == StoredFrom(before, cfg, source, path, t) {
      forall n: nat ensures Lookup(now, RowId(source, path, n)) == Lookup(before, RowId(source, path, n)) {
      }
    }
  }
}
