/** The incremental index equals a rebuild, over every sequence of ingests. */
module DocIndexLaws {
  import opened Options
  import opened Text
  import opened Markdown
  import opened DocIndex

  /** The contract of one ingest. */
  ghost predicate Ingested(before: Table, after: Table, cfg: Config, source: string, dir: Directory)
    requires cfg.maxTokens >= 1
  {
    forall id :: Lookup(after, id) == RowAfter(before, cfg, source, dir, id)
  }

  predicate AllReadable(dir: Directory) {
    forall p :: p in dir ==> dir[p].Some?
  }

  /** An ingest leaves a table the next ingest can start from. */
  lemma IngestKeepsConsistent(before: Table, after: Table, cfg: Config, source: string, dir: Directory)
    requires cfg.maxTokens >= 1 && Consistent(before, cfg) && Ingested(before, after, cfg, source, dir)
    ensures Consistent(after, cfg)
  {
    forall s, p ensures FromSomeText(after, cfg, s, p) {
      forall n: nat ensures Lookup(after, RowId(s, p, n)) == RowAfter(before, cfg, source, dir, RowId(s, p, n)) {
      }
      if s != source || (p in dir && dir[p].None?) {
        assert FromSomeText(before, cfg, s, p);
        var t :| StoredFrom(before, cfg, s, p, t);
        assert StoredFrom(after, cfg, s, p, t);
      } else if p in dir {
        assert StoredFrom(after, cfg, s, p, dir[p].value);
      } else {
        EmptyTextHasNoRows(cfg);
        assert StoredFrom(after, cfg, s, p, "");
      }
    }
  }

  lemma EmptyTextHasNoRows(cfg: Config)
    requires cfg.maxTokens >= 1
    ensures Chunks("", cfg.maxTokens) == []
  {
  }

  lemma EmptyTableIsConsistent(cfg: Config)
    requires cfg.maxTokens >= 1
    ensures Consistent(map[], cfg)
  {
    EmptyTextHasNoRows(cfg);
    forall s, p ensures FromSomeText(map[], cfg, s, p) {
      assert StoredFrom(map[], cfg, s, p, "");
    }
  }

  /** The tables of a sequence of ingests, of any sources and directories. */
  ghost predicate IsHistory(tables: seq<Table>, cfg: Config, sources: seq<string>, dirs: seq<Directory>)
    requires cfg.maxTokens >= 1
  {
    && |tables| == |dirs| + 1 && |sources| == |dirs|
    && forall i :: 0 <= i < |dirs| ==> Ingested(tables[i], tables[i + 1], cfg, sources[i], dirs[i])
  }

  lemma {:induction false} HistoryIsConsistent(tables: seq<Table>, cfg: Config, sources: seq<string>, dirs: seq<Directory>, i: nat)
    requires cfg.maxTokens >= 1 && IsHistory(tables, cfg, sources, dirs) && i <= |dirs| && Consistent(tables[0], cfg)
    ensures Consistent(tables[i], cfg)
  {
    if i > 0 {
      HistoryIsConsistent(tables, cfg, sources, dirs, i - 1);
      IngestKeepsConsistent(tables[i - 1], tables[i], cfg, sources[i - 1], dirs[i - 1]);
    }
  }

  /**
   After any history, the rows of the last ingested source are exactly the rows a from-scratch
   ingest of that directory gives, and the rows of other sources are those from before it.
   */
  lemma IncrementalEqualsRebuild(tables: seq<Table>, cfg: Config, sources: seq<string>, dirs: seq<Directory>, i: nat, rebuilt: Table)
    requires cfg.maxTokens >= 1 && IsHistory(tables, cfg, sources, dirs) && i < |dirs|
    requires AllReadable(dirs[i]) && Ingested(map[], rebuilt, cfg, sources[i], dirs[i])
    ensures forall id: RowId :: id.source == sources[i] ==> Lookup(tables[i + 1], id) == Lookup(rebuilt, id)
    ensures forall id: RowId :: id.source != sources[i] ==> Lookup(tables[i + 1], id) == Lookup(tables[i], id)
  {
    assert Ingested(tables[i], tables[i + 1], cfg, sources[i], dirs[i]);
    forall id: RowId ensures id.source == sources[i] ==> Lookup(tables[i + 1], id) == Lookup(rebuilt, id)
      ensures id.source != sources[i] ==> Lookup(tables[i + 1], id) == Lookup(tables[i], id)
    {
      assert Lookup(rebuilt, id) == RowAfter(map[], cfg, sources[i], dirs[i], id);
      assert Lookup(tables[i + 1], id) == RowAfter(tables[i], cfg, sources[i], dirs[i], id);
    }
  }

  /** A file that cannot be read keeps the rows it had; a file that is gone loses them. */
  lemma UnreadableFilesKeepRows(before: Table, after: Table, cfg: Config, source: string, dir: Directory, path: string, n: nat)
    requires cfg.maxTokens >= 1 && Ingested(before, after, cfg, source, dir)
    ensures path in dir && dir[path].None? ==> Lookup(after, RowId(source, path, n)) == Lookup(before, RowId(source, path, n))
    ensures path !in dir ==> RowId(source, path, n) !in after
  {
    assert Lookup(after, RowId(source, path, n)) == RowAfter(before, cfg, source, dir, RowId(source, path, n));
  }

  /** Over an up-to-date table an ingest writes no chunk. */
  lemma {:induction false} UpToDateWritesNothing(rows: Table, cfg: Config, source: string, dir: Directory, done: seq<string>)
    requires cfg.maxTokens >= 1 && UpToDate(rows, cfg, source, dir)
    ensures StatsOf(rows, cfg, source, dir, done).chunksWritten == 0
  {
    if done != [] { UpToDateWritesNothing(rows, cfg, source, dir, done[..|done| - 1]); }
  }

  /** After an ingest the directory is up to date, so a second run writes no chunk and changes no row. */
  lemma SecondIngestIsQuiet(before: Table, after: Table, again: Table, cfg: Config, source: string, dir: Directory, order: seq<string>)
    requires cfg.maxTokens >= 1
    requires Ingested(before, after, cfg, source, dir) && Ingested(after, again, cfg, source, dir)
    ensures UpToDate(after, cfg, source, dir)
    ensures StatsOf(after, cfg, source, dir, order).chunksWritten == 0
    ensures again == after
  {
    forall p | p in dir && dir[p].Some? ensures StoredFrom(after, cfg, source, p, dir[p].value) {
      forall n: nat ensures Lookup(after, RowId(source, p, n)) == FreshRow(cfg, dir[p].value, n) {
        assert Lookup(after, RowId(source, p, n)) == RowAfter(before, cfg, source, dir, RowId(source, p, n));
      }
    }
    UpToDateWritesNothing(after, cfg, source, dir, order);
    forall id ensures Lookup(again, id) == Lookup(after, id) {
      assert Lookup(after, id) == RowAfter(before, cfg, source, dir, id);
      assert Lookup(again, id) == RowAfter(after, cfg, source, dir, id);
    }
    SameLookups(again, after);
  }

  // ----- what is stored -----

  /**
   After an ingest a readable file has one row per chunk: the redacted text of the chunk under its
   heading, with the number of its words and the hash of the whole file.
   */
  lemma StoredRowMeaning(before: Table, after: Table, cfg: Config, source: string, dir: Directory, path: string, text: string, n: nat)
    requires cfg.maxTokens >= 1 && Ingested(before, after, cfg, source, dir)
    requires path in dir && dir[path] == Some(text)
    ensures var chunks, id := Chunks(text, cfg.maxTokens), RowId(source, path, n);
      && (id in after <==> n < |chunks|)
      && (id in after ==>
            && after[id].text == cfg.redact(chunks[n].text) && after[id].heading == chunks[n].heading
            && after[id].tokenCount == |Words(after[id].text)| && after[id].fileHash == cfg.hash(text))
  {
    assert Lookup(after, RowId(source, path, n)) == RowAfter(before, cfg, source, dir, RowId(source, path, n));
  }

  /** The row's text went through redaction and its words were counted after it. */
  ghost predicate IsRedacted(row: DocRow, cfg: Config) {
    (exists s :: row.text == cfg.redact(s)) && row.tokenCount == |Words(row.text)|
  }

  /** Over any history from the empty table, nothing is ever stored that did not go through redaction. */
  lemma {:induction false} NothingIsStoredUnredacted(tables: seq<Table>, cfg: Config, sources: seq<string>, dirs: seq<Directory>, i: nat, id: RowId)
    requires cfg.maxTokens >= 1 && IsHistory(tables, cfg, sources, dirs) && i <= |dirs| && tables[0] == map[]
    requires id in tables[i]
    ensures IsRedacted(tables[i][id], cfg)
  {
    var before, after, source, dir := tables[i - 1], tables[i], sources[i - 1], dirs[i - 1];
    assert Ingested(before, after, cfg, source, dir);
    assert Lookup(after, id) == RowAfter(before, cfg, source, dir, id);
    if id.source == source && id.path in dir && dir[id.path].Some? {
      assert id == RowId(source, id.path, id.ordinal);
      StoredRowMeaning(before, after, cfg, source, dir, id.path, dir[id.path].value, id.ordinal);
    } else {
      NothingIsStoredUnredacted(tables, cfg, sources, dirs, i - 1, id);
    }
  }

  // ----- the counters -----

  /** The readable files among `done`, skipped or not. */
  ghost function Readable(before: Table, cfg: Config, source: string, dir: Directory, done: seq<string>, skipped: bool): set<string>
    requires cfg.maxTokens >= 1
  {
    set p | p in done && IsReadable(before, cfg, source, dir, p, skipped)
  }

  /** The file is readable, and skipped or not as `skipped` says. */
  ghost predicate IsReadable(before: Table, cfg: Config, source: string, dir: Directory, p: string, skipped: bool)
    requires cfg.maxTokens >= 1
  {
    p in dir && dir[p].Some? && IsSkipped(before, cfg, source, p, dir[p].value) == skipped
  }

  lemma ReadableOneMore(before: Table, cfg: Config, source: string, dir: Directory, rest: seq<string>, path: string, skipped: bool)
    requires cfg.maxTokens >= 1 && path !in rest
    ensures var now := Readable(before, cfg, source, dir, rest + [path], skipped);
      var was := Readable(before, cfg, source, dir, rest, skipped);
      now == (if IsReadable(before, cfg, source, dir, path, skipped) then was + {path} else was) && path !in was
  {
  }

  /** Every file is seen; the skipped and the indexed ones are the readable ones whose chunks were all stored, and the rest. */
  lemma {:induction false} CountersMeaning(before: Table, cfg: Config, source: string, dir: Directory, done: seq<string>)
    requires cfg.maxTokens >= 1 && forall i, j :: 0 <= i < j < |done| ==> done[i] != done[j]
    ensures var s := StatsOf(before, cfg, source, dir, done);
      && s.seen == |done|
      && s.skipped == |Readable(before, cfg, source, dir, done, true)|
      && s.indexed == |Readable(before, cfg, source, dir, done, false)|
  {
    if done != [] {
      var n := |done| - 1;
      var path, rest := done[n], done[..n];
      CountersMeaning(before, cfg, source, dir, rest);
      assert done == rest + [path];
      ReadableOneMore(before, cfg, source, dir, rest, path, true);
      ReadableOneMore(before, cfg, source, dir, rest, path, false);
    }
  }

  /** The rows of the chunks of the files indexed. */
  ghost function WrittenRows(before: Table, cfg: Config, source: string, dir: Directory, done: seq<string>): set<RowId>
    requires cfg.maxTokens >= 1
  {
    set p, n: nat | p in Readable(before, cfg, source, dir, done, false) && n < |Chunks(dir[p].value, cfg.maxTokens)| :: RowId(source, p, n)
  }

  function Ordinals(source: string, path: string, n: nat): (ids: set<RowId>)
    ensures forall id :: id in ids <==> id.source == source && id.path == path && id.ordinal < n
    ensures |ids| == n
  {
    if n == 0 then {} else
      assert RowId(source, path, n - 1) !in Ordinals(source, path, n - 1);
      Ordinals(source, path, n - 1) + {RowId(source, path, n - 1)}
  }

  lemma WrittenOneMore(before: Table, cfg: Config, source: string, dir: Directory, rest: seq<string>, path: string)
    requires cfg.maxTokens >= 1 && path !in rest
    ensures var now, was := WrittenRows(before, cfg, source, dir, rest + [path]), WrittenRows(before, cfg, source, dir, rest);
      |now| == |was| + if IsReadable(before, cfg, source, dir, path, false) then |Chunks(dir[path].value, cfg.maxTokens)| else 0
  {
    var now, was := WrittenRows(before, cfg, source, dir, rest + [path]), WrittenRows(before, cfg, source, dir, rest);
    ReadableOneMore(before, cfg, source, dir, rest, path, false);
    if IsReadable(before, cfg, source, dir, path, false) {
      var more := Ordinals(source, path, |Chunks(dir[path].value, cfg.maxTokens)|);
      forall id ensures id in now <==> id in was || id in more {
        assert id == RowId(id.source, id.path, id.ordinal);
      }
      assert now == was + more && was !! more;
    } else {
      assert now == was;
    }
  }

  /** chunks_written counts the rows written. */
  lemma {:induction false} ChunksWrittenMeaning(before: Table, cfg: Config, source: string, dir: Directory, done: seq<string>)
    requires cfg.maxTokens >= 1 && forall i, j :: 0 <= i < j < |done| ==> done[i] != done[j]
    ensures StatsOf(before, cfg, source, dir, done).chunksWritten == |WrittenRows(before, cfg, source, dir, done)|
  {
    if done != [] {
      var n := |done| - 1;
      ChunksWrittenMeaning(before, cfg, source, dir, done[..n]);
      assert done == done[..n] + [done[n]];
      WrittenOneMore(before, cfg, source, dir, done[..n], done[n]);
    }
  }
}
