/** The persistent state of a destination (src/state.rs): the rows about files,
    their completed chunks and delta sessions, and the part files. Sizes and
    times survive the cast to 64-bit columns and back, so rows carry them as they
    are; a part file is named after its path key, and distinct keys are taken to
    have distinct part names. */
module State {
  import opened Primitives

  type Key = string

  datatype FileRow = FileRow(size: u64, mtime: int, chunkSize: u64, digest: Option<string>, finished: bool)

  datatype Session = Session(
    basisDigest: string,
    sourceSize: u64,
    sourceMtime: int,
    blockSize: u32,
    finished: bool,
    lastOp: nat)

  /** The three tables. */
  datatype Tables = Tables(files: map<Key, FileRow>, chunks: map<Key, set<nat>>, sessions: map<Key, Session>) {
    /** Every chunk row refers to a file row. */
    predicate Consistent() {
      chunks.Keys <= files.Keys
    }

    function Completed(key: Key): set<nat> {
      if key in chunks then chunks[key] else {}
    }

    /** What a query for one file returns: its row and its completed chunks. */
    function FileState(key: Key): Option<(FileRow, set<nat>)> {
      if key in files then Some((files[key], Completed(key))) else None
    }

    /** The tables without the rows of some keys. */
    function Without(keys: set<Key>): Tables {
      Tables(files - keys, chunks - keys, sessions - keys)
    }

    function Except(key: Key): Tables {
      Without({key})
    }

    predicate Matches(key: Key, size: u64, mtime: int, chunkSize: u64) {
      key in files && files[key].size == size && files[key].mtime == mtime && files[key].chunkSize == chunkSize
    }
  }

  const EMPTY_TABLES := Tables(map[], map[], map[])

  /** A file is planned: its row is kept, with its chunks, digest and finished
      flag, only when size, time and chunk size are those of the row. */
  function Upserted(t: Tables, key: Key, size: u64, mtime: int, chunkSize: u64): (u: Tables)
    ensures u.Matches(key, size, mtime, chunkSize) && u.Except(key) == t.Except(key)
    ensures u.Completed(key) == if t.Matches(key, size, mtime, chunkSize) then t.Completed(key) else {}
    ensures t.Matches(key, size, mtime, chunkSize) ==> u.files[key] == t.files[key]
    ensures !t.Matches(key, size, mtime, chunkSize) ==> !u.files[key].finished && u.files[key].digest == None
  {
    if t.Matches(key, size, mtime, chunkSize) then t
    else t.(files := t.files[key := FileRow(size, mtime, chunkSize, None, false)], chunks := t.chunks - {key})
  }

  /** Recording chunks needs the file row the chunk rows refer to. */
  function Marked(t: Tables, key: Key, done: set<nat>): (u: Option<Tables>)
    ensures u.None? <==> done != {} && key !in t.files
    ensures u.Some? ==> u.value.Completed(key) == t.Completed(key) + done
    ensures u.Some? ==> u.value.files == t.files && u.value.Except(key) == t.Except(key)
  {
    if done == {} then Some(t)
    else if key !in t.files then None
    else Some(t.(chunks := t.chunks[key := t.Completed(key) + done]))
  }

  function Reset(t: Tables, key: Key): (u: Tables)
    ensures u.Completed(key) == {} && u.Except(key) == t.Except(key)
    ensures key in u.files ==> !u.files[key].finished && u.files[key].digest == None
    ensures forall size, mtime, chunkSize :: u.Matches(key, size, mtime, chunkSize) == t.Matches(key, size, mtime,
                                                                                                 chunkSize)
  {
    var cleared := t.(chunks := t.chunks - {key});
    if key in t.files
    then cleared.(files := t.files[key := t.files[key].(digest := None, finished := false)])
    else cleared
  }

  function Finished(t: Tables, key: Key, digest: Option<string>): (u: Tables)
    ensures u.Completed(key) == t.Completed(key) && u.Except(key) == t.Except(key)
    ensures forall size, mtime, chunkSize :: u.Matches(key, size, mtime, chunkSize) == t.Matches(key, size, mtime,
                                                                                                 chunkSize)
  {
    if key in t.files
    then t.(files := t.files[key := t.files[key].(digest := digest, finished := true)])
    else t
  }

  /** Rows of files that are no longer listed go, with the chunks that refer to
      them and their sessions; a session without a file row stays. */
  function Pruned(t: Tables, valid: set<Key>): Tables {
    t.Without(t.files.Keys - valid)
  }

  /** The tables while rows are pruned one at a time: `rows` are still to visit. */
  ghost predicate Pruning(t: Tables, now: Tables, rows: set<Key>, valid: set<Key>) {
    rows <= t.files.Keys && now == t.Without((t.files.Keys - rows) - valid)
  }

  lemma PruneStart(t: Tables, valid: set<Key>)
    ensures Pruning(t, t, t.files.Keys, valid)
  {
    assert t.files - {} == t.files && t.chunks - {} == t.chunks && t.sessions - {} == t.sessions;
    assert (t.files.Keys - t.files.Keys) - valid == {};
  }

  lemma PruneStep(t: Tables, now: Tables, rows: set<Key>, valid: set<Key>, key: Key)
    requires Pruning(t, now, rows, valid) && key in rows
    ensures Pruning(t, if key in valid then now else now.Without({key}), rows - {key}, valid)
  {
    var gone := (t.files.Keys - rows) - valid;
    if key in valid {
      assert (t.files.Keys - (rows - {key})) - valid == gone;
    } else {
      assert (t.files.Keys - (rows - {key})) - valid == gone + {key};
      assert t.Without(gone).Without({key}) == t.Without(gone + {key});
    }
  }

  function SetOf(s: seq<nat>): set<nat> {
    set i | i in s
  }

  /** The two states of the tables differ in the session of one key at most. */
  predicate OnlySession(before: Tables, after: Tables, key: Key) {
    after.files == before.files && after.chunks == before.chunks && after.Except(key) == before.Except(key)
  }

  /** A row that says finished is one that was there before, as it is. */
  predicate FinishedOnlyBefore(before: Tables, after: Tables, key: Key) {
    key in after.files && after.files[key].finished ==> key in before.files && before.files[key] == after.files[key]
  }

  class StateStore {
    var tables: Tables
    var partials: map<Key, Bytes>

    ghost predicate Valid()
      reads this
    {
      tables.Consistent()
    }

    constructor ()
      ensures Valid() && tables == EMPTY_TABLES && partials == map[]
    {
      tables, partials := EMPTY_TABLES, map[];
    }

    /** Removes every row. The part files stay. */
    method ClearAll()
      modifies this`tables
      ensures Valid() && tables == EMPTY_TABLES
    {
      tables := tables.(chunks := map[]);
      tables := tables.(files := map[]);
      tables := tables.(sessions := map[]);
    }

    method UpsertFile(key: Key, size: u64, mtime: int, chunkSize: u64)
      requires Valid()
      modifies this`tables
      ensures Valid() && tables == Upserted(old(tables), key, size, mtime, chunkSize)
    {
      var existing := tables.FileState(key);
      var changed := match existing
        case None => true
        case Some((row, _)) => row.size != size || row.mtime != mtime || row.chunkSize != chunkSize;
      var row := match existing
        case None => FileRow(size, mtime, chunkSize, None, false)
        case Some((row, _)) => row.(size := size, mtime := mtime, chunkSize := chunkSize);
      tables := tables.(files := tables.files[key := row]);
      if changed {
        tables := tables.(chunks := tables.chunks - {key});
        tables := tables.(files := tables.files[key := tables.files[key].(digest := None, finished := false)]);
      }
    }

    /** Records a batch in one transaction: all of it, or nothing when the file
        has no row. */
    method MarkChunksCompleted(key: Key, batch: seq<nat>) returns (ok: bool)
      requires Valid()
      modifies this`tables
      ensures Valid()
      ensures var marked := Marked(old(tables), key, SetOf(batch));
              ok == marked.Some? && tables == (if ok then marked.value else old(tables))
    {
      if batch == [] {
        return true;
      }
      assert batch[0] in SetOf(batch);
      if key !in tables.files {
        return false;
      }
      var completed := tables.Completed(key);
      for k := 0 to |batch|
        invariant completed == tables.Completed(key) + SetOf(batch[..k])
      {
        completed := completed + {batch[k]};
        assert batch[..k + 1] == batch[..k] + [batch[k]];
      }
      assert batch[..|batch|] == batch;
      tables := tables.(chunks := tables.chunks[key := completed]);
      ok := true;
    }

    /** Creates or overwrites the part file of a key. */
    method PutPart(key: Key, data: Bytes)
      modifies this`partials
      ensures partials == old(partials)[key := data] && partials - {key} == old(partials) - {key}
    {
      partials := partials[key := data];
    }

    method RemovePart(key: Key)
      modifies this`partials
      ensures partials == old(partials) - {key} && partials - {key} == old(partials) - {key}
    {
      partials := partials - {key};
    }

    method ResetProgress(key: Key)
      requires Valid()
      modifies this`tables
      ensures Valid() && tables == Reset(old(tables), key)
    {
      tables := tables.(chunks := tables.chunks - {key});
      if key in tables.files {
        tables := tables.(files := tables.files[key := tables.files[key].(digest := None, finished := false)]);
      }
    }

    method MarkFinished(key: Key, digest: Option<string>)
      requires Valid()
      modifies this`tables
      ensures Valid() && tables == Finished(old(tables), key, digest)
    {
      if key in tables.files {
        tables := tables.(files := tables.files[key := tables.files[key].(digest := digest, finished := true)]);
      }
    }

    /** Forgets the files that are no longer listed, one row at a time. */
    method PruneRows(valid: set<Key>)
      requires Valid()
      modifies this`tables
      ensures Valid() && tables == Pruned(old(tables), valid)
    {
      var rows := tables.files.Keys;
      PruneStart(tables, valid);
      while rows != {}
        invariant Pruning(old(tables), tables, rows, valid)
        decreases |rows|
      {
        var key :| key in rows;
        PruneStep(old(tables), tables, rows, valid, key);
        rows := rows - {key};
        if key !in valid {
          // the chunk rows go with the file row they refer to
          tables := tables.Without({key});
        }
      }
      assert old(tables).files.Keys - {} == old(tables).files.Keys;
    }

    /** Removes the part files no listed file can own. */
    method PrunePartials(valid: set<Key>)
      modifies this`partials
      ensures partials == map key | key in old(partials) && key in valid :: old(partials)[key]
    {
      var names := partials.Keys;
      while names != {}
        invariant names <= old(partials).Keys
        invariant partials == map key | key in old(partials) && (key in valid || key in names) :: old(partials)[key]
        decreases |names|
      {
        var key :| key in names;
        names := names - {key};
        if key !in valid {
          partials := partials - {key};
        }
      }
    }

    method PruneToKeys(valid: set<Key>)
      requires Valid()
      modifies this
      ensures Valid() && tables == Pruned(old(tables), valid)
      ensures partials == map key | key in old(partials) && key in valid :: old(partials)[key]
    {
      PruneRows(valid);
      PrunePartials(valid);
    }

    method UpsertDeltaSession(key: Key, basisDigest: string, sourceSize: u64, sourceMtime: int, blockSize: u32)
      requires Valid()
      modifies this`tables
      ensures Valid()
      ensures tables == old(tables).(sessions :=
                old(tables).sessions[key := Session(basisDigest, sourceSize, sourceMtime, blockSize, false, 0)])
      ensures OnlySession(old(tables), tables, key)
    {
      tables := tables.(sessions := tables.sessions[key := Session(basisDigest, sourceSize, sourceMtime, blockSize,
                                                                   false, 0)]);
    }

    method MarkDeltaProgress(key: Key, lastOp: nat)
      requires Valid()
      modifies this`tables
      ensures Valid()
      ensures tables == (if key in old(tables).sessions
                         then old(tables).(sessions :=
                                old(tables).sessions[key := old(tables).sessions[key].(lastOp := lastOp)])
                         else old(tables))
      ensures OnlySession(old(tables), tables, key)
    {
      if key in tables.sessions {
        tables := tables.(sessions := tables.sessions[key := tables.sessions[key].(lastOp := lastOp)]);
      }
    }

    method MarkDeltaFinished(key: Key)
      requires Valid()
      modifies this`tables
      ensures Valid()
      ensures tables == (if key in old(tables).sessions
                         then old(tables).(sessions :=
                                old(tables).sessions[key := old(tables).sessions[key].(finished := true)])
                         else old(tables))
      ensures OnlySession(old(tables), tables, key)
    {
      if key in tables.sessions {
        tables := tables.(sessions := tables.sessions[key := tables.sessions[key].(finished := true)]);
      }
    }

    method ClearDeltaSession(key: Key)
      requires Valid()
      modifies this`tables
      ensures Valid() && tables == old(tables).(sessions := old(tables).sessions - {key})
      ensures OnlySession(old(tables), tables, key)
    {
      tables := tables.(sessions := tables.sessions - {key});
    }
  }

  // ----- how the operations compose

  /** Finishing a file keeps its chunk rows: a later plan of the same size, time
      and chunk size fetches nothing, although the part file is gone. */
  lemma FinishingKeepsChunks(t: Tables, key: Key, digest: Option<string>, size: u64, mtime: int, chunkSize: u64)
    requires t.Consistent()
    ensures Upserted(Finished(t, key, digest), key, size, mtime, chunkSize).Completed(key)
            == Upserted(t, key, size, mtime, chunkSize).Completed(key)
  {
  }

  /** Pruning twice is pruning once, and a session survives it exactly when its
      file is listed or never had a row. */
  lemma PruneForgetsUnlisted(t: Tables, valid: set<Key>)
    requires t.Consistent()
    ensures var p := Pruned(t, valid);
            && p.Consistent() && Pruned(p, valid) == p
            && p.files.Keys == t.files.Keys * valid
            && (forall key :: key in p.sessions <==> key in t.sessions && (key in valid || key !in t.files))
  {
  }
}
