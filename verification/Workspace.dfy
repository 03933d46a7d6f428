/** What one run works on: its options and jobs, the state store and the
    destination tree (src/sync.rs). */
module Workspace {
  import opened ChunkFetch
  import opened DeltaProtocol
  import opened Hex
  import opened Primitives
  import opened Source
  import opened State

  datatype RdmaMode = Off | Auto | Require

  datatype Options = Options(
    resume: bool,
    update: bool,
    dryRun: bool,
    strict: bool,
    verifyExisting: bool,
    chunkThreshold: u64,
    chunkSize: u64,
    readChunkSize: u64,
    readConcurrency: nat,
    retries: nat,
    deltaEnabled: bool,
    deltaMinSize: u64,
    deltaBlockSize: Option<u32>,
    deltaMaxLiterals: u64,
    deltaFallback: bool,
    rdmaMode: RdmaMode,
    rdmaMinSize: u64)

  /** A listed file to bring over. */
  datatype Job = Job(key: Key, size: u64, mtime: int)

  datatype LocalFile = LocalFile(data: Bytes, mtime: int)

  /** Why a transfer stopped, and whether the destination had been replaced by then. */
  datatype Fault = Fault(cause: Cause, published: bool)

  /** Everything a transfer can change on disk. */
  datatype View = View(tables: Tables, partials: map<Key, Bytes>, files: map<Key, LocalFile>) {
    predicate SameElsewhere(w: View, key: Key) {
      && w.tables.Except(key) == tables.Except(key)
      && w.partials - {key} == partials - {key}
      && w.files - {key} == files - {key}
    }

    /** Everything about other keys. */
    function Outside(keys: set<Key>): View {
      View(tables.Without(keys), partials - keys, files - keys)
    }

    function Local(key: Key): Option<LocalFile> {
      if key in files then Some(files[key]) else None
    }

    /** Everything about one key but its delta session. */
    predicate SameAt(w: View, key: Key) {
      && w.Local(key) == Local(key) && w.Part(key) == Part(key)
      && w.tables.FileState(key) == tables.FileState(key) && w.tables.Completed(key) == tables.Completed(key)
    }

    function Part(key: Key): Bytes {
      if key in partials then partials[key] else []
    }
  }

  /** Fewer reads fail than one chunk is tried, nothing else fails, and the source
      stays as it was listed (its time matters only to strict durability). */
  ghost predicate Smooth(remote: RemoteFile, job: Job, opts: Options)
    reads remote
  {
    && remote.Delivers(job.size, opts.retries)
    && (opts.strict ==> remote.history[remote.now].mtime == job.mtime)
  }

  class Site {
    const store: StateStore
    const fileHash: Hash  // the digest of whole local files; not the strong hash of the delta pipeline
    var files: map<Key, LocalFile>
    var rdmaDisabled: bool

    ghost predicate Valid()
      reads this, store
    {
      store.Valid()
    }

    function State(): View
      reads this, store
    {
      View(store.tables, store.partials, files)
    }

    constructor (store: StateStore, fileHash: Hash, files: map<Key, LocalFile>)
      requires store.Valid()
      ensures Valid() && this.store == store && this.fileHash == fileHash && this.files == files && !rdmaDisabled
    {
      this.store, this.fileHash, this.files, this.rdmaDisabled := store, fileHash, files, false;
    }

    /** Renames the part file over the destination, then sets its time and
        metadata. */
    method Publish(remote: RemoteFile, job: Job) returns (fault: Option<Fault>)
      requires Valid() && job.key in store.partials
      modifies this`files, store`partials
      ensures Valid() && store.tables == old(store.tables)
      ensures fault.Some? ==> fault.value.cause == Io && remote.flaky
      ensures fault.Some? && !fault.value.published ==> State() == old(State())
      ensures fault.None? || fault.value.published ==>
                && job.key in files && files[job.key].data == old(store.partials)[job.key]
                && files == old(files)[job.key := files[job.key]]
                && store.partials == old(store.partials) - {job.key}
      ensures old(State()).SameElsewhere(State(), job.key)
      ensures fault.None? ==> files[job.key].mtime == job.mtime
    {
      var f := remote.Fails();
      if f {
        return Some(Fault(Io, false));
      }
      var stamp: int := *;
      files := files[job.key := LocalFile(store.partials[job.key], stamp)];
      store.RemovePart(job.key);
      f := remote.Fails();
      if f {
        return Some(Fault(Io, true));
      }
      files := files[job.key := files[job.key].(mtime := job.mtime)];
      f := remote.Fails();
      fault := if f then Some(Fault(Io, true)) else None;
    }

    /** Marks the file finished, with the digest of what was published when
        existing files are to be verified. */
    method RecordFinished(remote: RemoteFile, job: Job, opts: Options) returns (fault: Option<Fault>)
      requires Valid() && job.key in files
      modifies store`tables
      ensures Valid()
      ensures fault.Some? ==> fault.value == Fault(Io, true) && remote.flaky && store.tables == old(store.tables)
      ensures fault.None? ==>
                var digest := if opts.verifyExisting then Some(FormatDigest(fileHash(files[job.key].data))) else None;
                store.tables == Finished(old(store.tables), job.key, digest)
    {
      var f := remote.Fails();
      if f {
        return Some(Fault(Io, true));
      }
      if opts.verifyExisting {
        store.MarkFinished(job.key, Some(FormatDigest(fileHash(files[job.key].data))));
      } else {
        store.MarkFinished(job.key, None);
      }
      fault := None;
    }
  }
}
