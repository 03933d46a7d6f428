/** The resumable chunk path of `transfer_one` (src/sync.rs). Every step that
    touches the disk, the source or the store may fail when the run is flaky,
    which also stands for an interruption or a crash at that point. */
module ChunkTransfer {
  import opened Assembly
  import opened ChunkFetch
  import opened ChunkPlan
  import opened DeltaProtocol
  import opened Groups
  import opened Hex
  import opened History
  import opened Primitives
  import opened Source
  import opened State
  import opened Workspace

  /** Files under the threshold are one chunk, the others are cut into chunks no
      larger than one read. */
  function PlannedChunkSize(size: u64, opts: Options): (cs: u64)
    ensures cs > 0
    ensures size < opts.chunkThreshold ==> cs >= size && ChunkCount(size, cs) == 1 && cs <= Max(size, 1)
    ensures size >= opts.chunkThreshold ==> cs <= Max(opts.readChunkSize, 1) && cs <= Max(opts.chunkSize, 1)
    ensures size >= opts.chunkThreshold ==> cs >= opts.readChunkSize || cs >= opts.chunkSize
  {
    if size >= opts.chunkThreshold then Max(Min(opts.chunkSize, opts.readChunkSize), 1) else Max(size, 1)
  }

  /** How many chunks of a file are read at a time. */
  function ReadWidth(size: u64, opts: Options): (width: nat)
    ensures 0 < width <= Max(opts.readConcurrency, 1)
    ensures size < 32 * 1024 * 1024 ==> width == 1
    ensures size >= 32 * 1024 * 1024 ==> width >= opts.readConcurrency
  {
    if size >= 32 * 1024 * 1024 then Max(opts.readConcurrency, 1) else 1
  }

  /** The part file as the next attempt will find it: of the listed size. */
  function PartOf(v: View, job: Job): (r: Bytes)
    ensures |r| == job.size
  {
    Resized(v.Part(job.key), job.size)
  }

  /** The chunks an attempt finds recorded once it has planned the file. */
  function Recorded(t: Tables, job: Job, cs: u64): set<nat> {
    if t.Matches(job.key, job.size, job.mtime, cs) then t.Completed(job.key) else {}
  }

  // ----- what an attempt leaves behind

  /** Every recorded chunk is the one kept from before, or was read between lo
      and hi. */
  ghost predicate RowsHold(before: View, after: View, job: Job, cs: u64, kept: set<nat>, history: seq<Version>, lo: nat,
                           hi: nat)
  {
    && after.tables.Matches(job.key, job.size, job.mtime, cs) && kept <= after.tables.Completed(job.key)
    && Grown(PartOf(after, job), PartOf(before, job), kept, after.tables.Completed(job.key), history, lo, hi, cs)
  }

  /** An attempt that did not publish: destination untouched, rows truthful. */
  ghost predicate Stopped(before: View, after: View, job: Job, cs: u64, kept: set<nat>, history: seq<Version>, lo: nat,
                          hi: nat)
  {
    && after.files == before.files
    && ((after.tables == before.tables && after.partials == before.partials)
        || RowsHold(before, after, job, cs, kept, history, lo, hi))
  }

  /** The same, or everything known about the file was forgotten. */
  ghost predicate StoppedOrReset(before: View, after: View, job: Job, cs: u64, kept: set<nat>, history: seq<Version>,
                                 lo: nat, hi: nat)
  {
    || Stopped(before, after, job, cs, kept, history, lo, hi)
    || (after.files == before.files && after.tables.Completed(job.key) == {} && kept == {})
  }

  /** An attempt that published: the destination is put together from kept
      chunks and chunks read between lo and hi, the part file is gone, and the
      rows still name every chunk. */
  ghost predicate Published(before: View, after: View, job: Job, cs: u64, kept: set<nat>, history: seq<Version>,
                            lo: nat, hi: nat)
    requires cs > 0
  {
    && job.key in after.files && job.key !in after.partials
    && after.tables.Matches(job.key, job.size, job.mtime, cs)
    && AllChunks(job.size, cs) <= after.tables.Completed(job.key)
    && Assembled(after.files[job.key].data, PartOf(before, job), kept, history, lo, hi, cs)
  }

  /** Some version between lo and hi had the listed size. */
  ghost predicate SizeSeen(job: Job, history: seq<Version>, lo: nat, hi: nat) {
    exists v :: lo <= v <= hi && v < |history| && |history[v].data| == job.size
  }

  /** What the check after the last read found, when there was one. */
  ghost predicate Checked(job: Job, opts: Options, history: seq<Version>, hi: nat) {
    opts.strict ==> hi < |history| && history[hi].mtime == job.mtime && |history[hi].data| == job.size
  }

  /** Some version between lo and hi is not of the listed size and time. */
  ghost predicate Departs(job: Job, history: seq<Version>, lo: nat, hi: nat) {
    exists v :: lo <= v <= hi && v < |history| && (history[v].mtime != job.mtime || |history[v].data| != job.size)
  }

  /** Strict durability found the source changed and was interrupted while it
      forgot the file: the part file is gone, and the rows still name every chunk. */
  ghost predicate HalfForgotten(before: View, after: View, job: Job, opts: Options, history: seq<Version>, lo: nat,
                                hi: nat)
  {
    var cs := PlannedChunkSize(job.size, opts);
    && opts.strict && Departs(job, history, lo, hi) && after.files == before.files && job.key !in after.partials
    && after.tables.Matches(job.key, job.size, job.mtime, cs)
    && AllChunks(job.size, cs) <= after.tables.Completed(job.key)
  }

  /** The row of the file is for this size and time. */
  predicate RowMatches(t: Tables, job: Job) {
    job.key in t.files && t.files[job.key].size == job.size && t.files[job.key].mtime == job.mtime
  }

  /** The row of a file that has been brought over: finished, for the listed size and
      time, with the digest of what is there when existing files are to be verified. */
  predicate NotedFinished(fileHash: Hash, v: View, job: Job, opts: Options) {
    && job.key in v.files && job.key in v.tables.files
    && var row := v.tables.files[job.key];
       && row.size == job.size && row.mtime == job.mtime && row.finished
       && row.digest == if opts.verifyExisting then Some(FormatDigest(fileHash(v.files[job.key].data))) else None
  }

  // ----- the steps of an attempt

  /** Checks the size, plans the file and opens the part file at its size. */
  method Prepare(site: Site, remote: RemoteFile, job: Job, cs: u64) returns (fault: Option<Fault>)
    requires site.Valid() && remote.Valid()
    modifies site.store, remote`now
    ensures site.Valid() && remote.Valid() && old(remote.now) <= remote.now
    ensures site.files == old(site.files) && old(site.State()).SameElsewhere(site.State(), job.key)
    ensures FinishedOnlyBefore(old(site.store.tables), site.store.tables, job.key)
    ensures fault.None? ==>
              && SizeSeen(job, remote.history, old(remote.now), remote.now)
              && site.store.tables == Upserted(old(site.store.tables), job.key, job.size, job.mtime, cs)
              && site.store.partials == old(site.store.partials)[job.key := PartOf(old(site.State()), job)]
    ensures fault.Some? ==>
              && !fault.value.published && fault.value.cause != ChangedDuringTransfer
              && (site.State() == old(site.State())
                  || (site.store.tables == Upserted(old(site.store.tables), job.key, job.size, job.mtime, cs)
                      && PartOf(site.State(), job) == PartOf(old(site.State()), job)))
    ensures old(remote.Quiet()) ==> remote.Quiet() && remote.history[remote.now] == remote.history[old(remote.now)]
    ensures old(remote.Quiet()) && |remote.history[remote.now].data| == job.size ==> fault.None?
  {
    ghost var before := site.State();
    var f := remote.Fails();
    if f {
      return Some(Fault(Interrupted, false));
    }
    var latest := remote.Stat();
    if latest.None? {
      return Some(Fault(Io, false));
    }
    if latest.value.size != job.size {
      return Some(Fault(SizeChanged, false));
    }
    f := remote.Fails();
    if f {
      return Some(Fault(Io, false));
    }
    site.store.UpsertFile(job.key, job.size, job.mtime, cs);
    f := remote.Fails();
    if f {
      return Some(Fault(Io, false));
    }
    site.store.PutPart(job.key, site.State().Part(job.key));
    f := remote.Fails();
    if f {
      return Some(Fault(Io, false));
    }
    site.store.PutPart(job.key, Resized(site.store.partials[job.key], job.size));
    fault := None;
  }

  /** With no chunk kept, the file was read as groups of chunks are. */
  ghost predicate FromNothing(file: Bytes, opts: Options, cs: u64, kept: set<nat>, history: seq<Version>, lo: nat,
                              hi: nat)
    requires cs > 0 && |file| < U64_LIMIT
  {
    kept == {} ==> Fetched(file, ReadWidth(|file|, opts), history, lo, hi, cs)
  }

  lemma FromNothingWithin(file: Bytes, opts: Options, cs: u64, kept: set<nat>, history: seq<Version>, lo: nat, hi: nat,
                          lo': nat, hi': nat)
    requires cs > 0 && |file| < U64_LIMIT && lo' <= lo && hi <= hi'
    requires FromNothing(file, opts, cs, kept, history, lo, hi)
    ensures FromNothing(file, opts, cs, kept, history, lo', hi')
  {
    if kept == {} {
      InGroupsWithin(file, Numbers(ChunkCount(|file|, cs)), ReadWidth(|file|, opts), history, lo, hi, lo', hi', cs);
    }
  }

  /** Fetches the chunks that are not completed into an open part file. */
  method FillPart(remote: RemoteFile, content: Bytes, opts: Options, cs: u64, completed: set<nat>)
    returns (filled: Bytes, done: seq<nat>, failure: Option<Cause>)
    requires remote.Valid() && cs > 0 && |content| < U64_LIMIT
    modifies remote
    ensures remote.Valid() && remote.readFaults <= old(remote.readFaults)
    ensures old(remote.now) <= remote.now && |filled| == |content|
    ensures Grown(filled, content, completed, completed, remote.history, old(remote.now), remote.now, cs)
    ensures Grown(filled, content, completed, completed + SetOf(done), remote.history, old(remote.now), remote.now, cs)
    ensures failure.Some? ==> failure.value != ChangedDuringTransfer
    ensures failure.None? ==>
              && Assembled(filled, content, completed, remote.history, old(remote.now), remote.now, cs)
              && AllChunks(|content|, cs) <= completed + SetOf(done)
              && FromNothing(filled, opts, cs, completed, remote.history, old(remote.now), remote.now)
    ensures old(remote.Quiet()) ==> remote.Quiet() && remote.history[remote.now] == remote.history[old(remote.now)]
    ensures old(remote.Delivers(|content|, opts.retries)) ==> failure.None?
  {
    var missing := MissingChunks(ChunkCount(|content|, cs), completed);
    MissingIsRest(missing, |content|, cs, completed);
    var part := new byte[|content|](i requires 0 <= i < |content| => content[i]);
    assert part[..] == content;
    done, failure := FetchMissing(remote, part, cs, missing, ReadWidth(|content|, opts), opts.retries);
    filled := part[..];
    FetchedRows(filled, content, SetOf(done), SetOf(missing), completed, remote.history, old(remote.now), remote.now,
                cs);
  }

  /** Fetches what is not recorded into the part file, and records it when all of
      it has arrived. */
  method Fetch(site: Site, remote: RemoteFile, job: Job, opts: Options, cs: u64) returns (fault: Option<Fault>)
    requires site.Valid() && remote.Valid() && cs > 0
    requires site.store.tables.Matches(job.key, job.size, job.mtime, cs)
    requires job.key in site.store.partials && |site.store.partials[job.key]| == job.size
    modifies site.store, remote
    ensures site.Valid() && remote.Valid() && old(remote.now) <= remote.now
    ensures site.files == old(site.files) && old(site.State()).SameElsewhere(site.State(), job.key)
    ensures site.store.tables.files == old(site.store.tables.files)
    ensures job.key in site.store.partials && |site.store.partials[job.key]| == job.size
    ensures var kept := old(site.store.tables.Completed(job.key));
            RowsHold(old(site.State()), site.State(), job, cs, kept, remote.history, old(remote.now), remote.now)
    ensures fault.None? ==>
              && AllChunks(job.size, cs) <= site.store.tables.Completed(job.key)
              && Assembled(site.store.partials[job.key], PartOf(old(site.State()), job),
                           old(site.store.tables.Completed(job.key)), remote.history, old(remote.now), remote.now, cs)
              && FromNothing(site.store.partials[job.key], opts, cs, old(site.store.tables.Completed(job.key)),
                             remote.history, old(remote.now), remote.now)
    ensures fault.Some? ==> !fault.value.published && fault.value.cause != ChangedDuringTransfer
    ensures fault.Some? ==> site.store.tables == old(site.store.tables)
    ensures old(Smooth(remote, job, opts)) ==> Smooth(remote, job, opts) && fault.None?
  {
    var completed := site.store.tables.Completed(job.key);
    var filled, done, failure := FillPart(remote, site.store.partials[job.key], opts, cs, completed);
    site.store.PutPart(job.key, filled);
    if failure.Some? {
      return Some(Fault(failure.value, false));
    }
    var f := remote.Fails();
    if f {
      return Some(Fault(Io, false));
    }
    var ok := site.store.MarkChunksCompleted(job.key, done);
    fault := None;
  }

  lemma MissingIsRest(missing: seq<nat>, size: u64, cs: u64, completed: set<nat>)
    requires cs > 0
    requires forall idx: nat :: idx in missing <==> idx < ChunkCount(size, cs) && idx !in completed
    ensures SetOf(missing) == AllChunks(size, cs) - completed
  {
  }

  lemma FetchedRows(file: Bytes, base: Bytes, done: set<nat>, missing: set<nat>, completed: set<nat>,
                    history: seq<Version>, lo: nat, hi: nat, cs: u64)
    requires cs > 0 && |base| < U64_LIMIT && missing == AllChunks(|base|, cs) - completed && done <= missing
    requires Fetching(file, base, done, missing, history, lo, hi, cs)
    ensures Grown(file, base, completed, completed, history, lo, hi, cs)
    ensures Grown(file, base, completed, completed + done, history, lo, hi, cs)
    ensures done == missing ==> Assembled(file, base, completed, history, lo, hi, cs)
  {
    FetchingKeeps(file, base, done, missing, history, lo, hi, cs, completed);
  }

  lemma RowsHoldLonger(before: View, after: View, job: Job, cs: u64, kept: set<nat>, history: seq<Version>, lo: nat,
                       hi: nat, later: nat)
    requires RowsHold(before, after, job, cs, kept, history, lo, hi) && hi <= later
    ensures RowsHold(before, after, job, cs, kept, history, lo, later)
  {
    GrownLonger(PartOf(after, job), PartOf(before, job), kept, after.tables.Completed(job.key), history, lo, hi, later,
                cs);
  }

  lemma PreparedRows(before: View, mid: View, job: Job, cs: u64, history: seq<Version>, lo: nat, hi: nat)
    requires mid.tables == Upserted(before.tables, job.key, job.size, job.mtime, cs)
    requires PartOf(mid, job) == PartOf(before, job)
    ensures RowsHold(before, mid, job, cs, Recorded(before.tables, job, cs), history, lo, hi)
  {
  }

  /** Reading started later than the attempt. */
  lemma RowsHoldEarlier(before: View, mid: View, after: View, job: Job, cs: u64, kept: set<nat>, history: seq<Version>,
                        earlier: nat, lo: nat, hi: nat)
    requires RowsHold(mid, after, job, cs, kept, history, lo, hi) && earlier <= lo
    requires PartOf(mid, job) == PartOf(before, job)
    ensures RowsHold(before, after, job, cs, kept, history, earlier, hi)
  {
    GrownEarlier(PartOf(after, job), PartOf(before, job), kept, after.tables.Completed(job.key), history, earlier, lo,
                 hi, cs);
  }

  /** A second round starts with nothing recorded, so what came before it does
      not matter. */
  lemma SecondRound(before: View, mid: View, after: View, job: Job, cs: u64, history: seq<Version>, lo: nat, again: nat,
                    hi: nat)
    requires cs > 0 && lo <= again && mid.files == before.files && mid.tables.Completed(job.key) == {}
    ensures Published(mid, after, job, cs, {}, history, again, hi) ==>
              Published(before, after, job, cs, {}, history, lo, hi)
    ensures Stopped(mid, after, job, cs, {}, history, again, hi) ==>
              StoppedOrReset(before, after, job, cs, {}, history, lo, hi)
  {
    if Published(mid, after, job, cs, {}, history, again, hi) {
      AnewEarlier(after.files[job.key].data, PartOf(mid, job), PartOf(before, job), AllChunks(job.size, cs), history,
                  lo, again, hi, cs);
    }
    if RowsHold(mid, after, job, cs, {}, history, again, hi) {
      AnewEarlier(PartOf(after, job), PartOf(mid, job), PartOf(before, job), after.tables.Completed(job.key), history,
                  lo, again, hi, cs);
    }
  }

  lemma AnewEarlier(file: Bytes, base: Bytes, other: Bytes, done: set<nat>, history: seq<Version>, earlier: nat,
                    lo: nat, hi: nat, cs: u64)
    requires Grown(file, base, {}, done, history, lo, hi, cs) && earlier <= lo && |other| == |base|
    ensures Grown(file, other, {}, done, history, earlier, hi, cs)
  {
    GrownEarlier(file, base, {}, done, history, earlier, lo, hi, cs);
  }

  /** The part file is complete: planned, fetched and recorded. */
  method Gather(site: Site, remote: RemoteFile, job: Job, opts: Options, cs: u64) returns (fault: Option<Fault>)
    requires site.Valid() && remote.Valid() && cs > 0
    modifies site.store, remote
    ensures site.Valid() && remote.Valid() && old(remote.now) <= remote.now
    ensures site.files == old(site.files) && old(site.State()).SameElsewhere(site.State(), job.key)
    ensures var kept := Recorded(old(site.store.tables), job, cs);
            && Stopped(old(site.State()), site.State(), job, cs, kept, remote.history, old(remote.now), remote.now)
            && (fault.None? ==>
                  && RowsHold(old(site.State()), site.State(), job, cs, kept, remote.history, old(remote.now),
                              remote.now)
                  && SizeSeen(job, remote.history, old(remote.now), remote.now)
                  && job.key in site.store.partials && AllChunks(job.size, cs) <= site.store.tables.Completed(job.key)
                  && Assembled(site.store.partials[job.key], PartOf(old(site.State()), job), kept, remote.history,
                               old(remote.now), remote.now, cs)
                  && FromNothing(site.store.partials[job.key], opts, cs, kept, remote.history, old(remote.now),
                                 remote.now))
    ensures fault.Some? ==> !fault.value.published && fault.value.cause != ChangedDuringTransfer
    ensures FinishedOnlyBefore(old(site.store.tables), site.store.tables, job.key)
    ensures old(Smooth(remote, job, opts)) ==> Smooth(remote, job, opts) && fault.None?
  {
    ghost var before, lo := site.State(), remote.now;
    fault := Prepare(site, remote, job, cs);
    if fault.Some? {
      if site.State() != before {
        PreparedRows(before, site.State(), job, cs, remote.history, lo, remote.now);
      }
      return;
    }
    ghost var mid, start := site.State(), remote.now;
    fault := Fetch(site, remote, job, opts, cs);
    ghost var kept := Recorded(before.tables, job, cs);
    RowsHoldEarlier(before, mid, site.State(), job, cs, kept, remote.history, lo, start, remote.now);
    if fault.None? {
      GrownEarlier(site.store.partials[job.key], PartOf(before, job), kept, AllChunks(job.size, cs), remote.history, lo,
                   start, remote.now, cs);
      FromNothingWithin(site.store.partials[job.key], opts, cs, kept, remote.history, start, remote.now, lo,
                        remote.now);
    }
  }

  datatype AttemptResult = Done | Stop(fault: Fault) | Changed

  /** With strict durability: looks at the source again, and forgets everything
      about the file when its size or time is no longer the listed one. */
  method Confirm(site: Site, remote: RemoteFile, job: Job, opts: Options) returns (r: AttemptResult)
    requires site.Valid() && remote.Valid()
    modifies site.store, remote`now
    ensures site.Valid() && remote.Valid() && old(remote.now) <= remote.now
    ensures site.files == old(site.files) && old(site.State()).SameElsewhere(site.State(), job.key)
    ensures r.Done? ==> site.State() == old(site.State())
    ensures r.Stop? ==> r.fault.cause == Io
    ensures r.Stop? ==>
              || site.State() == old(site.State())
              || (&& opts.strict && Departs(job, remote.history, remote.now, remote.now)
                  && site.store.tables == old(site.store.tables)
                  && site.store.partials == old(site.store.partials) - {job.key})
    ensures r.Done? ==>
              Checked(job, opts, remote.history, remote.now) && (!opts.strict ==> remote.now == old(remote.now))
    ensures r.Stop? ==> !r.fault.published
    ensures r.Changed? ==>
              && opts.strict && Departs(job, remote.history, remote.now, remote.now)
              && site.store.tables == Reset(old(site.store.tables), job.key)
              && site.store.partials == old(site.store.partials) - {job.key}
    ensures old(Smooth(remote, job, opts)) ==> Smooth(remote, job, opts) && r.Done?
  {
    if !opts.strict {
      return Done;
    }
    var f := remote.Fails();
    if f {
      return Stop(Fault(Io, false));
    }
    var latest := remote.Stat();
    if latest.None? {
      return Stop(Fault(Io, false));
    }
    if latest.value.size != job.size || latest.value.mtime != job.mtime {
      site.store.RemovePart(job.key);
      f := remote.Fails();
      if f {
        return Stop(Fault(Io, false));
      }
      site.store.ResetProgress(job.key);
      return Changed;
    }
    r := Done;
  }

  /** One round of the chunk path. */
  method Attempt(site: Site, remote: RemoteFile, job: Job, opts: Options, cs: u64)
    returns (r: AttemptResult, ghost hi: nat)
    requires site.Valid() && remote.Valid() && cs == PlannedChunkSize(job.size, opts)
    modifies site, site.store, remote
    ensures site.Valid() && remote.Valid() && old(remote.now) <= hi <= remote.now
    ensures old(site.State()).SameElsewhere(site.State(), job.key) && site.rdmaDisabled == old(site.rdmaDisabled)
    ensures var kept := Recorded(old(site.store.tables), job, cs);
            && (r.Done? || (r.Stop? && r.fault.published) ==>
                  && Published(old(site.State()), site.State(), job, cs, kept, remote.history, old(remote.now), hi)
                  && FromNothing(site.files[job.key].data, opts, cs, kept, remote.history, old(remote.now), hi)
                  && SizeSeen(job, remote.history, old(remote.now), hi)
                  && Checked(job, opts, remote.history, hi))
            && (r.Stop? && !r.fault.published ==>
                  || Stopped(old(site.State()), site.State(), job, cs, kept, remote.history, old(remote.now), hi)
                  || HalfForgotten(old(site.State()), site.State(), job, opts, remote.history, old(remote.now), hi))
    ensures if r.Done?
            then site.files[job.key].mtime == job.mtime && NotedFinished(site.fileHash, site.State(), job, opts)
            else FinishedOnlyBefore(old(site.store.tables), site.store.tables, job.key)
    ensures r.Stop? ==> r.fault.cause != ChangedDuringTransfer
    ensures r.Changed? ==>
              && opts.strict && Departs(job, remote.history, old(remote.now), remote.now)
              && site.files == old(site.files)
              && site.store.tables.Completed(job.key) == {} && job.key !in site.store.partials
    ensures old(Smooth(remote, job, opts)) ==> Smooth(remote, job, opts) && r.Done?
  {
    ghost var before, lo, kept := site.State(), remote.now, Recorded(site.store.tables, job, cs);
    var fault := Gather(site, remote, job, opts, cs);
    hi := remote.now;
    if fault.Some? {
      return Stop(fault.value), hi;
    }
    ghost var gathered, read := site.State(), remote.now;
    r := Confirm(site, remote, job, opts);
    hi := remote.now;
    RowsHoldLonger(before, gathered, job, cs, kept, remote.history, lo, read, hi);
    if !r.Done? {
      return;
    }
    GrownLonger(site.store.partials[job.key], PartOf(before, job), kept, AllChunks(job.size, cs), remote.history, lo,
                read, hi, cs);
    FromNothingWithin(site.store.partials[job.key], opts, cs, kept, remote.history, lo, read, lo, hi);
    r := Finish(site, remote, job, opts);
  }

  /** The part file is renamed and the row marked finished. */
  method Finish(site: Site, remote: RemoteFile, job: Job, opts: Options) returns (r: AttemptResult)
    requires site.Valid() && job.key in site.store.partials && RowMatches(site.store.tables, job)
    modifies site, site.store
    ensures site.Valid() && old(site.State()).SameElsewhere(site.State(), job.key)
    ensures site.rdmaDisabled == old(site.rdmaDisabled) && !r.Changed?
    ensures r.Stop? && !r.fault.published ==> site.State() == old(site.State())
    ensures !(r.Stop? && !r.fault.published) ==>
              && job.key in site.files && site.files[job.key].data == old(site.store.partials)[job.key]
              && job.key !in site.store.partials
    ensures site.store.tables.Completed(job.key) == old(site.store.tables).Completed(job.key)
    ensures forall cs :: site.store.tables.Matches(job.key, job.size, job.mtime, cs)
                         == old(site.store.tables).Matches(job.key, job.size, job.mtime, cs)
    ensures if r.Done?
            then site.files[job.key].mtime == job.mtime && NotedFinished(site.fileHash, site.State(), job, opts)
            else site.store.tables == old(site.store.tables) && r.fault.cause == Io && remote.flaky
  {
    var fault := site.Publish(remote, job);
    if fault.Some? {
      return Stop(fault.value);
    }
    fault := site.RecordFinished(remote, job, opts);
    if fault.Some? {
      return Stop(fault.value);
    }
    r := Done;
  }

  /** The recorded chunks were kept, or given up because strict durability found
      the source changed. */
  ghost predicate KeptOrForgotten(t: Tables, job: Job, opts: Options, kept: set<nat>, history: seq<Version>, lo: nat,
                                  hi: nat)
  {
    || kept == Recorded(t, job, PlannedChunkSize(job.size, opts))
    || (opts.strict && kept == {} && Departs(job, history, lo, hi))
  }

  /** What the chunk path leaves: everything was read up to hi, and the run ended
      at `end`. */
  ghost predicate ChunkRun(before: View, after: View, fault: Option<Fault>, job: Job, opts: Options, kept: set<nat>,
                           history: seq<Version>, lo: nat, hi: nat, end: nat)
  {
    var cs := PlannedChunkSize(job.size, opts);
    && lo <= hi <= end < |history| && KeptOrForgotten(before.tables, job, opts, kept, history, lo, end)
    && (fault.None? || fault.value.published ==>
          && Published(before, after, job, cs, kept, history, lo, hi) && Checked(job, opts, history, hi)
          && FromNothing(after.files[job.key].data, opts, cs, kept, history, lo, hi)
          && SizeSeen(job, history, lo, hi))
    && (fault.Some? && !fault.value.published ==>
          || StoppedOrReset(before, after, job, cs, kept, history, lo, hi)
          || HalfForgotten(before, after, job, opts, history, lo, hi))
  }

  /** The run may have started before the chunk path did. */
  lemma ChunkRunEarlier(before: View, after: View, fault: Option<Fault>, job: Job, opts: Options, kept: set<nat>,
                        history: seq<Version>, earlier: nat, lo: nat, hi: nat, end: nat)
    requires ChunkRun(before, after, fault, job, opts, kept, history, lo, hi, end) && earlier <= lo
    ensures ChunkRun(before, after, fault, job, opts, kept, history, earlier, hi, end)
  {
    var cs := PlannedChunkSize(job.size, opts);
    if fault.None? || fault.value.published {
      GrownEarlier(after.files[job.key].data, PartOf(before, job), kept, AllChunks(job.size, cs), history, earlier, lo,
                   hi, cs);
      FromNothingWithin(after.files[job.key].data, opts, cs, kept, history, lo, hi, earlier, hi);
    } else if RowsHold(before, after, job, cs, kept, history, lo, hi) {
      GrownEarlier(PartOf(after, job), PartOf(before, job), kept, after.tables.Completed(job.key), history, earlier, lo,
                   hi, cs);
    }
  }

  /** The chunk path: when strict durability finds the source changed, everything
      is fetched once more. `kept` are the recorded chunks that count as kept:
      those found at the start, or none after such a change. */
  method TransferChunks(site: Site, remote: RemoteFile, job: Job, opts: Options)
    returns (fault: Option<Fault>, ghost kept: set<nat>, ghost hi: nat, ghost rounds: nat)
    requires site.Valid() && remote.Valid()
    modifies site, site.store, remote
    ensures site.Valid() && remote.Valid() && old(remote.now) <= hi <= remote.now
    ensures old(site.State()).SameElsewhere(site.State(), job.key) && site.rdmaDisabled == old(site.rdmaDisabled)
    ensures ChunkRun(old(site.State()), site.State(), fault, job, opts, kept, remote.history, old(remote.now), hi,
                     remote.now)
    ensures if fault.None?
            then site.files[job.key].mtime == job.mtime && NotedFinished(site.fileHash, site.State(), job, opts)
            else FinishedOnlyBefore(old(site.store.tables), site.store.tables, job.key)
    ensures rounds <= 2 && (fault.Some? && fault.value.cause == ChangedDuringTransfer ==> rounds == 2)
    ensures old(Smooth(remote, job, opts)) ==> Smooth(remote, job, opts) && fault.None?
  {
    var cs := PlannedChunkSize(job.size, opts);
    ghost var before, lo := site.State(), remote.now;
    kept, rounds := Recorded(site.store.tables, job, cs), 1;
    var r;
    r, hi := Attempt(site, remote, job, opts, cs);
    if r.Changed? {
      ghost var mid, again := site.State(), remote.now;
      kept, rounds := {}, 2;
      r, hi := Attempt(site, remote, job, opts, cs);
      SecondRound(before, mid, site.State(), job, cs, remote.history, lo, again, hi);
      if r.Done? || (r.Stop? && r.fault.published) {
        FromNothingWithin(site.files[job.key].data, opts, cs, kept, remote.history, again, hi, lo, hi);
      }
    }
    match r
    case Done => fault := None;
    case Stop(f) => fault := Some(f);
    case Changed => fault := Some(Fault(ChangedDuringTransfer, false));
  }
}
