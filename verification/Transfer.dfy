/** Bringing over one file (src/sync.rs): the RDMA path, the clone path, the delta
    path and the chunk path, each falling back to the next. */
module Transfer {
  import opened Arrivals
  import opened Assembly
  import opened ChunkTransfer
  import opened DeltaProtocol
  import opened DeltaTransfer
  import opened FastPaths
  import opened History
  import opened Primitives
  import opened Resume
  import opened Routes
  import opened Source
  import opened State
  import opened Workspace

  // ----- all paths

  /** Nothing rules out the paths of this run failing over to the next. */
  predicate FallsBack(opts: Options) {
    opts.rdmaMode != Require && (opts.deltaEnabled ==> opts.deltaFallback)
  }

  /** RDMA is attempted, or required and refused. */
  predicate RdmaTried(v: View, disabled: bool, supported: bool, job: Job, opts: Options) {
    RdmaApplies(v, disabled, job, opts) && (supported || opts.rdmaMode == Require)
  }

  /** A resumed transfer of this file goes straight to its chunks. */
  predicate ChunksAlone(v: View, disabled: bool, supported: bool, job: Job, opts: Options) {
    && opts.resume && !RdmaTried(v, disabled, supported, job, opts)
    && (DeltaCandidate(v, job, opts) ==> opts.dryRun)
  }

  /** What one transfer did, for the proofs: where the published bytes come from;
      the state the chunk path started from, if it was reached, how it ended and
      what it kept; and how the delta path failed before, if it did. */
  datatype Trace = Trace(
    how: Origin,
    data: Bytes,
    hi: nat,
    deltaFault: Option<Fault>,
    mid: Option<View>,
    chunkFault: Option<Fault>,
    kept: set<nat>,
    until: nat)

  /** What the paths before the chunk path leave to it: everything as it was, or
      nothing recorded; after a failed delta the rows as they were, over the part
      file which that failure leaves. */
  ghost predicate LeftToChunks(before: View, mid: View, job: Job, opts: Options, deltaFault: Option<Fault>) {
    match deltaFault
    case None => mid == before || mid.tables.Completed(job.key) == {}
    case Some(f) =>
      && DeltaCandidate(before, job, opts) && OnlySession(before.tables, mid.tables, job.key)
      && PartAfterDelta(f.cause, before, mid, job, opts)
  }

  /** The chunk path, when it was reached, and what it started from. */
  ghost predicate ChunksTried(before: View, after: View, r: Result<Outcome, Fault>, job: Job, opts: Options, t: Trace,
                              history: seq<Version>, lo: nat, end: nat)
  {
    && (t.how.ByChunks? ==> t.mid.Some? && r.Err? == t.chunkFault.Some? && (r.Err? ==> r.error == t.chunkFault.value))
    && (t.mid.Some? ==>
          && LeftToChunks(before, t.mid.value, job, opts, t.deltaFault)
          && ChunkRun(t.mid.value, after, t.chunkFault, job, opts, t.kept, history, lo, t.until, end))
  }

  predicate Delivered(r: Result<Outcome, Fault>) {
    r.Ok? || r.error.published
  }

  /** The two fast paths, one after the other. */
  method TryFastPaths(site: Site, remote: RemoteFile, job: Job, opts: Options, ghost hash: Hash)
    returns (r: Route, rdmaFellBack: bool, ghost how: Origin, ghost data: Bytes, ghost hi: nat)
    requires site.Valid() && remote.Valid()
    modifies site, site.store, remote
    ensures site.Valid() && remote.Valid() && old(remote.now) <= hi <= remote.now
    ensures old(site.State()).SameElsewhere(site.State(), job.key)
    ensures !r.FellBack? && (!Replaced(r) ==> site.files == old(site.files))
    ensures r.NotTaken? && RowMatches(old(site.store.tables), job) ==> RowMatches(site.store.tables, job)
    ensures r.NotTaken? ==>
              rdmaFellBack == RdmaTried(old(site.State()), old(site.rdmaDisabled), remote.supportsRdma, job, opts)
    ensures r.NotTaken? ==>
              || site.State() == old(site.State())
              || (!DeltaCandidate(old(site.State()), job, opts) && site.store.tables.Completed(job.key) == {})
    ensures Replaced(r) ==>
              ArrivedAs(how, hash, old(site.State()), site.State(), job, opts, data, remote.history, old(remote.now),
                        hi)
    ensures !how.ByDelta? && !how.ByChunks?
    ensures Replaced(r) && how.ByClone? ==>
              !RdmaTried(old(site.State()), old(site.rdmaDisabled), remote.supportsRdma, job, opts)
    ensures r.Taken? ==> site.files[job.key].mtime == job.mtime && Reports(r.outcome, how, job)
    ensures r.Taken? && how == ByRdma ==> NotedFinished(site.fileHash, site.State(), job, opts)
    ensures !r.Taken? ==> FinishedOnlyBefore(old(site.store.tables), site.store.tables, job.key)
    ensures !RdmaTried(old(site.State()), old(site.rdmaDisabled), remote.supportsRdma, job, opts) ==>
              && site.rdmaDisabled == old(site.rdmaDisabled)
              && (opts.resume ==> r.NotTaken? && site.State() == old(site.State()))
    ensures old(Smooth(remote, job, opts)) ==> Smooth(remote, job, opts) && (opts.rdmaMode != Require ==> !r.Broke?)
  {
    how := ByRdma;
    r, hi := TryRdma(site, remote, job, opts);
    data := if job.key in site.files then site.files[job.key].data else [];
    rdmaFellBack := r.FellBack?;
    if r.Taken? || r.Broke? {
      return;
    }
    how := ByClone;
    r, hi := TryFastCopy(site, remote, job, opts);
    data := remote.history[hi].data;
  }

  /** The delta path, when it applies. */
  method TryDelta(hash: Hash, site: Site, remote: RemoteFile, job: Job, opts: Options)
    returns (r: Route, ghost who: Planner, ghost data: Bytes, ghost hi: nat)
    requires site.Valid() && remote.Valid()
    requires job.key in site.files ==> |site.files[job.key].data| < U64_LIMIT
    modifies site, site.store, remote
    ensures site.Valid() && remote.Valid() && old(remote.now) <= hi <= remote.now
    ensures old(site.State()).SameElsewhere(site.State(), job.key) && site.rdmaDisabled == old(site.rdmaDisabled)
    ensures !r.FellBack? && (!Replaced(r) ==> site.files == old(site.files))
    ensures r.NotTaken? <==> !DeltaCandidate(old(site.State()), job, opts) || opts.dryRun
    ensures r.NotTaken? ==> site.State() == old(site.State())
    ensures r.Broke? ==>
              && OnlySession(old(site.store.tables), site.store.tables, job.key)
              && PartAfterDelta(r.fault.cause, old(site.State()), site.State(), job, opts)
    ensures Replaced(r) ==>
              && who in remote.planners
              && DeltaArrived(who, hash, old(site.State()), site.State(), job, opts, data, remote.history,
                              old(remote.now), hi)
    ensures r.Taken? ==> site.files[job.key].mtime == job.mtime && Reports(r.outcome, ByDelta(who), job)
    ensures r.Taken? && RowMatches(old(site.store.tables), job) ==>
              NotedFinished(site.fileHash, site.State(), job, opts)
    ensures r.Taken? ==>
              Saves(r.outcome.bytesSaved, who, hash, old(site.files)[job.key].data, job, opts, data,
                    site.files[job.key].data)
    ensures old(Smooth(remote, job, opts)) ==> Smooth(remote, job, opts)
  {
    who, data, hi := ForeignPlanner, [], remote.now;
    if !DeltaCandidate(site.State(), job, opts) || opts.dryRun {
      return NotTaken, who, data, hi;
    }
    r, who, data, hi := TransferDelta(hash, site, remote, job, opts);
  }

  /** Nothing was kept, so all of the published file was read now. */
  lemma ChunksArrive(hash: Hash, before: View, mid: View, after: View, fault: Option<Fault>, job: Job, opts: Options,
                     history: seq<Version>, lo: nat, hi: nat, end: nat)
    requires ChunkRun(mid, after, fault, job, opts, {}, history, lo, hi, end) && (fault.None? || fault.value.published)
    ensures ArrivedAs(ByChunks, hash, before, after, job, opts, after.files[job.key].data, history, lo, hi)
  {
  }

  function FaultOf(delta: Route): Option<Fault> {
    if delta.Broke? then Some(delta.fault) else None
  }

  /** The chunk path behind a delta path that was not taken or failed, even after it
      had replaced the destination. `d` is the trace so far. */
  method ChunksAfter(site: Site, remote: RemoteFile, job: Job, opts: Options, rdmaFellBack: bool, delta: Route,
                     ghost d: Trace, ghost before: View, ghost lo: nat)
    returns (r: Result<Outcome, Fault>, ghost t: Trace)
    requires site.Valid() && remote.Valid() && lo <= d.hi <= remote.now && d.how.ByDelta?
    requires delta.NotTaken? || delta.Broke?
    requires before.SameElsewhere(site.State(), job.key) && (!Replaced(delta) ==> site.files == before.files)
    requires LeftToChunks(before, site.State(), job, opts, FaultOf(delta))
    modifies site, site.store, remote
    ensures site.Valid() && remote.Valid() && lo <= t.hi <= remote.now
    ensures before.SameElsewhere(site.State(), job.key) && site.rdmaDisabled == old(site.rdmaDisabled)
    ensures !Delivered(r) ==> site.files == before.files
    ensures r.Ok? ==>
              && job.key in site.files && site.files[job.key].mtime == job.mtime && Reports(r.value, ByChunks, job)
              && r.value.deltaFallback == delta.Broke? && r.value.rdmaFallback == rdmaFellBack
    ensures ChunksTried(before, site.State(), r, job, opts, t, remote.history, lo, remote.now)
    ensures t.mid == Some(old(site.State())) && (t.how == ByChunks || t.how == d.how) && t.deltaFault == FaultOf(delta)
    ensures if r.Ok? then NotedFinished(site.fileHash, site.State(), job, opts)
            else FinishedOnlyBefore(old(site.store.tables), site.store.tables, job.key)
    ensures t.how == d.how ==>
              && Replaced(delta) && r.Err? && t.data == d.data && t.hi == d.hi && site.files == old(site.files)
    ensures Delivered(r) && t.how == ByChunks ==> t.data == site.files[job.key].data && t.hi == t.until
    ensures old(Smooth(remote, job, opts)) ==> Smooth(remote, job, opts) && r.Ok?
  {
    ghost var mid, start := site.State(), remote.now;
    var fault;
    ghost var kept, until, rounds;
    fault, kept, until, rounds := TransferChunks(site, remote, job, opts);
    ChunkRunEarlier(mid, site.State(), fault, job, opts, kept, remote.history, lo, start, until, remote.now);
    if fault.Some? && !fault.value.published && Replaced(delta) {
      t := Trace(d.how, d.data, d.hi, FaultOf(delta), Some(mid), fault, kept, until);
      return Err(Fault(fault.value.cause, true)), t;
    }
    ghost var data := if job.key in site.files then site.files[job.key].data else [];
    t := Trace(ByChunks, data, until, FaultOf(delta), Some(mid), fault, kept, until);
    r := if fault.Some? then Err(fault.value) else Ok(Outcome(false, delta.Broke?, false, rdmaFellBack, 0, 0));
  }

  /** The delta and the chunk path. Any failure of the first can fall back to the
      second. */
  method TransferSlow(hash: Hash, site: Site, remote: RemoteFile, job: Job, opts: Options, rdmaFellBack: bool)
    returns (r: Result<Outcome, Fault>, ghost t: Trace)
    requires site.Valid() && remote.Valid()
    requires job.key in site.files ==> |site.files[job.key].data| < U64_LIMIT
    modifies site, site.store, remote
    ensures site.Valid() && remote.Valid() && old(remote.now) <= t.hi <= remote.now
    ensures old(site.State()).SameElsewhere(site.State(), job.key) && site.rdmaDisabled == old(site.rdmaDisabled)
    ensures !Delivered(r) ==> site.files == old(site.files)
    ensures r.Ok? ==>
              && job.key in site.files && site.files[job.key].mtime == job.mtime && Reports(r.value, t.how, job)
              && r.value.deltaFallback == t.deltaFault.Some?
              && r.value.rdmaFallback == (t.how == ByChunks && rdmaFellBack)
    ensures ChunksTried(old(site.State()), site.State(), r, job, opts, t, remote.history, old(remote.now), remote.now)
    ensures t.how.ByDelta? || t.how.ByChunks?
    ensures r.Ok? && (t.how == ByChunks || RowMatches(old(site.store.tables), job)) ==>
              NotedFinished(site.fileHash, site.State(), job, opts)
    ensures r.Err? ==> FinishedOnlyBefore(old(site.store.tables), site.store.tables, job.key)
    ensures Delivered(r) && (t.how.ByChunks? ==> t.kept == {}) ==>
              ArrivedAs(t.how, hash, old(site.State()), site.State(), job, opts, t.data, remote.history,
                        old(remote.now), t.hi)
    ensures Delivered(r) && t.how.ByDelta? ==> t.how.who in remote.planners
    ensures !DeltaCandidate(old(site.State()), job, opts) || opts.dryRun ==>
              t.mid == Some(old(site.State())) && t.how == ByChunks
    ensures old(Smooth(remote, job, opts)) ==>
              && Smooth(remote, job, opts)
              && (FallsBack(opts) || !DeltaCandidate(old(site.State()), job, opts) || opts.dryRun ==> r.Ok?)
  {
    ghost var before, lo := site.State(), remote.now;
    var delta;
    ghost var who, data, hi;
    delta, who, data, hi := TryDelta(hash, site, remote, job, opts);
    t := Trace(ByDelta(who), data, hi, None, None, None, {}, hi);
    if delta.Taken? {
      return Ok(delta.outcome), t;
    }
    if delta.Broke? && !opts.deltaFallback {
      return Err(delta.fault), t;
    }
    r, t := ChunksAfter(site, remote, job, opts, rdmaFellBack, delta, t, before, lo);
    if Delivered(r) && t.how == ByChunks && t.kept == {} {
      ChunksArrive(hash, before, t.mid.value, site.State(), t.chunkFault, job, opts, remote.history, lo, t.hi,
                   remote.now);
    }
  }

  /** What the slow paths of a transfer did, whose fast paths were not taken. */
  lemma TriedLater(hash: Hash, before: View, mid: View, after: View, r: Result<Outcome, Fault>, job: Job, opts: Options,
                   t: Trace, history: seq<Version>, lo: nat, start: nat, end: nat)
    requires ChunksTried(mid, after, r, job, opts, t, history, start, end) && lo <= start
    requires (t.how.ByDelta? || t.how.ByChunks?)
    requires mid == before
             || (mid.files == before.files && !DeltaCandidate(before, job, opts) && mid.tables.Completed(job.key) == {})
    requires Delivered(r) && (t.how.ByChunks? ==> t.kept == {}) ==>
               ArrivedAs(t.how, hash, mid, after, job, opts, t.data, history, start, t.hi)
    ensures ChunksTried(before, after, r, job, opts, t, history, lo, end)
    ensures Delivered(r) && (t.how.ByChunks? ==> t.kept == {}) ==>
              ArrivedAs(t.how, hash, before, after, job, opts, t.data, history, lo, t.hi)
  {
    if t.mid.Some? {
      ChunkRunEarlier(t.mid.value, after, t.chunkFault, job, opts, t.kept, history, lo, start, t.until, end);
    }
    if Delivered(r) && (t.how.ByChunks? ==> t.kept == {}) {
      ArrivedLater(t.how, hash, before, mid, after, job, opts, t.data, history, lo, start, t.hi);
    }
  }

  /** The run may have ended after the chunk path did. */
  lemma ChunksTriedLonger(before: View, after: View, r: Result<Outcome, Fault>, job: Job, opts: Options, t: Trace,
                          history: seq<Version>, lo: nat, end: nat, later: nat)
    requires ChunksTried(before, after, r, job, opts, t, history, lo, end) && end <= later < |history|
    ensures ChunksTried(before, after, r, job, opts, t, history, lo, later)
  {
  }

  /** Chunks recorded for this very plan of the file. */
  function Inherited(t: Tables, job: Job, opts: Options): set<nat> {
    Recorded(t, job, PlannedChunkSize(job.size, opts))
  }

  /** If nothing was inherited, nothing was kept. */
  lemma NothingKept(before: View, after: View, r: Result<Outcome, Fault>, job: Job, opts: Options, t: Trace,
                    history: seq<Version>, lo: nat, end: nat)
    requires ChunksTried(before, after, r, job, opts, t, history, lo, end) && t.mid.Some?
    requires Inherited(before.tables, job, opts) == {}
    ensures t.kept == {}
  {
  }

  /** The slow paths of a transfer that began in the state `before`. */
  method TransferRest(hash: Hash, site: Site, remote: RemoteFile, job: Job, opts: Options, rdmaFellBack: bool,
                      ghost before: View, ghost lo: nat)
    returns (r: Result<Outcome, Fault>, ghost t: Trace)
    requires site.Valid() && remote.Valid() && lo <= remote.now
    requires job.key in site.files ==> |site.files[job.key].data| < U64_LIMIT
    requires site.files == before.files && before.SameElsewhere(site.State(), job.key)
    requires FinishedOnlyBefore(before.tables, site.store.tables, job.key)
    requires site.State() == before
             || (!DeltaCandidate(before, job, opts) && site.store.tables.Completed(job.key) == {})
    modifies site, site.store, remote
    ensures site.Valid() && remote.Valid() && lo <= t.hi <= remote.now
    ensures before.SameElsewhere(site.State(), job.key) && site.rdmaDisabled == old(site.rdmaDisabled)
    ensures !Delivered(r) ==> site.files == before.files
    ensures r.Ok? ==>
              && job.key in site.files && site.files[job.key].mtime == job.mtime && Reports(r.value, t.how, job)
              && r.value.deltaFallback == t.deltaFault.Some?
              && r.value.rdmaFallback == (t.how == ByChunks && rdmaFellBack)
    ensures ChunksTried(before, site.State(), r, job, opts, t, remote.history, lo, remote.now)
    ensures t.how.ByDelta? || t.how.ByChunks?
    ensures r.Ok? && (t.how == ByChunks || RowMatches(old(site.store.tables), job)) ==>
              NotedFinished(site.fileHash, site.State(), job, opts)
    ensures r.Err? ==> FinishedOnlyBefore(before.tables, site.store.tables, job.key)
    ensures Delivered(r) && (t.how.ByChunks? ==> t.kept == {}) ==>
              ArrivedAs(t.how, hash, before, site.State(), job, opts, t.data, remote.history, lo, t.hi)
    ensures Delivered(r) && t.how.ByDelta? ==> t.how.who in remote.planners
    ensures !DeltaCandidate(before, job, opts) || opts.dryRun ==> t.mid == Some(old(site.State())) && t.how == ByChunks
    ensures old(Smooth(remote, job, opts)) ==>
              && Smooth(remote, job, opts)
              && (FallsBack(opts) || !DeltaCandidate(before, job, opts) || opts.dryRun ==> r.Ok?)
  {
    ghost var mid, start := site.State(), remote.now;
    r, t := TransferSlow(hash, site, remote, job, opts, rdmaFellBack);
    TriedLater(hash, before, mid, site.State(), r, job, opts, t, remote.history, lo, start, remote.now);
  }

  /** One file, from whatever state an earlier run left. */
  method TransferOne(hash: Hash, site: Site, remote: RemoteFile, job: Job, opts: Options)
    returns (r: Result<Outcome, Fault>, ghost t: Trace)
    requires site.Valid() && remote.Valid()
    requires job.key in site.files ==> |site.files[job.key].data| < U64_LIMIT
    modifies site, site.store, remote
    ensures site.Valid() && remote.Valid() && old(remote.now) <= t.hi <= remote.now
    ensures old(site.State()).SameElsewhere(site.State(), job.key)
    ensures !Delivered(r) ==> site.files == old(site.files)
    ensures r.Ok? ==>
              && job.key in site.files && site.files[job.key].mtime == job.mtime && Reports(r.value, t.how, job)
              && r.value.deltaFallback == t.deltaFault.Some?
              && (r.value.rdmaFallback
                  <==> t.how == ByChunks
                       && RdmaTried(old(site.State()), old(site.rdmaDisabled), remote.supportsRdma, job, opts))
    ensures ChunksTried(old(site.State()), site.State(), r, job, opts, t, remote.history, old(remote.now), remote.now)
    ensures r.Ok? && (t.how == ByRdma || t.how == ByChunks || RowMatches(old(site.store.tables), job)) ==>
              NotedFinished(site.fileHash, site.State(), job, opts)
    ensures r.Err? ==> FinishedOnlyBefore(old(site.store.tables), site.store.tables, job.key)
    ensures Delivered(r) && (t.how.ByChunks? ==> t.kept == {}) ==>
              ArrivedAs(t.how, hash, old(site.State()), site.State(), job, opts, t.data, remote.history,
                        old(remote.now), t.hi)
    ensures Delivered(r) && t.how.ByDelta? ==> t.how.who in remote.planners
    ensures Delivered(r) && t.how.ByClone? ==>
              !RdmaTried(old(site.State()), old(site.rdmaDisabled), remote.supportsRdma, job, opts)
    ensures ChunksAlone(old(site.State()), old(site.rdmaDisabled), remote.supportsRdma, job, opts) ==>
              t.mid == Some(old(site.State())) && t.how == ByChunks && site.rdmaDisabled == old(site.rdmaDisabled)
    ensures old(Smooth(remote, job, opts)) ==>
              && Smooth(remote, job, opts)
              && (FallsBack(opts) ==> r.Ok?)
              && (ChunksAlone(old(site.State()), old(site.rdmaDisabled), remote.supportsRdma, job, opts) ==> r.Ok?)
  {
    ghost var before, lo := site.State(), remote.now;
    var fast, rdmaFellBack;
    ghost var how, data, hi;
    fast, rdmaFellBack, how, data, hi := TryFastPaths(site, remote, job, opts, hash);
    t := Trace(how, data, hi, None, None, None, {}, hi);
    if fast.Taken? {
      return Ok(fast.outcome), t;
    }
    if fast.Broke? {
      return Err(fast.fault), t;
    }
    r, t := TransferRest(hash, site, remote, job, opts, rdmaFellBack, before, lo);
  }

  // ----- what the paths guarantee together

  /** Strict durability holds for this transfer, as far as its caller can see: the
      clone is ruled out, and so is a delta whose planner's time cannot tell, by
      another planner or by literals that exceed their limit. */
  ghost predicate StrictHolds(v: View, disabled: bool, remote: RemoteFile, job: Job, opts: Options) {
    && opts.strict && Inherited(v.tables, job, opts) == {}
    && (CloneRuledOut(v, job, opts) || RdmaTried(v, disabled, remote.supportsRdma, job, opts))
    && (DeltaCandidate(v, job, opts) && !opts.dryRun ==>
          forall who <- remote.planners :: TimeTells(who, job) || !PathOpen(ByDelta(who), job, opts))
  }

  /** Then the listed version is what arrives, whatever happens to the source. */
  method TransferStrictly(hash: Hash, site: Site, remote: RemoteFile, job: Job, opts: Options, ghost listed: nat)
    returns (r: Result<Outcome, Fault>)
    requires site.Valid() && remote.Valid()
    requires job.key in site.files ==> |site.files[job.key].data| < U64_LIMIT
    requires StrictHolds(site.State(), site.rdmaDisabled, remote, job, opts)
    requires FreshTimes(remote.history) && listed <= remote.now && IsListed(remote.history, listed, job)
    modifies site, site.store, remote
    ensures Delivered(r) ==>
              && job.key in site.files
              && (|| site.files[job.key].data == remote.history[listed].data
                  || Collided(hash, old(site.State()), job, opts, remote.history[listed].data,
                              site.files[job.key].data))
  {
    ghost var before, lo := site.State(), remote.now;
    ghost var t;
    r, t := TransferOne(hash, site, remote, job, opts);
    if Delivered(r) {
      if t.how.ByChunks? {
        NothingKept(before, site.State(), r, job, opts, t, remote.history, lo, remote.now);
      }
      ClosedBringsNothing(t.how, hash, before, site.State(), job, opts, t.data, remote.history, lo, t.hi);
      ArrivedIsListed(t.how, hash, before, site.State(), job, opts, t.data, remote.history, listed, lo, t.hi);
    }
  }

  /** What a transfer from a still source delivers, from any state: by its chunks
      the source exactly when the chunks it kept were right in the state the chunk
      path started from; otherwise the source or a collision. */
  lemma DeliveredFromStillSource(hash: Hash, before: View, after: View, r: Result<Outcome, Fault>, job: Job,
                                 opts: Options, t: Trace, history: seq<Version>, lo: nat, end: nat)
    requires Delivered(r) && lo <= t.hi <= end && StaysListed(history, lo, end, job)
    requires ChunksTried(before, after, r, job, opts, t, history, lo, end)
    requires (t.how.ByChunks? ==> t.kept == {}) ==>
               ArrivedAs(t.how, hash, before, after, job, opts, t.data, history, lo, t.hi)
    requires t.how != ByDelta(ForeignPlanner)
    ensures job.key in after.files
    ensures if t.how.ByChunks?
            then (after.files[job.key].data == history[lo].data
                  <==> Intact(PartOf(t.mid.value, job), t.kept, history[lo].data, PlannedChunkSize(job.size, opts)))
            else RightOrCollided(t.how, hash, before, job, opts, history[lo].data, after.files[job.key].data)
  {
    if t.how.ByChunks? {
      PublishedIffIntact(t.mid.value, after, job, PlannedChunkSize(job.size, opts), t.kept, history, lo, t.until);
    } else {
      ArrivedIsSource(t.how, hash, before, after, job, opts, t.data, history, lo, t.hi);
    }
  }
}
