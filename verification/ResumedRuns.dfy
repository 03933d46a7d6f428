/** One file over several attempts and runs (src/sync.rs): the promise of
    `--resume`, and the chunk rows that outlive the part file they describe. */
module ResumedRuns {
  import opened Assembly
  import opened ChunkFetch
  import opened ChunkPlan
  import opened ChunkTransfer
  import opened DeltaProtocol
  import opened DeltaTransfer
  import opened FastPaths
  import opened Patch
  import opened History
  import opened Primitives
  import opened Resume
  import opened Routes
  import opened Source
  import opened State
  import opened Transfer
  import opened Workspace

  // ----- runs that stop and resume

  /** Pruning to a listing that names the file changes nothing about it. */
  lemma PruneKeepsTruth(before: View, after: View, job: Job, content: Bytes, listed: set<Key>)
    requires job.key in listed
    requires after.tables == Pruned(before.tables, listed) && after.Part(job.key) == before.Part(job.key)
    ensures RowsTruthful(before, job, content) ==> RowsTruthful(after, job, content)
    ensures after.tables.FileState(job.key) == before.tables.FileState(job.key)
    ensures after.tables.Completed(job.key) == before.tables.Completed(job.key) || job.key !in before.tables.files
  {
    var gone := before.tables.files.Keys - listed;
    assert job.key !in gone;
    if job.key in after.tables.files {
      assert after.tables.files[job.key] == before.tables.files[job.key];
      assert job.key in after.tables.chunks <==> job.key in before.tables.chunks;
      assert after.tables.Completed(job.key) == before.tables.Completed(job.key);
    }
  }

  /** The source is the listed file from here on. */
  ghost predicate StaysSource(remote: RemoteFile, job: Job)
    reads remote
  {
    remote.now < |remote.history| && StaysListed(remote.history, remote.now, |remote.history| - 1, job)
  }

  /** Rows that name every chunk, and no part file. */
  ghost predicate RowsAlone(v: View, job: Job, opts: Options) {
    job.key !in v.partials && AllChunks(job.size, PlannedChunkSize(job.size, opts)) <= Inherited(v.tables, job, opts)
  }

  /** Strict durability does not find the source changed. */
  ghost predicate TimeHolds(remote: RemoteFile, job: Job, opts: Options)
    reads remote
  {
    opts.strict && remote.now < |remote.history| ==> remote.history[remote.now].mtime == job.mtime
  }

  /** Rows for these versions of the source and the part file are right. */
  ghost predicate Truthful(site: Site, remote: RemoteFile, job: Job)
    reads site, site.store, remote
    requires remote.now < |remote.history|
  {
    RowsTruthful(site.State(), job, remote.history[remote.now].data)
  }

  /** The destination is the source. */
  ghost predicate HoldsSource(site: Site, remote: RemoteFile, job: Job)
    reads site, remote
    requires remote.now < |remote.history|
  {
    job.key in site.files && site.files[job.key].data == remote.history[remote.now].data
  }

  /** A resumed run opens the state: RDMA may be tried again, and only what is about
      unlisted files goes. */
  method StartRun(site: Site, job: Job, listed: set<Key>, ghost content: Bytes)
    requires site.Valid() && job.key in listed
    modifies site`rdmaDisabled, site.store
    ensures site.Valid() && !site.rdmaDisabled && site.files == old(site.files)
    ensures old(RowsTruthful(site.State(), job, content)) ==> RowsTruthful(site.State(), job, content)
    ensures forall opts: Options ::
              Inherited(old(site.store.tables), job, opts) == Inherited(site.store.tables, job, opts)
  {
    ghost var first := site.State();
    site.rdmaDisabled := false;
    site.store.PruneToKeys(listed);
    PruneKeepsTruth(first, site.State(), job, content, listed);
  }

  /** What the chunk path makes of truthful rows and a still source: when it stops,
      they are still truthful and nothing recorded is lost. */
  lemma TruthfulRun(before: View, after: View, fault: Option<Fault>, job: Job, opts: Options, kept: set<nat>,
                    history: seq<Version>, lo: nat, hi: nat, end: nat)
    requires ChunkRun(before, after, fault, job, opts, kept, history, lo, hi, end)
    requires StaysListed(history, lo, end, job) && RowsTruthful(before, job, history[lo].data)
    ensures if fault.None? || fault.value.published
            then job.key in after.files && after.files[job.key].data == history[lo].data
            else
              || (&& RowsTruthful(after, job, history[lo].data)
                  && (|| Inherited(before.tables, job, opts) <= Inherited(after.tables, job, opts)
                      || (opts.strict && history[lo].mtime != job.mtime)))
              || (opts.strict && history[lo].mtime != job.mtime && RowsAlone(after, job, opts))
  {
    var cs := PlannedChunkSize(job.size, opts);
    if fault.None? || fault.value.published {
      TruthfulRowsPublishSource(before, after, job, cs, kept, history, lo, hi);
    } else if !HalfForgotten(before, after, job, opts, history, lo, hi) {
      StoppedStaysTruthful(before, after, job, cs, kept, history, lo, hi);
    }
  }

  /** The transfer in a run that has just been started. */
  method TransferStarted(hash: Hash, site: Site, remote: RemoteFile, job: Job, opts: Options) returns (replaced: bool)
    requires site.Valid() && remote.Valid() && StaysSource(remote, job) && !site.rdmaDisabled
    requires ChunksAlone(site.State(), false, remote.supportsRdma, job, opts)
    requires job.key in site.files ==> |site.files[job.key].data| < U64_LIMIT
    modifies site, site.store, remote
    ensures site.Valid() && remote.Valid() && StaysSource(remote, job)
    ensures remote.history[remote.now] == remote.history[old(remote.now)]
    ensures !replaced ==> site.files == old(site.files)
    ensures old(Truthful(site, remote, job)) ==>
              if replaced then HoldsSource(site, remote, job)
              else Truthful(site, remote, job) || (!TimeHolds(remote, job, opts) && RowsAlone(site.State(), job, opts))
    ensures old(Truthful(site, remote, job)) && !replaced && TimeHolds(remote, job, opts) ==>
              Inherited(old(site.store.tables), job, opts) <= Inherited(site.store.tables, job, opts)
    ensures old(Smooth(remote, job, opts)) ==> replaced
  {
    ghost var before, lo := site.State(), remote.now;
    var r;
    ghost var t;
    r, t := TransferOne(hash, site, remote, job, opts);
    replaced := Delivered(r);
    if RowsTruthful(before, job, remote.history[lo].data) {
      TruthfulRun(before, site.State(), t.chunkFault, job, opts, t.kept, remote.history, lo, t.until, remote.now);
    }
  }

  /** One resumed run in which this file goes straight to its chunks: RDMA does not
      apply to it, or is not there, and neither does the delta path. From truthful
      rows it brings the source or stops with truthful rows; only when strict
      durability finds another time than the listed one can it stop with rows over
      a missing part file. */
  method ResumeOnce(hash: Hash, site: Site, remote: RemoteFile, job: Job, listed: set<Key>, opts: Options)
    returns (replaced: bool)
    requires site.Valid() && remote.Valid() && StaysSource(remote, job) && job.key in listed
    requires ChunksAlone(site.State(), false, remote.supportsRdma, job, opts)
    requires job.key in site.files ==> |site.files[job.key].data| < U64_LIMIT
    modifies site, site.store, remote
    ensures site.Valid() && remote.Valid() && StaysSource(remote, job)
    ensures remote.history[remote.now] == remote.history[old(remote.now)]
    ensures !replaced ==> site.files == old(site.files)
    ensures old(Truthful(site, remote, job)) ==>
              if replaced then HoldsSource(site, remote, job)
              else Truthful(site, remote, job) || (!TimeHolds(remote, job, opts) && RowsAlone(site.State(), job, opts))
    ensures old(Truthful(site, remote, job)) && !replaced && TimeHolds(remote, job, opts) ==>
              Inherited(old(site.store.tables), job, opts) <= Inherited(site.store.tables, job, opts)
    ensures old(Smooth(remote, job, opts)) ==> replaced
  {
    StartRun(site, job, listed, remote.history[remote.now].data);
    replaced := TransferStarted(hash, site, remote, job, opts);
  }

  /** Any number of runs, each with its own options: as long as they stop before
      the rename the destination stays as it was. If strict ones find the listed
      time, the rows stay truthful, and the run that publishes publishes the source. */
  method ResumeUntilPublished(hash: Hash, site: Site, remote: RemoteFile, job: Job, listed: set<Key>,
                              runs: seq<Options>)
    returns (replaced: bool)
    requires site.Valid() && remote.Valid() && StaysSource(remote, job) && job.key in listed
    requires forall k :: 0 <= k < |runs| ==> ChunksAlone(site.State(), false, remote.supportsRdma, job, runs[k])
    requires job.key in site.files ==> |site.files[job.key].data| < U64_LIMIT
    modifies site, site.store, remote
    ensures site.Valid() && remote.Valid() && remote.history[remote.now] == remote.history[old(remote.now)]
    ensures !replaced ==> site.files == old(site.files)
    ensures old(Truthful(site, remote, job)) && (forall k :: 0 <= k < |runs| ==> TimeHolds(remote, job, runs[k])) ==>
              if replaced then HoldsSource(site, remote, job) else Truthful(site, remote, job)
  {
    replaced := false;
    var k: nat := 0;
    while k < |runs| && !replaced
      invariant k <= |runs| && site.Valid() && remote.Valid() && StaysSource(remote, job)
      invariant remote.history[remote.now] == remote.history[old(remote.now)]
      invariant !replaced ==> site.files == old(site.files)
      invariant old(Truthful(site, remote, job)) ==>
                  (forall i :: 0 <= i < |runs| ==> TimeHolds(remote, job, runs[i])) ==>
                    if replaced then HoldsSource(site, remote, job) else Truthful(site, remote, job)
      decreases |runs| - k
    {
      replaced := ResumeOnce(hash, site, remote, job, listed, runs[k]);
      k := k + 1;
    }
  }

  // ----- a file published twice

  /** The delta path never applies to this file. */
  predicate NeverDelta(job: Job, opts: Options) {
    opts.deltaEnabled && job.size >= opts.deltaMinSize ==> opts.dryRun
  }

  /** A transfer that finds rows but no part file publishes zeros. Only strict
      durability, and only when it finds the source changed, reads the file. */
  method TransferOver(hash: Hash, site: Site, remote: RemoteFile, job: Job, opts: Options) returns (replaced: bool)
    requires site.Valid() && remote.Valid() && RowsAlone(site.State(), job, opts)
    requires ChunksAlone(site.State(), site.rdmaDisabled, remote.supportsRdma, job, opts)
    requires job.key in site.files ==> |site.files[job.key].data| < U64_LIMIT
    modifies site, site.store, remote
    ensures remote.Valid() && old(remote.now) <= remote.now
    ensures replaced ==>
              && job.key in site.files
              && (|| site.files[job.key].data == Zeros(job.size)
                  || (opts.strict && Departs(job, remote.history, old(remote.now), remote.now)))
    ensures old(Smooth(remote, job, opts)) ==> replaced && site.files[job.key].data == Zeros(job.size)
  {
    ghost var before, lo := site.State(), remote.now;
    var r;
    ghost var t;
    r, t := TransferOne(hash, site, remote, job, opts);
    replaced := Delivered(r);
    if replaced && t.kept == Inherited(before.tables, job, opts) {
      RowsOutliveThePartFile(before, site.State(), job, PlannedChunkSize(job.size, opts), t.kept, remote.history, lo,
                             t.until);
    }
  }

  /** A file published through the chunk path and transferred again with the same
      options, say because the destination was lost or its time could not be set,
      becomes zeros: its rows say that nothing is missing, and the part file they
      speak of has become the destination. */
  method TransferAgain(hash: Hash, site: Site, remote: RemoteFile, job: Job, opts: Options)
    returns (twice: bool, ghost since: nat)
    requires site.Valid() && remote.Valid() && NeverDelta(job, opts)
    requires ChunksAlone(site.State(), site.rdmaDisabled, remote.supportsRdma, job, opts)
    requires job.key in site.files ==> |site.files[job.key].data| < U64_LIMIT
    modifies site, site.store, remote
    ensures twice ==>
              && job.key in site.files
              && (|| site.files[job.key].data == Zeros(job.size)
                  || (opts.strict && Departs(job, remote.history, since, remote.now)))
    ensures old(remote.now) <= since <= remote.now
    ensures old(Smooth(remote, job, opts)) ==> twice && site.files[job.key].data == Zeros(job.size)
  {
    var r;
    ghost var t;
    r, t := TransferOne(hash, site, remote, job, opts);
    since := remote.now;
    twice := false;
    if Delivered(r) {
      twice := TransferOver(hash, site, remote, job, opts);
    }
  }

  // ----- rows over a part file that a failed delta or RDMA attempt has spoilt

  /** What a transfer publishes when its delta failed and every chunk was recorded:
      the part file as that failure left it, whatever the source holds. */
  lemma FailedDeltaPublishesPart(before: View, after: View, r: Result<Outcome, Fault>, job: Job, opts: Options,
                                 t: Trace, history: seq<Version>, lo: nat, end: nat)
    requires ChunksTried(before, after, r, job, opts, t, history, lo, end)
    requires Delivered(r) && t.how.ByChunks? && t.deltaFault.Some?
    requires AllChunks(job.size, PlannedChunkSize(job.size, opts)) <= Inherited(before.tables, job, opts)
    requires !(opts.strict && Departs(job, history, lo, end))
    ensures job.key in before.files && job.key in after.files
    ensures var out, basis, bs := after.files[job.key].data, before.files[job.key].data, DeltaBlockSize(job, opts);
            match t.deltaFault.value.cause
            case DigestMismatch => out == Zeros(job.size)
            case BadPlan =>
              exists ops :: Replay(basis, ops, bs).Err? && out == Resized(WrittenBefore(basis, ops, bs), job.size)
            case Io => out == PartOf(t.mid.value, job)
            case _ => out == PartOf(before, job)
  {
    AllRecordedPublishesPart(t.mid.value, after, job, PlannedChunkSize(job.size, opts), t.kept, history, lo, t.until);
  }

  /** The chunk path when nothing goes wrong, from any rows and any part file. */
  method SmoothChunks(site: Site, remote: RemoteFile, job: Job, opts: Options) returns (fault: Option<Fault>)
    requires site.Valid() && Smooth(remote, job, opts)
    modifies site, site.store, remote
    ensures fault.None? && remote.Valid() && job.key in site.files
    ensures remote.history[remote.now] == remote.history[old(remote.now)]
    ensures var kept, cs := Inherited(old(site.store.tables), job, opts), PlannedChunkSize(job.size, opts);
            var left := PartOf(old(site.State()), job);
            && (AllChunks(job.size, cs) <= kept ==> site.files[job.key].data == left)
            && (site.files[job.key].data == remote.history[remote.now].data
                <==> Intact(left, kept, remote.history[remote.now].data, cs))
  {
    ghost var before, lo, cs := site.State(), remote.now, PlannedChunkSize(job.size, opts);
    ghost var kept, hi, rounds;
    fault, kept, hi, rounds := TransferChunks(site, remote, job, opts);
    PublishedIffIntact(before, site.State(), job, cs, kept, remote.history, lo, hi);
    if AllChunks(job.size, cs) <= kept {
      AllRecordedPublishesPart(before, site.State(), job, cs, kept, remote.history, lo, hi);
    }
  }

  /** That it happens: a plan that is refused, followed by the chunk path, over a
      source that stays the same and with nothing else going wrong. The transfer
      succeeds, and brings the source exactly when the recorded chunks are right in
      what the refused plan left. */
  method RefusedPlanThenChunks(hash: Hash, site: Site, remote: RemoteFile, job: Job, opts: Options, basisDigest: string,
                               plan: DeltaPlan)
    returns (fault: Option<Fault>, ghost left: Bytes)
    requires site.Valid() && Smooth(remote, job, opts) && DeltaCandidate(site.State(), job, opts)
    requires var bs := DeltaBlockSize(job, opts);
             && job.key in site.store.tables.sessions
             && site.store.tables.sessions[job.key] == Session(basisDigest, job.size, job.mtime, bs, false, 0)
             && PlanVerdict(hash, site.files[job.key].data, plan, job, opts, bs).Some?
    modifies site, site.store, remote
    ensures var basis, bs := old(site.files)[job.key].data, DeltaBlockSize(job, opts);
            left == match PlanVerdict(hash, basis, plan, job, opts, bs).value
                    case DigestMismatch => Zeros(job.size)
                    case BadPlan => Resized(WrittenBefore(basis, plan.ops, bs), job.size)
                    case _ => PartOf(old(site.State()), job)
    ensures var kept, cs := Inherited(old(site.store.tables), job, opts), PlannedChunkSize(job.size, opts);
            && fault.None? && remote.Valid() && job.key in site.files
            && (AllChunks(job.size, cs) <= kept ==> site.files[job.key].data == left)
            && (site.files[job.key].data == remote.history[remote.now].data
                <==> Intact(left, kept, remote.history[remote.now].data, cs))
  {
    fault := AcceptPlan(hash, site, remote, job, opts, DeltaBlockSize(job, opts), basisDigest, plan);
    left := PartOf(site.State(), job);
    fault := SmoothChunks(site, remote, job, opts);
  }

  /** The chunk path plans the file as RDMA does. */
  predicate OneChunk(job: Job, opts: Options) {
    PlannedChunkSize(job.size, opts) == Max(job.size, 1)
  }

  /** An RDMA attempt that ends in an error of the copy, followed by a run over the
      chunk path with nothing going wrong: a file planned as one chunk that was
      recorded becomes what the attempt left of the part file, any other file the
      source. */
  method FailedRdmaThenChunks(site: Site, remote: RemoteFile, next: RemoteFile, job: Job, opts: Options)
    returns (failed: bool, ghost left: Bytes)
    requires site.Valid() && remote.Valid() && remote != next && Smooth(next, job, opts)
    modifies site, site.store, remote, next
    ensures failed ==>
              && next.Valid() && job.key in site.files && |left| == job.size
              && site.files[job.key].data
                 == if 0 in Recorded(old(site.store.tables), job, Max(job.size, 1)) && OneChunk(job, opts) then left
                    else next.history[next.now].data
  {
    var route;
    ghost var hi;
    route, hi := TryRdma(site, remote, job, opts);
    failed, left := route == Broke(Fault(RdmaFailed, false)), PartOf(site.State(), job);
    if failed {
      ghost var before, lo := site.State(), next.now;
      ghost var kept, rounds;
      var fault;
      fault, kept, hi, rounds := TransferChunks(site, next, job, opts);
      OneChunkKeptOrNone(before, site.State(), job, opts, kept, next.history, lo, hi);
    }
  }

  /** Rows that name the only chunk, or none. */
  lemma OneChunkKeptOrNone(before: View, after: View, job: Job, opts: Options, kept: set<nat>, history: seq<Version>,
                           lo: nat, hi: nat)
    requires var cs := PlannedChunkSize(job.size, opts);
             && Published(before, after, job, cs, kept, history, lo, hi)
             && StaysListed(history, lo, hi, job)
             && before.tables.Matches(job.key, job.size, job.mtime, Max(job.size, 1))
             && kept == Recorded(before.tables, job, cs)
    ensures after.files[job.key].data
            == if 0 in kept && OneChunk(job, opts) then PartOf(before, job) else history[lo].data
  {
    var cs := PlannedChunkSize(job.size, opts);
    if kept != {} {
      assert OneChunk(job, opts);
      WholeIsOneChunk(job.size);
    }
    if 0 in kept {
      AllRecordedPublishesPart(before, after, job, cs, kept, history, lo, hi);
    } else {
      PastTheEnd(PartOf(before, job), history[lo].data, cs);
      assert Intact(PartOf(before, job), kept, history[lo].data, cs);
      PublishedIffIntact(before, after, job, cs, kept, history, lo, hi);
    }
  }

  lemma WholeIsOneChunk(size: u64)
    ensures ChunkCount(size, Max(size, 1)) == 1
    ensures forall k: nat :: k in AllChunks(size, Max(size, 1)) <==> k == 0
  {
  }
}
