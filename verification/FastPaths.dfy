/** The two fast paths of a transfer (src/sync.rs): RDMA and the clone. */
module FastPaths {
  import opened ChunkFetch
  import opened ChunkTransfer
  import opened History
  import opened Primitives
  import opened Routes
  import opened Source
  import opened State
  import opened Workspace

  // ----- RDMA

  /** The destination is a file of the listed size read between lo and hi. */
  ghost predicate CopiedNow(after: View, job: Job, history: seq<Version>, lo: nat, hi: nat) {
    && job.key in after.files && |after.files[job.key].data| == job.size
    && InOrder(history, lo, hi, 0, after.files[job.key].data)
  }

  predicate RdmaApplies(v: View, disabled: bool, job: Job, opts: Options) {
    && opts.rdmaMode != Off && !opts.dryRun && job.size >= opts.rdmaMinSize && !disabled
    && (DeltaCandidate(v, job, opts) ==> opts.rdmaMode == Require)
  }

  /** Forgets the part file and the progress after an RDMA attempt. */
  method AbandonRdma(site: Site, remote: RemoteFile, job: Job) returns (fault: Option<Fault>)
    requires site.Valid()
    modifies site.store
    ensures site.Valid() && site.files == old(site.files) && old(site.State()).SameElsewhere(site.State(), job.key)
    ensures fault.None? ==>
              site.store.tables == Reset(old(site.store.tables), job.key) && job.key !in site.store.partials
    ensures fault.Some? ==>
              && fault.value == Fault(Io, false) && remote.flaky && PartGone(old(site.State()), site.State(), job)
  {
    site.store.RemovePart(job.key);
    var f := remote.Fails();
    if f {
      return Some(Fault(Io, false));
    }
    site.store.ResetProgress(job.key);
    fault := None;
  }

  /** What an RDMA attempt that published nothing can leave: nothing changed; the
      file planned as one chunk and some part file, or none, in place of the old one;
      or nothing recorded and no part file. */
  ghost predicate RdmaLeft(before: View, after: View, job: Job) {
    || (after.tables == before.tables && after.partials == before.partials)
    || RdmaSpoiled(before, after, job)
    || (after.tables.Completed(job.key) == {} && job.key !in after.partials)
  }

  ghost predicate RdmaSpoiled(before: View, after: View, job: Job) {
    && after.tables == Upserted(before.tables, job.key, job.size, job.mtime, Max(job.size, 1))
    && after.partials - {job.key} == before.partials - {job.key}
  }

  /** Only the part file is gone. */
  ghost predicate PartGone(before: View, after: View, job: Job) {
    after.tables == before.tables && after.partials == before.partials - {job.key}
  }

  /** Tries RDMA. An error of the copy itself keeps the rows of a file planned as
      one chunk, although its part file has been replaced. */
  method TryRdma(site: Site, remote: RemoteFile, job: Job, opts: Options) returns (r: Route, ghost hi: nat)
    requires site.Valid() && remote.Valid()
    modifies site, site.store, remote
    ensures site.Valid() && remote.Valid() && old(remote.now) <= hi <= remote.now
    ensures old(site.State()).SameElsewhere(site.State(), job.key)
    ensures !RdmaApplies(old(site.State()), old(site.rdmaDisabled), job, opts) ==> r == NotTaken
    ensures r.NotTaken? <==>
              || opts.rdmaMode == Off || opts.dryRun || job.size < opts.rdmaMinSize || old(site.rdmaDisabled)
              || (opts.rdmaMode == Auto
                  && (|| !remote.supportsRdma
                      || (opts.deltaEnabled && job.size >= opts.deltaMinSize && job.key in old(site.files))))
    ensures r.NotTaken? ==> site.State() == old(site.State())
    ensures !Replaced(r) ==> site.files == old(site.files)
    ensures r.FellBack? ==>
              && site.store.tables.Matches(job.key, job.size, job.mtime, Max(job.size, 1))
              && site.store.tables.Completed(job.key) == {}
              && job.key !in site.store.partials
    ensures r.Broke? && !r.fault.published ==> RdmaLeft(old(site.State()), site.State(), job)
    ensures r == Broke(Fault(RdmaFailed, false)) ==> RdmaSpoiled(old(site.State()), site.State(), job)
    ensures Replaced(r) ==>
              && CopiedNow(site.State(), job, remote.history, old(remote.now), hi)
              && Checked(job, opts, remote.history, hi)
    ensures r.Taken? ==>
              && site.files[job.key].mtime == job.mtime && r.outcome == Outcome(false, false, true, false, job.size, 0)
              && NotedFinished(site.fileHash, site.State(), job, opts)
    ensures !r.Taken? ==> FinishedOnlyBefore(old(site.store.tables), site.store.tables, job.key)
    ensures RdmaApplies(old(site.State()), old(site.rdmaDisabled), job, opts) ==>
              && (remote.supportsRdma ==> !r.NotTaken?)
              && (!remote.supportsRdma ==>
                    r == if opts.rdmaMode == Require then Broke(Fault(RdmaRequired, false)) else NotTaken)
              && (opts.rdmaMode == Require ==> r.Taken? || r.Broke?)
    ensures site.rdmaDisabled == old(site.rdmaDisabled) || r.FellBack?
    ensures old(Smooth(remote, job, opts)) ==> Smooth(remote, job, opts) && (opts.rdmaMode != Require ==> !r.Broke?)
  {
    hi := remote.now;
    if opts.rdmaMode == Off || opts.dryRun || job.size < opts.rdmaMinSize || site.rdmaDisabled {
      return NotTaken, hi;
    }
    if DeltaCandidate(site.State(), job, opts) && opts.rdmaMode != Require {
      return NotTaken, hi;
    }
    if !remote.supportsRdma {
      return if opts.rdmaMode == Require then Broke(Fault(RdmaRequired, false)) else NotTaken, hi;
    }
    var f := remote.Fails();
    if f {
      return Broke(Fault(Io, false)), hi;
    }
    site.store.UpsertFile(job.key, job.size, job.mtime, Max(job.size, 1));
    var part, copied := remote.RdmaCopy(job.size);
    site.store.PutPart(job.key, part);
    r, hi := SettleRdma(site, remote, job, opts, part, copied, old(remote.now));
  }

  /** What follows the copy, by its outcome. */
  method SettleRdma(site: Site, remote: RemoteFile, job: Job, opts: Options, part: Bytes, copied: RdmaOutcome,
                    ghost lo: nat)
    returns (r: Route, ghost hi: nat)
    requires site.Valid() && remote.Valid() && lo <= remote.now
    requires job.key in site.store.partials && site.store.partials[job.key] == part
    requires site.store.tables.Matches(job.key, job.size, job.mtime, Max(job.size, 1))
    requires copied.Copied? ==> |part| == copied.bytes && InOrder(remote.history, lo, remote.now, 0, part)
    modifies site, site.store, remote
    ensures site.Valid() && remote.Valid() && old(remote.now) <= hi <= remote.now
    ensures old(site.State()).SameElsewhere(site.State(), job.key)
    ensures !r.NotTaken? && (r.FellBack? ==> opts.rdmaMode != Require)
    ensures !Replaced(r) ==> site.files == old(site.files)
    ensures r.FellBack? ==>
              && site.store.tables.Matches(job.key, job.size, job.mtime, Max(job.size, 1))
              && site.store.tables.Completed(job.key) == {}
              && job.key !in site.store.partials
    ensures !Replaced(r) ==>
              || site.State() == old(site.State())
              || PartGone(old(site.State()), site.State(), job)
              || (site.store.tables.Completed(job.key) == {} && job.key !in site.store.partials)
    ensures Replaced(r) ==>
              CopiedNow(site.State(), job, remote.history, lo, hi) && Checked(job, opts, remote.history, hi)
    ensures r.Taken? ==>
              && site.files[job.key].mtime == job.mtime && r.outcome == Outcome(false, false, true, false, job.size, 0)
              && NotedFinished(site.fileHash, site.State(), job, opts)
    ensures !r.Taken? ==> FinishedOnlyBefore(old(site.store.tables), site.store.tables, job.key)
    ensures old(Smooth(remote, job, opts)) && !copied.Failed? && (copied.Copied? ==> copied.bytes == job.size) ==>
              Smooth(remote, job, opts) && (opts.rdmaMode != Require ==> !r.Broke?)
    ensures site.rdmaDisabled == old(site.rdmaDisabled) || r.FellBack?
    ensures copied.Failed? <==> r == Broke(Fault(RdmaFailed, false))
    ensures copied.Unavailable? && r.FellBack? ==> site.rdmaDisabled == (old(site.rdmaDisabled) || copied.cacheForRun)
    ensures copied.Failed? ==> site.State() == old(site.State())
  {
    hi := remote.now;
    match copied
    case Failed =>
      return Broke(Fault(RdmaFailed, false)), hi;
    case Unavailable(cacheForRun) =>
      var fault := AbandonRdma(site, remote, job);
      if fault.Some? {
        return Broke(fault.value), hi;
      }
      if opts.rdmaMode == Require {
        return Broke(Fault(RdmaRequired, false)), hi;
      }
      if cacheForRun {
        site.rdmaDisabled := true;
      }
      return FellBack, hi;
    case Copied(bytes) =>
      if bytes != job.size {
        var fault := AbandonRdma(site, remote, job);
        return Broke(if fault.Some? then fault.value else Fault(RdmaCountMismatch, false)), hi;
      }
      r, hi := FinishRdma(site, remote, job, opts, part, lo);
  }

  /** The RDMA part file is complete: checked, published, recorded. */
  method FinishRdma(site: Site, remote: RemoteFile, job: Job, opts: Options, part: Bytes, ghost lo: nat)
    returns (r: Route, ghost hi: nat)
    requires site.Valid() && remote.Valid() && lo <= remote.now
    requires job.key in site.store.partials && site.store.partials[job.key] == part
    requires site.store.tables.Matches(job.key, job.size, job.mtime, Max(job.size, 1))
    requires |part| == job.size && InOrder(remote.history, lo, remote.now, 0, part)
    modifies site, site.store, remote
    ensures site.Valid() && remote.Valid() && old(remote.now) <= hi <= remote.now
    ensures old(site.State()).SameElsewhere(site.State(), job.key)
    ensures !r.NotTaken? && (r.FellBack? ==> opts.rdmaMode != Require)
    ensures !Replaced(r) ==> site.files == old(site.files)
    ensures r.FellBack? ==>
              && site.store.tables.Matches(job.key, job.size, job.mtime, Max(job.size, 1))
              && site.store.tables.Completed(job.key) == {}
              && job.key !in site.store.partials
    ensures !Replaced(r) ==>
              || site.State() == old(site.State())
              || PartGone(old(site.State()), site.State(), job)
              || (site.store.tables.Completed(job.key) == {} && job.key !in site.store.partials)
    ensures Replaced(r) ==>
              CopiedNow(site.State(), job, remote.history, lo, hi) && Checked(job, opts, remote.history, hi)
    ensures r.Taken? ==>
              && site.files[job.key].mtime == job.mtime && r.outcome == Outcome(false, false, true, false, job.size, 0)
              && NotedFinished(site.fileHash, site.State(), job, opts)
    ensures !r.Taken? ==> FinishedOnlyBefore(old(site.store.tables), site.store.tables, job.key)
    ensures old(Smooth(remote, job, opts)) ==> Smooth(remote, job, opts) && r.Taken?
    ensures site.rdmaDisabled == old(site.rdmaDisabled) && r != Broke(Fault(RdmaFailed, false))
  {
    hi := remote.now;
    if opts.strict {
      var f := remote.Fails();
      if f {
        return Broke(Fault(Io, false)), hi;
      }
      var latest := remote.Stat();
      InOrderWithin(remote.history, lo, hi, lo, remote.now, 0, part);
      hi := remote.now;
      if latest.None? {
        return Broke(Fault(Io, false)), hi;
      }
      if latest.value.size != job.size || latest.value.mtime != job.mtime {
        var fault := AbandonRdma(site, remote, job);
        if fault.Some? {
          return Broke(fault.value), hi;
        }
        return if opts.rdmaMode == Require then Broke(Fault(ChangedDuringTransfer, false)) else FellBack, hi;
      }
    }
    var fault := site.Publish(remote, job);
    if fault.Some? {
      return Broke(fault.value), hi;
    }
    fault := site.RecordFinished(remote, job, opts);
    if fault.Some? {
      return Broke(fault.value), hi;
    }
    r := Taken(Outcome(false, false, true, false, job.size, 0));
  }

  // ----- clone

  /** The clone is not tried: something is known about the file, or the options
      ask for more than a copy. */
  predicate CloneRuledOut(v: View, job: Job, opts: Options) {
    opts.resume || opts.deltaEnabled || opts.dryRun || job.key in v.tables.files || job.key in v.partials
  }

  /** Clones the source when nothing at all is known about the file yet. The size
      and time of what is cloned are not looked at. */
  method TryFastCopy(site: Site, remote: RemoteFile, job: Job, opts: Options) returns (r: Route, ghost v: nat)
    requires site.Valid() && remote.Valid()
    modifies site, site.store, remote
    ensures site.Valid() && remote.Valid() && old(remote.now) <= v <= remote.now
    ensures old(site.State()).SameElsewhere(site.State(), job.key) && site.rdmaDisabled == old(site.rdmaDisabled)
    ensures site.store.tables == old(site.store.tables) && !r.FellBack?
    ensures r.NotTaken? ==> site.State() == old(site.State())
    ensures !Replaced(r) ==> site.files == old(site.files)
    ensures Replaced(r) ==> job.key in site.files && site.files[job.key].data == remote.history[v].data
    ensures r.Taken? ==>
              site.files[job.key].mtime == job.mtime && r.outcome == Outcome(false, false, false, false, 0, 0)
    ensures CloneRuledOut(old(site.State()), job, opts) ==> r == NotTaken
    ensures r.NotTaken? ==>
              || opts.resume || opts.deltaEnabled || opts.dryRun || job.key in old(site.store.partials)
              || job.key in old(site.store.tables.files) || !remote.supportsClone
    ensures Replaced(r) ==> remote.supportsClone
    ensures old(Smooth(remote, job, opts)) ==> Smooth(remote, job, opts) && !r.Broke?
  {
    v := remote.now;
    if opts.resume || opts.deltaEnabled || opts.dryRun {
      return NotTaken, v;
    }
    if job.key in site.store.partials || job.key in site.store.tables.files {
      return NotTaken, v;
    }
    ghost var before := site.State();
    var part, cloned := remote.FastCopy();
    v := remote.now;
    if cloned.CloneFailed? {
      return Broke(Fault(CloneError, false)), v;
    }
    if cloned.Declined? {
      return NotTaken, v;
    }
    site.store.PutPart(job.key, part);
    var f := remote.Fails();
    if opts.strict && f {
      return Broke(Fault(Io, false)), v;
    }
    var fault := site.Publish(remote, job);
    if fault.Some? {
      return Broke(fault.value), v;
    }
    fault := site.RecordFinished(remote, job, opts);
    if fault.Some? {
      return Broke(fault.value), v;
    }
    r := Taken(Outcome(false, false, false, false, 0, 0));
  }
}
