/** A whole run over the listed files (src/sync.rs): planning, transferring, and
    removing the state when everything succeeded; and what a run that did not succeed
    leaves to the next. Files are transferred one after the other; each touches only
    its own key. */
module Sync {
  import opened ChunkTransfer
  import opened DeltaProtocol
  import opened Jobs
  import opened Planning
  import opened Primitives
  import opened Resume
  import opened Source
  import opened State
  import opened Transfer
  import opened Workspace

  /** A file brought over is queued by a next run with no rows exactly when its
      listed time is before the epoch and `update` is off. */
  lemma BroughtIsQueuedAgainIff(fileHash: Hash, hash: Hash, before: View, after: View, job: Job, opts: Options,
                                source: Bytes)
    requires Brought(hash, before, after.files, job, opts, source) && job.key !in after.tables.files
    ensures ShouldTransfer(fileHash, after, job, opts) <==> job.mtime < 0 && !opts.update
  {
  }

  /** The result of a successful real run, entry by entry. */
  ghost predicate Settled(hash: Hash, before: View, after: View, sources: Sources, entries: seq<Job>, queued: seq<Job>,
                          opts: Options)
  {
    forall k :: 0 <= k < |entries| && entries[k].key in sources ==>
      if entries[k] in queued then Brought(hash, before, after.files, entries[k], opts, Latest(sources[entries[k].key]))
      else (entries[k].key in after.files && entries[k].key in before.files
            && after.files[entries[k].key] == before.files[entries[k].key])
  }

  /** What a next run queues of what a successful one has settled: the transferred
      files whose time does not survive, being before the epoch, and the skipped ones
      that were not up to date. */
  predicate QueuedAgain(before: View, job: Job, queued: seq<Job>, opts: Options) {
    if job in queued then job.mtime < 0 && !opts.update else !UpToDate(before, job, opts)
  }

  lemma SecondRunQueues(fileHash: Hash, hash: Hash, before: View, after: View, sources: Sources, entries: seq<Job>,
                        queued: seq<Job>, opts: Options, k: nat)
    requires k < |entries| && entries[k].key in sources
    requires Settled(hash, before, after, sources, entries, queued, opts) && after.tables == EMPTY_TABLES
    ensures ShouldTransfer(fileHash, after, entries[k], opts) <==> QueuedAgain(before, entries[k], queued, opts)
  {
    var job := entries[k];
    if job in queued {
      BroughtIsQueuedAgainIff(fileHash, hash, before, after, job, opts, Latest(sources[job.key]));
    }
  }

  /** A successful run leaves a listed file as it is, and not up to date, exactly
      when a run before had finished it and it has changed since. */
  lemma LeftStaleIff(fileHash: Hash, hash: Hash, before: View, after: View, sources: Sources, entries: seq<Job>,
                     queued: seq<Job>, opts: Options, k: nat)
    requires k < |entries| && entries[k].key in sources
    requires Settled(hash, before, after, sources, entries, queued, opts)
    requires forall job :: job in queued <==> job in entries && ShouldTransfer(fileHash, before, job, opts)
    ensures entries[k] !in queued && !UpToDate(after, entries[k], opts)
            <==> FinishedBefore(fileHash, before, entries[k], opts) && !UpToDate(before, entries[k], opts)
  {
    SkippedIff(fileHash, before, entries[k], opts);
  }

  /** That it happens, unless existing files are verified: to whatever the file that
      a run has finished becomes. */
  lemma AnyChangeIsMissed(fileHash: Hash, job: Job, opts: Options, cs: u64, local: LocalFile)
    requires opts.resume && !opts.verifyExisting
    ensures var planned := Upserted(EMPTY_TABLES, job.key, job.size, job.mtime, cs);
            var v := View(Finished(planned, job.key, None), map[], map[job.key := local]);
            !ShouldTransfer(fileHash, v, job, opts)
  {
    var planned := Upserted(EMPTY_TABLES, job.key, job.size, job.mtime, cs);
    SkippedIff(fileHash, View(Finished(planned, job.key, None), map[], map[job.key := local]), job, opts);
  }

  ghost predicate AllStay(sources: Sources, jobs: seq<Job>)
    reads sources.Values
  {
    forall j :: 0 <= j < |jobs| ==> jobs[j].key in sources && Stays(sources[jobs[j].key], jobs[j])
  }

  ghost predicate AllSmooth(sources: Sources, jobs: seq<Job>, opts: Options)
    reads sources.Values
  {
    forall j :: 0 <= j < |jobs| ==> jobs[j].key in sources && Smooth(sources[jobs[j].key], jobs[j], opts)
  }

  lemma QueuedAreReady(sources: Sources, entries: seq<Job>, queued: seq<Job>, v: View, opts: Options)
    requires Ready(sources, entries) && DistinctKeys(entries) && DistinctKeys(queued) && OnDisk(v, entries)
    requires forall job :: job in queued ==> job in entries
    ensures Ready(sources, queued) && OnDisk(v, queued)
    ensures AllStay(sources, entries) ==> AllStay(sources, queued)
    ensures AllSmooth(sources, entries, opts) ==> AllSmooth(sources, queued, opts)
    ensures AllUsable(v, sources, entries, opts) ==> AllUsable(v, sources, queued, opts)
  {
    forall j | 0 <= j < |queued|
      ensures exists k :: 0 <= k < |entries| && entries[k] == queued[j]
    {
      assert queued[j] in entries;
    }
    forall i, j | 0 <= i < j < |queued|
      ensures sources[queued[i].key] != sources[queued[j].key]
    {
      var a :| 0 <= a < |entries| && entries[a] == queued[i];
      var b :| 0 <= b < |entries| && entries[b] == queued[j];
      assert queued[i].key != queued[j].key;
      assert a != b;
    }
  }

  /** Files that are not queued are not touched. */
  lemma UnqueuedStay(before: map<Key, LocalFile>, after: map<Key, LocalFile>, entries: seq<Job>, queued: seq<Job>,
                     k: nat)
    requires DistinctKeys(entries) && k < |entries| && entries[k] !in queued
    requires forall job :: job in queued ==> job in entries
    requires after - Keys(queued) == before - Keys(queued)
    ensures entries[k].key in after <==> entries[k].key in before
    ensures entries[k].key in before ==> after[entries[k].key] == before[entries[k].key]
  {
    var key, keys := entries[k].key, Keys(queued);
    forall job | job in queued
      ensures job.key != key
    {
      var j :| 0 <= j < |entries| && entries[j] == job;
      if j < k { assert entries[j].key != entries[k].key; } else { assert j == k || entries[k].key != entries[j].key; }
    }
    assert key in before <==> key in before - keys;
    assert key in after <==> key in after - keys;
    assert key in before ==> (before - keys)[key] == before[key] && (after - keys)[key] == after[key];
  }

  /** After a run every listed file is settled, and so is what a next one queues. */
  ghost predicate SyncedUp(fileHash: Hash, hash: Hash, planned: View, after: View, sources: Sources, entries: seq<Job>,
                           queued: seq<Job>, opts: Options)
  {
    && Settled(hash, planned, after, sources, entries, queued, opts)
    && (forall k :: 0 <= k < |entries| ==>
          (ShouldTransfer(fileHash, after, entries[k], opts) <==> QueuedAgain(planned, entries[k], queued, opts)))
  }

  lemma RunSettles(fileHash: Hash, hash: Hash, before: View, after: View, sources: Sources, entries: seq<Job>,
                   queued: seq<Job>, opts: Options)
    requires DistinctKeys(entries) && after.tables == EMPTY_TABLES
    requires forall k :: 0 <= k < |entries| ==> entries[k].key in sources
    requires forall job :: job in queued <==> job in entries && ShouldTransfer(fileHash, before, job, opts)
    requires after.files - Keys(queued) == before.files - Keys(queued)
    requires forall j :: 0 <= j < |queued| ==> queued[j].key in sources
    requires forall j :: 0 <= j < |queued| ==>
               Brought(hash, before, after.files, queued[j], opts, Latest(sources[queued[j].key]))
    ensures SyncedUp(fileHash, hash, before, after, sources, entries, queued, opts)
  {
    forall k | 0 <= k < |entries|
      ensures if entries[k] in queued
              then Brought(hash, before, after.files, entries[k], opts, Latest(sources[entries[k].key]))
              else (entries[k].key in after.files && entries[k].key in before.files
                    && after.files[entries[k].key] == before.files[entries[k].key])
    {
      if entries[k] !in queued {
        UnqueuedStay(before.files, after.files, entries, queued, k);
        assert !ShouldTransfer(fileHash, before, entries[k], opts);
      }
    }
    forall k | 0 <= k < |entries|
      ensures ShouldTransfer(fileHash, after, entries[k], opts) <==> QueuedAgain(before, entries[k], queued, opts)
    {
      SecondRunQueues(fileHash, hash, before, after, sources, entries, queued, opts, k);
    }
  }

  // ----- the run

  /** What a run that did not succeed leaves: everything about files that were not
      queued as it was planned with, and of each queued one what its job left. */
  ghost predicate Broken(fileHash: Hash, hash: Hash, planned: View, after: View, sources: Sources, queued: seq<Job>,
                         opts: Options, ends: seq<End>, staying: set<int>)
  {
    && |ends| == |queued| && after.Outside(Keys(queued)) == planned.Outside(Keys(queued))
    && (forall j :: 0 <= j < |queued| ==>
          && queued[j].key in sources
          && Ended(fileHash, hash, planned, after, sources[queued[j].key], queued[j], opts, ends[j], j in staying))
  }

  /** Transfers what was queued, and removes the state when every job succeeded. */
  method TransferQueued(hash: Hash, site: Site, sources: Sources, entries: seq<Job>, queued: seq<Job>, opts: Options)
    returns (ok: bool, ghost ends: seq<End>)
    requires site.Valid() && Ready(sources, entries) && DistinctKeys(entries) && OnDisk(site.State(), entries)
    requires DistinctKeys(queued)
    requires forall job :: job in queued <==> job in entries && ShouldTransfer(site.fileHash, site.State(), job, opts)
    modifies site, site.store, sources.Values
    ensures site.Valid() && |ends| == |queued| && (ok <==> forall j :: 0 <= j < |queued| ==> ends[j].Succeeded?)
    ensures ok ==> site.State() == View(EMPTY_TABLES, map[], site.files)
    ensures !ok ==>
              Broken(site.fileHash, hash, old(site.State()), site.State(), sources, queued, opts, ends,
                     old(StayingJobs(sources, queued)))
    ensures site.files - Keys(queued) == old(site.files) - Keys(queued)
    ensures FallsBack(opts) ==> forall j <- old(SmoothJobs(sources, queued, opts)) :: ends[j].Succeeded?
    ensures old(AllSmooth(sources, entries, opts)) && FallsBack(opts) ==> ok
    ensures ok && old(AllStay(sources, entries)) && AllUsable(old(site.State()), sources, entries, opts) ==>
              SyncedUp(site.fileHash, hash, old(site.State()), site.State(), sources, entries, queued, opts)
  {
    ghost var planned := site.State();
    QueuedAreReady(sources, entries, queued, planned, opts);
    ok, ends := TransferAll(hash, site, sources, queued, opts);
    if ok {
      site.store.tables, site.store.partials := EMPTY_TABLES, map[];
      if old(AllStay(sources, entries)) && AllUsable(planned, sources, entries, opts) {
        RunSettles(site.fileHash, hash, planned, site.State(), sources, entries, queued, opts);
      }
    }
  }

  /** A run over the listed files. Only a run in which every job succeeded, or a
      dry run, removes the state. */
  method RunSync(hash: Hash, site: Site, sources: Sources, entries: seq<Job>, opts: Options)
    returns (ok: bool, queued: seq<Job>, ghost planned: View, ghost ends: seq<End>)
    requires site.Valid() && Ready(sources, entries) && DistinctKeys(entries) && OnDisk(site.State(), entries)
    modifies site, site.store, sources.Values
    ensures site.Valid() && DistinctKeys(queued)
    ensures planned.files == old(site.files) && planned.tables == PlanningTables(old(site.store.tables), entries, opts)
    ensures planned.partials.Keys <= Keys(entries) && forall key :: key in planned.partials ==>
              key in old(site.store.partials) && planned.partials[key] == old(site.store.partials)[key]
    ensures forall job :: job in queued <==> job in entries && ShouldTransfer(site.fileHash, planned, job, opts)
    ensures opts.dryRun ==> ok && site.files == old(site.files)
    ensures !opts.dryRun ==> |ends| == |queued| && (ok <==> forall j :: 0 <= j < |queued| ==> ends[j].Succeeded?)
    ensures old(AllSmooth(sources, entries, opts)) && FallsBack(opts) ==> ok
    ensures ok ==> site.State() == View(EMPTY_TABLES, map[], site.files)
    ensures !ok ==>
              Broken(site.fileHash, hash, planned, site.State(), sources, queued, opts, ends,
                     old(StayingJobs(sources, queued)))
    ensures !ok && FallsBack(opts) ==> forall j <- old(SmoothJobs(sources, queued, opts)) :: ends[j].Succeeded?
    ensures site.files - Keys(queued) == old(site.files) - Keys(queued)
    ensures ok && !opts.dryRun && AllUsable(planned, sources, entries, opts) && old(AllStay(sources, entries)) ==>
              SyncedUp(site.fileHash, hash, planned, site.State(), sources, entries, queued, opts)
  {
    OpenState(site, entries, opts);
    planned := site.State();
    var skipped;
    queued, skipped := PlanTransfers(site, entries, opts);
    ends := [];
    if opts.dryRun {
      site.store.tables, site.store.partials := EMPTY_TABLES, map[];
      ok := true;
    } else {
      ok, ends := TransferQueued(hash, site, sources, entries, queued, opts);
    }
  }

  // ----- two runs

  /** Two runs with the same options over sources that stay the same: after a
      successful first one the second transfers nothing, unless a listed time is
      before the epoch. */
  method SyncTwice(hash: Hash, site: Site, sources: Sources, entries: seq<Job>, opts: Options)
    returns (ok: bool, queuedAgain: seq<Job>)
    requires site.Valid() && Ready(sources, entries) && DistinctKeys(entries) && OnDisk(site.State(), entries)
    requires site.store.tables == EMPTY_TABLES && !opts.dryRun
    modifies site, site.store, sources.Values
    ensures old(AllSmooth(sources, entries, opts)) && FallsBack(opts) ==> ok
    ensures ok && old(AllStay(sources, entries)) ==>
              forall job :: job in queuedAgain ==> job.mtime < 0 && !opts.update
  {
    var queued;
    ghost var planned, ends;
    ok, queued, planned, ends := RunSync(hash, site, sources, entries, opts);
    queuedAgain := [];
    if ok {
      ghost var settled := site.State();
      OpenState(site, entries, opts);
      var skipped;
      queuedAgain, skipped := PlanTransfers(site, entries, opts);
      assert site.State().files == settled.files && site.store.tables == EMPTY_TABLES;
      forall job | job in queuedAgain && old(AllStay(sources, entries))
        ensures job.mtime < 0 && !opts.update
      {
        var k :| 0 <= k < |entries| && entries[k] == job;
        assert ShouldTransfer(site.fileHash, settled, entries[k], opts);
      }
    }
  }

  /** What a resumed run finds of one queued file after a run that did not succeed:
      queued again when its job stopped before the rename, with its recorded chunks and
      truthful rows when it goes straight to its chunks; not when it succeeded and its
      row was noted, or its time survives. */
  ghost predicate Found(hash: Hash, planned: View, found: View, remote: RemoteFile, job: Job, opts: Options, end: End,
                        stays: bool, again: bool)
  {
    match end
    case Succeeded =>
      && (Noting(planned, job, opts) || RowMatches(planned.tables, job) ==> !again)
      && (stays && Usable(planned, remote, job, opts) ==>
            && Brought(hash, planned, found.files, job, opts, Latest(remote))
            && (again ==> job.mtime < 0 && !opts.update))
    case StoppedEarly =>
      && again
      && (stays && TimeKept(remote, job, opts) && ChunksAlone(planned, false, remote.supportsRdma, job, opts)
          && RowsTruthful(planned, job, Latest(remote)) ==>
            && RowsTruthful(found, job, Latest(remote))
            && Inherited(planned.tables, job, opts) <= Inherited(found.tables, job, opts))
    case FailedLate => true
  }

  /** Pruning to a listing that names the file changes nothing about it. */
  lemma PruneKeepsListed(before: View, after: View, entries: seq<Job>, key: Key)
    requires key in Keys(entries) && before.tables.Consistent() && after.files == before.files
    requires after.tables == Pruned(before.tables, Keys(entries))
    requires after.partials == map k | k in before.partials && k in Keys(entries) :: before.partials[k]
    ensures before.SameAt(after, key)
    ensures key in before.partials <==> key in after.partials
  {
    var gone := before.tables.files.Keys - Keys(entries);
    assert key !in gone;
    assert before.tables.Without(gone) == after.tables;
  }

  /** The two runs plan alike from one state: without resume there were no rows. */
  lemma PlansAlike(fileHash: Hash, v: View, job: Job, opts: Options)
    requires !opts.resume ==> v.tables == EMPTY_TABLES
    ensures ShouldTransfer(fileHash, v, job, opts) <==> ShouldTransfer(fileHash, v, job, opts.(resume := true))
  {
  }

  lemma SamePlan(fileHash: Hash, v: View, w: View, job: Job, opts: Options)
    requires v.SameAt(w, job.key)
    ensures ShouldTransfer(fileHash, v, job, opts) <==> ShouldTransfer(fileHash, w, job, opts)
  {
  }

  lemma FoundAgain(fileHash: Hash, hash: Hash, planned: View, left: View, found: View, remote: RemoteFile, job: Job,
                   opts: Options, end: End, stays: bool)
    requires Ended(fileHash, hash, planned, left, remote, job, opts, end, stays)
    requires ShouldTransfer(fileHash, planned, job, opts) && (!opts.resume ==> planned.tables == EMPTY_TABLES)
    requires left.SameAt(found, job.key)
    ensures Found(hash, planned, found, remote, job, opts, end, stays,
                  ShouldTransfer(fileHash, found, job, opts.(resume := true)))
  {
    var again := opts.(resume := true);
    PlansAlike(fileHash, planned, job, opts);
    match end
    case Succeeded =>
      if Noting(planned, job, opts) || RowMatches(planned.tables, job) {
        NotedIsSkipped(fileHash, found, job, again);
      }
    case StoppedEarly =>
      StoppedIsQueuedAgain(fileHash, planned, found, job, again);
    case FailedLate =>
  }

  /** A run, and when it did not succeed a resumed planning over what it left. Files
      that were not queued are not queued now. */
  method ResumeBroken(hash: Hash, site: Site, sources: Sources, entries: seq<Job>, opts: Options)
    returns (ok: bool, queued: seq<Job>, again: seq<Job>, ghost planned: View, ghost ends: seq<End>)
    requires site.Valid() && Ready(sources, entries) && DistinctKeys(entries) && OnDisk(site.State(), entries)
    requires !opts.dryRun
    modifies site, site.store, sources.Values
    ensures forall job :: job in again ==> job in queued
    ensures !ok ==>
              && |ends| == |queued|
              && (forall j :: 0 <= j < |queued| ==>
                    && queued[j].key in sources
                    && Found(hash, planned, site.State(), sources[queued[j].key], queued[j], opts, ends[j],
                             j in old(StayingJobs(sources, queued)), queued[j] in again))
    ensures !ok && FallsBack(opts) ==> forall j <- old(SmoothJobs(sources, queued, opts)) :: ends[j].Succeeded?
  {
    ok, queued, planned, ends := RunSync(hash, site, sources, entries, opts);
    again := [];
    if !ok {
      ghost var left, staying := site.State(), old(StayingJobs(sources, queued));
      var resumed := opts.(resume := true);
      OpenState(site, entries, resumed);
      var skipped;
      again, skipped := PlanTransfers(site, entries, resumed);
      ghost var found := site.State();
      forall j | 0 <= j < |queued|
        ensures Found(hash, planned, found, sources[queued[j].key], queued[j], opts, ends[j], j in staying,
                      queued[j] in again)
      {
        assert queued[j] in entries;
        PruneKeepsListed(left, found, entries, queued[j].key);
        FoundAgain(site.fileHash, hash, planned, left, found, sources[queued[j].key], queued[j], opts, ends[j],
                   j in staying);
      }
      forall job | job in again
        ensures job in queued
      {
        UnqueuedIsSkipped(site.fileHash, planned, left, found, entries, queued, job, opts);
      }
    }
  }

  lemma UnqueuedIsSkipped(fileHash: Hash, planned: View, left: View, found: View, entries: seq<Job>, queued: seq<Job>,
                          job: Job, opts: Options)
    requires DistinctKeys(entries) && job in entries && left.tables.Consistent()
    requires forall q :: q in queued <==> q in entries && ShouldTransfer(fileHash, planned, q, opts)
    requires left.Outside(Keys(queued)) == planned.Outside(Keys(queued)) && found.files == left.files
    requires found.tables == Pruned(left.tables, Keys(entries))
    requires found.partials == map k | k in left.partials && k in Keys(entries) :: left.partials[k]
    requires !opts.resume ==> planned.tables == EMPTY_TABLES
    requires ShouldTransfer(fileHash, found, job, opts.(resume := true))
    ensures job in queued
  {
    if job !in queued {
      OtherKeys(entries, queued, job);
      SameOutside(left, planned, Keys(queued), job.key);
      PruneKeepsListed(left, found, entries, job.key);
      SamePlan(fileHash, planned, left, job, opts.(resume := true));
      SamePlan(fileHash, left, found, job, opts.(resume := true));
      PlansAlike(fileHash, planned, job, opts);
    }
  }

  lemma OtherKeys(entries: seq<Job>, queued: seq<Job>, job: Job)
    requires DistinctKeys(entries) && job in entries && job !in queued && forall q :: q in queued ==> q in entries
    ensures job.key !in Keys(queued) && job.key in Keys(entries)
  {
    var i :| 0 <= i < |entries| && entries[i] == job;
    forall q | q in queued
      ensures q.key != job.key
    {
      var j :| 0 <= j < |entries| && entries[j] == q;
      assert i != j;
      if i < j { assert entries[i].key != entries[j].key; } else { assert entries[j].key != entries[i].key; }
    }
  }
}
