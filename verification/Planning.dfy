/** What a run plans to transfer (src/sync.rs). */
module Planning {
  import opened ChunkTransfer
  import opened DeltaProtocol
  import opened Hex
  import opened Primitives
  import opened State
  import opened Workspace

  /** A modification time as the planner reads it back: times before the epoch
      read as zero. */
  function LocalSeconds(mtime: int): int {
    Max(mtime, 0)
  }

  /** The planner's decision about one listed file. */
  predicate ShouldTransfer(fileHash: Hash, v: View, job: Job, opts: Options) {
    if job.key !in v.files then true
    else
      var local := v.files[job.key];
      if opts.update && LocalSeconds(local.mtime) > job.mtime then false
      else if |local.data| == job.size && LocalSeconds(local.mtime) == job.mtime then false
      else
        match v.tables.FileState(job.key)
        case Some((row, _)) =>
          if opts.resume && row.size == job.size && row.mtime == job.mtime && row.finished then
            opts.verifyExisting && row.digest != Some(FormatDigest(fileHash(local.data)))
          else true
        case None => true
  }

  /** The local file is, for the planner, what was listed. */
  predicate UpToDate(v: View, job: Job, opts: Options) {
    && job.key in v.files
    && var local := v.files[job.key];
       || (opts.update && LocalSeconds(local.mtime) > job.mtime)
       || (|local.data| == job.size && LocalSeconds(local.mtime) == job.mtime)
  }

  /** An interrupted run finished this very file, and the digest it noted does not
      speak against what is there now. */
  predicate FinishedBefore(fileHash: Hash, v: View, job: Job, opts: Options) {
    && opts.resume && job.key in v.files && job.key in v.tables.files
    && var row := v.tables.files[job.key];
       && row.size == job.size && row.mtime == job.mtime && row.finished
       && (opts.verifyExisting ==> row.digest == Some(FormatDigest(fileHash(v.files[job.key].data))))
  }

  /** A file is skipped exactly when it is up to date, or a run before finished it:
      the second whatever its size and time have become since. */
  lemma SkippedIff(fileHash: Hash, v: View, job: Job, opts: Options)
    ensures !ShouldTransfer(fileHash, v, job, opts)
            <==> UpToDate(v, job, opts) || FinishedBefore(fileHash, v, job, opts)
  {
  }

  ghost predicate DistinctKeys(jobs: seq<Job>) {
    forall i, j :: 0 <= i < j < |jobs| ==> jobs[i].key != jobs[j].key
  }

  /** Goes through the listing and queues what is to be transferred. */
  method PlanTransfers(site: Site, entries: seq<Job>, opts: Options) returns (queued: seq<Job>, skipped: nat)
    requires DistinctKeys(entries)
    ensures forall job :: job in queued <==> job in entries && ShouldTransfer(site.fileHash, site.State(), job, opts)
    ensures DistinctKeys(queued) && |queued| + skipped == |entries|
  {
    queued, skipped := [], 0;
    for k := 0 to |entries|
      invariant forall job :: job in queued <==>
                  job in entries[..k] && ShouldTransfer(site.fileHash, site.State(), job, opts)
      invariant DistinctKeys(queued) && |queued| + skipped == k
    {
      assert entries[..k + 1] == entries[..k] + [entries[k]];
      if ShouldTransfer(site.fileHash, site.State(), entries[k], opts) {
        forall i | 0 <= i < |queued|
          ensures queued[i].key != entries[k].key
        {
          assert queued[i] in entries[..k];
        }
        queued := queued + [entries[k]];
      } else {
        skipped := skipped + 1;
      }
    }
    assert entries[..|entries|] == entries;
  }

  // ----- opening the state

  function Keys(jobs: seq<Job>): set<Key> {
    set job | job in jobs :: job.key
  }

  /** What a run plans with: the rows of listed files when it resumes, none
      otherwise. */
  function PlanningTables(t: Tables, entries: seq<Job>, opts: Options): Tables {
    if opts.resume then Pruned(t, Keys(entries)) else EMPTY_TABLES
  }

  /** Opens the state: rows and part files of unlisted files go; without resume
      all rows go, and the part files of listed files stay. */
  method OpenState(site: Site, entries: seq<Job>, opts: Options)
    requires site.Valid()
    modifies site.store
    ensures site.Valid() && site.files == old(site.files)
    ensures site.store.tables == PlanningTables(old(site.store.tables), entries, opts)
    ensures site.store.partials == map key | key in old(site.store.partials) && key in Keys(entries) ::
                                     old(site.store.partials)[key]
  {
    site.store.PruneToKeys(Keys(entries));
    if !opts.resume {
      site.store.ClearAll();
    }
  }

  // ----- after a run that did not succeed

  /** A file that was queued, and that nothing has replaced or finished since, is
      queued again: the row of an interrupted plan does not pass for a finished one. */
  lemma StoppedIsQueuedAgain(fileHash: Hash, before: View, after: View, job: Job, opts: Options)
    requires ShouldTransfer(fileHash, before, job, opts) && after.Local(job.key) == before.Local(job.key)
    requires FinishedOnlyBefore(before.tables, after.tables, job.key)
    ensures ShouldTransfer(fileHash, after, job, opts)
  {
    SkippedIff(fileHash, before, job, opts);
    SkippedIff(fileHash, after, job, opts);
  }

  /** A file whose row was noted finished is skipped by a resumed run. */
  lemma NotedIsSkipped(fileHash: Hash, v: View, job: Job, opts: Options)
    requires NotedFinished(fileHash, v, job, opts) && opts.resume
    ensures !ShouldTransfer(fileHash, v, job, opts)
  {
    SkippedIff(fileHash, v, job, opts);
  }
}
