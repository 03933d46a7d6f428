/** The transfers of a run, one file after the other (src/sync.rs): each touches its
    own key only, and one that fails does not stop the others. */
module Jobs {
  import opened Arrivals
  import opened ChunkTransfer
  import opened DeltaProtocol
  import opened FastPaths
  import opened Planning
  import opened Primitives
  import opened Resume
  import opened ResumedRuns
  import opened Routes
  import opened Source
  import opened State
  import opened Transfer
  import opened Workspace

  type Sources = map<Key, RemoteFile>

  ghost predicate Ready(sources: Sources, jobs: seq<Job>)
    reads sources.Values
  {
    && (forall j :: 0 <= j < |jobs| ==> jobs[j].key in sources && sources[jobs[j].key].Valid())
    && (forall i, j :: 0 <= i < j < |jobs| && jobs[i].key in sources && jobs[j].key in sources ==>
          sources[jobs[i].key] != sources[jobs[j].key])
  }

  /** From here on the source of a job stays the listed file, and no foreign
      program plans deltas of it. */
  ghost predicate Stays(remote: RemoteFile, job: Job)
    reads remote
  {
    && remote.now < |remote.history| && StaysListed(remote.history, remote.now, |remote.history| - 1, job)
    && ForeignPlanner !in remote.planners
  }

  /** What a source that stays the same holds. */
  ghost function Latest(remote: RemoteFile): Bytes {
    if remote.history == [] then [] else remote.history[|remote.history| - 1].data
  }

  ghost predicate AllStay(sources: Sources, jobs: seq<Job>, from: nat)
    reads sources.Values
  {
    forall j :: from <= j < |jobs| ==> jobs[j].key in sources && Stays(sources[jobs[j].key], jobs[j])
  }

  ghost predicate AllSmooth(sources: Sources, jobs: seq<Job>, opts: Options, from: nat)
    reads sources.Values
  {
    forall j :: from <= j < |jobs| ==> jobs[j].key in sources && Smooth(sources[jobs[j].key], jobs[j], opts)
  }

  /** The job's file was brought over: its size and time are the listed ones, its
      content is the source's or shares its digest. */
  ghost predicate Brought(hash: Hash, before: View, files: map<Key, LocalFile>, job: Job, opts: Options, source: Bytes)
  {
    && job.key in files && files[job.key].mtime == job.mtime && |files[job.key].data| == job.size
    && (files[job.key].data == source || Collided(hash, before, job, opts, source, files[job.key].data))
  }

  /** No chunk is recorded for this plan of the file; or the file goes straight to
      its chunks, and those recorded are right in the part file. */
  ghost predicate Usable(v: View, remote: RemoteFile, job: Job, opts: Options) {
    || Inherited(v.tables, job, opts) == {}
    || (ChunksAlone(v, false, remote.supportsRdma, job, opts) && RowsTruthful(v, job, Latest(remote)))
  }

  ghost predicate AllUsable(v: View, sources: Sources, jobs: seq<Job>, opts: Options) {
    forall j :: 0 <= j < |jobs| ==> jobs[j].key in sources && Usable(v, sources[jobs[j].key], jobs[j], opts)
  }

  ghost predicate OnDisk(v: View, jobs: seq<Job>) {
    forall j :: 0 <= j < |jobs| && jobs[j].key in v.files ==> |v.files[jobs[j].key].data| < U64_LIMIT
  }

  // ----- one key does not matter to another

  lemma SameOutside(v: View, w: View, keys: set<Key>, key: Key)
    requires v.Outside(keys) == w.Outside(keys) && key !in keys
    ensures v.SameAt(w, key)
  {
    SameLookup(v.files, w.files, keys, key);
    SameLookup(v.partials, w.partials, keys, key);
    SameLookup(v.tables.files, w.tables.files, keys, key);
    SameLookup(v.tables.chunks, w.tables.chunks, keys, key);
  }

  lemma SameLookup<T>(a: map<Key, T>, b: map<Key, T>, keys: set<Key>, key: Key)
    requires a - keys == b - keys && key !in keys
    ensures key in a <==> key in b
    ensures key in a ==> a[key] == b[key]
  {
    assert key in a <==> key in a - keys;
    assert key in b <==> key in b - keys;
    assert key in a ==> (a - keys)[key] == a[key] && (b - keys)[key] == b[key];
  }

  lemma OutsideMore(a: View, b: View, c: View, keys: set<Key>, key: Key)
    requires b.Outside(keys) == a.Outside(keys) && b.SameElsewhere(c, key)
    ensures c.Outside(keys + {key}) == a.Outside(keys + {key})
  {
    WithoutMore(a.files, b.files, c.files, keys, key);
    WithoutMore(a.partials, b.partials, c.partials, keys, key);
    WithoutMore(a.tables.files, b.tables.files, c.tables.files, keys, key);
    WithoutMore(a.tables.chunks, b.tables.chunks, c.tables.chunks, keys, key);
    WithoutMore(a.tables.sessions, b.tables.sessions, c.tables.sessions, keys, key);
  }

  lemma WithoutMore<T>(a: map<Key, T>, b: map<Key, T>, c: map<Key, T>, keys: set<Key>, key: Key)
    requires b - keys == a - keys && c - {key} == b - {key}
    ensures c - (keys + {key}) == a - (keys + {key})
  {
    assert c - (keys + {key}) == (c - {key}) - keys;
    assert b - (keys + {key}) == (b - {key}) - keys == (b - keys) - {key};
    assert a - (keys + {key}) == (a - keys) - {key};
  }

  // ----- one job

  /** A job whose rows are usable, from a source that stays. */
  lemma UsableIsBrought(hash: Hash, before: View, after: View, disabled: bool, remote: RemoteFile,
                        r: Result<Outcome, Fault>, job: Job, opts: Options, t: Trace, lo: nat)
    requires r.Ok? && Usable(before, remote, job, opts) && lo <= t.hi < |remote.history|
    requires StaysListed(remote.history, lo, |remote.history| - 1, job) && t.how != ByDelta(ForeignPlanner)
    requires ChunksTried(before, after, r, job, opts, t, remote.history, lo, |remote.history| - 1)
    requires (t.how.ByChunks? ==> t.kept == {}) ==>
               ArrivedAs(t.how, hash, before, after, job, opts, t.data, remote.history, lo, t.hi)
    requires ChunksAlone(before, disabled, remote.supportsRdma, job, opts) ==>
               t.mid == Some(before) && t.how == ByChunks
    ensures job.key in after.files && |after.files[job.key].data| == job.size
    ensures after.files[job.key].data == Latest(remote)
            || Collided(hash, before, job, opts, Latest(remote), after.files[job.key].data)
  {
    var history, end := remote.history, |remote.history| - 1;
    if Inherited(before.tables, job, opts) == {} {
      if t.how.ByChunks? {
        NothingKept(before, after, r, job, opts, t, history, lo, end);
      }
      ArrivedIsSource(t.how, hash, before, after, job, opts, t.data, history, lo, t.hi);
    } else {
      TruthfulRowsPublishSource(before, after, job, PlannedChunkSize(job.size, opts), t.kept, history, lo, t.until);
    }
  }

  /** How a job ended: well, before the rename, or with an error after it. */
  datatype End = Succeeded | StoppedEarly | FailedLate

  /** Neither the clone nor a delta, which leave no row of their own. */
  predicate Noting(v: View, job: Job, opts: Options) {
    CloneRuledOut(v, job, opts) && (DeltaCandidate(v, job, opts) ==> opts.dryRun)
  }

  /** Strict durability will find the listed time on a source that stays the same. */
  ghost predicate TimeKept(remote: RemoteFile, job: Job, opts: Options) {
    opts.strict ==> remote.history != [] && remote.history[|remote.history| - 1].mtime == job.mtime
  }

  /** What one job leaves. A success: the listed time, a finished row unless there was none and the path notes
      none, and the source when the rows were usable and it stayed the same. Otherwise
      nothing passes for finished that did not before; and stopped before the rename
      the old file, and of a file that goes straight to its chunks all progress. */
  ghost predicate Ended(fileHash: Hash, hash: Hash, before: View, after: View, remote: RemoteFile, job: Job,
                        opts: Options, end: End, stays: bool)
  {
    match end
    case Succeeded =>
      && job.key in after.files && after.files[job.key].mtime == job.mtime
      && (Noting(before, job, opts) || RowMatches(before.tables, job) ==> NotedFinished(fileHash, after, job, opts))
      && (stays && Usable(before, remote, job, opts) ==>
            Brought(hash, before, after.files, job, opts, Latest(remote)))
    case StoppedEarly =>
      && FinishedOnlyBefore(before.tables, after.tables, job.key) && after.Local(job.key) == before.Local(job.key)
      && (stays && TimeKept(remote, job, opts) && ChunksAlone(before, false, remote.supportsRdma, job, opts)
          && RowsTruthful(before, job, Latest(remote)) ==>
            && RowsTruthful(after, job, Latest(remote))
            && Inherited(before.tables, job, opts) <= Inherited(after.tables, job, opts))
    case FailedLate =>
      FinishedOnlyBefore(before.tables, after.tables, job.key) && job.key in after.files
  }

  /** What a job leaves is about its own key. */
  lemma EndedSame(fileHash: Hash, hash: Hash, before: View, after: View, before': View, after': View,
                  remote: RemoteFile, job: Job, opts: Options, end: End, stays: bool)
    requires Ended(fileHash, hash, before, after, remote, job, opts, end, stays)
    requires before.SameAt(before', job.key) && after.SameAt(after', job.key)
    requires job.key in before.partials <==> job.key in before'.partials
    ensures Ended(fileHash, hash, before', after', remote, job, opts, end, stays)
  {
  }

  /** One job. Its rows may come from an earlier run. */
  method TransferJob(hash: Hash, site: Site, remote: RemoteFile, job: Job, opts: Options)
    returns (ok: bool, ghost end: End)
    requires site.Valid() && remote.Valid()
    requires job.key in site.files ==> |site.files[job.key].data| < U64_LIMIT
    modifies site, site.store, remote
    ensures site.Valid() && remote.Valid() && ok == end.Succeeded?
    ensures old(site.State()).SameElsewhere(site.State(), job.key)
    ensures Ended(site.fileHash, hash, old(site.State()), site.State(), remote, job, opts, end, old(Stays(remote, job)))
    ensures old(Smooth(remote, job, opts)) && FallsBack(opts) ==> ok
  {
    ghost var before, lo := site.State(), remote.now;
    var r;
    ghost var t;
    r, t := TransferOne(hash, site, remote, job, opts);
    ok := r.Ok?;
    end := if r.Ok? then Succeeded else if r.error.published then FailedLate else StoppedEarly;
    if old(Stays(remote, job)) {
      StayingJobEnds(hash, before, site.State(), old(site.rdmaDisabled), remote, r, job, opts, t, lo, remote.now);
    }
  }

  /** What the transfer of a file that stays the same comes to. */
  lemma StayingJobEnds(hash: Hash, before: View, after: View, disabled: bool, remote: RemoteFile,
                       r: Result<Outcome, Fault>, job: Job, opts: Options, t: Trace, lo: nat, now: nat)
    requires lo <= t.hi <= now < |remote.history| && StaysListed(remote.history, lo, |remote.history| - 1, job)
    requires ChunksTried(before, after, r, job, opts, t, remote.history, lo, now)
    requires Delivered(r) && (t.how.ByChunks? ==> t.kept == {}) ==>
               ArrivedAs(t.how, hash, before, after, job, opts, t.data, remote.history, lo, t.hi)
    requires Delivered(r) ==> t.how != ByDelta(ForeignPlanner)
    requires ChunksAlone(before, disabled, remote.supportsRdma, job, opts) ==>
               t.mid == Some(before) && t.how == ByChunks
    ensures r.Ok? && Usable(before, remote, job, opts) ==>
              && job.key in after.files && |after.files[job.key].data| == job.size
              && (|| after.files[job.key].data == Latest(remote)
                  || Collided(hash, before, job, opts, Latest(remote), after.files[job.key].data))
    ensures !Delivered(r) && TimeKept(remote, job, opts) && RowsTruthful(before, job, Latest(remote))
            && ChunksAlone(before, disabled, remote.supportsRdma, job, opts) ==>
              && RowsTruthful(after, job, Latest(remote))
              && Inherited(before.tables, job, opts) <= Inherited(after.tables, job, opts)
  {
    ChunksTriedLonger(before, after, r, job, opts, t, remote.history, lo, now, |remote.history| - 1);
    if r.Ok? && Usable(before, remote, job, opts) {
      UsableIsBrought(hash, before, after, disabled, remote, r, job, opts, t, lo);
    }
    if !Delivered(r) && t.mid == Some(before) && t.how == ByChunks && RowsTruthful(before, job, Latest(remote)) {
      TruthfulRun(before, after, t.chunkFault, job, opts, t.kept, remote.history, lo, t.until, |remote.history| - 1);
    }
  }

  // ----- all of them

  /** The state in the middle of the transfers: the first jobs are over, everything
      else is as it was. */
  ghost predicate Midway(fileHash: Hash, hash: Hash, before: View, now: View, sources: Sources, jobs: seq<Job>,
                         opts: Options, ends: seq<End>, staying: set<int>)
    requires |ends| <= |jobs| && forall j :: 0 <= j < |jobs| ==> jobs[j].key in sources
  {
    && now.Outside(Keys(jobs[..|ends|])) == before.Outside(Keys(jobs[..|ends|]))
    && (forall j :: 0 <= j < |ends| ==>
          Ended(fileHash, hash, before, now, sources[jobs[j].key], jobs[j], opts, ends[j], j in staying))
  }

  lemma KeyIsNew(jobs: seq<Job>, i: nat, j: nat)
    requires DistinctKeys(jobs) && i <= j < |jobs|
    ensures jobs[j].key !in Keys(jobs[..i])
  {
    forall k | 0 <= k < i
      ensures jobs[..i][k].key != jobs[j].key
    {
      assert jobs[k].key != jobs[j].key;
    }
  }

  lemma NextJob(fileHash: Hash, hash: Hash, before: View, mid: View, now: View, sources: Sources, jobs: seq<Job>,
                opts: Options, ends: seq<End>, staying: set<int>, end: End)
    requires DistinctKeys(jobs) && |ends| < |jobs| && forall j :: 0 <= j < |jobs| ==> jobs[j].key in sources
    requires Midway(fileHash, hash, before, mid, sources, jobs, opts, ends, staying)
    requires var job := jobs[|ends|];
             && mid.SameElsewhere(now, job.key)
             && Ended(fileHash, hash, mid, now, sources[job.key], job, opts, end, |ends| in staying)
    ensures Midway(fileHash, hash, before, now, sources, jobs, opts, ends + [end], staying)
  {
    var i, key := |ends|, jobs[|ends|].key;
    assert jobs[..i + 1] == jobs[..i] + [jobs[i]];
    assert Keys(jobs[..i + 1]) == Keys(jobs[..i]) + {key};
    OutsideMore(before, mid, now, Keys(jobs[..i]), key);
    forall j | 0 <= j <= i
      ensures Ended(fileHash, hash, before, now, sources[jobs[j].key], jobs[j], opts, (ends + [end])[j], j in staying)
    {
      if j < i {
        assert jobs[j].key != key;
        SameOutside(mid, now, {key}, jobs[j].key);
        EndedSame(fileHash, hash, before, mid, before, now, sources[jobs[j].key], jobs[j], opts, ends[j], j in staying);
      } else {
        KeyIsNew(jobs, i, i);
        SameOutside(mid, before, Keys(jobs[..i]), key);
        SameLookup(mid.partials, before.partials, Keys(jobs[..i]), key);
        EndedSame(fileHash, hash, mid, now, before, now, sources[key], jobs[i], opts, end, i in staying);
      }
    }
  }

  /** The sources that stay the same, and those that are smooth. */
  ghost function StayingJobs(sources: Sources, jobs: seq<Job>): set<int>
    reads sources.Values
  {
    set j | 0 <= j < |jobs| && jobs[j].key in sources && Stays(sources[jobs[j].key], jobs[j])
  }

  ghost function SmoothJobs(sources: Sources, jobs: seq<Job>, opts: Options): set<int>
    reads sources.Values
  {
    set j | 0 <= j < |jobs| && jobs[j].key in sources && Smooth(sources[jobs[j].key], jobs[j], opts)
  }

  /** Transfers job number i. */
  method TransferNext(hash: Hash, site: Site, sources: Sources, jobs: seq<Job>, opts: Options, i: nat,
                      ghost before: View, ghost ends: seq<End>, ghost staying: set<int>)
    returns (good: bool, ghost end: End)
    requires site.Valid() && Ready(sources, jobs) && DistinctKeys(jobs) && i == |ends| < |jobs| && OnDisk(before, jobs)
    requires Midway(site.fileHash, hash, before, site.State(), sources, jobs, opts, ends, staying)
    requires i in staying <==> Stays(sources[jobs[i].key], jobs[i])
    modifies site, site.store, sources.Values
    ensures site.Valid() && Ready(sources, jobs) && good == end.Succeeded?
    ensures Midway(site.fileHash, hash, before, site.State(), sources, jobs, opts, ends + [end], staying)
    ensures forall j :: i < j < |jobs| ==>
              Stays(sources[jobs[j].key], jobs[j]) == old(Stays(sources[jobs[j].key], jobs[j]))
    ensures forall j :: i < j < |jobs| && old(Smooth(sources[jobs[j].key], jobs[j], opts)) ==>
              Smooth(sources[jobs[j].key], jobs[j], opts)
    ensures old(Smooth(sources[jobs[i].key], jobs[i], opts)) && FallsBack(opts) ==> good
  {
    ghost var mid, job := site.State(), jobs[i];
    KeyIsNew(jobs, i, i);
    SameOutside(mid, before, Keys(jobs[..i]), jobs[i].key);
    good, end := TransferJob(hash, site, sources[jobs[i].key], jobs[i], opts);
    NextJob(site.fileHash, hash, before, mid, site.State(), sources, jobs, opts, ends, staying, end);
  }

  /** Transfers every job; one that fails does not stop the others. */
  method TransferAll(hash: Hash, site: Site, sources: Sources, jobs: seq<Job>, opts: Options)
    returns (ok: bool, ghost ends: seq<End>)
    requires site.Valid() && Ready(sources, jobs) && DistinctKeys(jobs) && OnDisk(site.State(), jobs)
    modifies site, site.store, sources.Values
    ensures site.Valid() && |ends| == |jobs| && (ok <==> forall j :: 0 <= j < |jobs| ==> ends[j].Succeeded?)
    ensures site.State().Outside(Keys(jobs)) == old(site.State()).Outside(Keys(jobs))
    ensures forall j :: 0 <= j < |jobs| ==>
              Ended(site.fileHash, hash, old(site.State()), site.State(), sources[jobs[j].key], jobs[j], opts, ends[j],
                    j in old(StayingJobs(sources, jobs)))
    ensures FallsBack(opts) ==> forall j <- old(SmoothJobs(sources, jobs, opts)) :: ends[j].Succeeded?
  {
    ghost var before, staying, smooth := site.State(), StayingJobs(sources, jobs), SmoothJobs(sources, jobs, opts);
    ok, ends := true, [];
    assert jobs[..0] == [];
    for i := 0 to |jobs|
      invariant site.Valid() && Ready(sources, jobs) && |ends| == i
      invariant ok <==> forall j :: 0 <= j < i ==> ends[j].Succeeded?
      invariant Midway(site.fileHash, hash, before, site.State(), sources, jobs, opts, ends, staying)
      invariant forall j :: i <= j < |jobs| ==> (j in staying <==> Stays(sources[jobs[j].key], jobs[j]))
      invariant forall j <- smooth :: i <= j ==> Smooth(sources[jobs[j].key], jobs[j], opts)
      invariant FallsBack(opts) ==> forall j <- smooth :: j < i ==> ends[j].Succeeded?
    {
      var good;
      ghost var end;
      good, end := TransferNext(hash, site, sources, jobs, opts, i, before, ends, staying);
      ends := ends + [end];
      ok := ok && good;
    }
    assert jobs[..|jobs|] == jobs;
  }
}
