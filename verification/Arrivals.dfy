/** Where the bytes of a published file come from, whatever path brought them
    (src/sync.rs), and which paths can tell that the source has changed since it was
    listed. */
module Arrivals {
  import opened ChunkTransfer
  import opened DeltaPipeline
  import opened DeltaProtocol
  import opened DeltaTransfer
  import opened FastPaths
  import opened Groups
  import opened History
  import opened Primitives
  import opened Resume
  import opened Routes
  import opened Source
  import opened State
  import opened Tearing
  import opened Workspace

  // ----- where the published bytes come from

  /** The destination came by path `how`, which was open to it; `data` is what was
      read from the source between lo and hi. */
  ghost predicate ArrivedAs(how: Origin, hash: Hash, before: View, after: View, job: Job, opts: Options, data: Bytes,
                            history: seq<Version>, lo: nat, hi: nat)
  {
    && lo <= hi < |history| && job.key in after.files
    && match how
       case ByDelta(who) => !opts.dryRun && DeltaArrived(who, hash, before, after, job, opts, data, history, lo, hi)
       case ByClone => !CloneRuledOut(before, job, opts) && after.files[job.key].data == data == history[hi].data
       case ByRdma =>
         && RdmaApplies(before, false, job, opts) && after.files[job.key].data == data && |data| == job.size
         && InOrder(history, lo, hi, 0, data) && Checked(job, opts, history, hi)
       case ByChunks =>
         && after.files[job.key].data == data && |data| == job.size && Checked(job, opts, history, hi)
         && Fetched(data, ReadWidth(job.size, opts), history, lo, hi, PlannedChunkSize(job.size, opts))
  }

  /** The outcome of a digest that two different files share. */
  ghost predicate Collided(hash: Hash, before: View, job: Job, opts: Options, source: Bytes, out: Bytes) {
    && job.key in before.files && out != source && |out| == |source| && hash(out) == hash(source)
    && !NoBlockCollision(hash, before.files[job.key].data, source, DeltaBlockSize(job, opts))
  }

  /** The right bytes, or by the delta path a file whose digest cannot tell. */
  ghost predicate RightOrCollided(how: Origin, hash: Hash, before: View, job: Job, opts: Options, source: Bytes,
                                  out: Bytes)
  {
    out == source || (how.ByDelta? && Collided(hash, before, job, opts, source, out))
  }

  /** What a delta made of the content that was read for it. */
  lemma DeltaIsRebuilt(who: Planner, hash: Hash, before: View, after: View, job: Job, opts: Options, data: Bytes,
                       history: seq<Version>, lo: nat, hi: nat)
    requires DeltaArrived(who, hash, before, after, job, opts, data, history, lo, hi) && who != ForeignPlanner
    ensures Rebuilt(hash, before.files[job.key].data, data, DeltaBlockSize(job, opts), after.files[job.key].data)
    ensures |data| == job.size && InOrder(history, lo, hi, 0, data) && LiteralsFit(job, opts)
  {
    var basis, out := before.files[job.key].data, after.files[job.key].data;
    var blocks, plan :| PlanAccepted(who, hash, basis, job, opts, data, blocks, plan, out);
    AcceptedRebuilds(who, hash, basis, job, opts, data, blocks, plan, out);
    AcceptedFits(who, hash, basis, job, opts, data, blocks, plan, out);
    WholeIsInOrder(history, lo, hi, data);
  }

  /** Whatever path it took, unless a foreign program planned it: from a source that
      does not change the destination is the source, or a block and the whole file
      both collide. */
  lemma ArrivedIsSource(how: Origin, hash: Hash, before: View, after: View, job: Job, opts: Options, data: Bytes,
                        history: seq<Version>, lo: nat, hi: nat)
    requires ArrivedAs(how, hash, before, after, job, opts, data, history, lo, hi) && StaysListed(history, lo, hi, job)
    requires how != ByDelta(ForeignPlanner)
    ensures RightOrCollided(how, hash, before, job, opts, history[lo].data, after.files[job.key].data)
  {
    if how.ByDelta? {
      DeltaIsSource(how.who, hash, before, after, job, opts, data, history, lo, hi);
    } else if how == ByRdma {
      WholeOfStill(history, lo, hi, data);
    } else if how == ByChunks {
      FetchedFromStill(data, ReadWidth(job.size, opts), history, lo, hi, PlannedChunkSize(job.size, opts));
    }
  }

  lemma WholeOfStill(history: seq<Version>, lo: nat, hi: nat, data: Bytes)
    requires Still(history, lo, hi) && InOrder(history, lo, hi, 0, data) && |data| == |history[lo].data|
    ensures data == history[lo].data
  {
    StillInOrder(history, lo, hi, 0, data);
  }

  lemma DeltaIsSource(who: Planner, hash: Hash, before: View, after: View, job: Job, opts: Options, data: Bytes,
                      history: seq<Version>, lo: nat, hi: nat)
    requires DeltaArrived(who, hash, before, after, job, opts, data, history, lo, hi) && who != ForeignPlanner
    requires StaysListed(history, lo, hi, job)
    ensures RightOrCollided(ByDelta(who), hash, before, job, opts, history[lo].data, after.files[job.key].data)
  {
    DeltaIsRebuilt(who, hash, before, after, job, opts, data, history, lo, hi);
    WholeOfStill(history, lo, hi, data);
  }

  /** The run may have started before the path was taken, from the same files. */
  lemma ArrivedLater(how: Origin, hash: Hash, before: View, mid: View, after: View, job: Job, opts: Options,
                     data: Bytes, history: seq<Version>, lo: nat, start: nat, hi: nat)
    requires ArrivedAs(how, hash, mid, after, job, opts, data, history, start, hi)
    requires lo <= start && mid.files == before.files && (how.ByDelta? || how.ByChunks?)
    ensures ArrivedAs(how, hash, before, after, job, opts, data, history, lo, hi)
  {
    match how
    case ByDelta(who) =>
      if who != ForeignPlanner {
        WholeWithin(history, start, hi, lo, hi, data);
      }
    case _ =>
      FromNothingWithin(data, opts, PlannedChunkSize(job.size, opts), {}, history, start, hi, lo, hi);
  }

  // ----- which paths can tell that the source has changed since the listing

  /** Version `listed` is the one the job was made from. */
  ghost predicate IsListed(history: seq<Version>, listed: nat, job: Job) {
    listed < |history| && history[listed].mtime == job.mtime && |history[listed].data| == job.size
  }

  /** The time a planner reports shows whether the source is still the listed one:
      not when it is the time it was asked with, and the helper's zero also stands
      for every time before the epoch. */
  predicate TimeTells(who: Planner, job: Job) {
    who.LocalPlanner? || (who.HelperPlanner? && job.mtime != 0)
  }

  predicate PathTells(how: Origin, job: Job, opts: Options) {
    match how
    case ByDelta(who) => TimeTells(who, job)
    case ByClone => false
    case _ => opts.strict
  }

  /** Under these options the path can be taken at all, for some destination. */
  predicate PathOpen(how: Origin, job: Job, opts: Options) {
    match how
    case ByDelta(who) =>
      && opts.deltaEnabled && job.size >= opts.deltaMinSize && !opts.dryRun
      && (who != ForeignPlanner ==> LiteralsFit(job, opts))
    case ByClone => !opts.resume && !opts.deltaEnabled && !opts.dryRun
    case ByRdma => opts.rdmaMode != Off && !opts.dryRun && job.size >= opts.rdmaMinSize
    case ByChunks => true
  }

  /** With fresh times, a path that can tell brings the listed version, even while
      the source is being written. */
  lemma ArrivedIsListed(how: Origin, hash: Hash, before: View, after: View, job: Job, opts: Options, data: Bytes,
                        history: seq<Version>, listed: nat, lo: nat, hi: nat)
    requires ArrivedAs(how, hash, before, after, job, opts, data, history, lo, hi) && PathTells(how, job, opts)
    requires FreshTimes(history) && listed <= lo && IsListed(history, listed, job)
    ensures RightOrCollided(how, hash, before, job, opts, history[listed].data, after.files[job.key].data)
  {
    SameTimeMeansStill(history, listed, hi);
    ArrivedIsSource(how, hash, before, after, job, opts, data, history, lo, hi);
  }

  /** Every arrival by a path, over every destination and from every source with
      fresh times, is the listed version. */
  ghost predicate AlwaysListed(how: Origin, job: Job, opts: Options) {
    forall hash: Hash, before: View, after: View, data: Bytes, history: seq<Version>, listed: nat, lo: nat, hi: nat ::
      ArrivedAs(how, hash, before, after, job, opts, data, history, lo, hi)
      && FreshTimes(history) && listed <= lo && IsListed(history, listed, job)
      ==> RightOrCollided(how, hash, before, job, opts, history[listed].data, after.files[job.key].data)
  }

  /** Only the clone and a foreign plan can make anything else of an empty file. */
  predicate SureOfEmpty(how: Origin, job: Job) {
    job.size == 0 && how != ByClone && how != ByDelta(ForeignPlanner)
  }

  /** An open path that cannot tell can bring a later version under the listed time:
      over RDMA, by the chunks or the clone to an empty tree, by a delta to a
      destination that already holds it. */
  lemma LaterArrives(how: Origin, job: Job, opts: Options)
    requires PathOpen(how, job, opts) && !PathTells(how, job, opts) && !SureOfEmpty(how, job)
    ensures !AlwaysListed(how, job, opts)
  {
    if how == ByDelta(ForeignPlanner) {
      ForeignArrives(job, opts);
    } else if how.ByDelta? {
      LaterIsRebuilt(how.who, job, opts);
    } else {
      var history := Rewritten(job, Max(job.size, 1), job.mtime + 1);
      var later := history[1].data;
      var hash: Hash := _ => 0;
      var before := View(EMPTY_TABLES, map[], map[]);
      var after := before.(files := map[job.key := LocalFile(later, job.mtime)]);
      PieceInOrder(history, 1, 0, later);
      OneVersionIsFetched(history, 1, ReadWidth(job.size, opts), PlannedChunkSize(job.size, opts));
      assert ArrivedAs(how, hash, before, after, job, opts, later, history, 1, 1);
      assert !RightOrCollided(how, hash, before, job, opts, history[0].data, later);
    }
  }

  /** The listed file, of zeros, and then one of ones. */
  function Rewritten(job: Job, size: nat, time: int): (history: seq<Version>)
    requires size > 0 && time != job.mtime
    ensures |history| == 2 && FreshTimes(history) && IsListed(history, 0, job)
    ensures history[1].mtime == time && |history[1].data| == size && history[1].data != history[0].data
  {
    assert Ones(size)[0] == 1;
    [Version(Zeros(job.size), job.mtime), Version(Ones(size), time)]
  }

  function Ones(n: nat): (r: Bytes)
    ensures |r| == n && forall i :: 0 <= i < n ==> r[i] == 1
  {
    seq(n, _ => 1 as byte)
  }

  /** What was read of the whole file arrives at a destination that already holds it. */
  lemma SameContentArrives(who: Planner, job: Job, opts: Options, data: Bytes, history: seq<Version>, lo: nat, hi: nat)
    returns (before: View, after: View)
    requires who != ForeignPlanner && 0 < |data| == job.size && PathOpen(ByDelta(who), job, opts)
    requires lo <= hi < |history| && Whole(history, lo, hi, data)
    requires PlanTime(who, history[hi].mtime, job.mtime) == job.mtime
    ensures ArrivedAs(ByDelta(who), PlaceHash(data), before, after, job, opts, data, history, lo, hi)
    ensures after.files[job.key].data == data
  {
    before := View(EMPTY_TABLES, map[], map[job.key := LocalFile(data, 0)]);
    after := before.(files := map[job.key := LocalFile(data, job.mtime)]);
    var blocks, plan := SameContentIsAccepted(who, job, opts, data);
    assert DeltaArrived(who, PlaceHash(data), before, after, job, opts, data, history, lo, hi);
  }

  lemma LaterIsRebuilt(who: Planner, job: Job, opts: Options)
    requires who != ForeignPlanner && !TimeTells(who, job) && job.size > 0 && PathOpen(ByDelta(who), job, opts)
    ensures !AlwaysListed(ByDelta(who), job, opts)
  {
    var history := Rewritten(job, job.size, if who == HelperPlanner then -1 else job.mtime + 1);
    var listed, later := history[0].data, history[1].data;
    var hash := PlaceHash(later);
    PieceInOrder(history, 1, 0, later);
    assert EndsAt(history, 1, 1, later, 1);
    var before, after := SameContentArrives(who, job, opts, later, history, 1, 1);
    PlaceFound(later, later, 0, 0);
    assert hash(later) == 0;
    assert hash(listed) != hash(later);
    assert !RightOrCollided(ByDelta(who), hash, before, job, opts, listed, later);
  }

  lemma ForeignArrives(job: Job, opts: Options)
    requires PathOpen(ByDelta(ForeignPlanner), job, opts)
    ensures !AlwaysListed(ByDelta(ForeignPlanner), job, opts)
  {
    var history := [Version(Zeros(job.size), job.mtime)];
    var basis, out: Bytes := [0], Zeros(job.size + 1);
    var hash: Hash := _ => 0;
    var before := View(EMPTY_TABLES, map[], map[job.key := LocalFile(basis, 0)]);
    var after := before.(files := map[job.key := LocalFile(out, job.mtime)]);
    var blocks, plan := ForeignIsAccepted(hash, job, opts, basis, [], out);
    assert DeltaArrived(ForeignPlanner, hash, before, after, job, opts, [], history, 0, 0);
    assert ArrivedAs(ByDelta(ForeignPlanner), hash, before, after, job, opts, [], history, 0, 0);
    assert IsListed(history, 0, job);
    assert !RightOrCollided(ByDelta(ForeignPlanner), hash, before, job, opts, history[0].data, out);
  }

  /** A closed path brings nothing. */
  lemma ClosedBringsNothing(how: Origin, hash: Hash, before: View, after: View, job: Job, opts: Options, data: Bytes,
                            history: seq<Version>, lo: nat, hi: nat)
    requires ArrivedAs(how, hash, before, after, job, opts, data, history, lo, hi)
    ensures PathOpen(how, job, opts)
  {
    if how.ByDelta? && how.who != ForeignPlanner {
      DeltaIsRebuilt(how.who, hash, before, after, job, opts, data, history, lo, hi);
    }
  }

  /** And exactly these paths always do: RDMA and chunks with strict durability, the
      delta planned where the source is, the delta planned by the helper unless the
      listed time is zero; never the clone, nor the delta planned by the script,
      unless it is closed: by the options, or because the literals that every plan
      needs exceed their limit. */
  lemma ListedIffPathTells(how: Origin, job: Job, opts: Options)
    ensures AlwaysListed(how, job, opts)
            <==> PathTells(how, job, opts) || !PathOpen(how, job, opts) || SureOfEmpty(how, job)
  {
    if PathTells(how, job, opts) || !PathOpen(how, job, opts) || SureOfEmpty(how, job) {
      forall hash: Hash, before: View, after: View, data: Bytes, history: seq<Version>, listed: nat, lo: nat, hi: nat |
        ArrivedAs(how, hash, before, after, job, opts, data, history, lo, hi)
        && FreshTimes(history) && listed <= lo && IsListed(history, listed, job)
        ensures RightOrCollided(how, hash, before, job, opts, history[listed].data, after.files[job.key].data)
      {
        ClosedBringsNothing(how, hash, before, after, job, opts, data, history, lo, hi);
        if PathTells(how, job, opts) {
          ArrivedIsListed(how, hash, before, after, job, opts, data, history, listed, lo, hi);
        } else if how.ByDelta? {
          DeltaIsRebuilt(how.who, hash, before, after, job, opts, data, history, lo, hi);
        }
      }
    } else {
      LaterArrives(how, job, opts);
    }
  }

  // ----- what the others bring, for each history

  /** The clone, where it is not ruled out, is sure to bring the listed content
      exactly when no version up to its moment has another one. */
  lemma CloneIsListedIff(hash: Hash, before: View, job: Job, opts: Options, history: seq<Version>, listed: nat, lo: nat,
                         hi: nat)
    requires listed <= lo <= hi < |history|
    ensures (forall after: View, data: Bytes, v: nat | lo <= v <= hi
               && ArrivedAs(ByClone, hash, before, after, job, opts, data, history, lo, v) ::
               after.files[job.key].data == history[listed].data)
            <==> CloneRuledOut(before, job, opts)
                 || forall v :: lo <= v <= hi ==> history[v].data == history[listed].data
  {
    if v :| !CloneRuledOut(before, job, opts) && lo <= v <= hi && history[v].data != history[listed].data {
      var after := before.(files := before.files[job.key := LocalFile(history[v].data, job.mtime)]);
      assert ArrivedAs(ByClone, hash, before, after, job, opts, history[v].data, history, lo, v);
    }
  }

  /** The chunks, without strict durability, are sure to be those of the listed
      version exactly when no other version tears it. */
  lemma ChunksAreListedIff(hash: Hash, before: View, job: Job, opts: Options, history: seq<Version>, listed: nat,
                           hi: nat)
    requires listed <= hi < |history| && IsListed(history, listed, job) && !opts.strict
    ensures (forall after: View, data: Bytes |
               ArrivedAs(ByChunks, hash, before, after, job, opts, data, history, listed, hi) ::
               after.files[job.key].data == history[listed].data)
            <==> !Tears(history, listed, hi, PlannedChunkSize(job.size, opts), ReadWidth(job.size, opts))
  {
    var cs, width := PlannedChunkSize(job.size, opts), ReadWidth(job.size, opts);
    LaxIsListedIff(history, listed, hi, cs, width);
    if Tears(history, listed, hi, cs, width) {
      var data: Bytes :|
        |data| == job.size && Fetched(data, width, history, listed, hi, cs) && data != history[listed].data;
      var after := before.(files := before.files[job.key := LocalFile(data, job.mtime)]);
      assert ArrivedAs(ByChunks, hash, before, after, job, opts, data, history, listed, hi);
    }
  }

  /** A delta planned by the script, when its literals fit, is sure to be planned for
      the listed content, over every destination, exactly when the versions up to
      then do not mislead a reading of the whole file. */
  lemma ScriptPlansListedIff(job: Job, opts: Options, history: seq<Version>, listed: nat, hi: nat)
    requires listed <= hi < |history| && IsListed(history, listed, job)
    ensures (forall hash: Hash, before: View, after: View, data: Bytes |
               ArrivedAs(ByDelta(ScriptPlanner), hash, before, after, job, opts, data, history, listed, hi) ::
               data == history[listed].data)
            <==> !PathOpen(ByDelta(ScriptPlanner), job, opts) || !Misleads(history, listed, hi)
  {
    WholeIsListedIff(history, listed, hi);
    forall hash: Hash, before: View, after: View, data: Bytes |
      ArrivedAs(ByDelta(ScriptPlanner), hash, before, after, job, opts, data, history, listed, hi)
      ensures PathOpen(ByDelta(ScriptPlanner), job, opts)
      ensures |data| == job.size && Whole(history, listed, hi, data)
    {
      DeltaIsRebuilt(ScriptPlanner, hash, before, after, job, opts, data, history, listed, hi);
    }
    if PathOpen(ByDelta(ScriptPlanner), job, opts) && Misleads(history, listed, hi) {
      var data: Bytes :| |data| == job.size && Whole(history, listed, hi, data) && data != history[listed].data;
      var before, after := SameContentArrives(ScriptPlanner, job, opts, data, history, listed, hi);
    }
  }
}
