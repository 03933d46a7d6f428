/** The delta path of a transfer (src/sync.rs). */
module DeltaTransfer {
  import opened ChunkFetch
  import opened ChunkTransfer
  import opened DeltaPipeline
  import opened DeltaProtocol
  import opened Blocks
  import opened Hex
  import opened Matcher
  import opened Patch
  import opened History
  import opened Primitives
  import opened Routes
  import opened Signature
  import opened Source
  import opened State
  import opened Workspace

  /** What is wrong with a plan, whatever made it: nothing, or the first check it
      fails. */
  ghost function PlanVerdict(hash: Hash, basis: Bytes, plan: DeltaPlan, job: Job, opts: Options, bs: u32): Option<Cause>
  {
    if plan.literalBytes > opts.deltaMaxLiterals then Some(TooManyLiterals)
    else if plan.sourceSize != job.size || plan.sourceMtime != job.mtime then Some(ChangedDuringPlanning)
    else
      var out := Replay(basis, plan.ops, bs);
      if out.Err? then Some(BadPlan)
      else if FormatDigest(hash(out.value)) != plan.finalDigestHex then Some(DigestMismatch)
      else None
  }

  /** What a refused plan leaves of the part file: the output up to the first bad
      op, nothing when only the digest is wrong, and the old one when it was never
      applied. */
  ghost predicate PartAfterRefusal(c: Cause, before: map<Key, Bytes>, after: map<Key, Bytes>, basis: Bytes,
                                   plan: DeltaPlan, key: Key, bs: u32)
  {
    match c
    case BadPlan => after == before[key := WrittenBefore(basis, plan.ops, bs)]
    case DigestMismatch => after == before - {key}
    case _ => after == before
  }

  /** The op to start from: that of a session for the same basis, source and
      block size, or the first. */
  function StartIndex(session: Option<Session>, basisDigest: string, job: Job, bs: u32): nat {
    match session
    case Some(s) =>
      if !s.finished && s.basisDigest == basisDigest && s.sourceSize == job.size && s.sourceMtime == job.mtime
         && s.blockSize == bs
      then s.lastOp else 0
    case None => 0
  }

  /** Ops are skipped only for an unfinished session of this very basis, source and
      block size, and then exactly those it has applied. */
  lemma SkipsOnlyAppliedOps(session: Option<Session>, basisDigest: string, job: Job, bs: u32)
    ensures StartIndex(session, basisDigest, job, bs) > 0 ==>
              session == Some(Session(basisDigest, job.size, job.mtime, bs, false,
                                      StartIndex(session, basisDigest, job, bs)))
    ensures forall n: nat :: session == Some(Session(basisDigest, job.size, job.mtime, bs, false, n)) ==>
                               StartIndex(session, basisDigest, job, bs) == n
  {
  }

  /** Applies a plan of any origin and publishes the result when its digest is the
      announced one. The session is the one the delta path has just reset, so all
      ops are applied. Chunk rows stay as they are whatever becomes of the part
      file. */
  method AcceptPlan(hash: Hash, site: Site, remote: RemoteFile, job: Job, opts: Options, bs: u32, basisDigest: string,
                    plan: DeltaPlan)
    returns (fault: Option<Fault>)
    requires site.Valid() && job.key in site.files
    requires job.key in site.store.tables.sessions
             && site.store.tables.sessions[job.key] == Session(basisDigest, job.size, job.mtime, bs, false, 0)
    modifies site, site.store
    ensures site.Valid() && old(site.State()).SameElsewhere(site.State(), job.key)
    ensures site.rdmaDisabled == old(site.rdmaDisabled)
    ensures site.store.tables.Completed(job.key) == old(site.store.tables).Completed(job.key)
    ensures var basis := old(site.files)[job.key].data;
            var verdict := PlanVerdict(hash, basis, plan, job, opts, bs);
            && (fault.None? || fault.value.published ==>
                  && verdict == None && job.key in site.files
                  && Replay(basis, plan.ops, bs) == Ok(site.files[job.key].data))
            && (fault.Some? && fault.value.cause != Io ==>
                  && verdict == Some(fault.value.cause) && !fault.value.published
                  && PartAfterRefusal(fault.value.cause, old(site.store.partials), site.store.partials, basis, plan,
                                      job.key, bs))
            && (!remote.flaky ==> fault == if verdict.None? then None else Some(Fault(verdict.value, false)))
    ensures fault.Some? && !fault.value.published ==> site.files == old(site.files)
    ensures fault.Some? ==> OnlySession(old(site.store.tables), site.store.tables, job.key)
    ensures fault.None? ==>
              && site.files[job.key].mtime == job.mtime && job.key in site.store.tables.sessions
              && site.store.tables.sessions[job.key]
                 == Session(basisDigest, job.size, job.mtime, bs, true, |plan.ops|)
              && (RowMatches(old(site.store.tables), job) ==> NotedFinished(site.fileHash, site.State(), job, opts))
    ensures fault.Some? && fault.value.cause == DigestMismatch ==> job.key !in site.store.tables.sessions
  {
    if plan.literalBytes > opts.deltaMaxLiterals {
      return Some(Fault(TooManyLiterals, false));
    }
    if plan.sourceSize != job.size || plan.sourceMtime != job.mtime {
      return Some(Fault(ChangedDuringPlanning, false));
    }
    var sessions := site.store.tables.sessions;
    var session := if job.key in sessions then Some(sessions[job.key]) else None;
    var start := StartIndex(session, basisDigest, job, bs);
    assert start == 0;
    fault := ApplyPlan(hash, site, remote, job, bs, plan);
    if fault.Some? {
      return;
    }
    fault := PublishDelta(site, remote, job, opts);
  }

  /** Rebuilds the file in the place of the part file and compares digests. */
  method ApplyPlan(hash: Hash, site: Site, remote: RemoteFile, job: Job, bs: u32, plan: DeltaPlan)
    returns (fault: Option<Fault>)
    requires site.Valid() && job.key in site.files
    modifies site.store
    ensures site.Valid() && site.files == old(site.files) && old(site.State()).SameElsewhere(site.State(), job.key)
    ensures OnlySession(old(site.store.tables), site.store.tables, job.key)
    ensures fault.None? && job.key in old(site.store.tables.sessions) ==>
              && job.key in site.store.tables.sessions
              && site.store.tables.sessions[job.key] == old(site.store.tables.sessions)[job.key].(lastOp := |plan.ops|)
    ensures fault.Some? && fault.value.cause == DigestMismatch ==> job.key !in site.store.tables.sessions
    ensures var basis := site.files[job.key].data;
            var out := Replay(basis, plan.ops, bs);
            && (fault.None? ==>
                  && out.Ok? && FormatDigest(hash(out.value)) == plan.finalDigestHex
                  && job.key in site.store.partials && site.store.partials[job.key] == out.value)
            && (fault.Some? && fault.value.cause != Io ==>
                  && fault.value.cause
                     == (if out.Err? then BadPlan else DigestMismatch)
                  && (out.Ok? ==> FormatDigest(hash(out.value)) != plan.finalDigestHex)
                  && PartAfterRefusal(fault.value.cause, old(site.store.partials), site.store.partials, basis, plan,
                                      job.key, bs))
    ensures fault.Some? ==> !fault.value.published && (fault.value.cause == Io ==> remote.flaky)
  {
    var basis := site.files[job.key].data;
    assert plan.ops[0..] == plan.ops;
    var out, applied := ApplyDeltaOps(hash, basis, plan.ops, bs, 0, remote.flaky);
    site.store.PutPart(job.key, out);
    if applied.Err? {
      return Some(Fault(if applied.error == IoFailed then Io else BadPlan, false));
    }
    var f := remote.Fails();
    if f {
      return Some(Fault(Io, false));
    }
    site.store.MarkDeltaProgress(job.key, applied.value.lastOp);
    if FormatDigest(applied.value.digest) != plan.finalDigestHex {
      site.store.RemovePart(job.key);
      f := remote.Fails();
      if f {
        return Some(Fault(Io, false));
      }
      site.store.ClearDeltaSession(job.key);
      return Some(Fault(DigestMismatch, false));
    }
    fault := None;
  }

  /** Publishes the rebuilt file and finishes its session and its row. */
  method PublishDelta(site: Site, remote: RemoteFile, job: Job, opts: Options) returns (fault: Option<Fault>)
    requires site.Valid() && job.key in site.store.partials
    modifies site`files, site.store
    ensures site.Valid() && old(site.State()).SameElsewhere(site.State(), job.key)
    ensures site.store.tables.Completed(job.key) == old(site.store.tables).Completed(job.key)
    ensures fault.None? || fault.value.published ==>
              job.key in site.files && site.files[job.key].data == old(site.store.partials)[job.key]
    ensures fault.Some? ==> fault.value.cause == Io && remote.flaky
    ensures fault.Some? && !fault.value.published ==> site.files == old(site.files)
    ensures fault.Some? ==> OnlySession(old(site.store.tables), site.store.tables, job.key)
    ensures fault.None? ==> site.files[job.key].mtime == job.mtime
    ensures fault.None? && job.key in old(site.store.tables.sessions) ==>
              && job.key in site.store.tables.sessions
              && site.store.tables.sessions[job.key] == old(site.store.tables.sessions)[job.key].(finished := true)
    ensures fault.None? && RowMatches(old(site.store.tables), job) ==>
              NotedFinished(site.fileHash, site.State(), job, opts)
  {
    fault := site.Publish(remote, job);
    if fault.Some? {
      return;
    }
    var f := remote.Fails();
    if f {
      return Some(Fault(Io, true));
    }
    site.store.MarkDeltaFinished(job.key);
    fault := site.RecordFinished(remote, job, opts);
  }

  function DeltaBlockSize(job: Job, opts: Options): u32 {
    ChooseBlockSize(job.size, opts.deltaBlockSize)
  }

  /** `out` was rebuilt from `basis` and a plan for `data`, and has its digest. */
  ghost predicate Rebuilt(hash: Hash, basis: Bytes, data: Bytes, bs: u32, out: Bytes) {
    && |out| == |data| && hash(out) == hash(data)
    && (NoBlockCollision(hash, basis, data, bs) ==> out == data)
  }

  lemma PlanRebuilds(who: Planner, hash: Hash, basis: Bytes, data: Bytes, mtime: int, bs: u32, blocks: seq<BlockSig>,
                     plan: DeltaPlan, out: Bytes)
    requires Signed(hash, basis, bs, blocks) && |basis| < U64_LIMIT
    requires PlanOf(who, hash, data, mtime, bs, Wire(blocks), plan)
    requires Replay(basis, plan.ops, bs) == Ok(out) && FormatDigest(hash(out)) == plan.finalDigestHex
    ensures Rebuilt(hash, basis, data, bs, out)
  {
    WireIsPlain(blocks);
    DialectsAgree(hash, data, bs, Wire(blocks), 0, 0);
    RoundTrip(hash, basis, data, bs, blocks);
    FormatInjective(hash(out), hash(data));
  }

  /** Signs the destination, starts a session and asks for a plan. */
  method PlanDelta(hash: Hash, site: Site, remote: RemoteFile, job: Job, bs: u32)
    returns (r: Result<DeltaPlan, Cause>, basisDigest: string, ghost who: Planner, ghost blocks: seq<BlockSig>,
             ghost data: Bytes)
    requires site.Valid() && remote.Valid() && job.key in site.files && |site.files[job.key].data| < U64_LIMIT
    modifies site.store, remote
    ensures site.Valid() && remote.Valid() && old(remote.now) <= remote.now
    ensures remote.readFaults <= old(remote.readFaults)
    ensures site.files == old(site.files) && site.store.partials == old(site.store.partials)
    ensures OnlySession(old(site.store.tables), site.store.tables, job.key)
    ensures r.Err? ==> r.error == Io || r.error == EmptyBasis || r.error == PlanFailed
    ensures site.files[job.key].data == [] ==> r.Err?
    ensures r.Ok? ==> basisDigest == FormatDigest(site.fileHash(site.files[job.key].data))
    ensures r.Ok? ==>
              && job.key in site.store.tables.sessions
              && site.store.tables.sessions[job.key] == Session(basisDigest, job.size, job.mtime, bs, false, 0)
              && Signed(hash, site.files[job.key].data, bs, blocks) && who in remote.planners
    ensures r.Ok? && who != ForeignPlanner ==>
              && Whole(remote.history, old(remote.now), remote.now, data)
              && PlanOf(who, hash, data, PlanTime(who, remote.history[remote.now].mtime, job.mtime), bs, Wire(blocks),
                        r.value)
    ensures old(remote.Quiet()) ==> remote.Quiet() && remote.history[remote.now] == remote.history[old(remote.now)]
  {
    data, blocks, basisDigest, who := [], [], "", ForeignPlanner;
    var f := remote.Fails();
    if f {
      return Err(Io), basisDigest, who, blocks, data;
    }
    var basis := site.files[job.key].data;
    var sig := BuildSignature(hash, basis, bs);
    blocks := sig.blocks;
    assert basis == [] ==> Block(basis, bs, 0) == [];
    if sig.blocks == [] {
      return Err(EmptyBasis), basisDigest, who, blocks, data;
    }
    f := remote.Fails();
    if f {
      return Err(Io), basisDigest, who, blocks, data;
    }
    basisDigest := FormatDigest(site.fileHash(basis));
    site.store.UpsertDeltaSession(job.key, basisDigest, job.size, job.mtime, bs);
    var plan;
    plan, who, data := remote.GenerateDeltaPlan(hash, job.mtime, bs, Wire(sig.blocks));
    r := if plan.Some? then Ok(plan.value) else Err(PlanFailed);
  }

  // ----- which plans are accepted

  /** A plan by `who` for `data` passes every check over this destination, and makes
      `out` of it; nothing is known of what a foreign planner had in mind. */
  ghost predicate PlanAccepted(who: Planner, hash: Hash, basis: Bytes, job: Job, opts: Options, data: Bytes,
                               blocks: seq<BlockSig>, plan: DeltaPlan, out: Bytes)
  {
    var bs := DeltaBlockSize(job, opts);
    && 0 < |basis| < U64_LIMIT && Signed(hash, basis, bs, blocks)
    && PlanVerdict(hash, basis, plan, job, opts, bs).None? && Replay(basis, plan.ops, bs) == Ok(out)
    && (who != ForeignPlanner ==> PlanOf(who, hash, data, job.mtime, bs, Wire(blocks), plan))
  }

  lemma AcceptedRebuilds(who: Planner, hash: Hash, basis: Bytes, job: Job, opts: Options, data: Bytes,
                         blocks: seq<BlockSig>, plan: DeltaPlan, out: Bytes)
    requires PlanAccepted(who, hash, basis, job, opts, data, blocks, plan, out) && who != ForeignPlanner
    ensures Rebuilt(hash, basis, data, DeltaBlockSize(job, opts), out) && |data| == job.size
  {
    PlanRebuilds(who, hash, basis, data, job.mtime, DeltaBlockSize(job, opts), blocks, plan, out);
  }

  /** The literals that every plan for the file needs are within the limit. */
  predicate LiteralsFit(job: Job, opts: Options) {
    job.size % DeltaBlockSize(job, opts) <= opts.deltaMaxLiterals
  }

  /** Otherwise no plan of the repository's planners is accepted. */
  lemma AcceptedFits(who: Planner, hash: Hash, basis: Bytes, job: Job, opts: Options, data: Bytes,
                     blocks: seq<BlockSig>, plan: DeltaPlan, out: Bytes)
    requires PlanAccepted(who, hash, basis, job, opts, data, blocks, plan, out) && who != ForeignPlanner
    ensures LiteralsFit(job, opts)
  {
    var bs := DeltaBlockSize(job, opts);
    var d := if who == ScriptPlanner then Script else Native;
    LiteralsAtLeast(d, hash, data, bs, Wire(blocks));
    PlanTotals(d, hash, data, bs, Wire(blocks), 0, 0);
  }

  /** Whatever is read, a destination that already holds it accepts the plan for
      it, when its literals fit. */
  lemma SameContentIsAccepted(who: Planner, job: Job, opts: Options, data: Bytes)
    returns (blocks: seq<BlockSig>, plan: DeltaPlan)
    requires who != ForeignPlanner && 0 < |data| == job.size && LiteralsFit(job, opts)
    ensures PlanAccepted(who, PlaceHash(data), data, job, opts, data, blocks, plan, data)
  {
    var hash, bs := PlaceHash(data), DeltaBlockSize(job, opts);
    var d := if who == ScriptPlanner then Script else Native;
    blocks := HasSignature(hash, data, bs, 0);
    var ops := Plan(d, hash, data, bs, Wire(blocks));
    PlanTotals(d, hash, data, bs, Wire(blocks), 0, 0);
    WireIsPlain(blocks);
    DialectsAgree(hash, data, bs, Wire(blocks), 0, 0);
    UnchangedFileIsCheap(hash, data, bs, blocks);
    PlacesDoNotCollide(data, bs);
    RoundTrip(hash, data, data, bs, blocks);
    plan := DeltaPlan(ops, FormatDigest(hash(data)), LiteralTotal(ops), CopyTotal(ops), |data|, job.mtime);
  }

  /** A foreign plan may announce anything that is consistent. */
  lemma ForeignIsAccepted(hash: Hash, job: Job, opts: Options, basis: Bytes, data: Bytes, out: Bytes)
    returns (blocks: seq<BlockSig>, plan: DeltaPlan)
    requires 0 < |basis| < U64_LIMIT
    ensures PlanAccepted(ForeignPlanner, hash, basis, job, opts, data, blocks, plan, out)
  {
    blocks := HasSignature(hash, basis, DeltaBlockSize(job, opts), 0);
    plan := DeltaPlan([Literal(Some(out))], FormatDigest(hash(out)), 0, 0, job.size, job.mtime);
    assert plan.ops[1..] == [] && Replay(basis, [], DeltaBlockSize(job, opts)) == Ok([]) && out + [] == out;
  }

  /** The bytes a transfer reports as saved are those its plan copies; of a plan made
      here all that are not literals. */
  ghost predicate Saves(saved: nat, who: Planner, hash: Hash, basis: Bytes, job: Job, opts: Options, data: Bytes,
                        out: Bytes)
  {
    exists blocks, plan ::
      PlanAccepted(who, hash, basis, job, opts, data, blocks, plan, out) && saved == plan.copyBytes
  }

  lemma SavedIsCopied(saved: nat, who: Planner, hash: Hash, basis: Bytes, job: Job, opts: Options, data: Bytes,
                      out: Bytes)
    requires Saves(saved, who, hash, basis, job, opts, data, out) && who != ForeignPlanner
    ensures saved <= job.size - job.size % DeltaBlockSize(job, opts)
    ensures exists ops :: Replay(basis, ops, DeltaBlockSize(job, opts)) == Ok(out)
                          && saved == CopyTotal(ops) && saved + LiteralTotal(ops) == job.size
  {
    var bs := DeltaBlockSize(job, opts);
    var blocks, plan :| PlanAccepted(who, hash, basis, job, opts, data, blocks, plan, out) && saved == plan.copyBytes;
    var d := if who == ScriptPlanner then Script else Native;
    LiteralsAtLeast(d, hash, data, bs, Wire(blocks));
    PlanTotals(d, hash, data, bs, Wire(blocks), 0, 0);
    assert Replay(basis, plan.ops, bs) == Ok(out);
  }

  /** The destination was rebuilt from an accepted plan by `who`, for `data` as it
      was read between lo and hi. */
  ghost predicate DeltaArrived(who: Planner, hash: Hash, before: View, after: View, job: Job, opts: Options,
                               data: Bytes, history: seq<Version>, lo: nat, hi: nat)
  {
    && lo <= hi < |history| && DeltaCandidate(before, job, opts) && job.key in after.files
    && PlanTime(who, history[hi].mtime, job.mtime) == job.mtime
    && (who != ForeignPlanner ==> Whole(history, lo, hi, data))
    && (exists blocks, plan ::
          PlanAccepted(who, hash, before.files[job.key].data, job, opts, data, blocks, plan, after.files[job.key].data))
  }

  /** What a failed delta leaves of the part file: a refused plan what it had
      written or nothing, an error of disk or source anything, and every other
      failure the old one. */
  ghost predicate PartAfterDelta(c: Cause, before: View, after: View, job: Job, opts: Options)
    requires DeltaCandidate(before, job, opts)
  {
    var basis, bs := before.files[job.key].data, DeltaBlockSize(job, opts);
    match c
    case BadPlan =>
      exists ops ::
        && Replay(basis, ops, bs).Err?
        && after.partials == before.partials[job.key := WrittenBefore(basis, ops, bs)]
    case DigestMismatch => after.partials == before.partials - {job.key}
    case Io => true
    case _ => after.partials == before.partials
  }

  /** The delta path: a plan for the current destination, applied. A failure keeps
      file and chunk rows. */
  method TransferDelta(hash: Hash, site: Site, remote: RemoteFile, job: Job, opts: Options)
    returns (r: Route, ghost who: Planner, ghost data: Bytes, ghost hi: nat)
    requires site.Valid() && remote.Valid() && DeltaCandidate(site.State(), job, opts)
    requires |site.files[job.key].data| < U64_LIMIT
    modifies site, site.store, remote
    ensures site.Valid() && remote.Valid() && old(remote.now) <= hi <= remote.now
    ensures old(site.State()).SameElsewhere(site.State(), job.key) && site.rdmaDisabled == old(site.rdmaDisabled)
    ensures r.Taken? || r.Broke?
    ensures !Replaced(r) ==> site.files == old(site.files)
    ensures Replaced(r) ==>
              && who in remote.planners
              && DeltaArrived(who, hash, old(site.State()), site.State(), job, opts, data, remote.history,
                              old(remote.now), hi)
    ensures r.Broke? ==>
              && OnlySession(old(site.store.tables), site.store.tables, job.key)
              && (r.fault.published ==> r.fault.cause == Io)
              && PartAfterDelta(r.fault.cause, old(site.State()), site.State(), job, opts)
    ensures r.Taken? ==> site.files[job.key].mtime == job.mtime && Reports(r.outcome, ByDelta(who), job)
    ensures r.Taken? && RowMatches(old(site.store.tables), job) ==>
              NotedFinished(site.fileHash, site.State(), job, opts)
    ensures r.Taken? ==>
              Saves(r.outcome.bytesSaved, who, hash, old(site.files)[job.key].data, job, opts, data,
                    site.files[job.key].data)
    ensures old(Smooth(remote, job, opts)) ==> Smooth(remote, job, opts)
  {
    var bs := DeltaBlockSize(job, opts);
    var plan, basisDigest;
    ghost var before, blocks := site.State(), [];
    plan, basisDigest, who, blocks, data := PlanDelta(hash, site, remote, job, bs);
    hi := remote.now;
    if plan.Err? {
      return Broke(Fault(plan.error, false)), who, data, hi;
    }
    var fault := AcceptPlan(hash, site, remote, job, opts, bs, basisDigest, plan.value);
    assert fault.None? || fault.value.published ==>
        PlanAccepted(who, hash, before.files[job.key].data, job, opts, data, blocks, plan.value,
                     site.files[job.key].data);
    r := if fault.Some? then Broke(fault.value) else Taken(Outcome(true, false, false, false, 0, plan.value.copyBytes));
  }
}
