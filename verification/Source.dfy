/** A source file that may change while it is read (the `RemoteClient` operations
    of src/remote.rs on one path). Its successive versions are fixed in advance
    and the current one only moves forward, at any moment. Reads deliver each byte
    from whatever version is current at that moment. A number of reads may fail;
    when the run is flaky, so may any operation. */
module Source {
  import opened DeltaProtocol
  import opened Hex
  import opened History
  import opened Matcher
  import opened Primitives

  datatype FileStat = FileStat(size: u64, mtime: int)

  datatype RdmaOutcome = Failed | Unavailable(cacheForRun: bool) | Copied(bytes: nat)

  datatype CloneOutcome = CloneFailed | Declined | Cloned

  /** Who plans a delta: the local source, the helper program next to a remote
      source, the script run when the helper cannot be, or some other program. */
  datatype Planner = LocalPlanner | HelperPlanner | ScriptPlanner | ForeignPlanner

  /** The time a planner reports for a source of time `mtime`: the local one what
      it finds, the helper zero for times before the epoch, the script only what
      it was asked with. */
  function PlanTime(who: Planner, mtime: int, requested: int): int {
    match who
    case LocalPlanner => mtime
    case HelperPlanner => Max(mtime, 0)
    case _ => requested
  }

  class RemoteFile {
    const history: seq<Version>
    const flaky: bool
    const supportsRdma: bool
    const supportsClone: bool
    const planners: set<Planner>
    var now: nat
    var readFaults: nat  // how many reads may still fail

    ghost predicate Valid()
      reads this
    {
      now < |history| && planners != {} && forall v :: 0 <= v < |history| ==> |history[v].data| < U64_LIMIT
    }

    /** Nothing but reads fails, and the source has stopped changing. */
    ghost predicate Quiet()
      reads this
    {
      Valid() && !flaky && Still(history, now, |history| - 1)
    }

    /** A source of this size that fails to be read less often than it is tried. */
    ghost predicate Delivers(size: nat, tries: nat)
      reads this
    {
      Quiet() && |history[now].data| == size && readFaults < tries
    }

    constructor (history: seq<Version>, flaky: bool, supportsRdma: bool, supportsClone: bool, planners: set<Planner>,
                 readFaults: nat)
      requires history != [] && planners != {}
      requires forall v :: 0 <= v < |history| ==> |history[v].data| < U64_LIMIT
      ensures Valid() && now == 0 && this.readFaults == readFaults
      ensures this.history == history && this.flaky == flaky && this.supportsRdma == supportsRdma
      ensures this.supportsClone == supportsClone && this.planners == planners
    {
      this.history, this.flaky, this.planners := history, flaky, planners;
      this.supportsRdma, this.supportsClone := supportsRdma, supportsClone;
      this.now, this.readFaults := 0, readFaults;
    }

    method Tick()
      requires Valid()
      modifies this`now
      ensures Valid() && old(now) <= now
      ensures old(Quiet()) ==> Quiet() && history[now] == history[old(now)]
    {
      var later: nat := *;
      if now <= later < |history| {
        now := later;
      }
    }

    method Fails() returns (f: bool)
      ensures f ==> flaky
    {
      var x: bool := *;
      f := flaky && x;
    }

    method Stat() returns (r: Option<FileStat>)
      requires Valid()
      modifies this`now
      ensures Valid() && old(now) <= now
      ensures r.Some? ==> r.value == FileStat(|history[now].data|, history[now].mtime)
      ensures r.None? ==> flaky
      ensures old(Quiet()) ==> Quiet() && history[now] == history[old(now)]
    {
      Tick();
      var f := Fails();
      r := if f then None else Some(FileStat(|history[now].data|, history[now].mtime));
    }

    /** One read: some bytes that are there, none only at the end. */
    method ReadOnce(pos: nat, cap: nat) returns (piece: Bytes)
      requires Valid() && cap > 0
      modifies this`now
      ensures Valid() && old(now) <= now
      ensures |piece| <= cap && InOrder(history, now, now, pos, piece)
      ensures piece == [] <==> |history[now].data| <= pos
      ensures old(Quiet()) ==> Quiet() && history[now] == history[old(now)]
    {
      Tick();
      var data := history[now].data;
      if |data| <= pos {
        NothingInOrder(history, now, now, pos);
        return [];
      }
      var n: nat := *;
      n := Max(1, Min(n, Min(cap, |data| - pos)));
      piece := data[pos..pos + n];
      PieceInOrder(history, now, pos, piece);
    }

    /** Reads from front to back until `len` bytes are there or the file ends, unless
        a fault of the source stops it. */
    method ReadOn(offset: nat, len: nat) returns (buf: Bytes, stopped: bool)
      requires Valid()
      modifies this
      ensures Valid() && old(now) <= now && readFaults <= old(readFaults) <= readFaults + 1
      ensures |buf| <= len && InOrder(history, old(now), now, offset, buf)
      ensures !stopped && |buf| < len ==> |history[now].data| <= offset + |buf|
      ensures stopped ==> flaky || readFaults < old(readFaults)
      ensures old(Quiet()) ==> Quiet() && history[now] == history[old(now)]
    {
      buf, stopped := [], false;
      NothingInOrder(history, now, now, offset);
      while |buf| < len
        invariant Valid() && old(now) <= now && |buf| <= len && readFaults == old(readFaults)
        invariant InOrder(history, old(now), now, offset, buf)
        invariant old(Quiet()) ==> Quiet() && history[now] == history[old(now)]
        decreases len - |buf|
      {
        var f := Fails();
        var fault: bool := *;
        if f || (fault && readFaults > 0) {
          readFaults := if f then readFaults else readFaults - 1;
          return buf, true;
        }
        ghost var before := now;
        var piece := ReadOnce(offset + |buf|, len - |buf|);
        InOrderWithin(history, now, now, before, now, offset + |buf|, piece);
        InOrderAppend(history, old(now), before, now, offset, buf, piece);
        if piece == [] {
          assert buf + piece == buf;
          return;
        }
        buf := buf + piece;
      }
    }

    /** One range. A fault ends it early, with an error or with what is there. */
    method ReadRange(offset: nat, len: nat) returns (r: Option<Bytes>)
      requires Valid()
      modifies this
      ensures Valid() && old(now) <= now && readFaults <= old(readFaults) <= readFaults + 1
      ensures r.Some? ==> |r.value| <= len && InOrder(history, old(now), now, offset, r.value)
      ensures r.None? ==> flaky || readFaults < old(readFaults)
      ensures old(Quiet()) ==> Quiet() && history[now] == history[old(now)]
      ensures old(Quiet()) && readFaults == old(readFaults) ==>
                |r.value| == Min(len, Max(|history[now].data| - offset, 0))
    {
      var buf, stopped := ReadOn(offset, len);
      if old(Quiet()) {
        StillInOrder(history, old(now), now, offset, buf);
      }
      var short: bool := *;
      r := if stopped && !short then None else Some(buf);
    }

    /** The fast path over RDMA: the file arrives as it was read by the helper,
        or an incomplete part file is left. */
    method RdmaCopy(size: nat) returns (part: Bytes, r: RdmaOutcome)
      requires Valid()
      modifies this
      ensures Valid() && old(now) <= now && readFaults <= old(readFaults)
      ensures r.Copied? ==> |part| == r.bytes && InOrder(history, old(now), now, 0, part)
      ensures r.Failed? ==> flaky
      ensures old(Quiet()) ==> Quiet() && history[now] == history[old(now)]
      ensures r.Copied? ==> flaky || r.bytes == size
    {
      var junk: Bytes, unavailable: bool, cache: bool := *, *, *;
      var f := Fails();
      if f {
        return junk, Failed;
      }
      if unavailable {
        return junk, Unavailable(cache);
      }
      var data := ReadRange(0, size);
      match data
      case None => return junk, Unavailable(cache);
      case Some(bytes) =>
        // the sender notices a wrong length; a report of one is a failure
        return bytes, if |bytes| == size || flaky then Copied(|bytes|) else Unavailable(cache);
    }

    /** A copy-on-write clone of the current version. */
    method FastCopy() returns (part: Bytes, r: CloneOutcome)
      requires Valid()
      modifies this`now
      ensures Valid() && old(now) <= now
      ensures r.Cloned? ==> part == history[now].data
      ensures r.CloneFailed? ==> flaky
      ensures !r.CloneFailed? ==> r.Cloned? == supportsClone
      ensures old(Quiet()) ==> Quiet() && history[now] == history[old(now)]
    {
      Tick();
      var f := Fails();
      part := history[now].data;
      r := if f then CloneFailed else if supportsClone then Cloned else Declined;
    }

    /** The whole file, as it was while it was read, up to an end of it. */
    method ReadAll() returns (r: Option<Bytes>)
      requires Valid()
      modifies this
      ensures Valid() && old(now) <= now && readFaults <= old(readFaults)
      ensures r.Some? ==> |r.value| < U64_LIMIT && Whole(history, old(now), now, r.value)
      ensures r.None? ==> flaky || readFaults < old(readFaults)
      ensures old(Quiet()) ==>
                && Quiet() && history[now] == history[old(now)]
                && (readFaults == old(readFaults) ==> r.Some? && r.value == history[now].data)
    {
      var buf, stopped := ReadOn(0, U64_LIMIT - 1);
      if stopped {
        return None;
      }
      assert EndsAt(history, old(now), now, buf, now);
      if old(Quiet()) {
        StillInOrder(history, old(now), now, 0, buf);
        assert history[now].data == history[old(now)].data;
      }
      r := Some(buf);
    }

    /** Plans a delta: the whole file is read, then, except by the script, its
        time, and the ops are built. A foreign planner may answer anything. */
    method GenerateDeltaPlan(hash: Hash, requestedMtime: int, bs: u32, blocks: seq<BlockSigWire>)
      returns (r: Option<DeltaPlan>, ghost who: Planner, ghost data: Bytes)
      requires Valid()
      modifies this
      ensures Valid() && old(now) <= now && readFaults <= old(readFaults) && who in planners
      ensures r.Some? && who != ForeignPlanner ==>
                && |data| < U64_LIMIT && Whole(history, old(now), now, data)
                && PlanOf(who, hash, data, PlanTime(who, history[now].mtime, requestedMtime), bs, blocks, r.value)
      ensures r.None? ==> flaky || readFaults < old(readFaults)
      ensures old(Quiet()) ==>
                && Quiet() && history[now] == history[old(now)]
                && (readFaults == old(readFaults) ==> r.Some? && (who != ForeignPlanner ==> data == history[now].data))
    {
      var planner :| planner in planners;
      who, data := planner, [];
      if planner == ForeignPlanner {
        var any: DeltaPlan := *;
        return Some(any), who, data;
      }
      var content := ReadAll();
      if content.None? {
        return None, who, data;
      }
      data := content.value;
      if planner == ScriptPlanner {
        var plan := BuildScriptOps(hash, content.value, requestedMtime, bs, blocks);
        return Some(plan), who, data;
      }
      ghost var readAt := now;
      var stat := Stat();
      WholeWithin(history, old(now), readAt, old(now), now, data);
      if stat.None? {
        return None, who, data;
      }
      var mtime := if planner == HelperPlanner then Max(stat.value.mtime, 0) else stat.value.mtime;
      var plan := BuildDeltaOps(hash, content.value, mtime, bs, blocks);
      r := Some(plan);
    }
  }

  /** The plan of one of the repository's planners for a source content. */
  ghost predicate PlanOf(who: Planner, hash: Hash, data: Bytes, mtime: int, bs: u32, blocks: seq<BlockSigWire>,
                         plan: DeltaPlan)
  {
    && plan.ops == Plan(if who == ScriptPlanner then Script else Native, hash, data, bs, blocks)
    && plan.finalDigestHex == FormatDigest(hash(data))
    && plan.copyBytes + plan.literalBytes == |data|
    && plan.copyBytes == CopyTotal(plan.ops)
    && plan.sourceSize == |data| && plan.sourceMtime == mtime
  }
}
