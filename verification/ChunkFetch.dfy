/** Fetching the missing chunks of one file into its part file (src/sync.rs). The
    open part file is an array of the length it was set to. The chunks of a group
    arrive in any order; they are written to disjoint blocks, so fetching them one
    at a time loses nothing (`Blocks.WritesCommute`). */
module ChunkFetch {
  import opened Assembly
  import opened Blocks
  import opened ChunkPlan
  import opened Groups
  import opened History
  import opened Primitives
  import opened Source
  import opened State

  datatype Cause =
    | Interrupted | ReadFailed | ShortRead | WriteFailed | NoAttempt  // of one chunk
    | Io | SizeChanged | ChangedDuringTransfer
    | RdmaFailed | RdmaRequired | RdmaCountMismatch
    | CloneError
    | EmptyBasis | PlanFailed | TooManyLiterals | ChangedDuringPlanning | BadPlan | DigestMismatch

  // ----- writing

  lemma SpliceTwice(file: Bytes, at: nat, data: Bytes, n: nat, m: nat)
    requires n + m <= |data| && at + |data| <= |file|
    ensures Splice(Splice(file, at, data[..n]), at + n, data[n..][..m]) == Splice(file, at, data[..n + m])
  {
  }

  /** One positional write of the operating system: a prefix of buf, of its choice. */
  method WriteAt(part: array<byte>, buf: Bytes, at: nat, flaky: bool) returns (n: Option<nat>)
    requires buf != [] && at + |buf| <= part.Length
    modifies part
    ensures n.None? ==> flaky && part[..] == old(part[..])
    ensures n.Some? ==> n.value <= |buf| && part[..] == Splice(old(part[..]), at, buf[..n.value])
    ensures n == Some(0) ==> flaky
  {
    var failed: bool, accepted: nat := *, *;
    if flaky && failed {
      return None;
    }
    var count: nat := Max(if flaky then 0 else 1, Min(accepted, |buf|));
    for k := 0 to count
      invariant part[..] == Splice(old(part[..]), at, buf[..k])
    {
      part[at + k] := buf[k];
    }
    n := Some(count);
  }

  /** Writes until nothing is left; what an error leaves is a prefix. */
  method WriteAllAt(part: array<byte>, buf: Bytes, offset: nat, flaky: bool) returns (ok: bool, ghost written: nat)
    requires offset + |buf| <= part.Length
    modifies part
    ensures written <= |buf| && part[..] == Splice(old(part[..]), offset, buf[..written])
    ensures ok ==> written == |buf|
    ensures !ok ==> flaky
  {
    var rest, at := buf, offset;
    written := 0;
    while rest != []
      invariant written <= |buf| && rest == buf[written..] && at == offset + written
      invariant part[..] == Splice(old(part[..]), offset, buf[..written])
      decreases |rest|
    {
      var n := WriteAt(part, rest, at, flaky);
      if n.None? || n.value == 0 {
        return false, written;
      }
      SpliceTwice(old(part[..]), offset, buf, written, n.value);
      rest := rest[n.value..];
      at := at + n.value;
      written := written + n.value;
    }
    ok := true;
  }

  lemma SpliceIsWithBlock(file: Bytes, at: nat, data: Bytes, block: Bytes)
    requires at + |block| <= |file| && |data| <= |block| && block == file[at..at + |block|]
    ensures var whole := data + block[|data|..];
            Splice(file, at, data) == Splice(file, at, whole)
  {
  }

  /** A write inside chunk k leaves the other chunks alone. */
  lemma SpliceInBlock(file: Bytes, cs: u64, k: nat, data: Bytes)
    requires Offset(cs, k) <= |file| && |data| <= |Block(file, cs, k)|
    ensures OnlyBlock(file, Splice(file, Offset(cs, k), data), cs, k)
    ensures |data| == |Block(file, cs, k)| ==> Block(Splice(file, Offset(cs, k), data), cs, k) == data
  {
    var block := Block(file, cs, k);
    var whole := data + block[|data|..];
    SpliceIsWithBlock(file, Offset(cs, k), data, block);
    assert Splice(file, Offset(cs, k), data) == WithBlock(file, cs, k, whole);
    BlockReplaced(file, cs, k, whole);
    assert |data| == |block| ==> whole == data;
  }

  lemma BlockReplaced(file: Bytes, cs: u64, k: nat, whole: Bytes)
    requires |whole| == |Block(file, cs, k)|
    ensures OnlyBlock(file, WithBlock(file, cs, k, whole), cs, k)
    ensures Block(WithBlock(file, cs, k, whole), cs, k) == whole
  {
    forall j: nat | j != k
      ensures Block(WithBlock(file, cs, k, whole), cs, j) == Block(file, cs, j)
    {
      WithBlockElsewhere(file, cs, k, whole, j);
    }
    WithBlockAt(file, cs, k, whole);
  }

  // ----- one chunk

  /** Reads and writes one chunk, trying again after a failed or a short read. A
      write error ends the chunk at once. While the source is still, fewer failed
      reads than tries do not make it fail. */
  method FetchChunk(remote: RemoteFile, part: array<byte>, cs: u64, idx: nat, retries: nat)
    returns (failure: Option<Cause>)
    requires remote.Valid() && part.Length < U64_LIMIT && cs > 0 && idx < ChunkCount(part.Length, cs)
    modifies part, remote
    ensures remote.Valid() && old(remote.now) <= remote.now && remote.readFaults <= old(remote.readFaults)
    ensures OnlyBlock(old(part[..]), part[..], cs, idx)
    ensures failure.None? ==> BlockInOrder(remote.history, old(remote.now), remote.now, cs, idx, part[..])
    ensures old(remote.readFaults) - remote.readFaults <= retries
    ensures old(remote.Quiet()) ==> remote.Quiet() && remote.history[remote.now] == remote.history[old(remote.now)]
    ensures old(remote.Delivers(part.Length, retries)) ==> failure.None?
    ensures failure.Some? ==> failure.value != ChangedDuringTransfer
  {
    var offset, len := PlanChunk(part[..], part.Length, cs, idx);
    var cause := NoAttempt;
    for attempt := 0 to retries
      invariant cause != ChangedDuringTransfer
      invariant remote.Valid() && old(remote.now) <= remote.now && part[..] == old(part[..])
      invariant remote.readFaults <= old(remote.readFaults) <= remote.readFaults + attempt
      invariant old(remote.Quiet()) ==> remote.Quiet() && remote.history[remote.now] == remote.history[old(remote.now)]
      invariant old(remote.Quiet()) && |remote.history[remote.now].data| == part.Length ==>
                  attempt <= old(remote.readFaults) - remote.readFaults
    {
      var interrupted := remote.Fails();
      if interrupted {
        return Some(Interrupted);
      }
      ghost var before := remote.now;
      var got := remote.ReadRange(offset, len);
      match got
      case None =>
        cause := ReadFailed;
      case Some(buf) =>
        if |buf| != len {
          cause := ShortRead;
        } else {
          InOrderWithin(remote.history, before, remote.now, old(remote.now), remote.now, offset, buf);
          var ok, written := WriteAllAt(part, buf, offset, remote.flaky);
          SpliceInBlock(old(part[..]), cs, idx, buf[..written]);
          assert ok ==> buf[..written] == buf;
          return if ok then None else Some(WriteFailed);
        }
    }
    failure := Some(cause);
  }

  // ----- groups of chunks

  predicate Distinct(s: seq<nat>) {
    forall i, j :: 0 <= i < j < |s| ==> s[i] != s[j]
  }

  /** The chunks in `done` ended well, those in `pending` have not started, and as
      long as nothing failed all the others ended well. */
  ghost predicate Ran(group: set<nat>, pending: set<nat>, done: seq<nat>, failure: Option<Cause>) {
    && pending <= group && SetOf(done) <= group - pending && Distinct(done)
    && (failure.None? ==> SetOf(done) == group - pending)
  }

  lemma ChunkDone(group: set<nat>, pending: set<nat>, done: seq<nat>, failure: Option<Cause>, idx: nat,
                  f: Option<Cause>)
    requires Ran(group, pending, done, failure) && idx in pending
    ensures f.None? ==> Ran(group, pending - {idx}, done + [idx], failure)
    ensures f.Some? ==> Ran(group, pending - {idx}, done, f)
    ensures SetOf(done + [idx]) == SetOf(done) + {idx}
    ensures group - (pending - {idx}) == (group - pending) + {idx}
  {
    assert SetOf(done + [idx]) == SetOf(done) + {idx};
    assert group - (pending - {idx}) == (group - pending) + {idx};
  }

  lemma ChunkWrote(file: Bytes, next: Bytes, base: Bytes, group: set<nat>, pending: set<nat>, done: seq<nat>,
                   history: seq<Version>, lo: nat, mid: nat, hi: nat, cs: u64, idx: nat)
    requires Fetching(file, base, SetOf(done), group - pending, history, lo, mid, cs) && lo <= mid <= hi
    requires idx in pending && pending <= group && SetOf(done) <= group - pending
    requires OnlyBlock(file, next, cs, idx)
    ensures Fetching(next, base, SetOf(done), group - (pending - {idx}), history, lo, hi, cs)
    ensures BlockInOrder(history, mid, hi, cs, idx, next)
            ==> Fetching(next, base, SetOf(done + [idx]), group - (pending - {idx}), history, lo, hi, cs)
  {
    FetchStep(file, next, base, SetOf(done), group - pending, history, lo, mid, hi, cs, idx);
    assert group - (pending - {idx}) == (group - pending) + {idx};
    assert SetOf(done + [idx]) == SetOf(done) + {idx};
  }

  /** Fetches the chunks of a group. After a failure the others may or may not still
      be fetched; every chunk that arrives is listed. */
  method FetchGroup(remote: RemoteFile, part: array<byte>, cs: u64, group: set<nat>, retries: nat)
    returns (done: seq<nat>, failure: Option<Cause>)
    requires remote.Valid() && part.Length < U64_LIMIT && cs > 0 && group <= AllChunks(part.Length, cs)
    modifies part, remote
    ensures remote.Valid() && old(remote.now) <= remote.now && remote.readFaults <= old(remote.readFaults)
    ensures Distinct(done) && SetOf(done) <= group && (failure.None? ==> SetOf(done) == group)
    ensures Fetching(part[..], old(part[..]), SetOf(done), group, remote.history, old(remote.now), remote.now, cs)
    ensures old(remote.Quiet()) ==> remote.Quiet() && remote.history[remote.now] == remote.history[old(remote.now)]
    ensures old(remote.Delivers(part.Length, retries)) ==> failure.None?
    ensures failure.Some? ==> failure.value != ChangedDuringTransfer
  {
    ghost var base, lo := part[..], remote.now;
    var pending := group;
    done, failure := [], None;
    assert group - pending == {};
    while pending != {}
      invariant Ran(group, pending, done, failure)
      invariant remote.Valid() && lo <= remote.now && remote.readFaults <= old(remote.readFaults)
      invariant Fetching(part[..], base, SetOf(done), group - pending, remote.history, lo, remote.now, cs)
      invariant old(remote.Quiet()) ==> remote.Quiet() && remote.history[remote.now] == remote.history[old(remote.now)]
      invariant old(remote.Delivers(part.Length, retries)) ==> failure.None?
      invariant failure.Some? ==> failure.value != ChangedDuringTransfer
      decreases |pending|
    {
      var stop: bool := *;
      if failure.Some? && stop {
        break;
      }
      var idx :| idx in pending;
      ghost var before, at := part[..], remote.now;
      var f := FetchChunk(remote, part, cs, idx, retries);
      ChunkWrote(before, part[..], base, group, pending, done, remote.history, lo, at, remote.now, cs, idx);
      ChunkDone(group, pending, done, failure, idx, f);
      pending := pending - {idx};
      if f.Some? {
        failure := f;
      } else {
        done := done + [idx];
      }
    }
    GroupEnds(part[..], base, group, pending, done, failure, remote.history, lo, remote.now, cs);
  }

  lemma GroupEnds(file: Bytes, base: Bytes, group: set<nat>, pending: set<nat>, done: seq<nat>, failure: Option<Cause>,
                  history: seq<Version>, lo: nat, now: nat, cs: u64)
    requires Ran(group, pending, done, failure) && (pending == {} || failure.Some?)
    requires Fetching(file, base, SetOf(done), group - pending, history, lo, now, cs)
    ensures SetOf(done) <= group && (failure.None? ==> SetOf(done) == group)
    ensures Fetching(file, base, SetOf(done), group, history, lo, now, cs)
  {
    assert pending == {} ==> group - pending == group;
  }

  /** Goes through the missing chunks group by group and stops after the first
      group with a failure. Nothing outside the missing chunks is written. */
  method FetchMissing(remote: RemoteFile, part: array<byte>, cs: u64, missing: seq<nat>, concurrency: nat, retries: nat)
    returns (done: seq<nat>, failure: Option<Cause>)
    requires remote.Valid() && part.Length < U64_LIMIT && cs > 0 && concurrency > 0
    requires Distinct(missing) && SetOf(missing) <= AllChunks(part.Length, cs)
    modifies part, remote
    ensures remote.Valid() && old(remote.now) <= remote.now && remote.readFaults <= old(remote.readFaults)
    ensures Distinct(done) && SetOf(done) <= SetOf(missing) && (failure.None? ==> SetOf(done) == SetOf(missing))
    ensures Fetching(part[..], old(part[..]), SetOf(done), SetOf(missing), remote.history, old(remote.now), remote.now,
                     cs)
    ensures failure.None? ==>
              InGroups(part[..], missing, concurrency, remote.history, old(remote.now), remote.now, cs)
    ensures old(remote.Quiet()) ==> remote.Quiet() && remote.history[remote.now] == remote.history[old(remote.now)]
    ensures old(remote.Delivers(part.Length, retries)) ==> failure.None?
    ensures failure.Some? ==> failure.value != ChangedDuringTransfer
  {
    ghost var base, lo, times := part[..], remote.now, [remote.now];
    var next: nat := 0;
    done, failure := [], None;
    while next < |missing| && failure.None?
      invariant next <= |missing| && Distinct(done) && SetOf(done) <= SetOf(missing[..next])
      invariant failure.None? ==> SetOf(done) == SetOf(missing[..next])
      invariant remote.Valid() && lo <= remote.now && remote.readFaults <= old(remote.readFaults)
      invariant Fetching(part[..], base, SetOf(done), SetOf(missing[..next]), remote.history, lo, remote.now, cs)
      invariant failure.None? ==>
                  && Timed(times, lo, remote.now, next, |missing|, concurrency)
                  && GroupsRead(part[..], missing[..next], concurrency, remote.history, cs, times)
      invariant old(remote.Quiet()) ==> remote.Quiet() && remote.history[remote.now] == remote.history[old(remote.now)]
      invariant old(remote.Delivers(part.Length, retries)) ==> failure.None?
      invariant failure.Some? ==> failure.value != ChangedDuringTransfer
      decreases |missing| - next
    {
      ghost var before, at := part[..], remote.now;
      var ran;
      var end := Min(next + concurrency, |missing|);
      ran, failure := FetchOneGroup(remote, part, cs, missing, next, end, retries, base, lo, done);
      if failure.None? {
        GroupAdded(before, part[..], missing, next, end, concurrency, remote.history, lo, at, remote.now, cs, times);
        times := times + [remote.now];
      }
      done := done + ran;
      next := end;
    }
    PrefixOf(missing, next);
    assert missing[..|missing|] == missing;
  }

  /** The group of the missing chunks from number next to end. */
  method FetchOneGroup(remote: RemoteFile, part: array<byte>, cs: u64, missing: seq<nat>, next: nat, end: nat,
                       retries: nat, ghost base: Bytes, ghost lo: nat, ghost done: seq<nat>)
    returns (ran: seq<nat>, failure: Option<Cause>)
    requires remote.Valid() && part.Length < U64_LIMIT && cs > 0 && next <= end <= |missing|
    requires Distinct(missing) && SetOf(missing) <= AllChunks(part.Length, cs)
    requires Distinct(done) && SetOf(done) == SetOf(missing[..next]) && lo <= remote.now
    requires Fetching(part[..], base, SetOf(done), SetOf(missing[..next]), remote.history, lo, remote.now, cs)
    modifies part, remote
    ensures remote.Valid() && old(remote.now) <= remote.now && remote.readFaults <= old(remote.readFaults)
    ensures Distinct(done + ran) && SetOf(done + ran) <= SetOf(missing[..end])
    ensures failure.None? ==>
              && SetOf(done + ran) == SetOf(missing[..end])
              && Fetching(part[..], old(part[..]), SetOf(missing[next..end]), SetOf(missing[next..end]), remote.history,
                          old(remote.now), remote.now, cs)
    ensures Fetching(part[..], base, SetOf(done + ran), SetOf(missing[..end]), remote.history, lo, remote.now, cs)
    ensures old(remote.Quiet()) ==> remote.Quiet() && remote.history[remote.now] == remote.history[old(remote.now)]
    ensures old(remote.Delivers(part.Length, retries)) ==> failure.None?
    ensures failure.Some? ==> failure.value != ChangedDuringTransfer
  {
    GroupIsNew(missing, next, end);
    ghost var before, at := part[..], remote.now;
    ghost var first, group := SetOf(missing[..next]), SetOf(missing[next..end]);
    ran, failure := FetchGroup(remote, part, cs, SetOf(missing[next..end]), retries);
    JoinDone(done, ran, first, group);
    FetchingJoins(before, part[..], base, SetOf(done), first, SetOf(ran), group, remote.history, lo, at, remote.now,
                  cs);
  }

  lemma PrefixOf(missing: seq<nat>, next: nat)
    requires next <= |missing|
    ensures SetOf(missing[..next]) <= SetOf(missing)
    ensures next == |missing| ==> SetOf(missing[..next]) == SetOf(missing)
  {
    if next == |missing| {
      assert missing[..next] == missing;
    }
  }

  lemma GroupIsNew(missing: seq<nat>, next: nat, end: nat)
    requires next <= end <= |missing| && Distinct(missing)
    ensures SetOf(missing[next..end]) <= SetOf(missing)
    ensures SetOf(missing[next..end]) !! SetOf(missing[..next])
    ensures SetOf(missing[..end]) == SetOf(missing[..next]) + SetOf(missing[next..end])
  {
    assert missing[..end] == missing[..next] + missing[next..end];
  }

  lemma JoinDone(done: seq<nat>, ran: seq<nat>, before: set<nat>, group: set<nat>)
    requires Distinct(done) && Distinct(ran) && SetOf(done) <= before && SetOf(ran) <= group && before !! group
    ensures Distinct(done + ran) && SetOf(done + ran) == SetOf(done) + SetOf(ran)
  {
    forall i, j | 0 <= i < j < |done + ran|
      ensures (done + ran)[i] != (done + ran)[j]
    {
      if i < |done| <= j {
        assert done[i] in SetOf(done) && ran[j - |done|] in SetOf(ran);
      }
    }
  }
}
