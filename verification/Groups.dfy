/** Chunks are read in groups, one group after the other (src/sync.rs): the order
    this gives to the bytes of a file, and what it means for a source that changes. */
module Groups {
  import opened Assembly
  import opened Blocks
  import opened ChunkPlan
  import opened History
  import opened Primitives

  // ----- reading in groups

  /** The group that chunk number p of those to fetch falls into. */
  function GroupOf(p: nat, width: nat): nat
    requires width > 0
    decreases p
  {
    if p < width then 0 else GroupOf(p - width, width) + 1
  }

  lemma {:induction false} GroupsAscend(p: nat, q: nat, width: nat)
    requires width > 0 && p <= q
    ensures GroupOf(p, width) <= GroupOf(q, width)
    decreases q
  {
    if p >= width {
      GroupsAscend(p - width, q - width, width);
    }
  }

  lemma {:induction false} InsideGroup(p: nat, g: nat, width: nat)
    requires width > 0 && Offset(width, g) <= p < Offset(width, g) + width
    ensures GroupOf(p, width) == g
  {
    if g > 0 {
      InsideGroup(p - width, g - 1, width);
    }
  }

  /** Group g of `width` chunks was read between times[g] and times[g + 1], each
      chunk on its own. */
  ghost predicate GroupsRead(file: Bytes, order: seq<nat>, width: nat, history: seq<Version>, cs: u64, times: seq<nat>)
    requires width > 0
  {
    && (forall i, j :: 0 <= i < j < |times| ==> times[i] <= times[j])
    && (forall p: nat {:trigger order[p]} :: p < |order| ==>
          ReadInGroup(file, order[p], GroupOf(p, width), history, cs, times))
  }

  ghost predicate ReadInGroup(file: Bytes, k: nat, g: nat, history: seq<Version>, cs: u64, times: seq<nat>) {
    g + 1 < |times| && BlockInOrder(history, times[g], times[g + 1], cs, k, file)
  }

  /** Everything was read in groups between lo and hi. */
  ghost predicate InGroups(file: Bytes, order: seq<nat>, width: nat, history: seq<Version>, lo: nat, hi: nat, cs: u64)
    requires width > 0
  {
    exists times :: Spans(times, lo, hi) && GroupsRead(file, order, width, history, cs, times)
  }

  predicate Spans(times: seq<nat>, lo: nat, hi: nat) {
    times != [] && lo <= times[0] && times[|times| - 1] <= hi
  }

  lemma InGroupsWithin(file: Bytes, order: seq<nat>, width: nat, history: seq<Version>, lo: nat, hi: nat, lo': nat,
                       hi': nat, cs: u64)
    requires width > 0 && InGroups(file, order, width, history, lo, hi, cs) && lo' <= lo && hi <= hi'
    ensures InGroups(file, order, width, history, lo', hi', cs)
  {
    var times :| Spans(times, lo, hi) && GroupsRead(file, order, width, history, cs, times);
    assert Spans(times, lo', hi');
  }

  /** The moments noted while group after group is fetched, `next` chunks so far. */
  predicate Timed(times: seq<nat>, lo: nat, now: nat, next: nat, count: nat, width: nat) {
    && times != [] && times[0] == lo && times[|times| - 1] == now
    && next == Min(Offset(width, |times| - 1), count)
  }

  lemma TimesAdded(times: seq<nat>, lo: nat, at: nat, now: nat, from: nat, count: nat, width: nat)
    requires from < count && at <= now && Timed(times, lo, at, from, count, width)
    requires forall i, j :: 0 <= i < j < |times| ==> times[i] <= times[j]
    ensures Timed(times + [now], lo, now, Min(from + width, count), count, width)
    ensures forall i, j :: 0 <= i < j < |times + [now]| ==> (times + [now])[i] <= (times + [now])[j]
  {
    assert Offset(width, |times|) == Offset(width, |times| - 1) + width;
  }

  lemma GroupAdded(file: Bytes, next: Bytes, missing: seq<nat>, from: nat, end: nat, width: nat, history: seq<Version>,
                   lo: nat, at: nat, now: nat, cs: u64, times: seq<nat>)
    requires width > 0 && from < |missing| && end == Min(from + width, |missing|) && at <= now
    requires forall i, j :: 0 <= i < j < |missing| ==> missing[i] != missing[j]
    requires Timed(times, lo, at, from, |missing|, width)
    requires GroupsRead(file, missing[..from], width, history, cs, times)
    requires var group := set k | k in missing[from..end]; Fetching(next, file, group, group, history, at, now, cs)
    ensures Timed(times + [now], lo, now, end, |missing|, width)
    ensures GroupsRead(next, missing[..end], width, history, cs, times + [now])
  {
    TimesAdded(times, lo, at, now, from, |missing|, width);
    forall p: nat | p < end
      ensures ReadInGroup(next, missing[..end][p], GroupOf(p, width), history, cs, times + [now])
    {
      if p < from {
        assert missing[..from][p] == missing[p];
        OldGroup(file, next, missing, from, end, p, GroupOf(p, width), history, at, now, cs, times);
      } else {
        InsideGroup(p, |times| - 1, width);
        NewGroup(file, next, missing, from, end, p, history, at, now, cs, times);
      }
    }
  }

  lemma NewGroup(file: Bytes, next: Bytes, missing: seq<nat>, from: nat, end: nat, p: nat, history: seq<Version>,
                 at: nat, now: nat, cs: u64, times: seq<nat>)
    requires from <= p < end <= |missing| && times != [] && times[|times| - 1] == at
    requires var group := set k | k in missing[from..end]; Fetching(next, file, group, group, history, at, now, cs)
    ensures ReadInGroup(next, missing[p], |times| - 1, history, cs, times + [now])
  {
    assert missing[from..end][p - from] == missing[p];
  }

  /** What is fetched later leaves the chunks of earlier groups alone. */
  lemma OldGroup(file: Bytes, next: Bytes, missing: seq<nat>, from: nat, end: nat, p: nat, g: nat,
                 history: seq<Version>, at: nat, now: nat, cs: u64, times: seq<nat>)
    requires p < from <= end <= |missing|
    requires forall i, j :: 0 <= i < j < |missing| ==> missing[i] != missing[j]
    requires var group := set k | k in missing[from..end]; Fetching(next, file, group, group, history, at, now, cs)
    requires ReadInGroup(file, missing[..from][p], g, history, cs, times)
    ensures ReadInGroup(next, missing[p], g, history, cs, times + [now])
  {
    assert missing[p] !in missing[from..end];
  }

  /** A file of chunks read in groups, from nothing. */
  ghost predicate Fetched(file: Bytes, width: nat, history: seq<Version>, lo: nat, hi: nat, cs: u64)
    requires width > 0 && cs > 0
  {
    |file| < U64_LIMIT && InGroups(file, Numbers(ChunkCount(|file|, cs)), width, history, lo, hi, cs)
  }
}
