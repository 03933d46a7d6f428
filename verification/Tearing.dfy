/** What a transfer without strict durability can put together while the source
    changes: its chunks are read in groups, each from front to back. */
module Tearing {
  import opened Assembly
  import opened Blocks
  import opened ChunkPlan
  import opened Groups
  import opened History
  import opened Primitives

  // ----- every byte was there

  /** n chunks are needed for this size: what counting them comes to. */
  predicate Counts(n: nat, size: u64, cs: u64) {
    n > 0 && size <= Offset(cs, n) && (size > 0 ==> Offset(cs, n - 1) < size)
  }

  lemma ChunkCountCounts(size: u64, cs: u64)
    requires cs > 0
    ensures Counts(ChunkCount(size, cs), size, cs)
  {
    ChunksCover(size, cs);
    if size > 0 {
      StartsInside(size, cs, ChunkCount(size, cs) - 1);
    }
  }

  lemma HeldByte(file: Bytes, cs: u64, k: nat, pos: nat)
    requires pos < |file| && Holds(cs, k, pos)
    ensures pos - Offset(cs, k) < |Block(file, cs, k)| && Block(file, cs, k)[pos - Offset(cs, k)] == file[pos]
    ensures Min(|file|, Offset(cs, k + 1)) == Offset(cs, k) + |Block(file, cs, k)|
  {
  }

  /** The chunk of a position and its group; the version its byte came from, and the
      one the last byte of the chunk came from. */
  lemma ChunkReads(file: Bytes, n: nat, width: nat, history: seq<Version>, lo: nat, hi: nat, cs: u64, times: seq<nat>,
                   pos: nat)
    returns (k: nat, v: nat, w: nat)
    requires width > 0 && |file| < U64_LIMIT && Counts(n, |file|, cs) && Spans(times, lo, hi) && pos < |file|
    requires GroupsRead(file, Numbers(n), width, history, cs, times)
    ensures k < n && Holds(cs, k, pos)
    ensures var g := GroupOf(k, width); g + 1 < |times| && lo <= times[g] <= v <= w <= times[g + 1] <= hi
    ensures HasByte(history, v, pos, file[pos])
    ensures w < |history| && Min(|file|, Offset(cs, k + 1)) <= |history[w].data|
  {
    k := SomeChunkHolds(cs, n, pos);
    var g := GroupOf(k, width);
    assert ReadInGroup(file, Numbers(n)[k], g, history, cs, times);
    HeldByte(file, cs, k, pos);
    v, w := ReadsOn(history, times[g], times[g + 1], Offset(cs, k), Block(file, cs, k), pos - Offset(cs, k));
  }

  lemma FetchedIsSeen(file: Bytes, width: nat, history: seq<Version>, lo: nat, hi: nat, cs: u64, pos: nat)
    requires width > 0 && cs > 0 && Fetched(file, width, history, lo, hi, cs) && pos < |file|
    ensures SeenAt(history, lo, hi, pos, file[pos])
  {
    var n := ChunkCount(|file|, cs);
    ChunkCountCounts(|file|, cs);
    var times :| Spans(times, lo, hi) && GroupsRead(file, Numbers(n), width, history, cs, times);
    var k, v, w := ChunkReads(file, n, width, history, lo, hi, cs, times, pos);
  }

  /** What one version holds can be fetched. */
  lemma OneVersionIsFetched(history: seq<Version>, v: nat, width: nat, cs: u64)
    requires width > 0 && cs > 0 && v < |history| && |history[v].data| < U64_LIMIT
    ensures Fetched(history[v].data, width, history, v, v, cs)
  {
    var file := history[v].data;
    var n := ChunkCount(|file|, cs);
    var last := GroupOf(n - 1, width);
    ChunkCountCounts(|file|, cs);
    var times: seq<nat> := seq(last + 2, _ => v);
    forall p: nat | p < n
      ensures ReadInGroup(file, Numbers(n)[p], GroupOf(p, width), history, cs, times)
    {
      GroupsAscend(p, n - 1, width);
      OffsetGrows(cs, p, n - 1);
      PlainChunk(history, v, file, cs, p);
    }
    assert GroupsRead(file, Numbers(n), width, history, cs, times) && Spans(times, v, v);
  }

  /** From a still source the file is the source. */
  lemma FetchedFromStill(file: Bytes, width: nat, history: seq<Version>, lo: nat, hi: nat, cs: u64)
    requires width > 0 && cs > 0 && Fetched(file, width, history, lo, hi, cs)
    requires Still(history, lo, hi) && |file| == |history[lo].data|
    ensures file == history[lo].data
  {
    forall pos | 0 <= pos < |file|
      ensures file[pos] == history[lo].data[pos]
    {
      FetchedIsSeen(file, width, history, lo, hi, cs, pos);
    }
  }

  // ----- mixing versions

  /** Up to where a reading that has begun chunk k must go on: the end of the chunk
      when its group is the last, the end of the file otherwise. */
  function ReadEnd(size: u64, n: nat, cs: u64, width: nat, k: nat): nat
    requires width > 0 && n > 0
  {
    if GroupOf(k, width) == GroupOf(n - 1, width) then Min(size, Offset(cs, k + 1)) else size
  }

  /** Version lo, but one byte of chunk k from v and what follows, up to `end`, from w. */
  function Torn(history: seq<Version>, lo: nat, v: nat, w: nat, pos: nat, end: nat): (r: Bytes)
    requires lo < |history| && v < |history| && w < |history|
    requires pos < end <= |history[w].data| && pos < |history[v].data| && end <= |history[lo].data|
    ensures |r| == |history[lo].data| && r[pos] == history[v].data[pos]
  {
    Mixed(history, lo, v, w, pos, end) + history[lo].data[end..]
  }

  lemma TornBytes(history: seq<Version>, lo: nat, v: nat, w: nat, pos: nat, end: nat)
    requires lo < |history| && v < |history| && w < |history|
    requires pos < end <= |history[w].data| && pos < |history[v].data| && end <= |history[lo].data|
    ensures var r := Torn(history, lo, v, w, pos, end);
            forall i :: 0 <= i < |r| && i != pos ==>
              r[i] == if pos < i < end then history[w].data[i] else history[lo].data[i]
  {
  }

  /** Where all of a chunk comes from one version. */
  lemma PlainChunk(history: seq<Version>, u: nat, file: Bytes, cs: u64, k: nat)
    requires u < |history| && Offset(cs, k) + |Block(file, cs, k)| <= |history[u].data|
    requires forall i :: Offset(cs, k) <= i < Offset(cs, k) + |Block(file, cs, k)| ==>
               i < |file| && file[i] == history[u].data[i]
    ensures BlockInOrder(history, u, u, cs, k, file)
  {
    var at, block := Offset(cs, k), Block(file, cs, k);
    if block == [] {
      NothingInOrder(history, u, u, at);
    } else {
      assert block == history[u].data[at..at + |block|];
      PieceInOrder(history, u, at, block);
    }
  }

  lemma TornChunk(history: seq<Version>, lo: nat, v: nat, w: nat, pos: nat, end: nat, cs: u64, k: nat)
    requires lo <= v <= w < |history| && pos < end <= |history[w].data| && pos < |history[v].data|
    requires end <= |history[lo].data| && Holds(cs, k, pos)
    requires Min(|history[lo].data|, Offset(cs, k + 1)) <= end
    ensures BlockInOrder(history, lo, w, cs, k, Torn(history, lo, v, w, pos, end))
  {
    MixedInOrder(history, lo, v, w, pos, end);
    FrontInOrder(history, lo, w, Mixed(history, lo, v, w, pos, end), history[lo].data[end..], cs, k);
  }

  /** A chunk inside the front of a file that was read in order. */
  lemma FrontInOrder(history: seq<Version>, lo: nat, hi: nat, front: Bytes, rest: Bytes, cs: u64, k: nat)
    requires InOrder(history, lo, hi, 0, front)
    requires Offset(cs, k) <= |front| && Min(|front| + |rest|, Offset(cs, k) + cs) <= |front|
    ensures BlockInOrder(history, lo, hi, cs, k, front + rest)
  {
    BlockOfFront(front, rest, cs, k);
    InOrderSlice(history, lo, hi, 0, front, Offset(cs, k), Offset(cs, k) + |Block(front + rest, cs, k)|);
  }

  lemma BlockOfFront(front: Bytes, rest: Bytes, cs: u64, k: nat)
    requires Offset(cs, k) <= |front| && Min(|front| + |rest|, Offset(cs, k) + cs) <= |front|
    ensures var at, len := Offset(cs, k), |Block(front + rest, cs, k)|;
            at + len <= |front| && Block(front + rest, cs, k) == front[at..at + len]
  {
  }

  /** The chunks before chunk k of the torn file come from version lo. */
  lemma ChunkBefore(history: seq<Version>, lo: nat, v: nat, w: nat, pos: nat, end: nat, cs: u64, k: nat, p: nat)
    requires lo < |history| && v < |history| && w < |history| && pos < |history[v].data|
    requires pos < end <= |history[w].data| && end <= |history[lo].data| && Holds(cs, k, pos) && p < k
    ensures BlockInOrder(history, lo, lo, cs, p, Torn(history, lo, v, w, pos, end))
  {
    OffsetGrows(cs, p + 1, k);
    TornBytes(history, lo, v, w, pos, end);
    PlainChunk(history, lo, Torn(history, lo, v, w, pos, end), cs, p);
  }

  /** The chunks after it come from w when the whole file is read on, and from lo
      when only chunk k is. */
  lemma ChunkAfter(history: seq<Version>, lo: nat, v: nat, w: nat, pos: nat, end: nat, cs: u64, k: nat, p: nat)
    requires lo < |history| && v < |history| && w < |history| && pos < |history[v].data|
    requires pos < end <= |history[w].data| && end <= |history[lo].data| && Holds(cs, k, pos) && k < p
    requires Offset(cs, p) <= |history[lo].data| && (end == |history[lo].data| || end == Offset(cs, k + 1))
    ensures var u := if end == |history[lo].data| then w else lo;
            BlockInOrder(history, u, u, cs, p, Torn(history, lo, v, w, pos, end))
  {
    OffsetGrows(cs, k + 1, p);
    TornBytes(history, lo, v, w, pos, end);
    PlainChunk(history, if end == |history[lo].data| then w else lo, Torn(history, lo, v, w, pos, end), cs, p);
  }

  /** Moments for the groups: chunk k, in group g, is read from lo to w. */
  function TornTimes(g: nat, last: nat, lo: nat, w: nat): (times: seq<nat>)
    requires g <= last
    ensures |times| == last + 2 && forall h :: 0 <= h < |times| ==> times[h] == if h <= g then lo else w
  {
    seq(last + 2, h => if h <= g then lo else w)
  }

  /** Chunk p, in group h. */
  lemma TornGroup(history: seq<Version>, lo: nat, v: nat, w: nat, pos: nat, end: nat, cs: u64, k: nat, g: nat, p: nat,
                  h: nat, last: nat)
    requires lo <= v <= w < |history| && pos < |history[v].data| && Holds(cs, k, pos)
    requires pos < end <= |history[w].data| && end <= |history[lo].data| && Offset(cs, p) <= |history[lo].data|
    requires end == |history[lo].data| || end == Offset(cs, k + 1)
    requires g <= last && h <= last && (p < k ==> h <= g) && (p == k ==> h == g) && (p > k ==> h >= g)
    requires p > k && end != |history[lo].data| ==> h == g
    ensures ReadInGroup(Torn(history, lo, v, w, pos, end), p, h, history, cs, TornTimes(g, last, lo, w))
  {
    var file, times := Torn(history, lo, v, w, pos, end), TornTimes(g, last, lo, w);
    if p == k {
      TornChunk(history, lo, v, w, pos, end, cs, k);
    } else if p < k {
      ChunkBefore(history, lo, v, w, pos, end, cs, k, p);
      WidenChunk(history, lo, times[h], times[h + 1], cs, p, file);
    } else {
      ChunkAfter(history, lo, v, w, pos, end, cs, k, p);
      WidenChunk(history, if end == |history[lo].data| then w else lo, times[h], times[h + 1], cs, p, file);
    }
  }

  lemma OneOfGroups(history: seq<Version>, lo: nat, v: nat, w: nat, pos: nat, end: nat, cs: u64, width: nat, n: nat,
                    k: nat, p: nat)
    requires width > 0 && lo <= v <= w < |history| && pos < |history[v].data|
    requires pos < |history[lo].data| < U64_LIMIT && Counts(n, |history[lo].data|, cs) && Holds(cs, k, pos)
    requires end == |history[lo].data| || end == ReadEnd(|history[lo].data|, n, cs, width, k)
    requires pos < end <= |history[w].data| && end <= |history[lo].data|
    requires p < n && GroupOf(k, width) <= GroupOf(n - 1, width)
    ensures ReadInGroup(Torn(history, lo, v, w, pos, end), p, GroupOf(p, width), history, cs,
                        TornTimes(GroupOf(k, width), GroupOf(n - 1, width), lo, w))
  {
    GroupsAscend(Min(p, k), Max(p, k), width);
    GroupsAscend(p, n - 1, width);
    OffsetGrows(cs, p, n - 1);
    TornGroup(history, lo, v, w, pos, end, cs, k, GroupOf(k, width), p, GroupOf(p, width), GroupOf(n - 1, width));
  }

  lemma TornInGroups(history: seq<Version>, lo: nat, v: nat, w: nat, pos: nat, end: nat, cs: u64, width: nat, n: nat,
                     k: nat)
    requires width > 0 && lo <= v <= w < |history| && pos < |history[v].data|
    requires pos < |history[lo].data| < U64_LIMIT && Counts(n, |history[lo].data|, cs) && Holds(cs, k, pos)
    requires end == |history[lo].data| || end == ReadEnd(|history[lo].data|, n, cs, width, k)
    requires pos < end <= |history[w].data| && end <= |history[lo].data|
    ensures InGroups(Torn(history, lo, v, w, pos, end), Numbers(n), width, history, lo, w, cs)
  {
    var file := Torn(history, lo, v, w, pos, end);
    if k >= n {
      OffsetGrows(cs, n, k);
    }
    GroupsAscend(k, n - 1, width);
    var times := TornTimes(GroupOf(k, width), GroupOf(n - 1, width), lo, w);
    forall p: nat | p < n
      ensures ReadInGroup(file, Numbers(n)[p], GroupOf(p, width), history, cs, times)
    {
      OneOfGroups(history, lo, v, w, pos, end, cs, width, n, k, p);
    }
    assert GroupsRead(file, Numbers(n), width, history, cs, times) && Spans(times, lo, w);
  }

  /** The torn file can be fetched. */
  lemma TornIsFetched(history: seq<Version>, lo: nat, v: nat, w: nat, hi: nat, pos: nat, end: nat, cs: u64, width: nat,
                      k: nat)
    requires width > 0 && cs > 0 && lo <= v <= w <= hi && w < |history| && pos < |history[v].data|
    requires pos < |history[lo].data| < U64_LIMIT && Holds(cs, k, pos)
    requires var size := |history[lo].data|; end == size || end == ReadEnd(size, ChunkCount(size, cs), cs, width, k)
    requires pos < end <= |history[w].data| && end <= |history[lo].data|
    ensures Fetched(Torn(history, lo, v, w, pos, end), width, history, lo, hi, cs)
  {
    var n := ChunkCount(|history[lo].data|, cs);
    ChunkCountCounts(|history[lo].data|, cs);
    TornInGroups(history, lo, v, w, pos, end, cs, width, n, k);
    InGroupsWithin(Torn(history, lo, v, w, pos, end), Numbers(n), width, history, lo, w, lo, hi, cs);
  }

  lemma WidenChunk(history: seq<Version>, u: nat, a: nat, b: nat, cs: u64, p: nat, file: Bytes)
    requires a <= u <= b && BlockInOrder(history, u, u, cs, p, file)
    ensures BlockInOrder(history, a, b, cs, p, file)
  {
    InOrderWithin(history, u, u, a, b, Offset(cs, p), Block(file, cs, p));
  }

  // ----- when the result is sure

  /** Two contents differ in one byte at most. */
  ghost predicate OneByteApart(a: Bytes, b: Bytes) {
    |a| == |b| && forall p, q :: 0 <= p < q < |a| ==> a[p] == b[p] || a[q] == b[q]
  }

  /** Without the check at the end, a transfer across one change of a source that
      keeps its size is sure to publish one of the two versions exactly when they
      differ in one byte at most, whatever the chunks and their groups. */
  lemma LaxIsAVersionIff(history: seq<Version>, lo: nat, hi: nat, cs: u64, width: nat)
    requires width > 0 && cs > 0 && hi == lo + 1 < |history|
    requires |history[lo].data| == |history[hi].data| < U64_LIMIT
    ensures (forall file: Bytes | |file| == |history[lo].data| && Fetched(file, width, history, lo, hi, cs) ::
               file == history[lo].data || file == history[hi].data)
            <==> OneByteApart(history[lo].data, history[hi].data)
  {
    var first, second := history[lo].data, history[hi].data;
    if OneByteApart(first, second) {
      forall file: Bytes | |file| == |first| && Fetched(file, width, history, lo, hi, cs)
        ensures file == first || file == second
      {
        OneOfTwo(history, lo, hi, file, cs, width);
      }
    } else {
      var p, q :| 0 <= p < q < |first| && first[p] != second[p] && first[q] != second[q];
      ChunksCover(|first|, cs);
      var k := SomeChunkHolds(cs, ChunkCount(|first|, cs), p);
      TornIsFetched(history, lo, lo, hi, hi, p, |first|, cs, width, k);
      var file := Torn(history, lo, lo, hi, p, |first|);
      assert file[p] == first[p] && file[q] == second[q];
    }
  }

  lemma OneOfTwo(history: seq<Version>, lo: nat, hi: nat, file: Bytes, cs: u64, width: nat)
    requires width > 0 && cs > 0 && hi == lo + 1 < |history| && OneByteApart(history[lo].data, history[hi].data)
    requires |file| == |history[lo].data| && Fetched(file, width, history, lo, hi, cs)
    ensures file == history[lo].data || file == history[hi].data
  {
    var first, second := history[lo].data, history[hi].data;
    forall j | 0 <= j < |file|
      ensures file[j] == first[j] || file[j] == second[j]
    {
      FetchedIsSeen(file, width, history, lo, hi, cs, j);
    }
    if p :| 0 <= p < |file| && file[p] != first[p] {
      forall j | 0 <= j < |file|
        ensures file[j] == second[j]
      {
        assert j != p ==> first[j] == second[j];
      }
    }
  }

  /** A version differs from the listed one at some position of its size, and a
      version that is not older is long enough for the reading to go on. */
  ghost predicate Tears(history: seq<Version>, listed: nat, hi: nat, cs: u64, width: nat)
    requires width > 0 && cs > 0 && listed < |history| && |history[listed].data| < U64_LIMIT
  {
    exists v: nat, w: nat, k: nat, pos: nat ::
      && listed <= v <= w <= hi && w < |history| && DiffersAt(history, listed, v, pos) && Holds(cs, k, pos)
      && ReadEnd(|history[listed].data|, ChunkCount(|history[listed].data|, cs), cs, width, k) <= |history[w].data|
  }

  /** And it is sure to publish the listed version exactly when nothing tears it. */
  lemma LaxIsListedIff(history: seq<Version>, listed: nat, hi: nat, cs: u64, width: nat)
    requires width > 0 && cs > 0 && listed <= hi < |history| && |history[listed].data| < U64_LIMIT
    ensures (forall file: Bytes | |file| == |history[listed].data| && Fetched(file, width, history, listed, hi, cs) ::
               file == history[listed].data)
            <==> !Tears(history, listed, hi, cs, width)
  {
    var content := history[listed].data;
    if v: nat, w: nat, k: nat, pos: nat :|
      && listed <= v <= w <= hi && w < |history| && DiffersAt(history, listed, v, pos) && Holds(cs, k, pos)
      && ReadEnd(|content|, ChunkCount(|content|, cs), cs, width, k) <= |history[w].data|
    {
      var end := ReadEnd(|content|, ChunkCount(|content|, cs), cs, width, k);
      TornIsFetched(history, listed, v, w, hi, pos, end, cs, width, k);
      assert Torn(history, listed, v, w, pos, end)[pos] != content[pos];
    }
    if file: Bytes :| |file| == |content| && Fetched(file, width, history, listed, hi, cs) && file != content {
      WrongMeansTorn(history, listed, hi, file, cs, width);
    }
  }

  lemma WrongMeansTorn(history: seq<Version>, listed: nat, hi: nat, file: Bytes, cs: u64, width: nat)
    requires width > 0 && cs > 0 && listed <= hi < |history|
    requires |file| == |history[listed].data| && file != history[listed].data
    requires Fetched(file, width, history, listed, hi, cs)
    ensures Tears(history, listed, hi, cs, width)
  {
    var n := ChunkCount(|file|, cs);
    ChunkCountCounts(|file|, cs);
    var times :| Spans(times, listed, hi) && GroupsRead(file, Numbers(n), width, history, cs, times);
    var pos :| 0 <= pos < |file| && file[pos] != history[listed].data[pos];
    var k, v, w := WrongByte(history, listed, hi, file, n, cs, width, times, pos);
    assert DiffersAt(history, listed, v, pos);
  }

  /** The version a byte came from, and one that the reading needed after it. */
  lemma WrongByte(history: seq<Version>, lo: nat, hi: nat, file: Bytes, n: nat, cs: u64, width: nat, times: seq<nat>,
                  pos: nat)
    returns (k: nat, v: nat, w: nat)
    requires width > 0 && |file| < U64_LIMIT && Counts(n, |file|, cs) && pos < |file| && Spans(times, lo, hi)
    requires GroupsRead(file, Numbers(n), width, history, cs, times)
    ensures lo <= v <= w <= hi && w < |history| && HasByte(history, v, pos, file[pos]) && Holds(cs, k, pos)
    ensures ReadEnd(|file|, n, cs, width, k) <= |history[w].data|
  {
    k, v, w := ChunkReads(file, n, width, history, lo, hi, cs, times, pos);
    var g, last := GroupOf(k, width), GroupOf(n - 1, width);
    if g != last {
      // the last group reads the last byte of the file
      var j, u, u' := ChunkReads(file, n, width, history, lo, hi, cs, times, |file| - 1);
      if j < n - 1 {
        OffsetGrows(cs, j + 1, n - 1);
      }
      GroupsAscend(k, n - 1, width);
      Ascends(times, g + 1, last);
      w := u;
    }
  }

  lemma Ascends(times: seq<nat>, i: nat, j: nat)
    requires i <= j < |times| && forall a, b :: 0 <= a < b < |times| ==> times[a] <= times[b]
    ensures times[i] <= times[j]
  {
  }
}
