/** What a chunk transfer puts together (src/sync.rs): a file made of chunks kept
    from an earlier attempt and chunks read now. */
module Assembly {
  import opened Blocks
  import opened ChunkPlan
  import opened History
  import opened Primitives

  /** The part file after `set_len`: cut off, or continued with zeros. */
  function Resized(file: Bytes, size: nat): (r: Bytes)
    ensures |r| == size
    ensures forall i :: 0 <= i < size ==> r[i] == if i < |file| then file[i] else 0
    ensures |file| == size ==> r == file
  {
    if size <= |file| then file[..size] else file + Zeros(size - |file|)
  }

  ghost predicate BlockInOrder(history: seq<Version>, lo: nat, hi: nat, cs: u64, k: nat, file: Bytes) {
    InOrder(history, lo, hi, Offset(cs, k), Block(file, cs, k))
  }

  /** The two files differ in block k at most. */
  ghost predicate OnlyBlock(before: Bytes, after: Bytes, cs: u64, k: nat) {
    |after| == |before| && forall j: nat :: j != k ==> Block(after, cs, j) == Block(before, cs, j)
  }

  /** Every chunk in `done` is the one of `base` when it was kept, and was read
      between lo and hi otherwise. */
  ghost predicate Grown(file: Bytes, base: Bytes, kept: set<nat>, done: set<nat>, history: seq<Version>, lo: nat,
                        hi: nat, cs: u64)
  {
    && |file| == |base|
    && forall k: nat :: k in done ==>
         if k in kept then Block(file, cs, k) == Block(base, cs, k) else BlockInOrder(history, lo, hi, cs, k, file)
  }

  function AllChunks(size: u64, cs: u64): set<nat>
    requires cs > 0
  {
    Below(ChunkCount(size, cs))
  }

  function Below(n: nat): (r: set<nat>)
    ensures forall k: nat :: k in r <==> k < n
  {
    if n == 0 then {} else Below(n - 1) + {n - 1}
  }

  /** A complete file: kept chunks and chunks read between lo and hi. */
  ghost predicate Assembled(file: Bytes, base: Bytes, kept: set<nat>, history: seq<Version>, lo: nat, hi: nat, cs: u64)
    requires cs > 0
  {
    |base| < U64_LIMIT && Grown(file, base, kept, AllChunks(|base|, cs), history, lo, hi, cs)
  }

  /** The chunks in `kept` hold what `content` holds there. */
  ghost predicate Intact(base: Bytes, kept: set<nat>, content: Bytes, cs: u64) {
    forall k: nat :: k in kept ==> Block(base, cs, k) == Block(content, cs, k)
  }

  // ----- while chunks are being fetched

  /** The part file in the middle of an attempt: chunks outside `dirty` are
      untouched, those in `fetched` were read between lo and hi. */
  ghost predicate Fetching(file: Bytes, base: Bytes, fetched: set<nat>, dirty: set<nat>, history: seq<Version>, lo: nat,
                           hi: nat, cs: u64)
  {
    && |file| == |base|
    && (forall k: nat :: k !in dirty ==> Block(file, cs, k) == Block(base, cs, k))
    && (forall k: nat :: k in fetched ==> BlockInOrder(history, lo, hi, cs, k, file))
  }

  lemma FetchStep(file: Bytes, next: Bytes, base: Bytes, fetched: set<nat>, dirty: set<nat>, history: seq<Version>,
                  lo: nat, mid: nat, hi: nat, cs: u64, k: nat)
    requires Fetching(file, base, fetched, dirty, history, lo, mid, cs) && lo <= mid <= hi
    requires OnlyBlock(file, next, cs, k) && k !in fetched
    ensures Fetching(next, base, fetched, dirty + {k}, history, lo, hi, cs)
    ensures BlockInOrder(history, mid, hi, cs, k, next) ==>
              Fetching(next, base, fetched + {k}, dirty + {k}, history, lo, hi, cs)
  {
    forall j: nat | j in fetched
      ensures BlockInOrder(history, lo, hi, cs, j, next)
    {
      InOrderWithin(history, lo, mid, lo, hi, Offset(cs, j), Block(file, cs, j));
    }
    if BlockInOrder(history, mid, hi, cs, k, next) {
      InOrderWithin(history, mid, hi, lo, hi, Offset(cs, k), Block(next, cs, k));
    }
  }

  /** One group after what was fetched before it. */
  lemma FetchingJoins(file: Bytes, next: Bytes, base: Bytes, fetched: set<nat>, dirty: set<nat>, done: set<nat>,
                      group: set<nat>, history: seq<Version>, lo: nat, mid: nat, hi: nat, cs: u64)
    requires Fetching(file, base, fetched, dirty, history, lo, mid, cs) && lo <= mid <= hi
    requires Fetching(next, file, done, group, history, mid, hi, cs) && fetched !! group
    ensures Fetching(next, base, fetched + done, dirty + group, history, lo, hi, cs)
  {
    forall k: nat | k in fetched + done
      ensures BlockInOrder(history, lo, hi, cs, k, next)
    {
      if k in done {
        InOrderWithin(history, mid, hi, lo, hi, Offset(cs, k), Block(next, cs, k));
      } else {
        InOrderWithin(history, lo, mid, lo, hi, Offset(cs, k), Block(file, cs, k));
      }
    }
  }

  /** Chunks that are not fetched keep what they held. */
  lemma FetchingKeeps(file: Bytes, base: Bytes, fetched: set<nat>, dirty: set<nat>, history: seq<Version>, lo: nat,
                      hi: nat, cs: u64, kept: set<nat>)
    requires Fetching(file, base, fetched, dirty, history, lo, hi, cs) && kept !! dirty
    ensures Grown(file, base, kept, kept, history, lo, hi, cs)
    ensures fetched !! kept ==> Grown(file, base, kept, kept + fetched, history, lo, hi, cs)
  {
  }

  lemma GrownLonger(file: Bytes, base: Bytes, kept: set<nat>, done: set<nat>, history: seq<Version>, lo: nat, hi: nat,
                    later: nat, cs: u64)
    requires Grown(file, base, kept, done, history, lo, hi, cs) && hi <= later
    ensures Grown(file, base, kept, done, history, lo, later, cs)
  {
    forall k: nat | k in done && k !in kept
      ensures BlockInOrder(history, lo, later, cs, k, file)
    {
      InOrderWithin(history, lo, hi, lo, later, Offset(cs, k), Block(file, cs, k));
    }
  }

  lemma GrownEarlier(file: Bytes, base: Bytes, kept: set<nat>, done: set<nat>, history: seq<Version>, earlier: nat,
                     lo: nat, hi: nat, cs: u64)
    requires Grown(file, base, kept, done, history, lo, hi, cs) && earlier <= lo
    ensures Grown(file, base, kept, done, history, earlier, hi, cs)
  {
    forall k: nat | k in done && k !in kept
      ensures BlockInOrder(history, earlier, hi, cs, k, file)
    {
      InOrderWithin(history, lo, hi, earlier, hi, Offset(cs, k), Block(file, cs, k));
    }
  }

  // ----- a source that does not change

  /** Chunks read from a still source are its chunks. */
  lemma StillChunk(history: seq<Version>, lo: nat, hi: nat, cs: u64, k: nat, file: Bytes)
    requires Still(history, lo, hi) && |file| == |history[lo].data| && BlockInOrder(history, lo, hi, cs, k, file)
    ensures Block(file, cs, k) == Block(history[lo].data, cs, k)
  {
    StillInOrder(history, lo, hi, Offset(cs, k), Block(file, cs, k));
  }

  /** If the kept chunks were right, so are all that are done. */
  lemma GrownIsIntact(file: Bytes, base: Bytes, kept: set<nat>, done: set<nat>, history: seq<Version>, lo: nat, hi: nat,
                      cs: u64)
    requires Grown(file, base, kept, done, history, lo, hi, cs)
    requires Still(history, lo, hi) && |base| == |history[lo].data| && Intact(base, kept, history[lo].data, cs)
    ensures Intact(file, done, history[lo].data, cs)
  {
    forall k: nat | k in done
      ensures Block(file, cs, k) == Block(history[lo].data, cs, k)
    {
      if k !in kept {
        StillChunk(history, lo, hi, cs, k, file);
      }
    }
  }

  /** Past the last chunk there is nothing to be right or wrong about. */
  lemma PastTheEnd(base: Bytes, content: Bytes, cs: u64)
    requires cs > 0 && |base| == |content| < U64_LIMIT
    ensures forall k: nat :: k !in AllChunks(|base|, cs) ==> Block(base, cs, k) == [] == Block(content, cs, k)
  {
    ChunksCover(|base|, cs);
    forall k: nat | k !in AllChunks(|base|, cs)
      ensures Block(base, cs, k) == [] == Block(content, cs, k)
    {
      OffsetGrows(cs, ChunkCount(|base|, cs), k);
    }
  }

  /** When the source does not change, the assembled file is the source exactly
      when the kept chunks of the part file were the source's. */
  lemma AssembledIffIntact(file: Bytes, base: Bytes, kept: set<nat>, history: seq<Version>, lo: nat, hi: nat, cs: u64)
    requires cs > 0 && Assembled(file, base, kept, history, lo, hi, cs)
    requires Still(history, lo, hi) && |base| == |history[lo].data|
    ensures file == history[lo].data <==> Intact(base, kept, history[lo].data, cs)
  {
    var content, all := history[lo].data, AllChunks(|base|, cs);
    PastTheEnd(base, content, cs);
    if Intact(base, kept, content, cs) {
      GrownIsIntact(file, base, kept, all, history, lo, hi, cs);
      ChunksCover(|base|, cs);
      EqualBlocks(file, content, cs, ChunkCount(|base|, cs));
    }
  }

  // ----- a source that changes

  /** Strict mode: with fresh times, a source that after the last read still
      shows the size and time of the listing gave only bytes of the listed
      version; the result is that version exactly when the kept chunks were. */
  lemma StrictIsListedVersion(file: Bytes, base: Bytes, kept: set<nat>, history: seq<Version>, listed: nat, lo: nat,
                              hi: nat, cs: u64)
    requires cs > 0 && Assembled(file, base, kept, history, lo, hi, cs)
    requires FreshTimes(history) && listed <= lo <= hi < |history|
    requires history[hi].mtime == history[listed].mtime && |history[hi].data| == |base|
    ensures file == history[listed].data <==> Intact(base, kept, history[listed].data, cs)
  {
    SameTimeMeansStill(history, listed, hi);
    AssembledIffIntact(file, base, kept, history, lo, hi, cs);
  }

  // ----- chunk rows that outlive their part file

  /** Rows that name every chunk: nothing is read, and the part file is published
      as it is. */
  lemma AllKeptIsBase(file: Bytes, base: Bytes, kept: set<nat>, history: seq<Version>, lo: nat, hi: nat, cs: u64)
    requires cs > 0 && Assembled(file, base, kept, history, lo, hi, cs) && AllChunks(|base|, cs) <= kept
    ensures file == base
  {
    ChunksCover(|base|, cs);
    EqualBlocks(file, base, cs, ChunkCount(|base|, cs));
  }
}
