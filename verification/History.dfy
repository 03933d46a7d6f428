/** The successive versions of a source file, and what can be read from it while it
    changes. Reads go from front to back and time only moves forward, so a reader
    never meets an older version behind a newer one. */
module History {
  import opened Primitives

  datatype Version = Version(data: Bytes, mtime: int)

  /** Version v has byte b at pos. */
  predicate HasByte(history: seq<Version>, v: nat, pos: nat, b: byte) {
    v < |history| && pos < |history[v].data| && history[v].data[pos] == b
  }

  /** The bytes of data, placed at `at`, were read from front to back between lo and
      hi: `from` names the version each of them came from. */
  ghost predicate ReadFrom(history: seq<Version>, lo: nat, hi: nat, at: nat, data: Bytes, from: seq<nat>) {
    && |from| == |data|
    && (forall j {:trigger from[j]} :: 0 <= j < |from| ==>
          lo <= from[j] <= hi && HasByte(history, from[j], at + j, data[j]))
    && (forall i, j :: 0 <= i < j < |from| ==> from[i] <= from[j])
  }

  ghost predicate InOrder(history: seq<Version>, lo: nat, hi: nat, at: nat, data: Bytes) {
    exists from :: ReadFrom(history, lo, hi, at, data, from)
  }

  /** data was read from the start up to an end of the file. */
  ghost predicate Whole(history: seq<Version>, lo: nat, hi: nat, data: Bytes) {
    exists end: nat :: EndsAt(history, lo, hi, data, end)
  }

  ghost predicate EndsAt(history: seq<Version>, lo: nat, hi: nat, data: Bytes, end: nat) {
    && lo <= end <= hi && end < |history| && |history[end].data| <= |data|
    && InOrder(history, lo, end, 0, data)
  }

  /** Some version between lo and hi has byte b at pos. */
  ghost predicate SeenAt(history: seq<Version>, lo: nat, hi: nat, pos: nat, b: byte) {
    exists v: nat :: lo <= v <= hi && HasByte(history, v, pos, b)
  }

  /** The source does not change between lo and hi. */
  ghost predicate Still(history: seq<Version>, lo: nat, hi: nat) {
    lo <= hi < |history| && forall v :: lo <= v <= hi ==> history[v] == history[lo]
  }

  /** Every change of the source gives it a modification time it never had. */
  ghost predicate FreshTimes(history: seq<Version>) {
    forall v, w :: 0 <= v < w < |history| ==> history[v].mtime != history[w].mtime
  }

  /** What was read in an interval was read in every wider one. */
  lemma InOrderWithin(history: seq<Version>, lo: nat, hi: nat, lo': nat, hi': nat, at: nat, data: Bytes)
    requires InOrder(history, lo, hi, at, data) && lo' <= lo && hi <= hi'
    ensures InOrder(history, lo', hi', at, data)
  {
    var from :| ReadFrom(history, lo, hi, at, data, from);
    assert ReadFrom(history, lo', hi', at, data, from);
  }

  lemma WholeWithin(history: seq<Version>, lo: nat, hi: nat, lo': nat, hi': nat, data: Bytes)
    requires Whole(history, lo, hi, data) && lo' <= lo && hi <= hi'
    ensures Whole(history, lo', hi', data)
  {
    var end :| EndsAt(history, lo, hi, data, end);
    InOrderWithin(history, lo, end, lo', end, 0, data);
    assert EndsAt(history, lo', hi', data, end);
  }

  lemma WholeIsInOrder(history: seq<Version>, lo: nat, hi: nat, data: Bytes)
    requires Whole(history, lo, hi, data)
    ensures InOrder(history, lo, hi, 0, data)
  {
    var end :| EndsAt(history, lo, hi, data, end);
    InOrderWithin(history, lo, end, lo, hi, 0, data);
  }

  lemma NothingInOrder(history: seq<Version>, lo: nat, hi: nat, at: nat)
    ensures InOrder(history, lo, hi, at, [])
  {
    assert ReadFrom(history, lo, hi, at, [], []);
  }

  /** A piece of one version, read at once. */
  lemma PieceInOrder(history: seq<Version>, v: nat, at: nat, data: Bytes)
    requires v < |history| && at + |data| <= |history[v].data| && data == history[v].data[at..at + |data|]
    ensures InOrder(history, v, v, at, data)
  {
    var from := seq(|data|, j => v);
    forall j | 0 <= j < |from|
      ensures HasByte(history, from[j], at + j, data[j])
    {
      assert data[j] == history[v].data[at + j];
    }
    assert ReadFrom(history, v, v, at, data, from);
  }

  /** Reading on, from a later moment. */
  lemma InOrderAppend(history: seq<Version>, lo: nat, mid: nat, hi: nat, at: nat, data: Bytes, more: Bytes)
    requires lo <= mid <= hi
    requires InOrder(history, lo, mid, at, data) && InOrder(history, mid, hi, at + |data|, more)
    ensures InOrder(history, lo, hi, at, data + more)
  {
    var from :| ReadFrom(history, lo, mid, at, data, from);
    var later :| ReadFrom(history, mid, hi, at + |data|, more, later);
    forall j | 0 <= j < |from + later|
      ensures lo <= (from + later)[j] <= hi && HasByte(history, (from + later)[j], at + j, (data + more)[j])
    {
      if j >= |from| {
        assert HasByte(history, later[j - |from|], at + |data| + (j - |from|), more[j - |from|]);
      } else {
        assert HasByte(history, from[j], at + j, data[j]);
      }
    }
    assert ReadFrom(history, lo, hi, at, data + more, from + later);
  }

  /** The version a byte came from, and the one the last byte came from. */
  lemma ReadsOn(history: seq<Version>, lo: nat, hi: nat, at: nat, data: Bytes, j: nat) returns (v: nat, w: nat)
    requires InOrder(history, lo, hi, at, data) && j < |data|
    ensures lo <= v <= w <= hi && HasByte(history, v, at + j, data[j])
    ensures w < |history| && at + |data| <= |history[w].data|
  {
    var from :| ReadFrom(history, lo, hi, at, data, from);
    v, w := from[j], from[|data| - 1];
    assert HasByte(history, w, at + (|data| - 1), data[|data| - 1]);
  }

  lemma InOrderSlice(history: seq<Version>, lo: nat, hi: nat, at: nat, data: Bytes, a: nat, b: nat)
    requires InOrder(history, lo, hi, at, data) && a <= b <= |data|
    ensures InOrder(history, lo, hi, at + a, data[a..b])
  {
    var from :| ReadFrom(history, lo, hi, at, data, from);
    forall j | 0 <= j < b - a
      ensures lo <= from[a..b][j] <= hi && HasByte(history, from[a..b][j], at + a + j, data[a..b][j])
    {
      assert HasByte(history, from[a + j], at + (a + j), data[a + j]);
    }
    assert ReadFrom(history, lo, hi, at + a, data[a..b], from[a..b]);
  }

  /** While the source is still, what was read is what it holds. */
  lemma StillInOrder(history: seq<Version>, lo: nat, hi: nat, at: nat, data: Bytes)
    requires Still(history, lo, hi) && InOrder(history, lo, hi, at, data)
    ensures data != [] ==> at + |data| <= |history[lo].data| && data == history[lo].data[at..at + |data|]
  {
    var from :| ReadFrom(history, lo, hi, at, data, from);
    forall j | 0 <= j < |data|
      ensures at + j < |history[lo].data| && history[lo].data[at + j] == data[j]
    {
      assert HasByte(history, from[j], at + j, data[j]);
    }
    if data != [] {
      assert HasByte(history, from[|data| - 1], at + (|data| - 1), data[|data| - 1]);
    }
  }

  /** With fresh times, a source that shows the time of version v again at hi has
      not changed since v. */
  lemma SameTimeMeansStill(history: seq<Version>, v: nat, hi: nat)
    requires FreshTimes(history) && v <= hi < |history| && history[hi].mtime == history[v].mtime
    ensures v == hi && Still(history, v, hi)
  {
  }

  // ----- when a reading without any check is sure to be of the listed version

  /** Up to pos from version lo, there from v, and up to `end` from w. */
  function Mixed(history: seq<Version>, lo: nat, v: nat, w: nat, pos: nat, end: nat): (r: Bytes)
    requires lo < |history| && v < |history| && w < |history|
    requires pos < end <= |history[w].data| && pos < |history[v].data| && pos <= |history[lo].data|
    ensures |r| == end && r[pos] == history[v].data[pos]
  {
    history[lo].data[..pos] + [history[v].data[pos]] + history[w].data[pos + 1..end]
  }

  lemma MixedInOrder(history: seq<Version>, lo: nat, v: nat, w: nat, pos: nat, end: nat)
    requires lo <= v <= w < |history|
    requires pos < end <= |history[w].data| && pos < |history[v].data| && pos <= |history[lo].data|
    ensures InOrder(history, lo, w, 0, Mixed(history, lo, v, w, pos, end))
  {
    var from: seq<nat> := seq(end, j => if j < pos then lo else if j == pos then v else w);
    assert ReadFrom(history, lo, w, 0, Mixed(history, lo, v, w, pos, end), from);
  }

  /** Version v differs from the listed one at pos. */
  predicate DiffersAt(history: seq<Version>, listed: nat, v: nat, pos: nat) {
    && listed < |history| && v < |history| && pos < |history[listed].data| && pos < |history[v].data|
    && history[v].data[pos] != history[listed].data[pos]
  }

  /** A version differs from the listed one within its size, a version that is not
      older reaches that size, and one not older than that ends there. */
  ghost predicate Misleads(history: seq<Version>, listed: nat, hi: nat) {
    exists v: nat, w: nat, end: nat, pos: nat ::
      && listed <= v <= w <= end <= hi && end < |history| && DiffersAt(history, listed, v, pos)
      && |history[end].data| <= |history[listed].data| <= |history[w].data|
  }

  /** Reading the whole file, and finding the listed size, is sure to bring the listed
      content exactly when the versions do not mislead. */
  lemma WholeIsListedIff(history: seq<Version>, listed: nat, hi: nat)
    requires listed <= hi < |history|
    ensures (forall data: Bytes | |data| == |history[listed].data| && Whole(history, listed, hi, data) ::
               data == history[listed].data)
            <==> !Misleads(history, listed, hi)
  {
    var content := history[listed].data;
    if v: nat, w: nat, end: nat, pos: nat :|
      && listed <= v <= w <= end <= hi && end < |history| && DiffersAt(history, listed, v, pos)
      && |history[end].data| <= |content| <= |history[w].data|
    {
      var data := Mixed(history, listed, v, w, pos, |content|);
      MixedInOrder(history, listed, v, w, pos, |content|);
      InOrderWithin(history, listed, w, listed, end, 0, data);
      assert EndsAt(history, listed, hi, data, end);
      assert data[pos] != content[pos];
    }
    if data: Bytes :| |data| == |content| && Whole(history, listed, hi, data) && data != content {
      WrongMeansMisled(history, listed, hi, data);
    }
  }

  lemma WrongMeansMisled(history: seq<Version>, listed: nat, hi: nat, data: Bytes)
    requires listed <= hi < |history| && |data| == |history[listed].data| && data != history[listed].data
    requires Whole(history, listed, hi, data)
    ensures Misleads(history, listed, hi)
  {
    var end :| EndsAt(history, listed, hi, data, end);
    var pos :| 0 <= pos < |data| && data[pos] != history[listed].data[pos];
    var v, w := ReadsOn(history, listed, end, 0, data, pos);
    assert DiffersAt(history, listed, v, pos);
  }
}
