/** The listing of a remote tree read from `find` (src/remote.rs): records end
    with NUL, fields are separated by the byte 31, and the bytes arrive in
    arbitrary pieces. The fractional time stamp is read by a parameter. */
module FindParser {
  import opened Listing
  import opened Primitives

  const NUL: byte := 0
  const SEPARATOR: byte := 31
  const DOT: byte := 46
  const PLUS: byte := 43
  const ZERO: byte := 48

  datatype RemoteEntry = RemoteEntry(
    relativePath: Bytes,
    kind: EntryKind,
    size: u64,
    mtime: int,
    mode: u32,
    uid: Option<u32>,
    gid: Option<u32>,
    linkTarget: Option<Bytes>)

  /** Whole seconds of a time stamp text. */
  type Seconds = Bytes -> int

  // ----- splitting

  /** The pieces between separators; one empty piece for the empty string. */
  function SplitOn(s: Bytes, sep: byte): (r: seq<Bytes>)
    ensures |r| >= 1
  {
    if s == [] then [[]]
    else
      var rest := SplitOn(s[1..], sep);
      if s[0] == sep then [[]] + rest else [[s[0]] + rest[0]] + rest[1..]
  }

  predicate Lacks(s: Bytes, b: byte) {
    forall k :: 0 <= k < |s| ==> s[k] != b
  }

  lemma {:induction false} SplitSingle(s: Bytes, sep: byte)
    requires Lacks(s, sep)
    ensures SplitOn(s, sep) == [s]
  {
    if s != [] {
      SplitSingle(s[1..], sep);
      assert [s[0]] + s[1..] == s;
    }
  }

  /** A separator splits independently of what follows it. */
  lemma {:induction false} SplitCons(s: Bytes, sep: byte, tail: Bytes)
    requires Lacks(s, sep)
    ensures SplitOn(s + [sep] + tail, sep) == [s] + SplitOn(tail, sep)
  {
    var all := s + [sep] + tail;
    if s == [] {
      assert all[0] == sep && all[1..] == tail;
    } else {
      assert all[0] == s[0] && all[1..] == s[1..] + [sep] + tail;
      SplitCons(s[1..], sep, tail);
      assert [s[0]] + s[1..] == s;
    }
  }

  // ----- one record

  function DigitOf(b: byte, radix: nat): Option<nat> {
    if ZERO <= b < ZERO + 10 && b - ZERO < radix then Some(b - ZERO) else None
  }

  function Digits(s: Bytes, radix: nat): Option<nat> {
    if s == [] then Some(0)
    else
      var front := Digits(s[..|s| - 1], radix);
      var last := DigitOf(s[|s| - 1], radix);
      if front.Some? && last.Some? then Some(radix * front.value + last.value) else None
  }

  /** Unsigned parsing of the standard library: an optional plus sign, at least
      one digit, and no overflow. */
  function ParseUnsigned(s: Bytes, radix: nat, limit: nat): (r: Option<nat>)
    ensures r.Some? ==> r.value < limit
  {
    var body := if s != [] && s[0] == PLUS then s[1..] else s;
    if body == [] then None
    else
      var v := Digits(body, radix);
      if v.Some? && v.value < limit then v else None
  }

  function Field(parts: seq<Bytes>, k: nat, default: Bytes): Bytes {
    if k < |parts| then parts[k] else default
  }

  function GetOr(v: Option<nat>, default: nat): nat {
    match v
    case Some(x) => x
    case None => default
  }

  const DEFAULT_MODE: u32 := 420  // 0o644

  /** Skips records of other kinds, without a path, and hidden top-level names in
      star mode; missing or malformed fields take their defaults. */
  function ParseRecord(rec: Bytes, star: bool, secs: Seconds): Option<RemoteEntry> {
    if rec == [] then None
    else
      var parts := SplitOn(rec, SEPARATOR);
      var kind := KindOf(parts[0]);
      var rel := Field(parts, 1, []);
      if kind.None? || rel == [] then None
      else if star && rel[0] == DOT then None
      else
        var link := Field(parts, 7, []);
        Some(RemoteEntry(
          rel,
          kind.value,
          GetOr(ParseUnsigned(Field(parts, 2, [ZERO]), 10, U64_LIMIT), 0),
          secs(Field(parts, 3, [ZERO])),
          GetOr(ParseUnsigned(Field(parts, 4, [54, 52, 52]), 8, U32_LIMIT), DEFAULT_MODE),
          ParseUnsigned(Field(parts, 5, []), 10, U32_LIMIT),
          ParseUnsigned(Field(parts, 6, []), 10, U32_LIMIT),
          if link == [] then None else Some(link)))
  }

  function KindOf(s: Bytes): Option<EntryKind> {
    if s == [102] then Some(File) else if s == [100] then Some(Dir) else if s == [108] then Some(Symlink) else None
  }

  // ----- the whole listing

  function ParseAll(records: seq<Bytes>, star: bool, secs: Seconds): seq<RemoteEntry> {
    if records == [] then []
    else
      var first := ParseRecord(records[0], star, secs);
      (if first.Some? then [first.value] else []) + ParseAll(records[1..], star, secs)
  }

  /** The entries of a complete byte stream. */
  function Entries(stream: Bytes, star: bool, secs: Seconds): seq<RemoteEntry> {
    ParseAll(SplitOn(stream, NUL), star, secs)
  }

  /** What a sequence of reads delivers: everything up to the first empty read. */
  function Delivered(arrivals: seq<Bytes>): Bytes {
    if arrivals == [] || arrivals[0] == [] then [] else arrivals[0] + Delivered(arrivals[1..])
  }

  lemma EntriesOfRecord(rec: Bytes, tail: Bytes, star: bool, secs: Seconds)
    requires Lacks(rec, NUL)
    ensures Entries(rec + [NUL] + tail, star, secs)
            == (var e := ParseRecord(rec, star, secs); if e.Some? then [e.value] else []) + Entries(tail, star, secs)
    ensures Entries(rec, star, secs) == (var e := ParseRecord(rec, star, secs); if e.Some? then [e.value] else [])
  {
    SplitCons(rec, NUL, tail);
    SplitSingle(rec, NUL);
    var rest := SplitOn(tail, NUL);
    assert ([rec] + rest)[1..] == rest && [rec][1..] == [];
    var e := ParseRecord(rec, star, secs);
    var own := if e.Some? then [e.value] else [];
    assert ParseAll([rec][1..], star, secs) == [];
    assert ParseAll([rec], star, secs) == own + [] == own;
  }

  /** The position of the first NUL byte, if any. */
  method FindNul(pending: Bytes) returns (pos: Option<nat>)
    ensures pos.None? ==> Lacks(pending, NUL)
    ensures pos.Some? ==> pos.value < |pending| && pending[pos.value] == NUL && Lacks(pending[..pos.value], NUL)
  {
    for k := 0 to |pending|
      invariant Lacks(pending[..k], NUL)
    {
      if pending[k] == NUL {
        return Some(k);
      }
    }
    assert pending[..|pending|] == pending;
    return None;
  }

  /** Parses every complete record in the buffer and keeps the rest. */
  method Drain(buffer: Bytes, star: bool, secs: Seconds, ghost coming: Bytes)
    returns (out: seq<RemoteEntry>, pending: Bytes)
    ensures Lacks(pending, NUL)
    ensures out + Entries(pending + coming, star, secs) == Entries(buffer + coming, star, secs)
  {
    out, pending := [], buffer;
    while true
      invariant out + Entries(pending + coming, star, secs) == Entries(buffer + coming, star, secs)
      decreases |pending|
    {
      var pos := FindNul(pending);
      if pos.None? {
        return;
      }
      var rec, rest := pending[..pos.value], pending[pos.value + 1..];
      DrainStep(buffer, star, secs, coming, out, pending, rec, rest);
      var entry := ParseRecord(rec, star, secs);
      if entry.Some? {
        out := out + [entry.value];
      }
      pending := rest;
    }
  }

  /** Moving one record from the buffer to the entries. */
  lemma DrainStep(buffer: Bytes, star: bool, secs: Seconds, coming: Bytes, out: seq<RemoteEntry>, pending: Bytes,
                  rec: Bytes, rest: Bytes)
    requires Lacks(rec, NUL) && pending == rec + [NUL] + rest
    requires out + Entries(pending + coming, star, secs) == Entries(buffer + coming, star, secs)
    ensures var entry := ParseRecord(rec, star, secs);
            (if entry.Some? then out + [entry.value] else out) + Entries(rest + coming, star, secs)
            == Entries(buffer + coming, star, secs)
  {
    assert pending + coming == rec + [NUL] + (rest + coming);
    EntriesOfRecord(rec, rest + coming, star, secs);
    var entry := ParseRecord(rec, star, secs);
    AppendEntry(out, entry, Entries(rest + coming, star, secs));
  }

  lemma AppendEntry(out: seq<RemoteEntry>, entry: Option<RemoteEntry>, tail: seq<RemoteEntry>)
    ensures out + ((if entry.Some? then [entry.value] else []) + tail)
            == (if entry.Some? then out + [entry.value] else out) + tail
  {
  }

  /** One more read, drained, delivers what it adds. */
  lemma ReadOneMore(arrivals: seq<Bytes>, k: nat, out: seq<RemoteEntry>, held: Bytes, entries: seq<RemoteEntry>,
                    rest: Bytes, star: bool, secs: Seconds)
    requires k < |arrivals| && arrivals[k] != []
    requires var coming := Delivered(arrivals[k + 1..]);
             entries + Entries(rest + coming, star, secs) == Entries(held + arrivals[k] + coming, star, secs)
    ensures (out + entries) + Entries(rest + Delivered(arrivals[k + 1..]), star, secs)
            == out + Entries(held + Delivered(arrivals[k..]), star, secs)
  {
    var coming := Delivered(arrivals[k + 1..]);
    assert arrivals[k..][1..] == arrivals[k + 1..];
    assert held + (arrivals[k] + coming) == (held + arrivals[k]) + coming;
    assert (out + entries) + Entries(rest + coming, star, secs) == out + (entries + Entries(rest + coming, star, secs));
  }

  /** The streaming parser: whatever pieces the bytes arrive in, the entries are
      those of the whole stream, an unterminated last record included. */
  method StreamFindEntries(arrivals: seq<Bytes>, star: bool, secs: Seconds) returns (out: seq<RemoteEntry>)
    ensures out == Entries(Delivered(arrivals), star, secs)
  {
    out := [];
    var pending: Bytes := [];
    var k := 0;
    assert arrivals[0..] == arrivals;
    assert [] + Entries([] + Delivered(arrivals), star, secs) == Entries(Delivered(arrivals), star, secs) by {
      assert [] + Delivered(arrivals) == Delivered(arrivals);
    }
    while k < |arrivals| && arrivals[k] != []
      invariant k <= |arrivals| && Lacks(pending, NUL)
      invariant out + Entries(pending + Delivered(arrivals[k..]), star, secs) == Entries(Delivered(arrivals), star,
                                                                                         secs)
    {
      var entries;
      ghost var before, held := out, pending;
      entries, pending := Drain(pending + arrivals[k], star, secs, Delivered(arrivals[k + 1..]));
      out := out + entries;
      ReadOneMore(arrivals, k, before, held, entries, pending, star, secs);
      k := k + 1;
    }
    assert Delivered(arrivals[k..]) == [] && pending + [] == pending;
    EntriesOfRecord(pending, [], star, secs);
    if pending != [] {
      var last := ParseRecord(pending, star, secs);
      if last.Some? {
        out := out + [last.value];
      }
    }
  }

  /** Two ways of cutting one stream into non-empty reads give one listing. */
  lemma CuttingIsIrrelevant(arrivals: seq<Bytes>, stream: Bytes, star: bool, secs: Seconds)
    requires NoneEmpty(arrivals) && Glue(arrivals) == stream
    ensures Entries(Delivered(arrivals), star, secs) == Entries(stream, star, secs)
  {
    DeliveredAll(arrivals);
  }

  predicate NoneEmpty(arrivals: seq<Bytes>) {
    forall k :: 0 <= k < |arrivals| ==> arrivals[k] != []
  }

  lemma {:induction false} DeliveredAll(arrivals: seq<Bytes>)
    requires NoneEmpty(arrivals)
    ensures Delivered(arrivals) == Glue(arrivals)
  {
    if arrivals != [] {
      DeliveredAll(arrivals[1..]);
    }
  }

  // ----- the records `find` writes are read back

  function Number(v: nat, radix: nat): (r: Bytes)
    requires 2 <= radix <= 10
    ensures |r| >= 1 && forall b <- r :: ZERO <= b < ZERO + 10
  {
    if v < radix then [ZERO + v] else Number(v / radix, radix) + [ZERO + v % radix]
  }

  lemma {:induction false} NumberDigits(v: nat, radix: nat)
    requires 2 <= radix <= 10
    ensures Digits(Number(v, radix), radix) == Some(v)
  {
    var s := Number(v, radix);
    if v < radix {
      assert s[..0] == [];
    } else {
      NumberDigits(v / radix, radix);
      assert s[..|s| - 1] == Number(v / radix, radix);
      LastDigit(v, v / radix, v % radix, radix);
    }
  }

  lemma LastDigit(v: nat, q: nat, d: nat, radix: nat)
    requires 2 <= radix <= 10 && q == v / radix && d == v % radix
    ensures DigitOf(ZERO + d, radix) == Some(d)
    ensures radix * q + d == v
  {
  }

  lemma NumberParses(v: nat, radix: nat, limit: nat)
    requires 2 <= radix <= 10
    ensures v < limit ==> ParseUnsigned(Number(v, radix), radix, limit) == Some(v)
  {
    NumberDigits(v, radix);
    assert Number(v, radix)[0] in Number(v, radix);
  }

  function Join(fields: seq<Bytes>, sep: byte): Bytes
    requires fields != []
  {
    if |fields| == 1 then fields[0] else fields[0] + [sep] + Join(fields[1..], sep)
  }

  lemma {:induction false} SplitJoin(fields: seq<Bytes>, sep: byte)
    requires fields != [] && forall f <- fields :: Lacks(f, sep)
    ensures SplitOn(Join(fields, sep), sep) == fields
  {
    assert fields[0] in fields;
    if |fields| == 1 {
      SplitSingle(fields[0], sep);
    } else {
      SplitJoin(fields[1..], sep);
      SplitCons(fields[0], sep, Join(fields[1..], sep));
    }
  }

  /** The letters `find` prints for files, directories and links; it has others for
      pipes, sockets, devices and what it does not know. */
  const LETTER_F: byte := 102
  const LETTER_D: byte := 100
  const LETTER_L: byte := 108

  /** The letter and the kind of the entry are one. */
  predicate LetterOf(letter: byte, k: EntryKind) {
    match k
    case File => letter == LETTER_F
    case Dir => letter == LETTER_D
    case Symlink => letter == LETTER_L
  }

  /** No letter of an entry that is synced. */
  predicate OtherLetter(letter: byte) {
    letter != LETTER_F && letter != LETTER_D && letter != LETTER_L
  }

  /** One record as the `-printf` format of the command lays it out, without its
      final NUL; the type letter and the text of the time stamp are given. */
  function Fields(letter: byte, e: RemoteEntry, stamp: Bytes): seq<Bytes>
    requires e.uid.Some? && e.gid.Some?
  {
    [[letter], e.relativePath, Number(e.size, 10), stamp, Number(e.mode, 8),
     Number(e.uid.value, 10), Number(e.gid.value, 10),
     if e.linkTarget.Some? then e.linkTarget.value else []]
  }

  /** What the separator scheme can carry: an entry with the letter of its kind, or
      something of another type. */
  predicate Representable(letter: byte, e: RemoteEntry, stamp: Bytes) {
    && e.uid.Some? && e.gid.Some? && letter > SEPARATOR && (LetterOf(letter, e.kind) || OtherLetter(letter))
    && e.relativePath != [] && Lacks(e.relativePath, SEPARATOR) && Lacks(stamp, SEPARATOR)
    && (e.linkTarget.Some? ==> e.linkTarget.value != [] && Lacks(e.linkTarget.value, SEPARATOR))
  }

  /** Other types are left out, and so in star mode are names that begin with a dot (46). */
  function Shown(letter: byte, e: RemoteEntry, star: bool): Option<RemoteEntry>
    requires e.relativePath != []
  {
    if OtherLetter(letter) || (star && e.relativePath[0] == 46) then None else Some(e)
  }

  lemma {:induction false} JoinLacks(fields: seq<Bytes>, sep: byte, b: byte)
    requires fields != [] && b != sep && forall f <- fields :: Lacks(f, b)
    ensures Lacks(Join(fields, sep), b)
  {
    assert fields[0] in fields;
    if |fields| > 1 {
      JoinLacks(fields[1..], sep, b);
    }
  }

  /** No field contains a byte that is no digit, no kind letter and not in the texts. */
  lemma FieldsLack(letter: byte, e: RemoteEntry, stamp: Bytes, b: byte)
    requires e.uid.Some? && e.gid.Some? && b < ZERO && b != letter
    requires Lacks(e.relativePath, b) && Lacks(stamp, b) && (e.linkTarget.Some? ==> Lacks(e.linkTarget.value, b))
    ensures forall f <- Fields(letter, e, stamp) :: Lacks(f, b)
  {
    NumberLacks(e.size, 10, b);
    NumberLacks(e.mode, 8, b);
    NumberLacks(e.uid.value, 10, b);
    NumberLacks(e.gid.value, 10, b);
  }

  lemma NumberLacks(v: nat, radix: nat, b: byte)
    requires 2 <= radix <= 10 && b < ZERO
    ensures Lacks(Number(v, radix), b)
  {
    forall k | 0 <= k < |Number(v, radix)|
      ensures Number(v, radix)[k] != b
    {
      assert Number(v, radix)[k] in Number(v, radix);
    }
  }

  /** The record of an entry parses back to the entry, that of anything else to nothing. */
  lemma RecordRoundTrip(letter: byte, e: RemoteEntry, stamp: Bytes, star: bool, secs: Seconds)
    requires Representable(letter, e, stamp) && secs(stamp) == e.mtime
    ensures ParseRecord(Join(Fields(letter, e, stamp), SEPARATOR), star, secs) == Shown(letter, e, star)
  {
    FieldsLack(letter, e, stamp, SEPARATOR);
    SplitJoin(Fields(letter, e, stamp), SEPARATOR);
    FieldsParse(letter, e, stamp, Fields(letter, e, stamp), secs);
    assert Join(Fields(letter, e, stamp), SEPARATOR) != [];
  }

  lemma FieldsParse(letter: byte, e: RemoteEntry, stamp: Bytes, parts: seq<Bytes>, secs: Seconds)
    requires Representable(letter, e, stamp) && secs(stamp) == e.mtime && parts == Fields(letter, e, stamp)
    ensures KindOf(parts[0]) == if OtherLetter(letter) then None else Some(e.kind)
    ensures Field(parts, 1, []) == e.relativePath
    ensures ParseUnsigned(Field(parts, 2, [ZERO]), 10, U64_LIMIT) == Some(e.size)
    ensures secs(Field(parts, 3, [ZERO])) == e.mtime
    ensures ParseUnsigned(Field(parts, 4, [54, 52, 52]), 8, U32_LIMIT) == Some(e.mode)
    ensures ParseUnsigned(Field(parts, 5, []), 10, U32_LIMIT) == e.uid
    ensures ParseUnsigned(Field(parts, 6, []), 10, U32_LIMIT) == e.gid
    ensures Field(parts, 7, []) == if e.linkTarget.Some? then e.linkTarget.value else []
  {
    NumberParses(e.size, 10, U64_LIMIT);
    NumberParses(e.mode, 8, U32_LIMIT);
    NumberParses(e.uid.value, 10, U32_LIMIT);
    NumberParses(e.gid.value, 10, U32_LIMIT);
  }

  // ----- records of any shape

  /** A record is an entry exactly when its first field is the letter of a file, a
      directory or a link, its second one is there and not empty, and it is not hidden
      in star mode; kind and path are those two. */
  lemma RecordIff(rec: Bytes, star: bool, secs: Seconds)
    ensures var parts, entry := SplitOn(rec, SEPARATOR), ParseRecord(rec, star, secs);
            && (entry.Some?
                <==> && (parts[0] == [LETTER_F] || parts[0] == [LETTER_D] || parts[0] == [LETTER_L])
                     && |parts| > 1 && parts[1] != [] && !(star && parts[1][0] == 46))
            && (entry.Some? ==> [LetterFor(entry.value.kind)] == parts[0] && entry.value.relativePath == parts[1])
  {
  }

  function LetterFor(k: EntryKind): (letter: byte)
    ensures LetterOf(letter, k)
  {
    match k
    case File => LETTER_F
    case Dir => LETTER_D
    case Symlink => LETTER_L
  }

  /** Text of digits only. */
  predicate AllDigits(s: Bytes, radix: nat) {
    forall k :: 0 <= k < |s| ==> 48 <= s[k] < 58 && s[k] < 48 + radix
  }

  lemma {:induction false} DigitsIff(s: Bytes, radix: nat)
    ensures Digits(s, radix).Some? <==> AllDigits(s, radix)
  {
    if s != [] {
      var front := s[..|s| - 1];
      DigitsIff(front, radix);
      assert AllDigits(s, radix) ==> AllDigits(front, radix) && 48 <= s[|s| - 1] < 58;
      assert forall k :: 0 <= k < |front| ==> s[k] == front[k];
    }
  }

  /** A number is read exactly from digits, at least one, behind an optional plus sign
      (43), whose value is below the limit. */
  lemma UnsignedIff(s: Bytes, radix: nat, limit: nat)
    ensures var body := if s != [] && s[0] == 43 then s[1..] else s;
            && (ParseUnsigned(s, radix, limit).Some?
                <==> && body != [] && AllDigits(body, radix)
                     && Digits(body, radix).Some? && Digits(body, radix).value < limit)
            && (ParseUnsigned(s, radix, limit).Some? ==> ParseUnsigned(s, radix, limit) == Digits(body, radix))
  {
    DigitsIff(if s != [] && s[0] == 43 then s[1..] else s, radix);
  }

  /** Numbers that cannot be read count as size zero, mode 0644 (420) and no owner. */
  lemma BadNumbersDefault(letter: byte, path: Bytes, size: Bytes, stamp: Bytes, mode: Bytes, uid: Bytes, gid: Bytes,
                          link: Bytes, k: EntryKind, star: bool, secs: Seconds)
    requires LetterOf(letter, k) && path != [] && !(star && path[0] == 46)
    requires forall f <- [path, size, stamp, mode, uid, gid, link] :: Lacks(f, SEPARATOR)
    requires ParseUnsigned(size, 10, U64_LIMIT).None? && ParseUnsigned(mode, 8, U32_LIMIT).None?
    requires ParseUnsigned(uid, 10, U32_LIMIT).None? && ParseUnsigned(gid, 10, U32_LIMIT).None?
    ensures ParseRecord(Join([[letter], path, size, stamp, mode, uid, gid, link], SEPARATOR), star, secs)
            == Some(RemoteEntry(path, k, 0, secs(stamp), 420, None, None, if link == [] then None else Some(link)))
  {
    var rest := [path, size, stamp, mode, uid, gid, link];
    var all := [[letter]] + rest;
    assert all == [[letter], path, size, stamp, mode, uid, gid, link];
    SplitJoin(all, SEPARATOR);
    assert all[0] == [letter] && Join(all, SEPARATOR)[0] == letter;
  }

  /** And so do missing ones. */
  lemma MissingFieldsDefault(letter: byte, path: Bytes, k: EntryKind, star: bool, secs: Seconds)
    requires LetterOf(letter, k) && path != [] && !(star && path[0] == 46) && Lacks(path, SEPARATOR)
    ensures ParseRecord(Join([[letter], path], SEPARATOR), star, secs)
            == Some(RemoteEntry(path, k, 0, secs([48]), 420, None, None, None))
  {
    SplitJoin([[letter], path], SEPARATOR);
    NumberParses(0, 10, U64_LIMIT);
    NumberParses(420, 8, U32_LIMIT);
    assert Number(0, 10) == [ZERO] && Number(420, 8) == [54, 52, 52] by {
      assert Number(52, 8) == [54, 52];
    }
    assert Join([[letter], path], SEPARATOR)[0] == letter;
  }

  // ----- and so is the whole listing

  /** Something found, with its type letter and the text of its time stamp. */
  datatype Listed = Listed(letter: byte, entry: RemoteEntry, stamp: Bytes)

  /** Names on disk have no NUL. */
  predicate Printable(p: Listed, secs: Seconds) {
    && Representable(p.letter, p.entry, p.stamp) && secs(p.stamp) == p.entry.mtime
    && Lacks(p.entry.relativePath, NUL) && Lacks(p.stamp, NUL)
    && (p.entry.linkTarget.Some? ==> Lacks(p.entry.linkTarget.value, NUL))
  }

  predicate AllPrintable(listing: seq<Listed>, secs: Seconds) {
    forall k :: 0 <= k < |listing| ==> Printable(listing[k], secs)
  }

  /** Everything `find` writes: every record ended by NUL. */
  function Printed(listing: seq<Listed>, secs: Seconds): Bytes
    requires AllPrintable(listing, secs)
  {
    if listing == [] then []
    else
      Join(Fields(listing[0].letter, listing[0].entry, listing[0].stamp), SEPARATOR) + [NUL]
      + Printed(listing[1..], secs)
  }

  /** The files, directories and links among it. */
  function AllShown(listing: seq<Listed>, star: bool, secs: Seconds): seq<RemoteEntry>
    requires AllPrintable(listing, secs)
  {
    if listing == [] then []
    else
      var first := Shown(listing[0].letter, listing[0].entry, star);
      (if first.Some? then [first.value] else []) + AllShown(listing[1..], star, secs)
  }

  lemma {:induction false} PrintedParses(listing: seq<Listed>, star: bool, secs: Seconds)
    requires AllPrintable(listing, secs)
    ensures Entries(Printed(listing, secs), star, secs) == AllShown(listing, star, secs)
  {
    if listing == [] {
      EntriesOfRecord([], [], star, secs);
    } else {
      var letter, e, stamp := listing[0].letter, listing[0].entry, listing[0].stamp;
      FieldsLack(letter, e, stamp, NUL);
      JoinLacks(Fields(letter, e, stamp), SEPARATOR, NUL);
      EntriesOfRecord(Join(Fields(letter, e, stamp), SEPARATOR), Printed(listing[1..], secs), star, secs);
      RecordRoundTrip(letter, e, stamp, star, secs);
      PrintedParses(listing[1..], star, secs);
    }
  }

  /** What `find` writes about anything it finds, cut anyhow into reads, is read back
      as the files, directories and links among it, in their order; in star mode
      without the hidden ones. */
  lemma ListingRoundTrip(listing: seq<Listed>, arrivals: seq<Bytes>, star: bool, secs: Seconds)
    requires AllPrintable(listing, secs)
    requires NoneEmpty(arrivals) && Glue(arrivals) == Printed(listing, secs)
    ensures Entries(Delivered(arrivals), star, secs) == AllShown(listing, star, secs)
  {
    CuttingIsIrrelevant(arrivals, Printed(listing, secs), star, secs);
    PrintedParses(listing, star, secs);
  }
}
