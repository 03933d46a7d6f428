/** The RDMA sender and receiver (src/rdma.rs) over byte streams. A connection is
    the bytes its peer sends before closing; how they arrive in pieces is left
    open. */
module Rdma {
  import opened Primitives
  import opened Packet

  datatype Config = Config(token: Bytes, expectedSize: u64, chunkSize: nat)

  predicate ValidConfig(cfg: Config) {
    |cfg.token| == TOKEN_LEN && cfg.chunkSize >= 1
  }

  datatype RecvError =
    | Closed            // the peer closed in the middle of a packet
    | Malformed(error: PacketError)
    | ChunkTooLarge
    | OutOfOrder
    | CountOverflow
    | SizeExceeded
    | DoneMismatch
    | UnknownKind
    | Incomplete
    | NoConnection      // nobody connected in time
    | Interrupted       // cancelled, or timed out while receiving

  datatype Report = Report(bytesReceived: nat, chunksReceived: nat)

  // ----- the receiver as a function of the bytes of each connection

  /** The packet at the front of a stream, or why there is none. */
  function Front(cfg: Config, data: Bytes): (r: Result<Packet, RecvError>)
    ensures r.Ok? ==> HEADER_LEN + |r.value.payload| <= |data|
  {
    if |data| < HEADER_LEN then Err(Closed)
    else
      match PayloadLen(data[..HEADER_LEN])
      case Err(e) => Err(Malformed(e))
      case Ok(len) =>
        if len > cfg.chunkSize then Err(ChunkTooLarge)
        else if |data| < HEADER_LEN + len then Err(Closed)
        else
          match DecodePacket(data[..HEADER_LEN + len])
          case Err(e) => Err(Malformed(e))
          case Ok(p) => Ok(p)
  }

  datatype Verdict = More | NextConnection | Finished | Failed(error: RecvError)

  datatype Progress = Progress(got: Bytes, chunks: nat)

  /** What one packet does to the file; `start` is the byte count when the
      connection was accepted. */
  function Handle(cfg: Config, p: Packet, st: Progress, start: nat): (Progress, Verdict) {
    if p.token != cfg.token then (st, if |st.got| == start then NextConnection else More)
    else if p.kind == KIND_DATA then
      if p.offset != |st.got| then (st, Failed(OutOfOrder))
      else if |st.got| + |p.payload| >= U64_LIMIT then (st, Failed(CountOverflow))
      else if |st.got| + |p.payload| > cfg.expectedSize then (st, Failed(SizeExceeded))
      else (Progress(st.got + p.payload, st.chunks + 1), More)
    else if p.kind == KIND_DONE then
      if p.offset != |st.got| then (st, Failed(DoneMismatch)) else (st, Finished)
    else (st, Failed(UnknownKind))
  }

  /** One connection, to its end. */
  function ReceiveStream(cfg: Config, data: Bytes, st: Progress, start: nat): (Progress, Verdict)
    decreases |data|
  {
    match Front(cfg, data)
    case Err(e) => (st, Failed(e))
    case Ok(p) =>
      var (next, verdict) := Handle(cfg, p, st, start);
      if verdict.More? then ReceiveStream(cfg, data[HEADER_LEN + |p.payload|..], next, start)
      else (next, verdict)
  }

  /** All connections, in the order they are accepted. */
  function Receive(cfg: Config, conns: seq<Bytes>, st: Progress): (Progress, Result<Report, RecvError>)
    decreases |conns|
  {
    if conns == [] then (st, Err(NoConnection))
    else
      var (next, verdict) := ReceiveStream(cfg, conns[0], st, |st.got|);
      match verdict
      case NextConnection => Receive(cfg, conns[1..], next)
      case Finished => (next,
                        if |next.got| == cfg.expectedSize then Ok(Report(|next.got|, next.chunks)) else Err(Incomplete))
      case Failed(e) => (next, Err(e))
      case More => (next, Err(Closed))
  }

  // ----- a connection delivering its bytes in arbitrary pieces

  class Stream {
    const data: Bytes
    const flaky: bool  // cancellation or a receive timeout may strike
    var pos: nat

    ghost predicate Valid()
      reads this
    {
      pos <= |data|
    }

    constructor (data: Bytes, flaky: bool)
      ensures Valid() && pos == 0 && this.data == data && this.flaky == flaky
    {
      this.data := data;
      this.flaky := flaky;
      pos := 0;
    }

    function Rest(): Bytes
      requires Valid()
      reads this
    {
      data[pos..]
    }

    /** Some bytes, at least one unless the peer has closed. */
    method Recv(cap: nat) returns (piece: Bytes)
      requires Valid() && cap > 0
      modifies this
      ensures Valid() && pos == old(pos) + |piece| && piece == data[old(pos)..pos]
      ensures |piece| <= cap && (|piece| == 0 <==> old(pos) == |data|)
    {
      if pos == |data| {
        return [];
      }
      var n: nat :| 0 < n && n <= cap && n <= |data| - pos;
      piece := data[pos..pos + n];
      pos := pos + n;
    }

    /** Exactly n bytes, however they arrive. */
    method RecvExact(n: nat) returns (r: Result<Bytes, RecvError>)
      requires Valid()
      modifies this
      ensures Valid()
      ensures r.Ok? ==> old(pos) + n <= |data| && pos == old(pos) + n && r.value == data[old(pos)..pos]
      ensures r.Err? ==> (r.error == Closed && old(pos) + n > |data|) || (r.error == Interrupted && flaky)
    {
      var buf: Bytes := [];
      while |buf| < n
        invariant Valid() && |buf| <= n && pos == old(pos) + |buf| && buf == data[old(pos)..pos]
      {
        var strikes: bool := *;
        if flaky && strikes {
          return Err(Interrupted);
        }
        var piece := Recv(n - |buf|);
        if |piece| == 0 {
          return Err(Closed);
        }
        buf := buf + piece;
      }
      r := Ok(buf);
    }
  }

  /** Header, length check, payload, decoding: the packet at the front of what
      is left of the stream, independently of the pieces it came in. */
  method RecvPacket(cfg: Config, stream: Stream) returns (r: Result<Packet, RecvError>)
    requires stream.Valid()
    modifies stream
    ensures stream.Valid()
    ensures r == Front(cfg, old(stream.Rest())) || (r == Err(Interrupted) && stream.flaky)
    ensures r.Ok? ==> stream.Rest() == old(stream.Rest())[HEADER_LEN + |r.value.payload|..]
  {
    ghost var rest := stream.Rest();
    var header :- stream.RecvExact(HEADER_LEN);
    assert header == rest[..HEADER_LEN];
    var len := PayloadLen(header);
    if len.Err? {
      return Err(Malformed(len.error));
    }
    if len.value > cfg.chunkSize {
      return Err(ChunkTooLarge);
    }
    var payload := [];
    if len.value > 0 {
      payload :- stream.RecvExact(len.value);
    }
    assert header + payload == rest[..HEADER_LEN + len.value];
    var p := DecodePacket(header + payload);
    if p.Err? {
      return Err(Malformed(p.error));
    }
    r := Ok(p.value);
  }

  // ----- the receiver

  /** The file on disk: the bytes received so far, then the preallocated zeros. */
  ghost predicate Prefilled(file: Bytes, got: Bytes, expectedSize: nat) {
    |got| <= expectedSize && file == got + Zeros(expectedSize - |got|)
  }

  lemma AppendInPlace(file: Bytes, got: Bytes, payload: Bytes, expectedSize: nat)
    requires Prefilled(file, got, expectedSize) && |got| + |payload| <= expectedSize
    ensures Prefilled(file[..|got|] + payload + file[|got| + |payload|..], got + payload, expectedSize)
  {
    var after := file[..|got|] + payload + file[|got| + |payload|..];
    assert after == (got + payload) + Zeros(expectedSize - |got + payload|);
  }

  /** Handles one packet, writing its payload into the file in place. */
  method HandlePacket(cfg: Config, p: Packet, file0: Bytes, st0: Progress, start: nat)
    returns (file: Bytes, st: Progress, verdict: Verdict)
    requires ValidConfig(cfg) && Prefilled(file0, st0.got, cfg.expectedSize)
    ensures Prefilled(file, st.got, cfg.expectedSize)
    ensures (st, verdict) == Handle(cfg, p, st0, start)
  {
    file, st := file0, st0;
    if p.token != cfg.token {
      return file, st, if |st.got| == start then NextConnection else More;
    }
    if p.kind == KIND_DATA {
      if p.offset != |st.got| {
        return file, st, Failed(OutOfOrder);
      }
      var next := |st.got| + |p.payload|;
      if next >= U64_LIMIT {
        return file, st, Failed(CountOverflow);
      }
      if next > cfg.expectedSize {
        return file, st, Failed(SizeExceeded);
      }
      AppendInPlace(file, st.got, p.payload, cfg.expectedSize);
      file := file[..|st.got|] + p.payload + file[next..];
      return file, Progress(st.got + p.payload, st.chunks + 1), More;
    }
    if p.kind == KIND_DONE {
      return file, st, if p.offset != |st.got| then Failed(DoneMismatch) else Finished;
    }
    verdict := Failed(UnknownKind);
  }

  /** Serves one connection, packet by packet. */
  method ServeStream(cfg: Config, stream: Stream, file0: Bytes, st0: Progress)
    returns (file: Bytes, st: Progress, verdict: Verdict)
    requires ValidConfig(cfg) && stream.Valid() && Prefilled(file0, st0.got, cfg.expectedSize)
    modifies stream
    ensures Prefilled(file, st.got, cfg.expectedSize)
    ensures (verdict == Failed(Interrupted) && stream.flaky)
            || (st, verdict) == ReceiveStream(cfg, old(stream.Rest()), st0, |st0.got|)
    ensures !verdict.More?
  {
    file, st, verdict := file0, st0, More;
    var start := |st.got|;
    ghost var all := stream.Rest();
    while verdict.More?
      invariant stream.Valid() && Prefilled(file, st.got, cfg.expectedSize)
      invariant (if verdict.More? then ReceiveStream(cfg, stream.Rest(), st, start) else (st, verdict))
                == ReceiveStream(cfg, all, st0, |st0.got|)
      decreases verdict.More?, |stream.Rest()|
    {
      var cancelled: bool := *;
      if stream.flaky && cancelled {
        return file, st, Failed(Interrupted);
      }
      var packet := RecvPacket(cfg, stream);
      if packet.Err? {
        return file, st, Failed(packet.error);
      }
      file, st, verdict := HandlePacket(cfg, packet.value, file, st, start);
    }
  }

  /** Different connections, none of them read yet. */
  ghost predicate Ready(conns: seq<Stream>)
    reads conns
  {
    && (forall k :: 0 <= k < |conns| ==> conns[k].Valid() && conns[k].pos == 0)
    && (forall i, j :: 0 <= i < j < |conns| ==> conns[i] != conns[j])
  }

  function Contents(conns: seq<Stream>): seq<Bytes> {
    seq(|conns|, k requires 0 <= k < |conns| => conns[k].data)
  }

  /** The receive loop: preallocates the file, accepts connections one after the
      other, and stops at the end marker. Except for an interruption, the outcome
      is a function of the bytes of the connections alone. */
  method ReceiveToPath(cfg: Config, conns: seq<Stream>)
    returns (file: Bytes, st: Progress, r: Result<Report, RecvError>)
    requires ValidConfig(cfg) && Ready(conns)
    modifies conns
    ensures Prefilled(file, st.got, cfg.expectedSize)
    ensures (exists s :: s in conns && s.flaky && r == Err(Interrupted))
            || (st, r) == Receive(cfg, Contents(conns), Progress([], 0))
    ensures r.Ok? ==> file == st.got && r.value.bytesReceived == |file| == cfg.expectedSize
  {
    file := Zeros(cfg.expectedSize);
    st := Progress([], 0);
    assert file == [] + Zeros(cfg.expectedSize);
    assert Contents(conns)[0..] == Contents(conns);
    for k := 0 to |conns|
      invariant Prefilled(file, st.got, cfg.expectedSize)
      invariant forall j :: k <= j < |conns| ==> conns[j].Valid() && conns[j].pos == 0
      invariant Receive(cfg, Contents(conns)[k..], st) == Receive(cfg, Contents(conns), Progress([], 0))
    {
      var stream := conns[k];
      assert Contents(conns)[k..][0] == stream.data && Contents(conns)[k..][1..] == Contents(conns)[k + 1..];
      assert stream.Rest() == stream.data;
      var verdict;
      file, st, verdict := ServeStream(cfg, stream, file, st);
      match verdict
      case NextConnection =>
      case Finished =>
        if |st.got| != cfg.expectedSize {
          return file, st, Err(Incomplete);
        }
        return file, st, Ok(Report(|st.got|, st.chunks));
      case Failed(e) =>
        return file, st, Err(e);
    }
    r := Err(NoConnection);
  }

  // ----- safety against any packet sequence

  /** The packets at the front of a stream, as far as they are well formed. */
  function Packets(cfg: Config, data: Bytes): seq<Packet>
    decreases |data|
  {
    match Front(cfg, data)
    case Err(_) => []
    case Ok(p) => [p] + Packets(cfg, data[HEADER_LEN + |p.payload|..])
  }

  /** None of them is longer than the configured chunk, nor than a header announces. */
  lemma {:induction false} PacketsFit(cfg: Config, data: Bytes, k: nat)
    requires k < |Packets(cfg, data)|
    ensures |Packets(cfg, data)[k].payload| <= cfg.chunkSize
    decreases |data|
  {
    if k > 0 {
      var p := Front(cfg, data).value;
      PacketsFit(cfg, data[HEADER_LEN + |p.payload|..], k - 1);
    }
  }

  /** The payloads of data packets that carry the right token, in order. */
  function Payloads(token: Bytes, packets: seq<Packet>): Bytes {
    if packets == [] then []
    else (if packets[0].token == token && packets[0].kind == KIND_DATA then packets[0].payload else [])
         + Payloads(token, packets[1..])
  }

  function DataCount(token: Bytes, packets: seq<Packet>): nat {
    if packets == [] then 0
    else (if packets[0].token == token && packets[0].kind == KIND_DATA then 1 else 0) + DataCount(token, packets[1..])
  }

  /** The packets with the right token are data, each placed where the payloads
      before it end; the first of them at `at`. */
  ghost predicate InPlace(token: Bytes, at: nat, packets: seq<Packet>) {
    forall k :: 0 <= k < |packets| ==> PlacedAt(token, packets[k], at + |Payloads(token, packets[..k])|)
  }

  predicate PlacedAt(token: Bytes, p: Packet, at: nat) {
    p.token == token ==> p.kind == KIND_DATA && p.offset == at
  }

  /** What one connection may add to the file: the payloads of the right-token
      data packets among the first n it sends, each at its own offset. */
  ghost predicate Grows(cfg: Config, packets: seq<Packet>, before: Progress, after: Progress, n: nat) {
    && n <= |packets|
    && after.got == before.got + Payloads(cfg.token, packets[..n])
    && after.chunks == before.chunks + DataCount(cfg.token, packets[..n])
    && InPlace(cfg.token, |before.got|, packets[..n])
    && |after.got| <= cfg.expectedSize
  }

  /** Why nothing more is taken from a connection: its bytes end or are no packet, or
      the next packet is a stray one before any data, misplaced, too long, the end
      marker, or unknown. */
  ghost predicate EndsAt(cfg: Config, packets: seq<Packet>, n: nat, got: nat, start: nat, verdict: Verdict) {
    if n >= |packets| then
      verdict.Failed? && (verdict.error.Closed? || verdict.error.Malformed? || verdict.error.ChunkTooLarge?)
    else
      var p := packets[n];
      if p.token != cfg.token then verdict == NextConnection && got == start
      else if p.kind != KIND_DATA && p.kind != KIND_DONE then verdict == Failed(UnknownKind)
      else if p.offset != got then verdict == Failed(if p.kind == KIND_DATA then OutOfOrder else DoneMismatch)
      else if p.kind == KIND_DONE then verdict == Finished
      else
        && got + |p.payload| > cfg.expectedSize
        && verdict == Failed(if got + |p.payload| >= U64_LIMIT then CountOverflow else SizeExceeded)
  }

  /** Whatever a connection sends, the file grows by such payloads only, up to the
      first packet that cannot be taken. */
  lemma {:induction false} StreamIsSafe(cfg: Config, data: Bytes, st: Progress, start: nat) returns (n: nat)
    requires |st.got| <= cfg.expectedSize && start <= |st.got|
    ensures var (after, verdict) := ReceiveStream(cfg, data, st, start);
            && Grows(cfg, Packets(cfg, data), st, after, n)
            && EndsAt(cfg, Packets(cfg, data), n, |after.got|, start, verdict)
    decreases |data|
  {
    n := 0;
    assert st.got + [] == st.got && InPlace(cfg.token, |st.got|, []);
    if Front(cfg, data).Ok? {
      var p := Front(cfg, data).value;
      var (next, verdict) := Handle(cfg, p, st, start);
      if verdict.More? {
        var rest := data[HEADER_LEN + |p.payload|..];
        var m := StreamIsSafe(cfg, rest, next, start);
        n := m + 1;
        OnePacketMore(cfg, p, Packets(cfg, rest), st, start, ReceiveStream(cfg, rest, next, start).0, m);
      }
    }
  }

  lemma OnePacketMore(cfg: Config, p: Packet, packets: seq<Packet>, st: Progress, start: nat, after: Progress, m: nat)
    requires Handle(cfg, p, st, start).1.More?
    requires Grows(cfg, packets, Handle(cfg, p, st, start).0, after, m)
    ensures Grows(cfg, [p] + packets, st, after, m + 1)
  {
    var later := packets[..m];
    var own := if p.token == cfg.token && p.kind == KIND_DATA then p.payload else [];
    assert ([p] + packets)[..m + 1] == [p] + later;
    PayloadsHead(cfg.token, p, later);
    assert Handle(cfg, p, st, start).0.got == st.got + own;
    assert (st.got + own) + Payloads(cfg.token, later) == st.got + (own + Payloads(cfg.token, later));
    OnePlaceMore(cfg.token, p, |st.got|, later);
  }

  lemma OnePlaceMore(token: Bytes, p: Packet, at: nat, later: seq<Packet>)
    requires PlacedAt(token, p, at)
    requires InPlace(token, at + if p.token == token && p.kind == KIND_DATA then |p.payload| else 0, later)
    ensures InPlace(token, at, [p] + later)
  {
    forall k | 0 <= k < |[p] + later|
      ensures PlacedAt(token, ([p] + later)[k], at + |Payloads(token, ([p] + later)[..k])|)
    {
      if k > 0 {
        assert ([p] + later)[..k] == [p] + later[..k - 1];
        PayloadsHead(token, p, later[..k - 1]);
        assert PlacedAt(token, later[k - 1], at + (if p.token == token && p.kind == KIND_DATA then |p.payload| else 0)
                        + |Payloads(token, later[..k - 1])|);
      }
    }
  }

  lemma PayloadsHead(token: Bytes, p: Packet, later: seq<Packet>)
    ensures Payloads(token, [p] + later)
            == (if p.token == token && p.kind == KIND_DATA then p.payload else []) + Payloads(token, later)
    ensures DataCount(token, [p] + later)
            == (if p.token == token && p.kind == KIND_DATA then 1 else 0) + DataCount(token, later)
  {
    assert ([p] + later)[1..] == later;
  }

  /** `log` lists the packets handled so far: a prefix of each connection's. */
  ghost predicate HandledLog(cfg: Config, conns: seq<Bytes>, log: seq<Packet>) {
    if conns == [] then log == []
    else exists n: nat, rest: seq<Packet> ::
      n <= |Packets(cfg, conns[0])| && log == Packets(cfg, conns[0])[..n] + rest && HandledLog(cfg, conns[1..], rest)
  }

  lemma {:induction false} PayloadsConcat(token: Bytes, a: seq<Packet>, b: seq<Packet>)
    ensures Payloads(token, a + b) == Payloads(token, a) + Payloads(token, b)
    ensures DataCount(token, a + b) == DataCount(token, a) + DataCount(token, b)
  {
    if a == [] {
      assert a + b == b;
    } else {
      assert a + b == [a[0]] + (a[1..] + b) && a == [a[0]] + a[1..];
      PayloadsConcat(token, a[1..], b);
      PayloadsHead(token, a[0], a[1..] + b);
      PayloadsHead(token, a[0], a[1..]);
    }
  }

  lemma {:induction false} NothingHandled(cfg: Config, conns: seq<Bytes>)
    ensures HandledLog(cfg, conns, [])
  {
    if conns != [] {
      NothingHandled(cfg, conns[1..]);
      assert Packets(cfg, conns[0])[..0] + [] == [];
    }
  }

  /** The file holds exactly the right-token data payloads of the handled packets,
      each where its offset says, and never more than announced; success means the
      announced size, and the counts are those of the log. */
  ghost predicate Safe(cfg: Config, conns: seq<Bytes>, st: Progress, log: seq<Packet>) {
    var (after, r) := Receive(cfg, conns, st);
    && HandledLog(cfg, conns, log) && Logged(cfg, st, after, log)
    && |after.got| <= cfg.expectedSize
    && (r.Ok? ==> r.value == Report(cfg.expectedSize, after.chunks) && |after.got| == cfg.expectedSize)
  }

  ghost predicate Logged(cfg: Config, st: Progress, after: Progress, log: seq<Packet>) {
    && after.got == st.got + Payloads(cfg.token, log) && after.chunks == st.chunks + DataCount(cfg.token, log)
    && InPlace(cfg.token, |st.got|, log)
  }

  /** Receiver safety against any connections whatever. */
  lemma {:induction false} ReceiverIsSafe(cfg: Config, conns: seq<Bytes>, st: Progress) returns (log: seq<Packet>)
    requires |st.got| <= cfg.expectedSize
    ensures Safe(cfg, conns, st, log)
    decreases |conns|
  {
    if conns == [] {
      log := [];
      assert st.got + [] == st.got;
    } else {
      var n := StreamIsSafe(cfg, conns[0], st, |st.got|);
      var (next, verdict) := ReceiveStream(cfg, conns[0], st, |st.got|);
      if verdict.NextConnection? {
        var rest := ReceiverIsSafe(cfg, conns[1..], next);
        log := Packets(cfg, conns[0])[..n] + rest;
        JoinLogs(cfg, conns, st, next, Receive(cfg, conns[1..], next).0, n, rest);
      } else {
        NothingHandled(cfg, conns[1..]);
        log := Packets(cfg, conns[0])[..n] + [];
        assert next.got + Payloads(cfg.token, []) == next.got;
        JoinLogs(cfg, conns, st, next, next, n, []);
      }
    }
  }

  lemma JoinLogs(cfg: Config, conns: seq<Bytes>, st: Progress, mid: Progress, after: Progress, n: nat,
                 rest: seq<Packet>)
    requires conns != [] && Grows(cfg, Packets(cfg, conns[0]), st, mid, n)
    requires HandledLog(cfg, conns[1..], rest) && Logged(cfg, mid, after, rest)
    ensures HandledLog(cfg, conns, Packets(cfg, conns[0])[..n] + rest)
    ensures Logged(cfg, st, after, Packets(cfg, conns[0])[..n] + rest)
  {
    var head := Packets(cfg, conns[0])[..n];
    JoinPayloads(cfg.token, st.got, head, rest);
    PayloadsConcat(cfg.token, head, rest);
    JoinPlaces(cfg.token, |st.got|, head, rest);
  }

  lemma JoinPlaces(token: Bytes, at: nat, head: seq<Packet>, rest: seq<Packet>)
    requires InPlace(token, at, head) && InPlace(token, at + |Payloads(token, head)|, rest)
    ensures InPlace(token, at, head + rest)
  {
    forall k | 0 <= k < |head + rest|
      ensures PlacedAt(token, (head + rest)[k], at + |Payloads(token, (head + rest)[..k])|)
    {
      if k < |head| {
        assert (head + rest)[..k] == head[..k];
      } else {
        var j := k - |head|;
        assert (head + rest)[..k] == head + rest[..j];
        PayloadsConcat(token, head, rest[..j]);
        assert PlacedAt(token, rest[j], at + |Payloads(token, head)| + |Payloads(token, rest[..j])|);
      }
    }
  }

  /** So every accepted payload is found in the file at the offset it was sent with. */
  lemma FoundAtOffset(token: Bytes, log: seq<Packet>, k: nat)
    requires InPlace(token, 0, log) && k < |log| && log[k].token == token
    ensures log[k].kind == KIND_DATA
    ensures var file, p := Payloads(token, log), log[k];
            p.offset + |p.payload| <= |file| && file[p.offset..p.offset + |p.payload|] == p.payload
  {
    assert log[..|log|] == log;
    TakenInPlace(token, 0, log, |log|, k);
    SplitAround(token, log, k);
    MiddleOf(Payloads(token, log[..k]), log[k].payload, Payloads(token, log[k + 1..]));
  }

  /** The payloads before a data packet, its own, and those after it. */
  lemma SplitAround(token: Bytes, log: seq<Packet>, k: nat)
    requires k < |log| && log[k].token == token && log[k].kind == KIND_DATA
    ensures Payloads(token, log) == Payloads(token, log[..k]) + (log[k].payload + Payloads(token, log[k + 1..]))
  {
    assert log == log[..k] + ([log[k]] + log[k + 1..]);
    PayloadsConcat(token, log[..k], [log[k]] + log[k + 1..]);
    PayloadsHead(token, log[k], log[k + 1..]);
  }

  lemma MiddleOf(front: Bytes, mid: Bytes, rest: Bytes)
    ensures (front + (mid + rest))[|front|..|front| + |mid|] == mid
  {
  }

  lemma TakenInPlace(token: Bytes, at: nat, packets: seq<Packet>, n: nat, k: nat)
    requires k < n <= |packets| && InPlace(token, at, packets[..n])
    ensures PlacedAt(token, packets[k], at + |Payloads(token, packets[..k])|)
  {
    assert packets[..n][k] == packets[k] && packets[..n][..k] == packets[..k];
  }

  /** A packet with the right token that is misplaced ends the receive: the file is
      what was sent in place before it. */
  lemma MisplacedEndsIt(cfg: Config, data: Bytes, later: seq<Bytes>, k: nat)
    requires ValidConfig(cfg) && k < |Packets(cfg, data)|
    requires var ps := Packets(cfg, data);
             && InPlace(cfg.token, 0, ps[..k]) && (forall j :: 0 <= j < k ==> ps[j].token == cfg.token)
             && |Payloads(cfg.token, ps[..k])| <= cfg.expectedSize
             && ps[k].token == cfg.token && ps[k].offset != |Payloads(cfg.token, ps[..k])|
             && (ps[k].kind == KIND_DATA || ps[k].kind == KIND_DONE)
    ensures var ps := Packets(cfg, data);
            Receive(cfg, [data] + later, Progress([], 0))
            == (Progress(Payloads(cfg.token, ps[..k]), DataCount(cfg.token, ps[..k])),
                Err(if ps[k].kind == KIND_DATA then OutOfOrder else DoneMismatch))
  {
    var ps := Packets(cfg, data);
    var n := StreamIsSafe(cfg, data, Progress([], 0), 0);
    if n > k {
      TakenInPlace(cfg.token, 0, ps, n, k);
    } else if n < k {
      GoesOn(cfg, ps, n, k, ReceiveStream(cfg, data, Progress([], 0), 0).1);
    }
    assert [] + Payloads(cfg.token, ps[..k]) == Payloads(cfg.token, ps[..k]);
  }

  /** Before packets that are in place and fit, nothing ends. */
  lemma GoesOn(cfg: Config, ps: seq<Packet>, n: nat, k: nat, verdict: Verdict)
    requires n < k <= |ps| && ps[n].token == cfg.token && InPlace(cfg.token, 0, ps[..k])
    requires |Payloads(cfg.token, ps[..k])| <= cfg.expectedSize
    ensures !EndsAt(cfg, ps, n, |Payloads(cfg.token, ps[..n])|, 0, verdict)
  {
    TakenInPlace(cfg.token, 0, ps, k, n);
    PayloadsGrow(cfg.token, ps, n, k);
  }

  /** A data packet in place adds its payload. */
  lemma PayloadsGrow(token: Bytes, ps: seq<Packet>, n: nat, k: nat)
    requires n < k <= |ps| && ps[n].token == token
    ensures ps[n].kind == KIND_DATA ==>
              |Payloads(token, ps[..n])| + |ps[n].payload| <= |Payloads(token, ps[..k])|
  {
    assert ps[..k] == ps[..n] + ([ps[n]] + ps[n + 1..k]);
    PayloadsConcat(token, ps[..n], [ps[n]] + ps[n + 1..k]);
    PayloadsHead(token, ps[n], ps[n + 1..k]);
  }

  lemma JoinPayloads(token: Bytes, got: Bytes, head: seq<Packet>, rest: seq<Packet>)
    ensures (got + Payloads(token, head)) + Payloads(token, rest) == got + Payloads(token, head + rest)
  {
    PayloadsConcat(token, head, rest);
    assert got + (Payloads(token, head) + Payloads(token, rest))
        == (got + Payloads(token, head)) + Payloads(token, rest);
  }

  // ----- the sender

  /** The DATA packets of a file cut into pieces, from `offset` on. */
  function DataPackets(token: Bytes, pieces: seq<Bytes>, offset: nat): seq<Packet>
    requires offset + Length(pieces) < U64_LIMIT
  {
    if pieces == [] then []
    else [Packet(KIND_DATA, token, offset, pieces[0])] + DataPackets(token, pieces[1..], offset + |pieces[0]|)
  }

  function Length(pieces: seq<Bytes>): nat {
    |Glue(pieces)|
  }

  /** DATA packets from `offset` on, then DONE. */
  function PacketsFrom(token: Bytes, pieces: seq<Bytes>, offset: nat): seq<Packet>
    requires offset + Length(pieces) < U64_LIMIT
  {
    DataPackets(token, pieces, offset) + [Packet(KIND_DONE, token, offset + Length(pieces), [])]
  }

  /** The whole send. */
  function SentPackets(token: Bytes, pieces: seq<Bytes>): seq<Packet>
    requires Length(pieces) < U64_LIMIT
  {
    PacketsFrom(token, pieces, 0)
  }

  lemma PacketsCons(token: Bytes, pieces: seq<Bytes>, offset: nat)
    requires pieces != [] && offset + Length(pieces) < U64_LIMIT
    ensures PacketsFrom(token, pieces, offset)
            == [Packet(KIND_DATA, token, offset, pieces[0])] + PacketsFrom(token, pieces[1..], offset + |pieces[0]|)
  {
  }

  predicate AllSendable(cfg: Config, packets: seq<Packet>) {
    forall p <- packets :: Sendable(p) && |p.payload| <= cfg.chunkSize
  }

  /** Every packet has a token of the right length. */
  predicate Tokened(packets: seq<Packet>) {
    forall i :: 0 <= i < |packets| ==> |packets[i].token| == TOKEN_LEN
  }

  /** Packets as they travel. */
  function Wire(packets: seq<Packet>): Bytes
    requires Tokened(packets)
  {
    if packets == [] then [] else Wire(packets[..|packets| - 1]) + Encoding(packets[|packets| - 1])
  }

  predicate FitIn(pieces: seq<Bytes>, chunkSize: nat) {
    forall i :: 0 <= i < |pieces| ==> 0 < |pieces[i]| <= chunkSize
  }

  /** What has been read and sent at a file offset. */
  ghost predicate Sending(token: Bytes, file: Bytes, cap: nat, offset: nat, wire: Bytes, pieces: seq<Bytes>) {
    && offset <= |file| < U64_LIMIT && Glue(pieces) == file[..offset] && FitIn(pieces, cap)
    && Tokened(DataPackets(token, pieces, 0))
    && wire == Wire(DataPackets(token, pieces, 0))
  }

  lemma SendStep(token: Bytes, file: Bytes, cap: nat, offset: nat, wire: Bytes, pieces: seq<Bytes>, n: nat)
    requires |token| == TOKEN_LEN && Sending(token, file, cap, offset, wire, pieces)
    requires 0 < n <= cap && n <= |file| - offset
    ensures var piece := file[offset..offset + n];
            Sending(token, file, cap, offset + n, wire + Encoding(Packet(KIND_DATA, token, offset, piece)),
                    pieces + [piece])
  {
    var piece := file[offset..offset + n];
    var before := DataPackets(token, pieces, 0);
    GlueSnoc(pieces, piece);
    assert file[..offset + n] == file[..offset] + piece;
    DataPacketsSnoc(token, pieces, piece, 0);
    WireSnoc(before, Packet(KIND_DATA, token, offset, piece));
    assert DataPackets(token, pieces + [piece], 0) == before + [Packet(KIND_DATA, token, offset, piece)];
  }

  lemma SendEnd(token: Bytes, file: Bytes, cap: nat, wire: Bytes, pieces: seq<Bytes>)
    requires |token| == TOKEN_LEN && Sending(token, file, cap, |file|, wire, pieces)
    ensures Glue(pieces) == file
    ensures Tokened(SentPackets(token, pieces))
    ensures wire + Encoding(Packet(KIND_DONE, token, |file|, [])) == Wire(SentPackets(token, pieces))
  {
    assert file[..|file|] == file;
    WireSnoc(DataPackets(token, pieces, 0), Packet(KIND_DONE, token, |file|, []));
  }

  /** Reads the file piece by piece, as long as each read turns out to be, and
      sends every piece as one packet. The announced size is checked against the
      file before and against the bytes read after. */
  method SendFile(token: Bytes, file: Bytes, announced: u64, chunkSize: nat)
    returns (wire: Bytes, sent: Option<Report>, ghost pieces: seq<Bytes>)
    requires |token| == TOKEN_LEN && |file| < U64_LIMIT && chunkSize < U32_LIMIT
    ensures (sent.Some? <==> |file| == announced) && (sent.None? ==> wire == [])
    ensures sent.Some? ==> Glue(pieces) == file && FitIn(pieces, Max(chunkSize, 1))
                           && Tokened(SentPackets(token, pieces))
                           && wire == Wire(SentPackets(token, pieces))
                           && sent.value == Report(|file|, |pieces|)
  {
    wire, pieces := [], [];
    if |file| != announced {
      return wire, None, pieces;
    }
    var cap := Max(chunkSize, 1);
    var offset, chunks := 0, 0;
    while offset < |file|
      invariant chunks == |pieces| && Sending(token, file, cap, offset, wire, pieces)
      decreases |file| - offset
    {
      var n: nat :| 0 < n && n <= cap && n <= |file| - offset;
      SendStep(token, file, cap, offset, wire, pieces, n);
      var packet := EncodePacket(KIND_DATA, token, offset, file[offset..offset + n]);
      wire := wire + packet.value;
      pieces := pieces + [file[offset..offset + n]];
      offset := offset + n;
      chunks := chunks + 1;
    }
    SendEnd(token, file, cap, wire, pieces);
    if offset != announced {
      return wire, None, pieces;
    }
    var done := EncodePacket(KIND_DONE, token, offset, []);
    wire := wire + done.value;
    sent := Some(Report(offset, chunks));
  }

  lemma WireSnoc(packets: seq<Packet>, p: Packet)
    requires Tokened(packets)
    requires |p.token| == TOKEN_LEN
    ensures Wire(packets + [p]) == Wire(packets) + Encoding(p)
  {
    assert (packets + [p])[..|packets|] == packets;
  }

  lemma {:induction false} GlueSnoc(pieces: seq<Bytes>, piece: Bytes)
    ensures Glue(pieces + [piece]) == Glue(pieces) + piece
  {
    if pieces == [] {
      assert pieces + [piece] == [piece] && [piece][1..] == [];
      assert piece + [] == piece == [] + piece;
    } else {
      assert (pieces + [piece])[0] == pieces[0] && (pieces + [piece])[1..] == pieces[1..] + [piece];
      GlueSnoc(pieces[1..], piece);
      assert pieces[0] + (Glue(pieces[1..]) + piece) == (pieces[0] + Glue(pieces[1..])) + piece;
    }
  }

  lemma {:induction false} DataPacketsSnoc(token: Bytes, pieces: seq<Bytes>, piece: Bytes, offset: nat)
    requires offset + Length(pieces) + |piece| < U64_LIMIT
    ensures Length(pieces + [piece]) == Length(pieces) + |piece|
    ensures DataPackets(token, pieces + [piece], offset)
            == DataPackets(token, pieces, offset) + [Packet(KIND_DATA, token, offset + Length(pieces), piece)]
  {
    GlueSnoc(pieces, piece);
    var all := pieces + [piece];
    if pieces == [] {
      assert all[0] == piece && all[1..] == [];
      assert DataPackets(token, all[1..], offset + |piece|) == [];
    } else {
      var first := [Packet(KIND_DATA, token, offset, pieces[0])];
      var last := [Packet(KIND_DATA, token, offset + Length(pieces), piece)];
      GlueSnoc(pieces[1..], piece);
      DataPacketsSnoc(token, pieces[1..], piece, offset + |pieces[0]|);
      assert all[0] == pieces[0] && all[1..] == pieces[1..] + [piece];
      var later := DataPackets(token, pieces[1..], offset + |pieces[0]|);
      assert DataPackets(token, all, offset) == first + (later + last);
      assert first + (later + last) == (first + later) + last;
    }
  }

  // ----- composition

  lemma FrontSlices(header: Bytes, payload: Bytes, rest: Bytes)
    ensures var data := (header + payload) + rest;
            && data == header + (payload + rest)
            && data[..|header|] == header
            && data[..|header| + |payload|] == header + payload
            && data[|header| + |payload|..] == rest
  {
  }

  lemma FrontOfEncoding(cfg: Config, p: Packet, rest: Bytes)
    requires Sendable(p) && |p.payload| <= cfg.chunkSize
    ensures Front(cfg, Encoding(p) + rest) == Ok(p)
    ensures (Encoding(p) + rest)[HEADER_LEN + |p.payload|..] == rest
  {
    FrontSlices(Header(p), p.payload, rest);
    HeaderFields(p, []);
    HeaderNumbers(p);
    PacketRoundTrip(p);
    assert Header(p) == Header(p) + [];
  }

  lemma {:induction false} WireCons(p: Packet, packets: seq<Packet>)
    requires |p.token| == TOKEN_LEN && Tokened(packets)
    ensures Wire([p] + packets) == Encoding(p) + Wire(packets)
  {
    if packets == [] {
      assert [p] + packets == [p] && [p][..0] == [];
      assert [] + Encoding(p) == Encoding(p) + [];
    } else {
      var front, last := packets[..|packets| - 1], packets[|packets| - 1];
      WireCons(p, front);
      assert ([p] + packets)[..|packets|] == [p] + front;
      assert (Encoding(p) + Wire(front)) + Encoding(last) == Encoding(p) + (Wire(front) + Encoding(last));
    }
  }

  /** What a list of packets does, one after the other. */
  function HandleAll(cfg: Config, packets: seq<Packet>, st: Progress, start: nat): (Progress, Verdict) {
    if packets == [] then (st, Failed(Closed))
    else
      var (next, verdict) := Handle(cfg, packets[0], st, start);
      if verdict.More? then HandleAll(cfg, packets[1..], next, start) else (next, verdict)
  }

  /** A connection carrying well-formed packets is served packet by packet. */
  lemma {:induction false} WireIsServed(cfg: Config, packets: seq<Packet>, st: Progress, start: nat)
    requires AllSendable(cfg, packets)
    ensures ReceiveStream(cfg, Wire(packets), st, start) == HandleAll(cfg, packets, st, start)
    decreases |packets|
  {
    if packets != [] {
      var p, rest := packets[0], packets[1..];
      assert packets == [p] + rest && p in packets;
      WireCons(p, rest);
      FrontOfEncoding(cfg, p, Wire(rest));
      WireIsServed(cfg, rest, Handle(cfg, p, st, start).0, start);
    }
  }

  /** The honest packets are received to their end, whatever the pieces. */
  lemma {:induction false} SentIsHandled(cfg: Config, pieces: seq<Bytes>, st: Progress, start: nat)
    requires |st.got| + Length(pieces) <= cfg.expectedSize
    ensures HandleAll(cfg, PacketsFrom(cfg.token, pieces, |st.got|), st, start)
            == (Progress(st.got + Glue(pieces), st.chunks + |pieces|), Finished)
    decreases |pieces|
  {
    var packets := PacketsFrom(cfg.token, pieces, |st.got|);
    if pieces == [] {
      assert packets == [Packet(KIND_DONE, cfg.token, |st.got|, [])];
      assert st.got + [] == st.got;
    } else {
      var next := Progress(st.got + pieces[0], st.chunks + 1);
      var later := PacketsFrom(cfg.token, pieces[1..], |next.got|);
      PacketsCons(cfg.token, pieces, |st.got|);
      assert packets[0] == Packet(KIND_DATA, cfg.token, |st.got|, pieces[0]) && packets[1..] == later;
      assert HandleAll(cfg, packets, st, start) == HandleAll(cfg, later, next, start);
      SentIsHandled(cfg, pieces[1..], next, start);
      assert (st.got + pieces[0]) + Glue(pieces[1..]) == st.got + (pieces[0] + Glue(pieces[1..]));
    }
  }

  lemma {:induction false} SentAreSendable(cfg: Config, pieces: seq<Bytes>, offset: nat)
    requires ValidConfig(cfg) && cfg.chunkSize < U32_LIMIT && FitIn(pieces, cfg.chunkSize)
    requires offset + Length(pieces) < U64_LIMIT
    ensures AllSendable(cfg, DataPackets(cfg.token, pieces, offset))
  {
    if pieces != [] {
      assert pieces[0] in pieces;
      SentAreSendable(cfg, pieces[1..], offset + |pieces[0]|);
    }
  }

  /** A connection of somebody else: its first packet is well formed and carries
      another token. */
  ghost predicate Stray(cfg: Config, data: Bytes) {
    exists p: Packet, rest: Bytes ::
      Sendable(p) && p.token != cfg.token && |p.payload| <= cfg.chunkSize && data == Encoding(p) + rest
  }

  lemma {:induction false} StraysAreDropped(cfg: Config, strays: seq<Bytes>, conns: seq<Bytes>, st: Progress)
    requires forall s <- strays :: Stray(cfg, s)
    ensures Receive(cfg, strays + conns, st) == Receive(cfg, conns, st)
  {
    if strays == [] {
      assert strays + conns == conns;
    } else {
      var all := strays + conns;
      assert all[0] == strays[0] && all[1..] == strays[1..] + conns;
      assert Stray(cfg, strays[0]);
      var p, rest :| Sendable(p) && p.token != cfg.token && |p.payload| <= cfg.chunkSize
                     && strays[0] == Encoding(p) + rest;
      FrontOfEncoding(cfg, p, rest);
      StraysAreDropped(cfg, strays[1..], conns, st);
    }
  }

  lemma SentFromStart(cfg: Config, pieces: seq<Bytes>, st: Progress, start: nat)
    requires Length(pieces) <= cfg.expectedSize && st.got == [] && st.chunks == 0
    ensures HandleAll(cfg, SentPackets(cfg.token, pieces), st, start) == (Progress(Glue(pieces), |pieces|), Finished)
  {
    SentIsHandled(cfg, pieces, st, start);
    assert st.got + Glue(pieces) == Glue(pieces);
  }

  lemma SentSendable(cfg: Config, pieces: seq<Bytes>)
    requires ValidConfig(cfg) && cfg.chunkSize < U32_LIMIT && FitIn(pieces, cfg.chunkSize)
    requires Length(pieces) <= cfg.expectedSize
    ensures AllSendable(cfg, SentPackets(cfg.token, pieces))
  {
    SentAreSendable(cfg, pieces, 0);
  }

  /** An honest connection that fills the file is the last one served. */
  lemma HonestConnection(cfg: Config, packets: seq<Packet>, later: seq<Bytes>, st: Progress, done: Progress)
    requires AllSendable(cfg, packets) && |done.got| == cfg.expectedSize
    requires HandleAll(cfg, packets, st, |st.got|) == (done, Finished)
    ensures Receive(cfg, [Wire(packets)] + later, st) == (done, Ok(Report(|done.got|, done.chunks)))
  {
    var conns := [Wire(packets)] + later;
    assert conns[0] == Wire(packets);
    WireIsServed(cfg, packets, st, |st.got|);
  }

  /** Sender and receiver together: the file arrives whole, with matching byte
      and chunk counts, whatever the pieces it was read in and whatever stray
      connections came first. */
  lemma SentIsReceived(cfg: Config, pieces: seq<Bytes>, strays: seq<Bytes>, later: seq<Bytes>)
    requires ValidConfig(cfg) && cfg.chunkSize < U32_LIMIT && FitIn(pieces, cfg.chunkSize)
    requires Length(pieces) == cfg.expectedSize
    requires forall s <- strays :: Stray(cfg, s)
    ensures AllSendable(cfg, SentPackets(cfg.token, pieces))
    ensures Receive(cfg, strays + ([Wire(SentPackets(cfg.token, pieces))] + later), Progress([], 0))
            == (Progress(Glue(pieces), |pieces|), Ok(Report(|Glue(pieces)|, |pieces|)))
  {
    SentSendable(cfg, pieces);
    var st := Progress([], 0);
    SentFromStart(cfg, pieces, st, |st.got|);
    HonestConnection(cfg, SentPackets(cfg.token, pieces), later, st, Progress(Glue(pieces), |pieces|));
    StraysAreDropped(cfg, strays, [Wire(SentPackets(cfg.token, pieces))] + later, st);
  }

  lemma HelperIsReceived(cfg: Config, pieces: seq<Bytes>, strays: seq<Bytes>, wire: Bytes)
    requires ValidConfig(cfg) && cfg.chunkSize < U32_LIMIT && FitIn(pieces, cfg.chunkSize)
    requires Length(pieces) == cfg.expectedSize
    requires forall s <- strays :: Stray(cfg, s)
    requires Tokened(SentPackets(cfg.token, pieces))
    requires wire == Wire(SentPackets(cfg.token, pieces))
    ensures Receive(cfg, strays + [wire], Progress([], 0))
            == (Progress(Glue(pieces), |pieces|), Ok(Report(|Glue(pieces)|, |pieces|)))
  {
    SentIsReceived(cfg, pieces, strays, []);
    assert [wire] + [] == [wire];
  }

  /** The receiver's side of a copy: stray connections first, then the helper's. */
  method ServeHelper(cfg: Config, strays: seq<Stream>, wire: Bytes, flaky: bool, ghost pieces: seq<Bytes>)
    returns (file: Bytes, r: Result<Report, RecvError>)
    requires ValidConfig(cfg) && Ready(strays)
    requires forall k :: 0 <= k < |strays| ==> strays[k].flaky ==> flaky
    requires Receive(cfg, Contents(strays) + [wire], Progress([], 0))
             == (Progress(Glue(pieces), |pieces|), Ok(Report(|Glue(pieces)|, |pieces|)))
    modifies strays
    ensures r.Ok? ==> file == Glue(pieces) && r.value == Report(|file|, |pieces|)
    ensures !flaky ==> r.Ok?
  {
    var helper := new Stream(wire, flaky);
    var conns := strays + [helper];
    assert Contents(conns) == Contents(strays) + [wire];
    var st;
    file, st, r := ReceiveToPath(cfg, conns);
  }

  /** One fast-path copy from end to end: the helper sends the file, the receiver
      serves the stray connections and then the helper's; the byte count that the
      helper reports, which may be a wrong one, is compared. Without an interruption the
      copy succeeds exactly when it is right, and then the part file is the source. */
  method RdmaCopy(cfg: Config, source: Bytes, strays: seq<Stream>, flaky: bool, wrongCount: Option<nat>)
    returns (file: Bytes, copied: Option<Report>)
    requires ValidConfig(cfg) && cfg.chunkSize < U32_LIMIT && |source| == cfg.expectedSize
    requires Ready(strays)
    requires forall s <- Contents(strays) :: Stray(cfg, s)
    requires forall k :: 0 <= k < |strays| ==> strays[k].flaky ==> flaky
    modifies strays
    ensures copied.Some? ==>
              && file == source && copied.value.bytesReceived == |source|
              && (wrongCount.Some? ==> wrongCount.value == |source|)
    ensures !flaky && (wrongCount.Some? ==> wrongCount.value == |source|) ==> copied.Some?
  {
    var wire, sent, pieces := SendFile(cfg.token, source, cfg.expectedSize, cfg.chunkSize);
    HelperIsReceived(cfg, pieces, Contents(strays), wire);
    var r;
    file, r := ServeHelper(cfg, strays, wire, flaky, pieces);
    var reported := if wrongCount.Some? then wrongCount.value else sent.value.bytesReceived;
    if r.Err? || reported != r.value.bytesReceived {
      return file, None;
    }
    copied := Some(r.value);
  }
}
