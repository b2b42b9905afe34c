/** Tunnel drivers: the writer that batches queued mux frames and the reader that reassembles them. */
module Tunnel {
  import opened Bits
  import opened Errors
  import opened Limits
  import opened SessionCiphers
  import opened Wire
  import opened Incremental
  import opened Mux
  import opened Transmission
  import Base94
  import S = Session

  /** Bytes buffered without a complete frame before the reader gives up. */
  const BUF_CAP: nat := BASE94_MAX_FRAME + 64
  const PREFIX_MAX_FRAME: nat := BASE94_MAX_FRAME
  const WRITE_BATCH: nat := 32

  // ----- the two carriers, sending

  /** What encoding depends on: the session's sending direction, or nothing behind a bonded carrier. */
  datatype Sender = SessionSender(d: Dir) | PrefixSender {
    function Sent(): Sender { if SessionSender? then SessionSender(d.Sent()) else this }

    predicate Fits(item: Item) {
      && 1 <= |item.msg| <= (if SessionSender? then PPP_BUFFER_SIZE else PREFIX_MAX_FRAME)
      && item.draws.Valid()
    }
  }

  function Prefixed(msg: Bytes): Bytes { Varint(|msg|) + msg }

  function Encoding(s: Sender, item: Item): Bytes
    requires s.Fits(item)
  {
    if s.SessionSender? then Packet(s.d, item.msg, item.draws) else Prefixed(item.msg)
  }

  predicate AllFit(s: Sender, items: seq<Item>) {
    forall i :: 0 <= i < |items| ==> s.Fits(items[i])
  }

  function AfterAll(s: Sender, n: nat): Sender
    decreases n
  {
    if n == 0 then s else AfterAll(s.Sent(), n - 1)
  }

  /** The byte stream of `items`, sent one after the other. */
  ghost function Stream(s: Sender, items: seq<Item>): Bytes
    requires AllFit(s, items)
    decreases |items|
  {
    if items == [] then [] else Encoding(s, items[0]) + Stream(s.Sent(), items[1..])
  }

  lemma {:induction false} StreamAppends(s: Sender, items: seq<Item>, item: Item)
    requires AllFit(s, items) && s.Fits(item)
    ensures AllFit(s, items + [item]) && AfterAll(s, |items|).Fits(item)
    ensures Stream(s, items + [item]) == Stream(s, items) + Encoding(AfterAll(s, |items|), item)
    ensures AfterAll(s, |items| + 1) == AfterAll(s, |items|).Sent()
    decreases |items|
  {
    hide Encoding;
    var all := items + [item];
    if items == [] {
      assert all[1..] == [] && Stream(s.Sent(), all[1..]) == [];
    } else {
      StreamAppends(s.Sent(), items[1..], item);
      assert all[1..] == items[1..] + [item];
    }
  }

  // ----- the two carriers, receiving

  datatype Codec = SessionCodec(d: Dir, pending: Pending) | PrefixCodec

  /** Length prefix at the front: message length and its own size. None asks for more bytes. */
  function PeekPrefix(buf: Bytes): (r: Result<Option<(nat, nat)>>) {
    match DecodedVarint(buf)
    case Some((len, n)) =>
      if len == 0 then Err(ZeroLength) else if len > PREFIX_MAX_FRAME then Err(FrameTooLarge) else Ok(Some((len, n)))
    case None => if |buf| >= 5 then Err(InvalidFrame) else Ok(None)
  }

  /** One attempt to take a frame off the buffer, which comes back drained of it. */
  datatype Cut = Cut(result: Result<Option<Bytes>>, codec: Codec, buf: Bytes)

  function CutFrame(codec: Codec, buf: Bytes): Cut {
    match codec
    case SessionCodec(d, pending) =>
      PollConsumes(Reader(d, pending, buf));
      var p := Polled(Reader(d, pending, buf));
      var next := Drained(p);
      Cut(p.result, SessionCodec(next.d, next.pending), next.buf)
    case PrefixCodec =>
      match PeekPrefix(buf)
      case Err(e) => Cut(Err(e), codec, buf)
      case Ok(None) => Cut(Ok(None), codec, buf)
      case Ok(Some((len, n))) =>
        if |buf| < n + len then Cut(Ok(None), codec, buf) else Cut(Ok(Some(buf[n..n + len])), codec, buf[n + len..])
  }

  /**
   Bounded reassembly: on any bytes at all, a reader that asks for more holds less than one frame of
   the largest size, so the cap it checks is never exceeded.
   */
  lemma ReassemblyBounded(codec: Codec, buf: Bytes)
    requires CutFrame(codec, buf).result == Ok(None)
    ensures |CutFrame(codec, buf).buf| < BASE94_MAX_FRAME + 7 <= BUF_CAP
  {
    hide Base94.DecodeHeader;
    if codec.SessionCodec? && codec.d.Enveloped() {
      PeekBounded(codec.d.p, codec.d.first, buf);
    }
  }

  lemma PeekBounded(p: Base94.Obfuscation, first: bool, buf: Bytes)
    ensures match Base94.PeekFrameLen(p, first, buf)
            case Err(_) => true
            case Ok(None) => |buf| < 7
            case Ok(Some(total)) => total <= BASE94_MAX_FRAME + 7
  {
  }

  /**
   What successive reads of the carrier return: the chunks, then its end, or an error if it broke. A
   read that returns no bytes is the end as well.
   */
  datatype Carrier = Carrier(chunks: seq<Bytes>, broken: bool) {
    function Last(): Result<Option<Bytes>> { if broken then Err(Io) else Ok(None) }
  }

  /** Outcome of one call for the next message: the reader's state and what the carrier still has. */
  datatype Taken = Taken(result: Result<Option<Bytes>>, codec: Codec, buf: Bytes, carrier: Carrier)

  /** Reads until a frame is complete or the carrier has no more. */
  function Next(codec: Codec, buf: Bytes, carrier: Carrier): Taken
    decreases |carrier.chunks|
  {
    var c := CutFrame(codec, buf);
    if c.result != Ok(None) then Taken(c.result, c.codec, c.buf, carrier)
    else if carrier.chunks == [] then Taken(carrier.Last(), c.codec, c.buf, carrier)
    else if carrier.chunks[0] == [] then Taken(Ok(None), c.codec, c.buf, carrier)
    else Next(c.codec, c.buf + carrier.chunks[0], carrier.(chunks := carrier.chunks[1..]))
  }

  // ----- synchronisation

  /** The reader's buffer and the bytes still to come are the stream of `items`, sent from `s` on. */
  ghost predicate InSync(codec: Codec, buf: Bytes, s: Sender, items: seq<Item>, rest: Bytes) {
    && AllFit(s, items)
    && match codec
       case SessionCodec(d, pending) => s.SessionSender? && Synced(Reader(d, pending, buf), s.d, items, rest)
       case PrefixCodec => s.PrefixSender? && buf + rest == Stream(s, items)
  }

  lemma {:induction false} StreamIsWire(d: Dir, items: seq<Item>)
    requires AllFit(SessionSender(d), items)
    ensures AllValid(items) && Stream(SessionSender(d), items) == WireOf(d, items)
    decreases |items|
  {
    hide Packet;
    if items != [] {
      StreamIsWire(d.Sent(), items[1..]);
    }
  }

  /** A reader from the start. */
  function Reading(s: Sender): Codec { if s.SessionSender? then SessionCodec(s.d, None) else PrefixCodec }

  lemma StartsInSync(s: Sender, items: seq<Item>, rest: Bytes)
    requires AllFit(s, items) && rest == Stream(s, items)
    ensures InSync(Reading(s), [], s, items, rest)
  {
    assert [] + rest == rest;
    if s.SessionSender? {
      StreamIsWire(s.d, items);
    }
  }

  /** Bytes of the frame at the front the reader already has. */
  function HeldBytes(codec: Codec, buf: Bytes): nat {
    if codec.SessionCodec? then Held(Reader(codec.d, codec.pending, buf)) else |buf|
  }

  /** One attempt; the reader waits only while it lacks part of the next frame. */
  ghost predicate CutAdvances(codec: Codec, buf: Bytes, s: Sender, items: seq<Item>, rest: Bytes) {
    var c := CutFrame(codec, buf);
    if c.result == Ok(None) then InSync(c.codec, c.buf, s, items, rest) && Waiting(c.codec, c.buf, s, items)
    else items != [] && c.result == Ok(Some(items[0].msg)) && InSync(c.codec, c.buf, s.Sent(), items[1..], rest)
  }

  ghost predicate Waiting(codec: Codec, buf: Bytes, s: Sender, items: seq<Item>) {
    items != [] && s.Fits(items[0]) ==> HeldBytes(codec, buf) < |Encoding(s, items[0])|
  }

  /** The length prefix of a message, the buffer holding it in part or whole. */
  lemma PeekFront(buf: Bytes, rest: Bytes, len: nat, tail: Bytes)
    requires 1 <= len <= PREFIX_MAX_FRAME && buf + rest == Varint(len) + tail
    ensures PeekPrefix(buf) == Ok(if |buf| < |Varint(len)| then None else Some((len, |Varint(len)|)))
  {
    hide Varint;
    var head := Varint(len);
    SplitFront(buf, rest, head, tail);
    VarintRoundTrip(len, tail);
    if |buf| >= |head| {
      VarintRoundTrip(len, buf[|head|..]);
    } else if DecodedVarint(buf).Some? {
      DecodeExtends(buf, rest, 0);
    }
  }

  lemma PeekNothing()
    ensures PeekPrefix([]) == Ok(None)
  {
  }

  lemma PrefixCut(buf: Bytes, s: Sender, items: seq<Item>, rest: Bytes)
    requires InSync(PrefixCodec, buf, s, items, rest)
    ensures CutAdvances(PrefixCodec, buf, s, items, rest)
  {
    hide Varint, PeekPrefix;
    if items != [] {
      var msg := items[0].msg;
      var head, tail := Varint(|msg|), Stream(s.Sent(), items[1..]);
      assert buf + rest == head + (msg + tail) && buf + rest == (head + msg) + tail;
      PeekFront(buf, rest, |msg|, msg + tail);
      SplitFront(buf, rest, head + msg, tail);
    } else {
      assert buf == [] && rest == [];
      PeekNothing();
    }
  }

  lemma CutSyncs(codec: Codec, buf: Bytes, s: Sender, items: seq<Item>, rest: Bytes)
    requires InSync(codec, buf, s, items, rest)
    ensures CutAdvances(codec, buf, s, items, rest)
  {
    hide PollFrame, Stream;
    match codec
    case PrefixCodec => PrefixCut(buf, s, items, rest);
    case SessionCodec(d, pending) => PollAdvances(Reader(d, pending, buf), s.d, items, rest);
  }

  predicate NoneEmpty(chunks: seq<Bytes>) {
    forall i :: 0 <= i < |chunks| ==> chunks[i] != []
  }

  /** A call that ends with the carrier, `lost` being the bytes that never came. */
  ghost predicate Ends(t: Taken, s: Sender, items: seq<Item>, lost: Bytes) {
    && t.result == t.carrier.Last() && t.carrier.chunks == []
    && InSync(t.codec, t.buf, s, items, lost) && Waiting(t.codec, t.buf, s, items)
  }

  /**
   One call delivers the next message, or comes to the carrier's end with less than one frame held;
   a carrier that dies inside a frame never makes it deliver anything else.
   */
  lemma {:induction false} NextDelivers(codec: Codec, buf: Bytes, s: Sender, items: seq<Item>, carrier: Carrier, lost: Bytes)
    requires InSync(codec, buf, s, items, Concat(carrier.chunks) + lost) && NoneEmpty(carrier.chunks)
    ensures var t := Next(codec, buf, carrier);
      && NoneEmpty(t.carrier.chunks) && t.carrier.broken == carrier.broken
      && (Ends(t, s, items, lost)
          || (items != [] && t.result == Ok(Some(items[0].msg))
              && InSync(t.codec, t.buf, s.Sent(), items[1..], Concat(t.carrier.chunks) + lost)))
    decreases |carrier.chunks|
  {
    hide CutFrame, InSync, Waiting;
    var chunks := carrier.chunks;
    CutSyncs(codec, buf, s, items, Concat(chunks) + lost);
    var c := CutFrame(codec, buf);
    if c.result == Ok(None) {
      if chunks == [] {
        assert [] + lost == lost;
      } else {
        Shift(c.codec, c.buf, s, items, chunks, lost);
        NextDelivers(c.codec, c.buf + chunks[0], s, items, carrier.(chunks := chunks[1..]), lost);
      }
    }
  }

  lemma Shift(codec: Codec, buf: Bytes, s: Sender, items: seq<Item>, chunks: seq<Bytes>, lost: Bytes)
    requires chunks != [] && InSync(codec, buf, s, items, Concat(chunks) + lost)
    ensures InSync(codec, buf + chunks[0], s, items, Concat(chunks[1..]) + lost)
  {
    hide Stream, WireOf, BinaryPacket;
    assert (buf + chunks[0]) + (Concat(chunks[1..]) + lost) == buf + (Concat(chunks) + lost);
  }

  // ----- where the bytes received end

  lemma HeldSum(codec: Codec, buf: Bytes, s: Sender, items: seq<Item>, rest: Bytes)
    requires InSync(codec, buf, s, items, rest)
    ensures AllFit(s, items) && HeldBytes(codec, buf) + |rest| == |Stream(s, items)|
  {
    hide Stream, WireOf, Synced;
    if s.SessionSender? {
      StreamIsWire(s.d, items);
      HeldLength(Reader(codec.d, codec.pending, buf), s.d, items, rest);
    }
  }

  lemma {:induction false} FitsAlways(s: Sender, n: nat, item: Item)
    ensures AfterAll(s, n).Fits(item) <==> s.Fits(item)
    decreases n
  {
    if n > 0 {
      FitsAlways(s.Sent(), n - 1, item);
    }
  }

  lemma {:induction false} StreamSplits(s: Sender, items: seq<Item>, k: nat)
    requires AllFit(s, items) && k <= |items|
    ensures AllFit(s, items[..k]) && AllFit(AfterAll(s, k), items[k..])
    ensures Stream(s, items) == Stream(s, items[..k]) + Stream(AfterAll(s, k), items[k..])
    ensures k > 0 ==> |Encoding(s, items[0])| <= |Stream(s, items[..k])|
    decreases k
  {
    hide Encoding;
    if k == 0 {
      assert items[0..] == items && items[..0] == [] && Stream(s, items[..0]) == [];
    } else {
      StreamSplits(s.Sent(), items[1..], k - 1);
      assert items[1..][..k - 1] == items[..k][1..] && items[1..][k - 1..] == items[k..] && items[..k][0] == items[0];
      var first, front, back := Encoding(s, items[0]), Stream(s.Sent(), items[..k][1..]), Stream(AfterAll(s, k), items[k..]);
      assert Stream(s, items[..k]) == first + front;
      assert Stream(s, items) == first + (front + back);
      hide Stream;
      assert first + (front + back) == (first + front) + back;
    }
  }

  /** The bytes that never came are whole messages: those that did come end on a frame boundary. */
  ghost predicate OnBoundary(s: Sender, items: seq<Item>, lost: Bytes)
    requires AllFit(s, items)
  {
    exists k :: 0 <= k <= |items| && AllFit(AfterAll(s, k), items[k..]) && lost == Stream(AfterAll(s, k), items[k..])
  }

  predicate HoldsNothing(t: Taken) {
    t.buf == [] && (t.codec.SessionCodec? ==> t.codec.pending.None?)
  }

  /**
   The end is not always a clean one: the call returns the same at a frame boundary and inside a
   frame. It was a boundary exactly if nothing is buffered and no header is stashed.
   */
  lemma EndOnBoundary(t: Taken, s: Sender, items: seq<Item>, lost: Bytes)
    requires Ends(t, s, items, lost) && AllFit(s, items)
    ensures HoldsNothing(t) <==> OnBoundary(s, items, lost)
  {
    hide Stream, Encoding;
    HeldSum(t.codec, t.buf, s, items, lost);
    if HoldsNothing(t) {
      NothingHeldAllLost(t, s, items, lost);
      assert items[0..] == items && AfterAll(s, 0) == s;
      assert lost == Stream(AfterAll(s, 0), items[0..]);
    }
    if k :| 0 <= k <= |items| && AllFit(AfterAll(s, k), items[k..]) && lost == Stream(AfterAll(s, k), items[k..]) {
      StreamSplits(s, items, k);
      assert HeldBytes(t.codec, t.buf) == |Stream(s, items[..k])|;
    }
  }

  lemma NothingHeldAllLost(t: Taken, s: Sender, items: seq<Item>, lost: Bytes)
    requires InSync(t.codec, t.buf, s, items, lost) && HoldsNothing(t)
    ensures lost == Stream(s, items)
  {
    hide Stream, WireOf;
    assert [] + lost == lost;
    if s.SessionSender? {
      StreamIsWire(s.d, items);
    }
  }

  /** On each carrier one byte that begins a frame and then the end give the answer of a clean end. */
  lemma EndsInsideFrame(d: Dir, b: byte)
    ensures Next(PrefixCodec, [], Carrier([[5]], false)) == Taken(Ok(None), PrefixCodec, [5], Carrier([], false))
    ensures Next(SessionCodec(d, None), [], Carrier([[b]], false)) == Taken(Ok(None), SessionCodec(d, None), [b], Carrier([], false))
  {
    PeekNothing();
    var p, e := Carrier([[5]], false), Carrier([], false);
    assert p.chunks[1..] == [] && [] + [5] == [5];
    assert CutFrame(PrefixCodec, [5]) == Cut(Ok(None), PrefixCodec, [5]);
  }

  /** In general: a carrier that ends anywhere inside any frame looks like one that ends cleanly. */
  lemma EveryCutLooksClean(s: Sender, item: Item, n: nat)
    requires s.Fits(item) && 0 < n < |Encoding(s, item)|
    ensures var t := Next(Reading(s), [], Carrier([Encoding(s, item)[..n]], false));
      t.result == Ok(None) && !HoldsNothing(t) && !OnBoundary(s, [item], Encoding(s, item)[n..])
  {
    hide Stream, Encoding, Next, InSync;
    var w := Encoding(s, item);
    var carrier := Carrier([w[..n]], false);
    OneItem(s, item);
    StartsInSync(s, [item], w);
    assert Concat([w[..n]]) == w[..n] + Concat([]);
    assert Concat(carrier.chunks) + w[n..] == w;
    NextDelivers(Reading(s), [], s, [item], carrier, w[n..]);
    var t := Next(Reading(s), [], carrier);
    if !Ends(t, s, [item], w[n..]) {
      assert [item][1..] == [];
      HeldSum(t.codec, t.buf, s.Sent(), [item][1..], Concat(t.carrier.chunks) + w[n..]);
      NoItems(s.Sent());
    }
    HeldSum(t.codec, t.buf, s, [item], w[n..]);
    EndOnBoundary(t, s, [item], w[n..]);
  }

  lemma NoItems(s: Sender)
    ensures Stream(s, []) == []
  {
  }

  lemma OneItem(s: Sender, item: Item)
    requires s.Fits(item)
    ensures AllFit(s, [item]) && Stream(s, [item]) == Encoding(s, item)
  {
    hide Encoding;
    assert [item][1..] == [] && Stream(s.Sent(), [item][1..]) == [];
  }

  // ----- whole runs

  /** Results of `n` calls in a row. */
  function Calls(codec: Codec, buf: Bytes, carrier: Carrier, n: nat): seq<Result<Option<Bytes>>>
    decreases n
  {
    if n == 0 then []
    else var t := Next(codec, buf, carrier); [t.result] + Calls(t.codec, t.buf, t.carrier, n - 1)
  }

  function Delivered(items: seq<Item>): seq<Result<Option<Bytes>>> {
    seq(|items|, i requires 0 <= i < |items| => Ok(Some(items[i].msg)))
  }

  /** The first `k` messages, and no more, are whole in what is left of the stream without `lost`. */
  ghost predicate Whole(s: Sender, items: seq<Item>, lost: Bytes, k: nat)
    requires AllFit(s, items)
  {
    && k <= |items|
    && |Stream(s, items[..k])| + |lost| <= |Stream(s, items)|
    && (k < |items| ==> |Stream(s, items)| < |Stream(s, items[..k + 1])| + |lost|)
  }

  lemma WholeNone(t: Taken, s: Sender, items: seq<Item>, lost: Bytes)
    requires Ends(t, s, items, lost) && AllFit(s, items)
    ensures Whole(s, items, lost, 0)
  {
    hide Encoding, InSync;
    HeldSum(t.codec, t.buf, s, items, lost);
    assert items[..0] == [] && Stream(s, items[..0]) == [];
    if items != [] {
      OneItem(s, items[0]);
      assert items[..1] == [items[0]];
    }
  }

  lemma WholeNext(s: Sender, items: seq<Item>, lost: Bytes, k: nat)
    requires AllFit(s, items) && items != [] && AllFit(s.Sent(), items[1..]) && Whole(s.Sent(), items[1..], lost, k)
    ensures Whole(s, items, lost, k + 1) && k < |items|
  {
    hide Encoding;
    assert items[..k + 1][1..] == items[1..][..k];
    assert k + 1 < |items| ==> items[..k + 2][1..] == items[1..][..k + 1];
  }

  /**
   Calls in a row deliver exactly the messages that are whole in the bytes received, in order, and
   then come to the carrier's end; no cut of the stream makes them deliver anything else.
   */
  lemma {:induction false} CallsDeliver(codec: Codec, buf: Bytes, s: Sender, items: seq<Item>, carrier: Carrier, lost: Bytes)
    returns (k: nat)
    requires InSync(codec, buf, s, items, Concat(carrier.chunks) + lost) && NoneEmpty(carrier.chunks)
    ensures AllFit(s, items) && Whole(s, items, lost, k) && k <= |items|
    ensures Calls(codec, buf, carrier, k + 1) == Delivered(items[..k]) + [carrier.Last()]
    decreases |items|
  {
    hide Next, InSync, Whole, Ends, Calls, Delivered, Stream;
    HeldSum(codec, buf, s, items, Concat(carrier.chunks) + lost);
    NextDelivers(codec, buf, s, items, carrier, lost);
    var t := Next(codec, buf, carrier);
    if Ends(t, s, items, lost) {
      k := 0;
      WholeNone(t, s, items, lost);
      CallsEnd(codec, buf, s, items, carrier, lost);
    } else {
      HeldSum(t.codec, t.buf, s.Sent(), items[1..], Concat(t.carrier.chunks) + lost);
      var rest := CallsDeliver(t.codec, t.buf, s.Sent(), items[1..], t.carrier, lost);
      WholeNext(s, items, lost, rest);
      CallsFirst(codec, buf, items, carrier, rest);
      k := rest + 1;
    }
  }

  lemma CallsEnd(codec: Codec, buf: Bytes, s: Sender, items: seq<Item>, carrier: Carrier, lost: Bytes)
    requires Ends(Next(codec, buf, carrier), s, items, lost) && Next(codec, buf, carrier).carrier.broken == carrier.broken
    ensures Calls(codec, buf, carrier, 1) == Delivered(items[..0]) + [carrier.Last()]
  {
    hide Next, InSync, Waiting;
    var t := Next(codec, buf, carrier);
    assert Calls(t.codec, t.buf, t.carrier, 0) == [];
    assert Delivered(items[..0]) == [];
  }

  lemma CallsFirst(codec: Codec, buf: Bytes, items: seq<Item>, carrier: Carrier, k: nat)
    requires k < |items| && Next(codec, buf, carrier).result == Ok(Some(items[0].msg))
    requires Next(codec, buf, carrier).carrier.broken == carrier.broken
    requires var t := Next(codec, buf, carrier);
      Calls(t.codec, t.buf, t.carrier, k + 1) == Delivered(items[1..][..k]) + [carrier.Last()]
    ensures Calls(codec, buf, carrier, k + 2) == Delivered(items[..k + 1]) + [carrier.Last()]
  {
    hide Next;
    assert Delivered(items[..k + 1]) == [Ok(Some(items[0].msg))] + Delivered(items[1..][..k]);
  }

  lemma AllWhole(s: Sender, items: seq<Item>, k: nat)
    requires AllFit(s, items) && Whole(s, items, [], k)
    ensures k == |items|
  {
    if k < |items| {
      StreamSplits(s, items, k + 1);
    }
  }

  // ----- the writer

  /** A frame queued for the writer, with the random draws its packet will use. */
  datatype OutFrame = OutFrame(kind: FrameKind, id: StreamId, payload: Bytes, draws: Draws) {
    function AsItem(): Item { Item(HeaderBytes(kind, id) + payload, draws) }
  }

  function Items(frames: seq<OutFrame>): (r: seq<Item>)
    ensures |r| == |frames|
  {
    seq(|frames|, i requires 0 <= i < |frames| => frames[i].AsItem())
  }

  datatype TxWire = Session(tx: TxCore) | Prefix {
    ghost predicate Ready()
      reads if Session? then {tx, tx.protocolTx, tx.transportTx} else {}
    {
      Session? ==> tx.Valid()
    }

    ghost function State(): Sender
      reads if Session? then {tx, tx.b94, tx.protocolTx, tx.transportTx} else {}
    {
      if Session? then SessionSender(tx.State()) else PrefixSender
    }
  }

  /** One wire message appended to `out`; a message that does not fit changes nothing. */
  method Encode(wire: TxWire, out: Bytes, frame: OutFrame) returns (r: Result<()>, out': Bytes)
    requires wire.Ready() && frame.draws.Valid()
    modifies if wire.Session? then {wire.tx.b94, wire.tx.protocolTx, wire.tx.transportTx} else {}
    ensures wire.Ready()
    ensures r.Ok? <==> old(wire.State()).Fits(frame.AsItem())
    ensures r.Ok? ==> out' == out + Encoding(old(wire.State()), frame.AsItem()) && wire.State() == old(wire.State()).Sent()
    ensures r.Err? ==> out' == out && wire.State() == old(wire.State())
  {
    hide Packet;
    var header := new FrameHeader(frame.kind, frame.id);
    var prefix := header.buf[..header.len];
    if wire.Session? {
      r, out' := wire.tx.EncryptImpl(out, prefix, frame.payload, frame.draws);
    } else {
      var total := |prefix| + |frame.payload|;
      if total > PREFIX_MAX_FRAME {
        return Err(FrameTooLarge), out;
      }
      var len := new byte[5](_ => 0);
      var n := EncodeVarint(total, len, 0);
      assert len[..n] == len[0..0 + n];
      r, out' := Ok(()), out + len[..n] + prefix + frame.payload;
      assert out' == out + (len[..n] + (prefix + frame.payload));
    }
  }

  /** What the carrier does with one batch: all of it, part of it and then an error, or an error of the flush. */
  datatype WriteOutcome = Wrote | WriteFails(taken: nat) | FlushFails

  ghost predicate Sound(writes: seq<WriteOutcome>) {
    forall i :: 0 <= i < |writes| ==> writes[i] == Wrote
  }

  /** The frame at `at` and up to `more` further ones, at most a batch, encoded in order. */
  method EncodeBatch(wire: TxWire, queue: seq<OutFrame>, at: nat, more: nat, ghost s: Sender, ghost written: Bytes)
    returns (r: Result<()>, out: Bytes, next: nat)
    requires wire.Ready() && at < |queue| && forall i :: 0 <= i < |queue| ==> queue[i].draws.Valid()
    requires Batched(s, queue, at, written, wire.State())
    modifies if wire.Session? then {wire.tx.b94, wire.tx.protocolTx, wire.tx.transportTx} else {}
    ensures wire.Ready()
    ensures r.Ok? ==> at < next <= |queue| && next <= at + WRITE_BATCH && Batched(s, queue, next, written + out, wire.State())
    ensures r.Err? ==> !AllFit(s, Items(queue))
  {
    hide Encoding, Stream, AfterAll, Batched;
    var end := if more >= WRITE_BATCH then at + WRITE_BATCH else at + 1 + more;
    out, next := [], at;
    assert written + out == written;
    while next < |queue| && next < end
      invariant at <= next <= |queue| && next <= end && wire.Ready()
      invariant Batched(s, queue, next, written + out, wire.State())
    {
      ghost var before, state := out, wire.State();
      r, out := Encode(wire, out, queue[next]);
      if r.Err? {
        StaysUnfit(s, queue, next, written + before, state);
        return;
      }
      BatchGrows(s, queue, next, written + before, state);
      assert written + out == (written + before) + Encoding(state, queue[next].AsItem());
      next := next + 1;
    }
    r := Ok(());
  }

  /**
   Drains the queue in batches: `backlog` says how many more frames are ready after the first of each
   round, `writes` what the carrier does with each batch. A frame that does not encode ends the loop,
   and with it the frames already in that batch; so does the carrier's first error.
   */
  method RunWriter(wire: TxWire, queue: seq<OutFrame>, backlog: seq<nat>, writes: seq<WriteOutcome>)
    returns (written: Bytes, ghost sent: nat)
    requires wire.Ready() && forall i :: 0 <= i < |queue| ==> queue[i].draws.Valid()
    modifies if wire.Session? then {wire.tx.b94, wire.tx.protocolTx, wire.tx.transportTx} else {}
    ensures sent <= |queue| && AllFit(old(wire.State()), Items(queue[..sent]))
    ensures written <= Stream(old(wire.State()), Items(queue[..sent]))
    ensures Sound(writes) ==> written == Stream(old(wire.State()), Items(queue[..sent]))
    ensures Sound(writes) && AllFit(old(wire.State()), Items(queue)) ==> sent == |queue|
  {
    hide Encoding, Stream, AfterAll, AllFit;
    ghost var s := wire.State();
    written, sent := [], 0;
    BatchStart(s);
    var at, round := 0, 0;
    while at < |queue|
      invariant at <= |queue| && wire.Ready() && sent == at
      invariant Batched(s, queue, at, written, wire.State())
      decreases |queue| - at
    {
      var r, out, next := EncodeBatch(wire, queue, at, if round < |backlog| then backlog[round] else 0, s, written);
      if r.Err? {
        return;
      }
      sent := next;
      var outcome := if round < |writes| then writes[round] else Wrote;
      if outcome.WriteFails? {
        written := written + if outcome.taken < |out| then out[..outcome.taken] else out;
        return;
      }
      written := written + out;
      if outcome.FlushFails? {
        return;
      }
      at, round := next, round + 1;
    }
    assert queue[..sent] == queue;
  }

  /** The first `n` queued frames are written and nothing else. */
  ghost predicate Batched(s: Sender, queue: seq<OutFrame>, n: nat, written: Bytes, now: Sender)
    requires n <= |queue|
  {
    && AllFit(s, Items(queue[..n])) && written == Stream(s, Items(queue[..n])) && now == AfterAll(s, n)
  }

  lemma BatchStart(s: Sender)
    ensures AllFit(s, []) && Stream(s, []) == [] && AfterAll(s, 0) == s
  {
  }

  lemma StaysUnfit(s: Sender, queue: seq<OutFrame>, n: nat, written: Bytes, now: Sender)
    requires n < |queue| && Batched(s, queue, n, written, now) && !now.Fits(queue[n].AsItem())
    ensures !AllFit(s, Items(queue))
  {
    FitsAlways(s, n, queue[n].AsItem());
    assert Items(queue)[n] == queue[n].AsItem();
  }

  lemma BatchGrows(s: Sender, queue: seq<OutFrame>, n: nat, written: Bytes, now: Sender)
    requires n < |queue| && Batched(s, queue, n, written, now) && now.Fits(queue[n].AsItem())
    ensures Batched(s, queue, n + 1, written + Encoding(now, queue[n].AsItem()), now.Sent())
  {
    hide Encoding, Stream, AfterAll;
    var item := queue[n].AsItem();
    FitsAlways(s, n, item);
    StreamAppends(s, Items(queue[..n]), item);
    assert Items(queue[..n + 1]) == Items(queue[..n]) + [item];
  }

  /**
   The tunnel is a FIFO of mux frames, alive or dying: whatever the batches of the writer and the
   chunks of the carrier, and wherever the stream is cut, the reader delivers exactly the queued
   frames that arrived whole, in order, each parsing back, and then the carrier's end. Nothing lost
   means all of them.
   */
  lemma TunnelIsFifo(s: Sender, queue: seq<OutFrame>, carrier: Carrier, lost: Bytes) returns (k: nat)
    requires AllFit(s, Items(queue)) && NoneEmpty(carrier.chunks)
    requires Concat(carrier.chunks) + lost == Stream(s, Items(queue))
    ensures Whole(s, Items(queue), lost, k) && (lost == [] ==> k == |queue|)
    ensures var calls := Calls(Reading(s), [], carrier, k + 1);
      && |calls| == k + 1 && calls[k] == carrier.Last()
      && forall i :: 0 <= i < k ==>
           && calls[i].Ok? && calls[i].value.Some?
           && Parse(calls[i].value.value) == Frame(queue[i].kind, queue[i].id, queue[i].payload)
  {
    hide Calls, InSync, Stream, Whole;
    StartsInSync(s, Items(queue), Concat(carrier.chunks) + lost);
    k := CallsDeliver(Reading(s), [], s, Items(queue), carrier, lost);
    if lost == [] {
      AllWhole(s, Items(queue), k);
    }
    forall i | 0 <= i < k
      ensures Parse(Delivered(Items(queue)[..k])[i].value.value) == Frame(queue[i].kind, queue[i].id, queue[i].payload)
    {
      FrameRoundTrip(queue[i].kind, queue[i].id, queue[i].payload);
    }
  }

  // ----- the reader

  datatype RxWire = Session(rx: S.SessionRx) | Prefix

  /** One poll of the session codec; the bytes of a returned frame are drained. */
  method PollDrained(rx: S.SessionRx, buf: Bytes) returns (r: Result<Option<Bytes>>, buf': Bytes)
    requires rx.Valid()
    modifies rx, rx.core.b94, rx.core.protocolRx, rx.core.transportRx
    ensures rx.Valid()
    ensures var p := Polled(Reader(old(rx.core.State()), old(rx.pending), buf));
      && p.consumed <= |p.buf|
      && r == p.result && Reader(rx.core.State(), rx.pending, buf') == Drained(p)
  {
    hide PollFrame, RxCore.State;
    PollConsumes(Reader(rx.core.State(), rx.pending, buf));
    r, buf' := rx.PollFrame(buf);
    if r.Ok? && r.value.Some? {
      var used := rx.TakeConsumed();
      buf' := buf'[used..];
    }
  }

  class FrameReader {
    const wire: RxWire
    var buf: Bytes

    ghost predicate Valid()
      reads this, if wire.Session? then {wire.rx, wire.rx.core, wire.rx.core.protocolRx, wire.rx.core.transportRx} else {}
    {
      wire.Session? ==> wire.rx.Valid()
    }

    ghost function Codec(): Codec
      reads this, if wire.Session? then {wire.rx, wire.rx.core, wire.rx.core.b94, wire.rx.core.protocolRx, wire.rx.core.transportRx} else {}
    {
      if wire.Session? then SessionCodec(wire.rx.core.State(), wire.rx.pending) else PrefixCodec
    }

    constructor (wire: RxWire)
      ensures this.wire == wire && buf == []
    {
      this.wire := wire;
      buf := [];
    }

    /** One attempt on the buffer. */
    method TryCut() returns (r: Result<Option<Bytes>>)
      requires Valid()
      modifies this, if wire.Session? then {wire.rx, wire.rx.core.b94, wire.rx.core.protocolRx, wire.rx.core.transportRx} else {}
      ensures Valid() && Cut(r, Codec(), buf) == CutFrame(old(Codec()), old(buf))
    {
      hide Polled;
      if wire.Session? {
        r, buf := PollDrained(wire.rx, buf);
      } else {
        r := TryPrefix();
      }
    }

    method TryPrefix() returns (r: Result<Option<Bytes>>)
      modifies this`buf
      ensures Cut(r, PrefixCodec, buf) == CutFrame(PrefixCodec, old(buf))
    {
      hide DecodedVarint;
      var peek := PeekPrefix(buf);
      if peek.Err? {
        return Err(peek.error);
      }
      if peek.value.None? || |buf| < peek.value.value.1 + peek.value.value.0 {
        return Ok(None);
      }
      var (total, n) := peek.value.value;
      r := Ok(Some(buf[n..n + total]));
      buf := buf[n + total..];
    }

    /** The next message; the buffer cap is checked before every read but never reached. */
    method NextFrame(sock: Carrier) returns (r: Result<Option<Bytes>>, sock': Carrier)
      requires Valid()
      modifies this, if wire.Session? then {wire.rx, wire.rx.core.b94, wire.rx.core.protocolRx, wire.rx.core.transportRx} else {}
      ensures Valid() && Taken(r, Codec(), buf, sock') == Next(old(Codec()), old(buf), sock)
    {
      hide CutFrame;
      sock' := sock;
      while true
        invariant Valid() && Next(Codec(), buf, sock') == Next(old(Codec()), old(buf), sock)
        decreases |sock'.chunks|
      {
        ghost var codec, was := Codec(), buf;
        r := TryCut();
        if r != Ok(None) {
          return;
        }
        ReassemblyBounded(codec, was);
        if |buf| > BUF_CAP {
          return Err(InvalidFrame), sock';
        }
        if sock'.chunks == [] {
          return sock'.Last(), sock';
        }
        if sock'.chunks[0] == [] {
          return;
        }
        buf := buf + sock'.chunks[0];
        sock' := sock'.(chunks := sock'.chunks[1..]);
      }
    }
  }

  // ----- what the prefix parser refuses

  /** A length of zero, one above the largest frame, or five bytes that are no length end the tunnel. */
  lemma PrefixRefuses(buf: Bytes)
    ensures match DecodedVarint(buf)
            case Some((0, _)) => CutFrame(PrefixCodec, buf).result == Err(ZeroLength)
            case Some((len, n)) =>
              (len > 131_136 ==> CutFrame(PrefixCodec, buf).result == Err(FrameTooLarge))
              && (len <= 131_136 ==> CutFrame(PrefixCodec, buf).result == Ok(if |buf| < n + len then None else Some(buf[n..n + len])))
            case None => CutFrame(PrefixCodec, buf).result == if |buf| < 5 then Ok(None) else Err(InvalidFrame)
  {
    hide DecodedVarint;
  }
}
