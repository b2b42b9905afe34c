/** Incremental decoding: whatever the chunking, the reader recovers exactly the messages sent. */
module Incremental {
  import opened Bits
  import opened Errors
  import opened SessionCiphers
  import opened Wire
  import Base94

  // ----- the sender's side

  datatype Item = Item(msg: Bytes, draws: Draws) {
    predicate Valid() { Sendable(msg) && draws.Valid() }
  }

  ghost predicate AllValid(items: seq<Item>) {
    forall i :: 0 <= i < |items| ==> items[i].Valid()
  }

  function Messages(items: seq<Item>): (r: seq<Bytes>)
    ensures |r| == |items|
  {
    seq(|items|, i requires 0 <= i < |items| => items[i].msg)
  }

  /** The concatenated packets of `items`, sent from state `d` on. */
  ghost function WireOf(d: Dir, items: seq<Item>): Bytes
    requires AllValid(items)
    decreases |items|
  {
    if items == [] then [] else Packet(d, items[0].msg, items[0].draws) + WireOf(d.Sent(), items[1..])
  }

  /** The state after `n` more packets. */
  function After(d: Dir, n: nat): Dir
    decreases n
  {
    if n == 0 then d else After(d.Sent(), n - 1)
  }

  // ----- the reader's loop

  datatype Reader = Reader(d: Dir, pending: Pending, buf: Bytes)

  function Polled(r: Reader): Poll { PollFrame(r.d, r.pending, r.buf) }

  /** The reader after a poll whose consumed bytes were drained off the front. */
  function Drained(p: Poll): Reader
    requires p.consumed <= |p.buf|
  {
    Reader(p.next, p.pending, p.buf[p.consumed..])
  }

  lemma PollConsumes(r: Reader)
    ensures var p := Polled(r); p.consumed <= |p.buf| <= |r.buf|
    ensures var p := Polled(r); p.consumed > 0 <==> p.result.Ok? && p.result.value.Some?
  {
  }

  datatype Drain = Drain(result: Result<seq<Bytes>>, reader: Reader)

  /** Polls until the buffered bytes hold no further complete frame. */
  function DrainAll(r: Reader): Drain
    decreases |r.buf|
  {
    PollConsumes(r);
    var p := Polled(r);
    match p.result
    case Err(e) => Drain(Err(e), Drained(p))
    case Ok(None) => Drain(Ok([]), Drained(p))
    case Ok(Some(msg)) =>
      var rest := DrainAll(Drained(p));
      if rest.result.Err? then rest else Drain(Ok([msg] + rest.result.value), rest.reader)
  }

  /** Chunks arrive one by one; each is appended and the buffer drained. */
  function FeedAll(r: Reader, chunks: seq<Bytes>): Drain
    decreases |chunks|
  {
    if chunks == [] then Drain(Ok([]), r)
    else
      var first := DrainAll(r.(buf := r.buf + chunks[0]));
      if first.result.Err? then first
      else
        var rest := FeedAll(first.reader, chunks[1..]);
        if rest.result.Err? then rest else Drain(Ok(first.result.value + rest.result.value), rest.reader)
  }

  function Concat(chunks: seq<Bytes>): Bytes {
    if chunks == [] then [] else chunks[0] + Concat(chunks[1..])
  }

  // ----- synchronisation

  /**
   The reader is where the sender was before `items`: its buffer and the bytes still in flight are
   their packets, less a binary header the reader may already have consumed.
   */
  ghost predicate Synced(r: Reader, d: Dir, items: seq<Item>, rest: Bytes) {
    && AllValid(items)
    && match r.pending
       case None => r.d == d && r.buf + rest == WireOf(d, items)
       case Some(header) =>
         && items != [] && !d.Enveloped() && r.d == HeaderRead(d)
         && var bin := BinaryPacket(d, items[0].msg, items[0].draws.seed);
            && header == (|items[0].msg|, XorWord(d.key.kf, items[0].draws.seed))
            && bin[..HEADER_SIZE] + (r.buf + rest) == WireOf(d, items)
  }

  lemma SplitFront(buf: Bytes, rest: Bytes, w: Bytes, tail: Bytes)
    requires buf + rest == w + tail
    ensures |buf| >= |w| ==> buf == w + buf[|w|..] && buf[..|w|] == w && buf[|w|..] + rest == tail
    ensures |buf| < |w| ==> buf == w[..|buf|] && rest != []
  {
    if |buf| >= |w| {
      assert (buf + rest)[..|w|] == w && (buf + rest)[|w|..] == tail;
    } else {
      assert (buf + rest)[..|buf|] == buf && (w + tail)[..|buf|] == w[..|buf|];
    }
  }

  /** Bytes of the frame at the front the reader already has. */
  function Held(r: Reader): nat { |r.buf| + if r.pending.Some? then HEADER_SIZE else 0 }

  /** What one poll of a synchronised reader does; it waits only while it lacks part of the next frame. */
  ghost predicate Advances(r: Reader, d: Dir, items: seq<Item>, rest: Bytes)
    requires AllValid(items)
  {
    var p := Polled(r);
    && p.consumed <= |p.buf| && p.result.Ok?
    && (p.result.value.Some? ==>
          && items != [] && p.result.value.value == items[0].msg
          && Synced(Drained(p), d.Sent(), items[1..], rest))
    && (p.result.value.None? ==>
          && Synced(Drained(p), d, items, rest)
          && (items != [] ==> Held(Drained(p)) < |Packet(d, items[0].msg, items[0].draws)|)
          && (rest == [] ==> items == [] && Drained(p) == Reader(d, None, [])))
  }

  /** Less than a frame: the header, if complete, is only peeked at. */
  lemma EnvelopedShort(d: Dir, w: Bytes, buf: Bytes)
    requires d.Enveloped() && Base94.PeekFrameLen(d.p, d.first, w) == Ok(Some(|w|))
    requires |buf| < |w| && buf == w[..|buf|]
    ensures PollFrame(d, None, buf) == Poll(Ok(None), d, None, buf, 0)
  {
    var hs := Base94.HeaderSize(d.first);
    if |buf| >= hs {
      assert buf[..hs] == w[..hs];
    }
  }

  lemma EnvelopedFull(d: Dir, w: Bytes, msg: Bytes, next: Dir, buf: Bytes)
    requires d.Enveloped() && Base94.PeekFrameLen(d.p, d.first, buf) == Ok(Some(|w|))
    requires Decrypt(d, w) == Step(Ok(msg), next) && |w| <= |buf| && buf[..|w|] == w
    ensures PollFrame(d, None, buf) == Poll(Ok(Some(msg)), next, None, buf, |w|)
  {
  }

  /** One poll of an enveloped direction. */
  lemma EnvelopedPoll(d: Dir, item: Item, w: Bytes, buf: Bytes, rest: Bytes, tail: Bytes)
    requires d.Enveloped() && item.Valid() && w == Packet(d, item.msg, item.draws) && buf + rest == w + tail
    ensures |buf| >= |w| ==>
      && buf[|w|..] + rest == tail
      && PollFrame(d, None, buf) == Poll(Ok(Some(item.msg)), d.Sent(), None, buf, |w|)
    ensures |buf| < |w| ==> rest != [] && PollFrame(d, None, buf) == Poll(Ok(None), d, None, buf, 0)
  {
    SplitFront(buf, rest, w, tail);
    if |buf| >= |w| {
      PeekPacket(d, item, w, buf[|w|..]);
      PacketRoundTrip(d, item.msg, item.draws, []);
      EnvelopedFull(d, w, item.msg, d.Sent(), buf);
    } else {
      PeekPacket(d, item, w, []);
      assert w + [] == w;
      EnvelopedShort(d, w, buf);
    }
  }

  lemma PeekPacket(d: Dir, item: Item, w: Bytes, rest: Bytes)
    requires d.Enveloped() && item.Valid() && w == Packet(d, item.msg, item.draws)
    ensures Base94.PeekFrameLen(d.p, d.first, w + rest) == Ok(Some(|w|))
  {
    Base94.FrameRoundTrip(d.p, d.first, BinaryPacket(d, item.msg, item.draws.seed), item.draws.header, rest);
  }

  /** One poll of a direction in binary framing with the header known: `body` is the transformed payload. */
  lemma BodyPoll(d: Dir, header: BinaryHeader, msg: Bytes, body: Bytes, buf: Bytes, rest: Bytes, tail: Bytes)
    requires |body| == header.0 && Body(d, header.1, body) == msg && buf + rest == body + tail
    ensures |buf| >= |body| ==>
      && buf[|body|..] + rest == tail
      && PollBody(d, header, buf) == Poll(Ok(Some(msg)), BodyRead(d), None, msg + buf[|body|..], |body|)
    ensures |buf| < |body| ==>
      && rest != []
      && PollBody(d, header, buf) == Poll(Ok(None), d, Some(header), buf, 0)
  {
    SplitFront(buf, rest, body, tail);
  }

  /** The header and body an honest item puts on a binary wire. */
  ghost function ItemHeader(d: Dir, item: Item): BinaryHeader
    requires item.Valid()
  {
    (|item.msg|, XorWord(d.key.kf, item.draws.seed))
  }

  ghost function ItemBinary(d: Dir, item: Item): Bytes
    requires item.Valid()
  {
    BinaryPacket(d, item.msg, item.draws.seed)
  }

  /** A poll that found a whole message leaves the reader at the next item. */
  lemma DeliveredAdvances(r: Reader, d: Dir, items: seq<Item>, rest: Bytes, p: Poll)
    requires AllValid(items) && items != [] && p == Polled(r) && p.result == Ok(Some(items[0].msg))
    requires p.consumed <= |p.buf| && p.next == d.Sent() && p.pending == None
    requires p.buf[p.consumed..] + rest == WireOf(d.Sent(), items[1..])
    ensures Advances(r, d, items, rest)
  {
  }

  /** The two parts of a binary packet on the wire. */
  lemma BinaryParts(d: Dir, items: seq<Item>)
    requires AllValid(items) && items != [] && !d.Enveloped()
    ensures var bin := ItemBinary(d, items[0]);
      && WireOf(d, items) == bin[..HEADER_SIZE] + (bin[HEADER_SIZE..] + WireOf(d.Sent(), items[1..]))
      && |bin[HEADER_SIZE..]| == |items[0].msg| && |Packet(d, items[0].msg, items[0].draws)| == |bin|
  {
    var bin, tail := ItemBinary(d, items[0]), WireOf(d.Sent(), items[1..]);
    PacketBare(d, items[0]);
    hide BinaryPacket, Packet;
    CutFront(bin, HEADER_SIZE, tail);
  }

  lemma CutFront(a: Bytes, k: nat, b: Bytes)
    requires k <= |a|
    ensures a + b == a[..k] + (a[k..] + b)
  {
  }

  lemma PacketBare(d: Dir, item: Item)
    requires item.Valid() && !d.Enveloped()
    ensures Packet(d, item.msg, item.draws) == ItemBinary(d, item)
  {
  }

  /** With the header taken before. */
  lemma PendingPoll(r: Reader, d: Dir, items: seq<Item>, rest: Bytes)
    requires !d.Enveloped() && items != [] && r.pending.Some? && Synced(r, d, items, rest)
    ensures Advances(r, d, items, rest)
  {
    hide PollBody, BinaryPacket, Packet, WireOf;
    var item := items[0];
    var bin, tail, header := ItemBinary(d, item), WireOf(d.Sent(), items[1..]), ItemHeader(d, item);
    var h, body, d1 := bin[..HEADER_SIZE], bin[HEADER_SIZE..], HeaderRead(d);
    BinaryParts(d, items);
    BodyInverts(d, item.msg, item.draws.seed);
    SplitFront(h, r.buf + rest, h, body + tail);
    assert h[|h|..] + (r.buf + rest) == r.buf + rest;
    BodyPoll(d1, header, item.msg, body, r.buf, rest, tail);
    if |r.buf| >= |body| {
      Rejoin(item.msg, r.buf[|body|..]);
      DeliveredAdvances(r, d, items, rest, Polled(r));
    }
  }

  /** Binary framing: the header is decrypted once, even when the body comes later. */
  lemma BinaryPoll(r: Reader, d: Dir, items: seq<Item>, rest: Bytes)
    requires !d.Enveloped() && items != [] && r.pending.None? && Synced(r, d, items, rest)
    ensures Advances(r, d, items, rest)
  {
    hide PollBody, BinaryPacket, Packet, WireOf;
    var item := items[0];
    var bin, tail, header := ItemBinary(d, item), WireOf(d.Sent(), items[1..]), ItemHeader(d, item);
    var h, body, d1 := bin[..HEADER_SIZE], bin[HEADER_SIZE..], HeaderRead(d);
    BinaryParts(d, items);
    BodyInverts(d, item.msg, item.draws.seed);
    SplitFront(r.buf, rest, h, body + tail);
    if |r.buf| >= HEADER_SIZE {
      var buf := r.buf[HEADER_SIZE..];
      BodyPoll(d1, header, item.msg, body, buf, rest, tail);
      assert Polled(r) == PollBody(d1, header, buf);
      if |buf| >= |body| {
        Rejoin(item.msg, buf[|body|..]);
        DeliveredAdvances(r, d, items, rest, Polled(r));
      } else {
        assert Drained(Polled(r)) == Reader(d1, Some(header), buf);
        assert h + (buf + rest) == WireOf(d, items);
      }
    }
  }

  lemma Rejoin(front: Bytes, back: Bytes)
    ensures (front + back)[|front|..] == back
  {
  }

  lemma PollAdvances(r: Reader, d: Dir, items: seq<Item>, rest: Bytes)
    requires Synced(r, d, items, rest)
    ensures Advances(r, d, items, rest)
  {
    if items == [] {
      assert r.buf == [] && rest == [];
    } else if d.Enveloped() {
      var w, tail := Packet(d, items[0].msg, items[0].draws), WireOf(d.Sent(), items[1..]);
      EnvelopedPoll(d, items[0], w, r.buf, rest, tail);
      if |r.buf| >= |w| {
        DeliveredAdvances(r, d, items, rest, Polled(r));
      }
    } else if r.pending.Some? {
      PendingPoll(r, d, items, rest);
    } else {
      BinaryPoll(r, d, items, rest);
    }
  }

  // ----- whole runs

  lemma MessagesFirst(items: seq<Item>, m: nat)
    requires m < |items|
    ensures Messages(items[..m + 1]) == [items[0].msg] + Messages(items[1..][..m]) && items[1..][m..] == items[m + 1..]
  {
  }

  /** Draining delivers a prefix of the messages and stays synchronised; once all bytes are in, all of them. */
  lemma {:induction false} DrainSyncs(r: Reader, d: Dir, items: seq<Item>, rest: Bytes) returns (n: nat)
    requires Synced(r, d, items, rest)
    ensures n <= |items| && DrainAll(r).result == Ok(Messages(items[..n]))
    ensures Synced(DrainAll(r).reader, After(d, n), items[n..], rest)
    ensures rest == [] ==> n == |items| && DrainAll(r).reader == Reader(After(d, n), None, [])
    decreases |r.buf|
  {
    hide PollFrame, WireOf, Synced, Messages;
    PollConsumes(r);
    PollAdvances(r, d, items, rest);
    var p := Polled(r);
    if p.result.value.None? {
      n := 0;
      assert items[..0] == [] && items[0..] == items;
    } else {
      var m := DrainSyncs(Drained(p), d.Sent(), items[1..], rest);
      n := m + 1;
      MessagesFirst(items, m);
    }
  }

  /**
   Chunking does not matter: for every way of cutting the wire bytes of a list of messages into
   chunks, the append-poll-drain loop yields exactly those messages in order, and ends at the
   sender's state with an empty buffer and no pending header.
   */
  lemma {:induction false} ChunkingDoesNotMatter(r: Reader, d: Dir, items: seq<Item>, chunks: seq<Bytes>)
    requires Synced(r, d, items, Concat(chunks))
    requires chunks != []
    ensures FeedAll(r, chunks) == Drain(Ok(Messages(items)), Reader(After(d, |items|), None, []))
    decreases |chunks|
  {
    hide PollFrame, WireOf;
    var rest := Concat(chunks[1..]);
    var r1 := r.(buf := r.buf + chunks[0]);
    assert r1.buf + rest == r.buf + Concat(chunks);
    var n := DrainSyncs(r1, d, items, rest);
    var first := DrainAll(r1);
    if chunks[1..] == [] {
      assert items[..n] == items && n == |items|;
      assert FeedAll(first.reader, chunks[1..]) == Drain(Ok([]), first.reader);
      assert Messages(items) + [] == Messages(items);
    } else {
      ChunkingDoesNotMatter(first.reader, After(d, n), items[n..], chunks[1..]);
      AfterAdds(d, n, |items| - n);
      assert Messages(items) == Messages(items[..n]) + Messages(items[n..]);
    }
  }

  lemma {:induction false} AfterAdds(d: Dir, m: nat, n: nat)
    ensures After(After(d, m), n) == After(d, m + n)
    decreases m
  {
    if m > 0 {
      AfterAdds(d.Sent(), m - 1, n);
    }
  }

  /** From the start, with nothing buffered. */
  lemma FreshReaderRecovers(d: Dir, items: seq<Item>, chunks: seq<Bytes>)
    requires AllValid(items) && Concat(chunks) == WireOf(d, items)
    ensures FeedAll(Reader(d, None, []), chunks) == Drain(Ok(Messages(items)), Reader(After(d, |items|), None, []))
  {
    hide PollFrame, Packet;
    if chunks == [] {
      if items != [] {
        PacketNonempty(d, items[0].msg, items[0].draws);
      }
    } else {
      assert [] + Concat(chunks) == Concat(chunks);
      ChunkingDoesNotMatter(Reader(d, None, []), d, items, chunks);
    }
  }

  // ----- where the bytes received end

  /** The bytes that never came are whole packets: those that did come end on a frame boundary. */
  ghost predicate OnBoundary(d: Dir, items: seq<Item>, lost: Bytes)
    requires AllValid(items)
  {
    exists k :: 0 <= k <= |items| && lost == WireOf(After(d, k), items[k..])
  }

  lemma {:induction false} WireSplits(d: Dir, items: seq<Item>, k: nat)
    requires AllValid(items) && k <= |items|
    ensures AllValid(items[..k]) && AllValid(items[k..])
    ensures WireOf(d, items) == WireOf(d, items[..k]) + WireOf(After(d, k), items[k..])
    decreases k
  {
    hide Packet;
    if k == 0 {
      assert items[0..] == items && items[..0] == [] && WireOf(d, items[..0]) == [];
    } else {
      WireSplits(d.Sent(), items[1..], k - 1);
      assert items[1..][..k - 1] == items[..k][1..] && items[1..][k - 1..] == items[k..];
    }
  }

  /** What is held and what is still to come add up to the packets not yet decoded. */
  lemma HeldLength(r: Reader, d: Dir, items: seq<Item>, rest: Bytes)
    requires Synced(r, d, items, rest)
    ensures AllValid(items) && Held(r) + |rest| == |WireOf(d, items)|
  {
    hide WireOf;
  }

  /** A reader that waits for more holds nothing exactly when the bytes lost are whole packets. */
  lemma HoldsNothing(r: Reader, d: Dir, items: seq<Item>, lost: Bytes)
    requires Synced(r, d, items, lost) && AllValid(items) && Polled(r).result == Ok(None)
    ensures Polled(r).consumed <= |Polled(r).buf|
    ensures Drained(Polled(r)).buf == [] && Drained(Polled(r)).pending.None? <==> OnBoundary(d, items, lost)
  {
    hide PollFrame, Packet, Synced;
    PollConsumes(r);
    PollAdvances(r, d, items, lost);
    var after := Drained(Polled(r));
    HeldLength(after, d, items, lost);
    if Held(after) == 0 {
      AllLost(after, d, items, lost);
    }
    if k :| 0 <= k <= |items| && lost == WireOf(After(d, k), items[k..]) {
      WireSplits(d, items, k);
      assert |WireOf(d, items[..k])| == Held(after);
      if k > 0 {
        FirstPacket(d, items, k);
      }
    }
  }

  lemma FirstPacket(d: Dir, items: seq<Item>, k: nat)
    requires AllValid(items) && 0 < k <= |items|
    ensures |Packet(d, items[0].msg, items[0].draws)| <= |WireOf(d, items[..k])|
  {
    hide Packet;
  }

  lemma AllLost(r: Reader, d: Dir, items: seq<Item>, lost: Bytes)
    requires Synced(r, d, items, lost) && r.buf == [] && r.pending.None?
    ensures OnBoundary(d, items, lost)
  {
    hide WireOf;
    assert [] + lost == lost && items[0..] == items;
    assert lost == WireOf(After(d, 0), items[0..]);
  }

  // ----- packet numbers, on any bytes

  /** The header cipher is one packet ahead exactly while a header awaits its body. */
  predicate InStep(r: Reader) {
    if r.pending.Some? then !r.d.Enveloped() && r.d.pseq == Advance(r.d.tseq) else r.d.pseq == r.d.tseq
  }

  /** No bytes, honest or not, get a successful poll to decipher a header twice or a body without its header. */
  lemma PollInStep(r: Reader)
    requires InStep(r) && Polled(r).result.Ok?
    ensures Polled(r).consumed <= |Polled(r).buf| && InStep(Drained(Polled(r)))
  {
    hide Header, Body, Base94.PeekFrameLen, Base94.DecodePacket;
    PollConsumes(r);
  }

  lemma {:induction false} DrainInStep(r: Reader)
    requires InStep(r) && DrainAll(r).result.Ok?
    ensures InStep(DrainAll(r).reader)
    decreases |r.buf|
  {
    hide InStep, Polled;
    PollConsumes(r);
    PollInStep(r);
    if Polled(r).result.value.Some? {
      DrainInStep(Drained(Polled(r)));
    }
  }

  /** Over a whole run on arbitrary chunks. */
  lemma {:induction false} FeedInStep(r: Reader, chunks: seq<Bytes>)
    requires InStep(r) && FeedAll(r, chunks).result.Ok?
    ensures InStep(FeedAll(r, chunks).reader)
    decreases |chunks|
  {
    hide DrainAll;
    if chunks != [] {
      var first := r.(buf := r.buf + chunks[0]);
      DrainInStep(first);
      FeedInStep(DrainAll(first).reader, chunks[1..]);
    }
  }
}
