/** Link adapters: frames under an async byte stream, polled with pending and partial carrier I/O. */
module Link {
  import opened Bits
  import opened Errors
  import opened Limits
  import opened SessionCiphers
  import opened Wire
  import opened Incremental
  import opened Transmission
  import Tunnel
  import S = Session

  /** Bytes buffered without a complete frame before the reader gives up. */
  const WIRE_CAP: nat := BASE94_MAX_FRAME + 64

  // ----- reading

  /** What one poll of the carrier's read half returns; no bytes means its end. */
  datatype Incoming = NotReady | Arrived(data: Bytes) | Broken

  /** The codec with its buffer, and the decrypted bytes not yet handed out. */
  datatype LinkIn = LinkIn(reader: Reader, left: Bytes)

  /** A clean end and a delivery into a full buffer both show the caller zero bytes. */
  datatype ReadPoll = Delivered(data: Bytes) | Ended | ReadBlocked | ReadFailed(error: Error)

  datatype ReadStep = ReadStep(outcome: ReadPoll, next: LinkIn, sock: seq<Incoming>)

  function Min(a: nat, b: nat): nat { if a <= b then a else b }

  /** One `poll_read` into a buffer with room for `room` bytes. */
  function Read(s: LinkIn, room: nat, sock: seq<Incoming>): ReadStep
    decreases |sock|, |s.reader.buf|
  {
    PollConsumes(s.reader);
    if s.left != [] then
      var n := Min(room, |s.left|);
      ReadStep(Delivered(s.left[..n]), s.(left := s.left[n..]), sock)
    else
      var p := Polled(s.reader);
      match p.result
      case Err(e) => ReadStep(ReadFailed(e), LinkIn(Drained(p), []), sock)
      case Ok(Some(msg)) => Read(LinkIn(Drained(p), msg), room, sock)
      case Ok(None) => Await(LinkIn(Drained(p), []), room, sock, |s.reader.buf|)
  }

  /** Nothing decodable is buffered: on to the carrier. */
  function Await(s: LinkIn, room: nat, sock: seq<Incoming>, ghost bound: nat): ReadStep
    requires |s.reader.buf| <= bound && s.left == []
    decreases |sock|, bound, 0
  {
    if sock == [] then ReadStep(ReadBlocked, s, sock)
    else
      match sock[0]
      case NotReady => ReadStep(ReadBlocked, s, sock[1..])
      case Broken => ReadStep(ReadFailed(Io), s, sock[1..])
      case Arrived(data) =>
        if data == [] then
          ReadStep(if s.reader.buf == [] && s.reader.pending.None? then Ended else ReadFailed(Io), s, sock[1..])
        else Read(s.(reader := s.reader.(buf := s.reader.buf + data)), room, sock[1..])
  }

  /** Whatever arrived, less than one frame is buffered when the link asks for more; its cap is never reached. */
  lemma Bounded(r: Reader)
    requires Polled(r).result == Ok(None) && Polled(r).consumed <= |Polled(r).buf|
    ensures |Drained(Polled(r)).buf| < BASE94_MAX_FRAME + 7 <= WIRE_CAP
  {
    Tunnel.ReassemblyBounded(Tunnel.SessionCodec(r.d, r.pending), r.buf);
  }

  class LinkReadHalf {
    const session: S.SessionRx
    var wire: Bytes
    var plain: Bytes
    var plainOff: nat

    ghost predicate Valid()
      reads this, session, session.core, session.core.protocolRx, session.core.transportRx
    {
      session.Valid() && plainOff <= |plain|
    }

    ghost function State(): LinkIn
      requires Valid()
      reads this, session, session.core, session.core.b94, session.core.protocolRx, session.core.transportRx
    {
      LinkIn(Reader(session.core.State(), session.pending, wire), plain[plainOff..])
    }

    constructor (session: S.SessionRx)
      requires session.Valid()
      ensures Valid() && this.session == session
      ensures State() == LinkIn(Reader(session.core.State(), session.pending, []), [])
    {
      this.session := session;
      wire, plain, plainOff := [], [], 0;
    }

    /** Hands out buffered plaintext. */
    method Serve(room: nat) returns (data: Bytes)
      requires Valid() && plainOff < |plain|
      modifies this`plain, this`plainOff
      ensures Valid()
      ensures data == old(State()).left[..Min(room, |old(State()).left|)]
      ensures State() == old(State()).(left := old(State()).left[Min(room, |old(State()).left|)..])
    {
      hide RxCore.State;
      var end := |plain|;
      var n := Min(room, end - plainOff);
      data := plain[plainOff..plainOff + n];
      plainOff := plainOff + n;
      if plainOff == end {
        plain, plainOff := [], 0;
      }
    }

    method PollRead(room: nat, sock: seq<Incoming>) returns (r: ReadPoll, sock': seq<Incoming>)
      requires Valid()
      modifies this, session, session.core.b94, session.core.protocolRx, session.core.transportRx
      ensures Valid() && ReadStep(r, State(), sock') == Read(old(State()), room, sock)
    {
      hide RxCore.State, Polled;
      sock' := sock;
      while true
        invariant Valid() && Read(State(), room, sock') == Read(old(State()), room, sock)
        decreases |sock'|, |wire|
      {
        if plainOff < |plain| {
          var data := Serve(room);
          return Delivered(data), sock';
        }
        ghost var was := State();
        PollConsumes(was.reader);
        var polled;
        polled, wire := Tunnel.PollDrained(session, wire);
        if polled.Err? {
          return ReadFailed(polled.error), sock';
        }
        if polled.value.Some? {
          plain, plainOff := polled.value.value, 0;
        } else {
          Bounded(was.reader);
          if |wire| > WIRE_CAP {
            return ReadFailed(InvalidFrame), sock';
          }
          if sock' == [] {
            return ReadBlocked, sock';
          }
          var event := sock'[0];
          sock' := sock'[1..];
          match event {
            case NotReady => return ReadBlocked, sock';
            case Broken => return ReadFailed(Io), sock';
            case Arrived(data) =>
              if data == [] {
                return if wire == [] && !session.IsFramePending() then Ended else ReadFailed(Io), sock';
              }
              wire := wire + data;
          }
        }
      }
    }
  }

  // ----- writing

  /** What one poll of the carrier's write half returns; it takes no more than it is offered. */
  datatype Outgoing = Full | Took(n: nat) | Closed

  /** The sending direction and the part of one encoded frame still to leave. */
  datatype LinkOut = LinkOut(d: Dir, left: Bytes)

  datatype WritePoll = Accepted(n: nat) | WriteBlocked | WriteFailed(error: Error)

  /** Outcome of pushing: whether all left, what is left, what the carrier got. */
  datatype FlushStep = FlushStep(outcome: WritePoll, left: Bytes, pushed: Bytes, sock: seq<Outgoing>)

  function Flush(left: Bytes, sock: seq<Outgoing>): FlushStep
    decreases |sock|
  {
    if left == [] then FlushStep(Accepted(0), [], [], sock)
    else if sock == [] then FlushStep(WriteBlocked, left, [], [])
    else
      match sock[0]
      case Full => FlushStep(WriteBlocked, left, [], sock[1..])
      case Closed => FlushStep(WriteFailed(Io), left, [], sock[1..])
      case Took(0) => FlushStep(WriteFailed(Io), left, [], sock[1..])
      case Took(k) =>
        var n := Min(k, |left|);
        Pushing(left[..n], Flush(left[n..], sock[1..]))
  }

  /** What one accepting carrier poll contributes. */
  function Pushing(front: Bytes, rest: FlushStep): FlushStep { rest.(pushed := front + rest.pushed) }

  lemma {:induction false} FlushConserves(left: Bytes, sock: seq<Outgoing>)
    ensures var f := Flush(left, sock);
      && f.pushed + f.left == left
      && (f.outcome.Accepted? <==> f.left == []) && (f.outcome.Accepted? ==> f.outcome == Accepted(0))
    decreases |sock|
  {
    if left != [] && sock != [] && sock[0].Took? && sock[0].n > 0 {
      var n := Min(sock[0].n, |left|);
      FlushConserves(left[n..], sock[1..]);
      var rest := Flush(left[n..], sock[1..]);
      assert (left[..n] + rest.pushed) + rest.left == left[..n] + (rest.pushed + rest.left);
      assert left[..n] + left[n..] == left;
    }
  }

  datatype WriteStep = WriteStep(outcome: WritePoll, next: LinkOut, pushed: Bytes, sock: seq<Outgoing>)

  /** One `poll_write`: the previous frame leaves first, then at most one frame's worth is accepted. */
  function Write(s: LinkOut, data: Bytes, draws: Draws, sock: seq<Outgoing>): WriteStep
    requires draws.Valid()
  {
    var f := Flush(s.left, sock);
    if !f.outcome.Accepted? then WriteStep(f.outcome, s.(left := f.left), f.pushed, f.sock)
    else
      var len := Min(|data|, PPP_BUFFER_SIZE);
      if len == 0 then WriteStep(Accepted(0), s.(left := f.left), f.pushed, f.sock)
      else
        var g := Flush(Packet(s.d, data[..len], draws), f.sock);
        WriteStep(if g.outcome.WriteFailed? then g.outcome else Accepted(len),
                  LinkOut(s.d.Sent(), g.left), f.pushed + g.pushed, g.sock)
  }

  class LinkWriteHalf {
    const session: TxCore
    var out: Bytes
    var outOff: nat

    ghost predicate Valid()
      reads this, session, session.protocolTx, session.transportTx
    {
      session.Valid() && (outOff < |out| || (out == [] && outOff == 0))
    }

    ghost function State(): LinkOut
      requires Valid()
      reads this, session, session.b94, session.protocolTx, session.transportTx
    {
      LinkOut(session.State(), out[outOff..])
    }

    constructor (session: TxCore)
      requires session.Valid()
      ensures Valid() && this.session == session && State() == LinkOut(session.State(), [])
    {
      this.session := session;
      out, outOff := [], 0;
    }

    /** Drives the pending frame onto the carrier. */
    method FlushOut(sock: seq<Outgoing>) returns (r: WritePoll, pushed: Bytes, sock': seq<Outgoing>)
      requires Valid()
      modifies this`out, this`outOff
      ensures Valid() && session.State() == old(session.State())
      ensures FlushStep(r, out[outOff..], pushed, sock') == Flush(old(out[outOff..]), sock)
    {
      hide TxCore.State, Flush, Pushing;
      ghost var whole := Flush(out[outOff..], sock);
      pushed, sock' := [], sock;
      PushingNothing(whole);
      while outOff < |out|
        invariant outOff <= |out| && session.Valid() && out == old(out) && (out == [] ==> outOff == 0)
        invariant whole == Pushing(pushed, Flush(out[outOff..], sock'))
        decreases |sock'|
      {
        ghost var left := out[outOff..];
        FlushFirst(left, sock');
        PushingBare(pushed);
        if sock' == [] {
          return WriteBlocked, pushed, sock';
        }
        var event := sock'[0];
        sock' := sock'[1..];
        match event {
          case Full => return WriteBlocked, pushed, sock';
          case Closed => return WriteFailed(Io), pushed, sock';
          case Took(k) =>
            if k == 0 {
              return WriteFailed(Io), pushed, sock';
            }
            var n := Min(k, |out| - outOff);
            assert left[..n] == out[outOff..outOff + n] && left[n..] == out[outOff + n..];
            PushingTwice(pushed, left[..n], Flush(left[n..], sock'));
            pushed := pushed + out[outOff..outOff + n];
            outOff := outOff + n;
        }
      }
      assert out[outOff..] == [];
      FlushNothing(sock');
      PushingBare(pushed);
      out, outOff := [], 0;
      return Accepted(0), pushed, sock';
    }

    method PollWrite(data: Bytes, draws: Draws, sock: seq<Outgoing>) returns (r: WritePoll, pushed: Bytes, sock': seq<Outgoing>)
      requires Valid() && draws.Valid()
      modifies this, session.b94, session.protocolTx, session.transportTx
      ensures Valid() && WriteStep(r, State(), pushed, sock') == Write(old(State()), data, draws, sock)
    {
      hide TxCore.State, Packet, Flush;
      pushed, sock' := [], sock;
      FlushConserves(out[outOff..], sock);
      if outOff < |out| {
        r, pushed, sock' := FlushOut(sock);
        if !r.Accepted? {
          return;
        }
      } else {
        FlushNothing(sock);
      }
      var len := Min(|data|, PPP_BUFFER_SIZE);
      if len == 0 {
        return Accepted(0), pushed, sock';
      }
      assert [] + data[..len] == data[..len];
      var encrypted, frame := session.EncryptImpl(out, [], data[..len], draws);
      assert frame[0..] == frame;
      out, outOff := frame, 0;
      var flushed, more;
      flushed, more, sock' := FlushOut(sock');
      pushed := pushed + more;
      r := if flushed.WriteFailed? then flushed else Accepted(len);
    }
  }

  lemma PushingTwice(a: Bytes, b: Bytes, rest: FlushStep)
    ensures Pushing(a, Pushing(b, rest)) == Pushing(a + b, rest)
  {
    assert a + (b + rest.pushed) == (a + b) + rest.pushed;
  }

  lemma PushingNothing(rest: FlushStep)
    ensures Pushing([], rest) == rest
  {
    assert [] + rest.pushed == rest.pushed;
  }

  lemma PushingBare(a: Bytes)
    ensures forall r: WritePoll, left: Bytes, sock: seq<Outgoing> ::
      Pushing(a, FlushStep(r, left, [], sock)) == FlushStep(r, left, a, sock)
  {
    assert a + [] == a;
  }

  lemma FlushFirst(left: Bytes, sock: seq<Outgoing>)
    requires left != []
    ensures Flush(left, sock) ==
      if sock == [] then FlushStep(WriteBlocked, left, [], [])
      else if sock[0].Full? then FlushStep(WriteBlocked, left, [], sock[1..])
      else if sock[0].Closed? || sock[0].n == 0 then FlushStep(WriteFailed(Io), left, [], sock[1..])
      else var n := Min(sock[0].n, |left|); Pushing(left[..n], Flush(left[n..], sock[1..]))
  {
  }

  lemma FlushNothing(sock: seq<Outgoing>)
    ensures Flush([], sock) == FlushStep(Accepted(0), [], [], sock)
  {
  }

  // ----- one direction of a link

  /** The two halves, the bytes the carrier holds, and for the record what callers put in and got out. */
  datatype LinkNet = LinkNet(out: LinkOut, flight: Bytes, inn: LinkIn, accepted: Bytes, delivered: Bytes)

  /**
   One poll of a half. The carrier, which does not fail, takes or returns as much as it likes, or is
   not ready: `grabs` are the sizes of its successive reads, 0 meaning not ready.
   */
  datatype Action =
    | PollWrites(data: Bytes, draws: Draws, sock: seq<Outgoing>)
    | PollFlushes(sock: seq<Outgoing>)
    | PollReads(room: nat, grabs: seq<nat>)
  {
    predicate Valid() {
      match this
      case PollWrites(_, draws, sock) => draws.Valid() && Healthy(sock)
      case PollFlushes(sock) => Healthy(sock)
      case PollReads(_, _) => true
    }
  }

  predicate Healthy(sock: seq<Outgoing>) {
    forall i :: 0 <= i < |sock| ==> sock[i] != Closed && sock[i] != Took(0)
  }

  /** The carrier's reads of these sizes off the bytes it holds. */
  function Arrivals(flight: Bytes, grabs: seq<nat>): seq<Incoming>
    decreases |grabs|
  {
    if grabs == [] then []
    else if flight == [] || grabs[0] == 0 then [NotReady] + Arrivals(flight, grabs[1..])
    else
      var n := Min(grabs[0], |flight|);
      [Arrived(flight[..n])] + Arrivals(flight[n..], grabs[1..])
  }

  function Payload(sock: seq<Incoming>): Bytes
    decreases |sock|
  {
    if sock == [] then []
    else (if sock[0].Arrived? then sock[0].data else []) + Payload(sock[1..])
  }

  ghost predicate Honest(sock: seq<Incoming>) {
    forall i :: 0 <= i < |sock| ==> sock[i] != Broken && sock[i] != Arrived([])
  }

  lemma {:induction false} ArrivalsHonest(flight: Bytes, grabs: seq<nat>)
    ensures Honest(Arrivals(flight, grabs)) && Payload(Arrivals(flight, grabs)) <= flight
    decreases |grabs|
  {
    if grabs != [] {
      if flight == [] || grabs[0] == 0 {
        ArrivalsHonest(flight, grabs[1..]);
      } else {
        var n := Min(grabs[0], |flight|);
        ArrivalsHonest(flight[n..], grabs[1..]);
        assert flight == flight[..n] + flight[n..];
      }
    }
  }

  function DataOf(outcome: ReadPoll): Bytes { if outcome.Delivered? then outcome.data else [] }

  ghost function Do(n: LinkNet, a: Action): LinkNet
    requires a.Valid()
  {
    match a
    case PollWrites(data, draws, sock) =>
      var w := Write(n.out, data, draws, sock);
      n.(out := w.next, flight := n.flight + w.pushed,
         accepted := if w.outcome.Accepted? && w.outcome.n <= |data| then n.accepted + data[..w.outcome.n] else n.accepted)
    case PollFlushes(sock) =>
      var f := Flush(n.out.left, sock);
      n.(out := n.out.(left := f.left), flight := n.flight + f.pushed)
    case PollReads(room, grabs) =>
      var sock := Arrivals(n.flight, grabs);
      ArrivalsHonest(n.flight, grabs);
      var r := Read(n.inn, room, sock);
      n.(inn := r.next, flight := Payload(r.sock) + n.flight[|Payload(sock)|..], delivered := n.delivered + DataOf(r.outcome))
  }

  // ----- conservation

  /** Bytes accepted are delivered, decrypted, or inside the packets not yet decoded, in this order. */
  ghost predicate Conserved(n: LinkNet, d: Dir, items: seq<Item>) {
    && Synced(n.inn.reader, d, items, n.flight + n.out.left)
    && n.out.d == After(d, |items|)
    && n.accepted == n.delivered + n.inn.left + Concat(Messages(items))
  }

  ghost predicate Inv(n: LinkNet) {
    exists d, items :: Conserved(n, d, items)
  }

  lemma {:induction false} WireGrows(d: Dir, items: seq<Item>, item: Item)
    requires AllValid(items) && item.Valid()
    ensures AllValid(items + [item])
    ensures WireOf(d, items + [item]) == WireOf(d, items) + Packet(After(d, |items|), item.msg, item.draws)
    ensures After(d, |items| + 1) == After(d, |items|).Sent()
    decreases |items|
  {
    hide Packet;
    var all := items + [item];
    if items == [] {
      assert all[1..] == [] && WireOf(d.Sent(), all[1..]) == [];
    } else {
      WireGrows(d.Sent(), items[1..], item);
      assert all[1..] == items[1..] + [item];
    }
  }

  lemma {:induction false} ConcatGrows(a: seq<Bytes>, b: seq<Bytes>)
    ensures Concat(a + b) == Concat(a) + Concat(b)
    decreases |a|
  {
    if a == [] {
      assert a + b == b;
    } else {
      assert (a + b)[1..] == a[1..] + b;
      ConcatGrows(a[1..], b);
    }
  }

  /** The sender adds a packet behind everything in flight. */
  lemma SyncGrows(r: Reader, d: Dir, items: seq<Item>, rest: Bytes, item: Item)
    requires Synced(r, d, items, rest) && item.Valid()
    ensures Synced(r, d, items + [item], rest + Packet(After(d, |items|), item.msg, item.draws))
    ensures After(d, |items| + 1) == After(d, |items|).Sent()
  {
    hide Packet, WireOf, BinaryPacket;
    WireGrows(d, items, item);
    var w := Packet(After(d, |items|), item.msg, item.draws);
    assert (r.buf + rest) + w == r.buf + (rest + w);
    if r.pending.Some? {
      var h := BinaryPacket(d, items[0].msg, items[0].draws.seed)[..HEADER_SIZE];
      assert (h + (r.buf + rest)) + w == h + (r.buf + (rest + w));
    }
  }

  lemma WriteKeeps(n: LinkNet, a: Action)
    requires a.Valid() && a.PollWrites? && Inv(n)
    ensures Inv(Do(n, a))
  {
    hide Packet, WireOf, Flush, Synced;
    var d, items :| Conserved(n, d, items);
    var f := Flush(n.out.left, a.sock);
    FlushConserves(n.out.left, a.sock);
    FlushHealthy(n.out.left, a.sock);
    var len := Min(|a.data|, PPP_BUFFER_SIZE);
    var n' := Do(n, a);
    if !f.outcome.Accepted? || len == 0 {
      assert (n.flight + f.pushed) + f.left == n.flight + n.out.left;
      assert n.accepted + a.data[..0] == n.accepted;
      assert Conserved(n', d, items);
    } else {
      FrameKeeps(n, d, items, Item(a.data[..len], a.draws), f.pushed, f.sock);
    }
  }

  /** The previous frame has left and the next one is encoded and pushed. */
  lemma FrameKeeps(n: LinkNet, d: Dir, items: seq<Item>, item: Item, pushed: Bytes, sock: seq<Outgoing>)
    requires Conserved(n, d, items) && item.Valid() && pushed == n.out.left && Healthy(sock)
    ensures var g := Flush(Packet(n.out.d, item.msg, item.draws), sock);
      && !g.outcome.WriteFailed?
      && Conserved(n.(out := LinkOut(n.out.d.Sent(), g.left), flight := n.flight + (pushed + g.pushed),
                      accepted := n.accepted + item.msg), d, items + [item])
  {
    hide Packet, WireOf, Flush, Synced;
    var w := Packet(n.out.d, item.msg, item.draws);
    var g := Flush(w, sock);
    FlushConserves(w, sock);
    FlushHealthy(w, sock);
    SyncGrows(n.inn.reader, d, items, n.flight + n.out.left, item);
    assert (n.flight + (pushed + g.pushed)) + g.left == (n.flight + n.out.left) + w;
    MessagesGrow(items, item);
  }

  lemma MessagesGrow(items: seq<Item>, item: Item)
    ensures Concat(Messages(items + [item])) == Concat(Messages(items)) + item.msg
  {
    assert Messages(items + [item]) == Messages(items) + [item.msg];
    ConcatGrows(Messages(items), [item.msg]);
    assert Concat([item.msg]) == item.msg + Concat([]);
  }

  /** A healthy carrier never makes a flush fail. */
  lemma {:induction false} FlushHealthy(left: Bytes, sock: seq<Outgoing>)
    requires Healthy(sock)
    ensures !Flush(left, sock).outcome.WriteFailed? && Healthy(Flush(left, sock).sock)
    decreases |sock|
  {
    if left != [] && sock != [] && sock[0].Took? {
      FlushHealthy(left[Min(sock[0].n, |left|)..], sock[1..]);
    }
  }

  /** What reading a synchronised stream yields, `k` messages further on. */
  ghost predicate Reads(s: LinkIn, t: ReadStep, d: Dir, items: seq<Item>, rest: Bytes, k: nat) {
    && k <= |items| && AllValid(items) && Honest(t.sock)
    && (t.outcome.Delivered? || t.outcome.ReadBlocked?)
    && Synced(t.next.reader, After(d, k), items[k..], Payload(t.sock) + rest)
    && s.left + Concat(Messages(items[..k])) == DataOf(t.outcome) + t.next.left
    && (t.outcome.ReadBlocked? ==> t.next.left == [] && (Payload(t.sock) + rest == [] ==> k == |items|))
  }

  lemma ReadServes(s: LinkIn, room: nat, sock: seq<Incoming>, d: Dir, items: seq<Item>, rest: Bytes)
    requires s.left != [] && Synced(s.reader, d, items, Payload(sock) + rest) && Honest(sock)
    ensures Reads(s, Read(s, room, sock), d, items, rest, 0)
  {
    hide Synced;
    assert items[0..] == items && Messages(items[..0]) == [];
    SyncedValid(s.reader, d, items, Payload(sock) + rest);
  }

  lemma SyncedValid(r: Reader, d: Dir, items: seq<Item>, rest: Bytes)
    requires Synced(r, d, items, rest)
    ensures AllValid(items)
  {
  }

  /** A message decoded: the read goes on with it as its buffered plaintext. */
  lemma ReadDecodes(s: LinkIn, next: LinkIn, t: ReadStep, d: Dir, items: seq<Item>, rest: Bytes, k: nat)
    requires s.left == [] && items != [] && AllValid(items) && next.left == items[0].msg
    requires Reads(next, t, d.Sent(), items[1..], rest, k)
    ensures Reads(s, t, d, items, rest, k + 1)
  {
    hide Synced, Messages;
    MessagesFirst(items, k);
  }

  lemma ReadArrives(r: Reader, d: Dir, items: seq<Item>, data: Bytes, more: Bytes, rest: Bytes)
    requires Synced(r, d, items, (data + more) + rest)
    ensures Synced(r.(buf := r.buf + data), d, items, more + rest)
  {
    hide WireOf, BinaryPacket;
    var coming := more + rest;
    assert (data + more) + rest == data + coming;
    assert (r.buf + data) + coming == r.buf + (data + coming);
  }

  lemma {:induction false} ReadConserves(s: LinkIn, room: nat, sock: seq<Incoming>, d: Dir, items: seq<Item>, rest: Bytes) returns (k: nat)
    requires Synced(s.reader, d, items, Payload(sock) + rest) && Honest(sock)
    ensures Reads(s, Read(s, room, sock), d, items, rest, k)
    decreases |sock|, |s.reader.buf|
  {
    hide Synced, Polled, Messages, Reads;
    var coming := Payload(sock) + rest;
    if s.left != [] {
      ReadServes(s, room, sock, d, items, rest);
      return 0;
    }
    SyncedValid(s.reader, d, items, coming);
    PollConsumes(s.reader);
    PollAdvances(s.reader, d, items, coming);
    var p := Polled(s.reader);
    if p.result.value.Some? {
      var next := LinkIn(Drained(p), items[0].msg);
      k := ReadConserves(next, room, sock, d.Sent(), items[1..], rest);
      ReadDecodes(s, next, Read(next, room, sock), d, items, rest, k);
      k := k + 1;
    } else if sock != [] && sock[0].Arrived? {
      var next := LinkIn(Drained(p), []);
      var data := sock[0].data;
      assert sock[0] != Arrived([]);
      ReadAwaits(s, room, sock);
      ReadArrives(next.reader, d, items, data, Payload(sock[1..]), rest);
      k := ReadConserves(LinkIn(next.reader.(buf := next.reader.buf + data), []), room, sock[1..], d, items, rest);
      ReadGoesOn(s, LinkIn(next.reader.(buf := next.reader.buf + data), []), Read(s, room, sock), d, items, rest, k);
    } else {
      k := 0;
      ReadStops(s, room, sock, d, items, rest);
    }
  }

  lemma ReadAwaits(s: LinkIn, room: nat, sock: seq<Incoming>)
    requires s.left == [] && Polled(s.reader).result == Ok(None) && sock != [] && sock[0].Arrived? && sock[0].data != []
    requires Polled(s.reader).consumed <= |Polled(s.reader).buf|
    ensures var r := Drained(Polled(s.reader));
      Read(s, room, sock) == Read(LinkIn(r.(buf := r.buf + sock[0].data), []), room, sock[1..])
  {
    hide Polled;
  }

  lemma ReadGoesOn(s: LinkIn, next: LinkIn, t: ReadStep, d: Dir, items: seq<Item>, rest: Bytes, k: nat)
    requires Reads(next, t, d, items, rest, k) && s.left == next.left
    ensures Reads(s, t, d, items, rest, k)
  {
    hide Synced;
  }

  lemma ReadStops(s: LinkIn, room: nat, sock: seq<Incoming>, d: Dir, items: seq<Item>, rest: Bytes)
    requires Synced(s.reader, d, items, Payload(sock) + rest) && Honest(sock) && s.left == []
    requires Polled(s.reader).result == Ok(None) && (sock == [] || sock[0].NotReady?)
    ensures Reads(s, Read(s, room, sock), d, items, rest, 0)
  {
    hide Synced, Polled;
    SyncedValid(s.reader, d, items, Payload(sock) + rest);
    PollConsumes(s.reader);
    PollAdvances(s.reader, d, items, Payload(sock) + rest);
    assert items[0..] == items && Messages(items[..0]) == [];
    if sock != [] {
      assert Payload(sock) == [] + Payload(sock[1..]);
      assert Payload(sock) == Payload(sock[1..]);
    }
  }

  lemma ReadKeeps(n: LinkNet, a: Action)
    requires a.PollReads? && Inv(n)
    ensures Inv(Do(n, a))
  {
    hide Synced, Read, Messages;
    var d, items :| Conserved(n, d, items);
    var sock := Arrivals(n.flight, a.grabs);
    ArrivalsHonest(n.flight, a.grabs);
    var tail := n.flight[|Payload(sock)|..] + n.out.left;
    assert n.flight == Payload(sock) + n.flight[|Payload(sock)|..];
    assert n.flight + n.out.left == Payload(sock) + tail;
    var k := ReadConserves(n.inn, a.room, sock, d, items, tail);
    var t := Read(n.inn, a.room, sock);
    assert Payload(t.sock) + tail == (Payload(t.sock) + n.flight[|Payload(sock)|..]) + n.out.left;
    SplitMessages(items, k);
    AfterAdds(d, k, |items| - k);
    Regroup(n.delivered, n.inn.left, Concat(Messages(items[..k])), Concat(Messages(items[k..])), DataOf(t.outcome), t.next.left);
    assert Conserved(Do(n, a), After(d, k), items[k..]);
  }

  lemma Regroup(a: Bytes, b: Bytes, c: Bytes, e: Bytes, x: Bytes, y: Bytes)
    requires b + c == x + y
    ensures a + b + (c + e) == (a + x) + y + e
  {
    assert a + b + (c + e) == a + (b + c) + e;
    assert (a + x) + y + e == a + (x + y) + e;
  }

  lemma SplitMessages(items: seq<Item>, k: nat)
    requires k <= |items|
    ensures Concat(Messages(items)) == Concat(Messages(items[..k])) + Concat(Messages(items[k..]))
  {
    assert Messages(items) == Messages(items[..k]) + Messages(items[k..]);
    ConcatGrows(Messages(items[..k]), Messages(items[k..]));
  }

  lemma StepKeeps(n: LinkNet, a: Action)
    requires a.Valid() && Inv(n)
    ensures Inv(Do(n, a))
  {
    hide Synced, Flush;
    match a
    case PollWrites(_, _, _) => WriteKeeps(n, a);
    case PollReads(_, _) => ReadKeeps(n, a);
    case PollFlushes(sock) =>
      var d, items :| Conserved(n, d, items);
      var f := Flush(n.out.left, sock);
      FlushConserves(n.out.left, sock);
      assert (n.flight + f.pushed) + f.left == n.flight + n.out.left;
      assert Conserved(Do(n, a), d, items);
  }

  ghost function Run(n: LinkNet, actions: seq<Action>): LinkNet
    requires forall i :: 0 <= i < |actions| ==> actions[i].Valid()
    decreases |actions|
  {
    if actions == [] then n else Run(Do(n, actions[0]), actions[1..])
  }

  /** A handshaked pair before any data: both ends of the direction agree. */
  function Start(d: Dir): LinkNet { LinkNet(LinkOut(d, []), [], LinkIn(Reader(d, None, []), []), [], []) }

  lemma {:induction false} RunKeeps(n: LinkNet, actions: seq<Action>)
    requires Inv(n) && forall i :: 0 <= i < |actions| ==> actions[i].Valid()
    ensures Inv(Run(n, actions))
    decreases |actions|
  {
    hide Inv, Do;
    if actions != [] {
      StepKeeps(n, actions[0]);
      RunKeeps(Do(n, actions[0]), actions[1..]);
    }
  }

  /**
   One byte stream: under every schedule of pending and partial carrier I/O and all buffer sizes,
   the bytes delivered are a prefix of those accepted; and once nothing is in flight at either half,
   a read that still blocks has delivered them all.
   */
  lemma OneByteStream(d: Dir, actions: seq<Action>)
    requires forall i :: 0 <= i < |actions| ==> actions[i].Valid()
    ensures var n := Run(Start(d), actions);
      && n.delivered <= n.accepted
      && (n.flight == [] && n.out.left == [] ==>
            forall room, grabs :: Read(n.inn, room, Arrivals(n.flight, grabs)).outcome.ReadBlocked? ==> n.delivered == n.accepted)
  {
    hide Run, Do, Read, Synced;
    StartConserved(d);
    RunKeeps(Start(d), actions);
    var n := Run(Start(d), actions);
    var d', items :| Conserved(n, d', items);
    assert n.delivered <= n.delivered + n.inn.left + Concat(Messages(items));
    if n.flight == [] && n.out.left == [] {
      forall room, grabs | Read(n.inn, room, Arrivals(n.flight, grabs)).outcome.ReadBlocked?
        ensures n.delivered == n.accepted
      {
        BlockedMeansAll(n, room, grabs, d', items);
      }
    }
  }

  lemma StartConserved(d: Dir)
    ensures Inv(Start(d))
  {
    assert Conserved(Start(d), d, []);
  }

  lemma {:induction false} ReadTakesFront(s: LinkIn, room: nat, sock: seq<Incoming>)
    ensures |Payload(Read(s, room, sock).sock)| <= |Payload(sock)|
    decreases |sock|, |s.reader.buf|
  {
    hide Polled;
    PollConsumes(s.reader);
    var p := Polled(s.reader);
    if s.left == [] && p.result.Ok? {
      if p.result.value.Some? {
        ReadTakesFront(LinkIn(Drained(p), p.result.value.value), room, sock);
      } else if sock != [] && sock[0].Arrived? && sock[0].data != [] {
        ReadAwaits(s, room, sock);
        var r := Drained(p);
        ReadTakesFront(LinkIn(r.(buf := r.buf + sock[0].data), []), room, sock[1..]);
      }
    }
  }

  lemma BlockedMeansAll(n: LinkNet, room: nat, grabs: seq<nat>, d: Dir, items: seq<Item>)
    requires Conserved(n, d, items) && n.flight == [] && n.out.left == []
    requires Read(n.inn, room, Arrivals(n.flight, grabs)).outcome.ReadBlocked?
    ensures n.delivered == n.accepted
  {
    hide Synced, Read, Messages;
    var sock := Arrivals(n.flight, grabs);
    ArrivalsHonest(n.flight, grabs);
    var t := Read(n.inn, room, sock);
    var k := ReadConserves(n.inn, room, sock, d, items, []);
    assert Payload(t.sock) == [] by { ReadTakesFront(n.inn, room, sock); }
    assert items[..k] == items;
    assert n.inn.left + Concat(Messages(items)) == [];
  }

  // ----- the end of the carrier

  /**
   When the carrier ends, a read that has nothing left to deliver reports a clean end exactly if the
   bytes received end on a frame boundary, and an error inside a frame otherwise.
   */
  lemma CleanEndIffBoundary(s: LinkIn, room: nat, d: Dir, items: seq<Item>, lost: Bytes)
    requires Synced(s.reader, d, items, lost) && AllValid(items)
    requires s.left == [] && Polled(s.reader).result == Ok(None)
    ensures Read(s, room, [Arrived([])]).outcome == if OnBoundary(d, items, lost) then Ended else ReadFailed(Io)
  {
    hide Polled, Synced, OnBoundary;
    HoldsNothing(s.reader, d, items, lost);
  }

  // ----- progress

  /** A delivery fills the caller's buffer as far as the decrypted bytes go: never nothing into a buffer with room. */
  lemma {:induction false} ReadFills(s: LinkIn, room: nat, sock: seq<Incoming>)
    ensures var r := Read(s, room, sock);
      r.outcome.Delivered? ==> |r.outcome.data| == Min(room, |r.outcome.data| + |r.next.left|) && (room > 0 ==> r.outcome.data != [])
    decreases |sock|, |s.reader.buf|
  {
    hide Polled;
    PollConsumes(s.reader);
    var p := Polled(s.reader);
    if s.left == [] && p.result.Ok? {
      if p.result.value.Some? {
        ReadFills(LinkIn(Drained(p), p.result.value.value), room, sock);
      } else if sock != [] && sock[0].Arrived? && sock[0].data != [] {
        ReadAwaits(s, room, sock);
        var r := Drained(p);
        ReadFills(LinkIn(r.(buf := r.buf + sock[0].data), []), room, sock[1..]);
      }
    }
  }

  /** A carrier that takes something each time gets the whole frame in at most as many polls as it has bytes. */
  lemma {:induction false} FlushFinishes(left: Bytes, sock: seq<Outgoing>)
    requires |left| <= |sock| && forall i :: 0 <= i < |sock| ==> sock[i].Took? && sock[i].n > 0
    ensures Flush(left, sock).outcome == Accepted(0) && Flush(left, sock).pushed == left
    decreases |sock|
  {
    if left != [] {
      FlushFinishes(left[Min(sock[0].n, |left|)..], sock[1..]);
      FlushConserves(left, sock);
    }
  }

  /** With nothing left to flush a write accepts all it is given, up to one frame's worth, unless the carrier fails. */
  lemma WriteAccepts(s: LinkOut, data: Bytes, draws: Draws, sock: seq<Outgoing>)
    requires draws.Valid() && Flush(s.left, sock).outcome.Accepted?
    ensures var w := Write(s, data, draws, sock);
      w.outcome.WriteFailed? || w.outcome == Accepted(if |data| <= 65_536 then |data| else 65_536)
    ensures data == [] ==> Write(s, data, draws, sock).outcome == Accepted(0) && Write(s, data, draws, sock).next.d == s.d
  {
    hide Flush, Packet;
    FlushConserves(s.left, sock);
  }

  /** While a frame is still leaving nothing is accepted. */
  lemma WriteWaits(s: LinkOut, data: Bytes, draws: Draws, sock: seq<Outgoing>)
    requires draws.Valid() && !Flush(s.left, sock).outcome.Accepted?
    ensures var w, f := Write(s, data, draws, sock), Flush(s.left, sock);
      !w.outcome.Accepted? && w.next == s.(left := f.left) && w.pushed == f.pushed
  {
  }
}
