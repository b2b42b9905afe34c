/** One direction under way: bytes in flight, what they mean, and the states at both ends. */
module Lockstep {
  import opened Bits
  import opened Errors
  import opened Config
  import opened SessionCiphers
  import opened Wire
  import opened Incremental
  import opened Handshake
  import Base94

  type GoodItem = i: Item | i.Valid() witness Item([0], Draws(1, Base94.Draw(0x20, 0x20)))

  /** What an end did to its sending direction; only `Rekey` puts no bytes on the wire. */
  datatype Event = Noise(item: GoodItem) | Id(id: u128, item: GoodItem) | Rekey(ivv: u128) | Data(item: GoodItem)

  /** Noise and id events carry handshake packets that unpack accordingly. */
  ghost predicate EventOk(key: ObfuscationKey, e: Event) {
    match e
    case Noise(item) => Unpacked(key, item.msg) == Ok(Dummy)
    case Id(id, item) => id != 0 && Unpacked(key, item.msg) == Ok(Session(id))
    case Rekey(_) => true
    case Data(_) => true
  }

  function Apply(prim: Primitives, d: Dir, e: Event): Dir {
    if e.Rekey? then d.Rekeyed(prim, e.ivv).Completed() else d.Sent()
  }

  ghost function EventWire(d: Dir, e: Event): Bytes {
    if e.Rekey? then [] else Packet(d, e.item.msg, e.item.draws)
  }

  /** Bytes of the events, coded from state `d` on, and the state they lead to. */
  ghost function FlightWire(prim: Primitives, d: Dir, flight: seq<Event>): Bytes
    decreases |flight|
  {
    if flight == [] then []
    else EventWire(d, flight[0]) + FlightWire(prim, Apply(prim, d, flight[0]), flight[1..])
  }

  /** A packet's message with the coding state it was written or read under. */
  datatype Frame = Frame(d: Dir, msg: Bytes)

  function EventFrames(d: Dir, e: Event): seq<Frame> {
    if e.Rekey? then [] else [Frame(d, e.item.msg)]
  }

  function FlightFrames(prim: Primitives, d: Dir, flight: seq<Event>): seq<Frame>
    decreases |flight|
  {
    if flight == [] then []
    else EventFrames(d, flight[0]) + FlightFrames(prim, Apply(prim, d, flight[0]), flight[1..])
  }

  ghost function FlightEnd(prim: Primitives, d: Dir, flight: seq<Event>): Dir
    decreases |flight|
  {
    if flight == [] then d else FlightEnd(prim, Apply(prim, d, flight[0]), flight[1..])
  }

  /**
   What one direction of a handshake still has to carry: noise packets, then the ids, then the key
   switch, then data. The position of a reader in it, or of a writer.
   */
  datatype Stage = Stage(noise: nat, ids: seq<u128>, switched: bool)

  /** The stage after an event, if the script allows it there. */
  function Track(stage: Stage, ivv: u128, e: Event): Option<Stage> {
    match e
    case Noise(_) => if stage.noise > 0 then Some(stage.(noise := stage.noise - 1)) else None
    case Id(id, _) =>
      if stage.noise == 0 && stage.ids != [] && stage.ids[0] == id then Some(stage.(ids := stage.ids[1..])) else None
    case Rekey(v) =>
      if stage.noise == 0 && stage.ids == [] && !stage.switched && v == ivv then Some(stage.(switched := true)) else None
    case Data(_) => if stage.switched then Some(stage) else None
  }

  function TrackAll(stage: Stage, ivv: u128, flight: seq<Event>): Option<Stage>
    decreases |flight|
  {
    if flight == [] then Some(stage)
    else
      match Track(stage, ivv, flight[0])
      case None => None
      case Some(next) => TrackAll(next, ivv, flight[1..])
  }

  /**
   The bytes in the pipe and, for the record, the events they encode, the reader's stage, every
   frame written and every frame read.
   */
  datatype Pipe = Pipe(bytes: Bytes, flight: seq<Event>, stage: Stage, sent: seq<Frame>, got: seq<Frame>)

  /**
   Lockstep: the pipe holds exactly the packets of the events in flight, coded from the reader's
   state on; those events lead the reader's state to the writer's; they follow the script; and every
   frame was read under the state it was written under.
   */
  ghost predicate Locked(prim: Primitives, key: ObfuscationKey, ivv: u128, p: Pipe, rx: Dir, tx: Dir, writer: Stage) {
    && rx.key == key
    && (forall i :: 0 <= i < |p.flight| ==> EventOk(key, p.flight[i]))
    && p.bytes == FlightWire(prim, rx, p.flight)
    && p.sent == p.got + FlightFrames(prim, rx, p.flight)
    && tx == FlightEnd(prim, rx, p.flight)
    && TrackAll(p.stage, ivv, p.flight) == Some(writer)
  }

  lemma {:induction false} WireAppends(prim: Primitives, d: Dir, flight: seq<Event>, e: Event)
    ensures FlightWire(prim, d, flight + [e]) == FlightWire(prim, d, flight) + EventWire(FlightEnd(prim, d, flight), e)
    ensures FlightFrames(prim, d, flight + [e]) == FlightFrames(prim, d, flight) + EventFrames(FlightEnd(prim, d, flight), e)
    ensures FlightEnd(prim, d, flight + [e]) == Apply(prim, FlightEnd(prim, d, flight), e)
    decreases |flight|
  {
    hide Packet, Apply, EventWire, EventFrames;
    var all := flight + [e];
    if flight == [] {
      assert all[1..] == [] && all[0] == e;
      assert FlightWire(prim, Apply(prim, d, e), all[1..]) == [];
      assert FlightFrames(prim, Apply(prim, d, e), all[1..]) == [];
    } else {
      WireAppends(prim, Apply(prim, d, flight[0]), flight[1..], e);
      assert all[1..] == flight[1..] + [e] && all[0] == flight[0];
    }
  }

  lemma {:induction false} TrackAppends(stage: Stage, ivv: u128, flight: seq<Event>, e: Event)
    requires TrackAll(stage, ivv, flight).Some?
    ensures TrackAll(stage, ivv, flight + [e]) == Track(TrackAll(stage, ivv, flight).value, ivv, e)
    decreases |flight|
  {
    hide Track;
    var all := flight + [e];
    if flight == [] {
      assert all[1..] == [] && all[0] == e;
    } else {
      assert all[1..] == flight[1..] + [e] && all[0] == flight[0];
      TrackAppends(Track(stage, ivv, flight[0]).value, ivv, flight[1..], e);
    }
  }

  /** The reader is never ahead of the writer. */
  lemma {:induction false} ReaderBehind(stage: Stage, ivv: u128, flight: seq<Event>)
    requires TrackAll(stage, ivv, flight).Some?
    ensures var writer := TrackAll(stage, ivv, flight).value;
      && writer.noise <= stage.noise && |writer.ids| <= |stage.ids| && (stage.switched ==> writer.switched)
    decreases |flight|
  {
    if flight != [] {
      ReaderBehind(Track(stage, ivv, flight[0]).value, ivv, flight[1..]);
    }
  }

  /** The writer adds an event. */
  ghost function Pushed(p: Pipe, tx: Dir, e: Event): Pipe {
    p.(bytes := p.bytes + EventWire(tx, e), flight := p.flight + [e], sent := p.sent + EventFrames(tx, e))
  }

  lemma PushKeepsLock(prim: Primitives, key: ObfuscationKey, ivv: u128, p: Pipe, rx: Dir, tx: Dir, writer: Stage, e: Event)
    requires Locked(prim, key, ivv, p, rx, tx, writer) && EventOk(key, e) && Track(writer, ivv, e).Some?
    ensures Locked(prim, key, ivv, Pushed(p, tx, e), rx, Apply(prim, tx, e), Track(writer, ivv, e).value)
  {
    hide FlightWire, FlightEnd, FlightFrames, TrackAll, EventWire, EventFrames, Apply, EventOk;
    WireAppends(prim, rx, p.flight, e);
    TrackAppends(p.stage, ivv, p.flight, e);
  }

  /** The record moves past the first event in flight. */
  function Popped(p: Pipe, ivv: u128): Pipe {
    if p.flight == [] || Track(p.stage, ivv, p.flight[0]).None? then p
    else p.(flight := p.flight[1..], stage := Track(p.stage, ivv, p.flight[0]).value)
  }

  /** The reader took `taken` bytes off the front and decoded them to `msg`. */
  function Received(p: Pipe, ivv: u128, rx: Dir, msg: Bytes, taken: nat): Pipe
    requires taken <= |p.bytes|
  {
    Popped(p, ivv).(bytes := p.bytes[taken..], got := p.got + [Frame(rx, msg)])
  }

  /** An empty flight means an empty pipe: a read there would block. */
  lemma NothingToRead(prim: Primitives, key: ObfuscationKey, ivv: u128, p: Pipe, rx: Dir, tx: Dir, writer: Stage)
    requires Locked(prim, key, ivv, p, rx, tx, writer) && p.flight == []
    ensures p.bytes == [] && ReadBuf(rx, p.bytes).0.result == Err(Io)
    ensures tx == rx && p.stage == writer
  {
  }

  /**
   A read in lockstep returns the message of the first event, decoded under exactly the state it was
   encoded with, takes none of the later bytes, and keeps the lockstep.
   */
  lemma ReadHead(prim: Primitives, key: ObfuscationKey, ivv: u128, p: Pipe, rx: Dir, tx: Dir, writer: Stage)
    requires Locked(prim, key, ivv, p, rx, tx, writer) && p.flight != [] && !p.flight[0].Rekey?
    ensures var (step, taken) := ReadBuf(rx, p.bytes);
      && step == Step(Ok(p.flight[0].item.msg), rx.Sent()) && taken <= |p.bytes|
      && EventOk(key, p.flight[0]) && Track(p.stage, ivv, p.flight[0]).Some?
      && Locked(prim, key, ivv, Received(p, ivv, rx, p.flight[0].item.msg, taken), rx.Sent(), tx, writer)
  {
    hide Packet, ReadBuf, EventOk, Track;
    var e := p.flight[0];
    var w, tail := EventWire(rx, e), FlightWire(prim, rx.Sent(), p.flight[1..]);
    assert p.bytes == w + tail;
    PacketRoundTrip(rx, e.item.msg, e.item.draws, tail);
    assert p.bytes[|w|..] == tail;
    assert p.sent == (p.got + [Frame(rx, e.item.msg)]) + FlightFrames(prim, rx.Sent(), p.flight[1..]);
  }

  /** The reader switches keys where the writer did. */
  lemma SwitchHead(prim: Primitives, key: ObfuscationKey, ivv: u128, p: Pipe, rx: Dir, tx: Dir, writer: Stage)
    requires Locked(prim, key, ivv, p, rx, tx, writer) && p.flight != [] && p.flight[0] == Rekey(ivv)
    ensures Locked(prim, key, ivv, Popped(p, ivv), rx.Rekeyed(prim, ivv).Completed(), tx, writer)
    ensures Popped(p, ivv).stage.switched
  {
    hide EventOk, Locked;
    SwitchTail(prim, key, ivv, p, rx, tx, writer);
  }

  lemma SwitchTail(prim: Primitives, key: ObfuscationKey, ivv: u128, p: Pipe, rx: Dir, tx: Dir, writer: Stage)
    requires Locked(prim, key, ivv, p, rx, tx, writer) && p.flight != [] && p.flight[0] == Rekey(ivv)
    ensures Track(p.stage, ivv, Rekey(ivv)) == Some(p.stage.(switched := true))
    ensures Locked(prim, key, ivv, Popped(p, ivv), Apply(prim, rx, Rekey(ivv)), tx, writer)
  {
    hide EventOk, Packet;
    var next := Apply(prim, rx, p.flight[0]);
    assert next.key == rx.key;
    hide Apply;
    var wire, frames := FlightWire(prim, next, p.flight[1..]), FlightFrames(prim, next, p.flight[1..]);
    assert [] + wire == wire && [] + frames == frames;
  }
}
