/**
 Streams over one tunnel: the registries, demux loops and pumps of both ends around two FIFO queues
 of mux frames. Steps are atomic at each lock, channel or await point and interleave freely.
 */
module MuxProtocol {
  import opened Bits
  import opened Mux

  datatype At = Client | Server {
    function Peer(): At { if Client? then Server else Client }
  }

  /** What an end says on a stream: its opening word, then data and at most one end of file. */
  datatype Said = Opens | Verdict(ok: bool) | Event(event: StreamEvent)

  datatype StreamEvent = Chunk(data: Bytes) | Finish

  /** A client stream is numbered, entered, asked for and live; a server stream connects and is live. */
  datatype Phase = Idle | Numbered | Awaited | Preparing | Asked | Live | Gone

  /**
   One end of one stream: its registry entry, its event channel, whether anyone still receives from
   it and whether the local reader still sends; and for the record all that was said here, all
   that was heard here, and the events the pump took out of the channel.
   */
  datatype Side = Side(
    phase: Phase, registered: bool, listening: bool, sending: bool, pending: bool, verdict: Option<bool>,
    channel: seq<StreamEvent>, got: seq<StreamEvent>, said: seq<Said>, heard: seq<Said>)

  const UNUSED := Side(Idle, false, false, false, false, None, [], [], [], [])

  /** Only built frames are queued, and each parses back (Tunnel.TunnelIsFifo). */
  type MuxFrame = f: Parsed | f.Frame? witness Frame(Close, 0, [])

  /** Frames on their way to one end: outbound channel, writer and carrier. Once cut, nothing enters. */
  datatype Inbox = Inbox(frames: seq<MuxFrame>, cut: bool)

  /** A demux loop that looked up a channel still has to put the event there. */
  datatype Routing = NotRouting | Routing(id: StreamId, event: StreamEvent)

  /** A demux loop ends between two frames, or is killed anywhere. */
  datatype Loop = Running | Stopped | Killed

  /** The streams of one end, its demux loop, and whether the tunnel is not yet marked dead there. */
  datatype End = End(sides: map<StreamId, Side>, inbox: Inbox, routing: Routing, loop: Loop, alive: bool)

  datatype Net = Net(opens: nat, client: End, server: End)

  const QUIET := End(map[], Inbox([], false), NotRouting, Running, true)
  const START := Net(0, QUIET, QUIET)

  function EndOf(s: Net, at: At): End { if at.Client? then s.client else s.server }

  function With(s: Net, at: At, e: End): Net { if at.Client? then s.(client := e) else s.(server := e) }

  function SideOf(e: End, id: StreamId): Side { if id in e.sides then e.sides[id] else UNUSED }

  function Put(e: End, id: StreamId, side: Side): End { e.(sides := e.sides[id := side]) }

  function Look(s: Net, at: At, id: StreamId): Side { SideOf(EndOf(s, at), id) }

  function Change(s: Net, at: At, id: StreamId, side: Side): Net { With(s, at, Put(EndOf(s, at), id, side)) }

  // ----- frames

  const REPLY_OK: byte := 0
  const REPLY_REFUSED: byte := 1

  function FrameOf(id: StreamId, said: Said): MuxFrame {
    match said
    case Opens => Frame(Open, id, [])
    case Verdict(ok) => Frame(Reply, id, [if ok then REPLY_OK else REPLY_REFUSED])
    case Event(Chunk(data)) => Frame(Data, id, data)
    case Event(Finish) => Frame(Eof, id, [])
  }

  /** What a frame says on its stream; closes say nothing. */
  function SaidBy(f: MuxFrame): Option<Said> {
    match f.kind
    case Open => Some(Opens)
    case Reply => Some(Verdict(f.payload != [] && f.payload[0] == REPLY_OK))
    case Data => Some(Event(Chunk(f.payload)))
    case Eof => Some(Event(Finish))
    case Close => None
  }

  /** All that is still to be heard on stream `id`. */
  function Coming(frames: seq<MuxFrame>, id: StreamId): seq<Said>
    decreases |frames|
  {
    if frames == [] then []
    else
      var f := frames[0];
      (if f.id == id && SaidBy(f).Some? then [SaidBy(f).value] else []) + Coming(frames[1..], id)
  }

  function Events(said: seq<Said>): seq<StreamEvent>
    decreases |said|
  {
    if said == [] then []
    else (if said[0].Event? then [said[0].event] else []) + Events(said[1..])
  }

  function Pushed(inbox: Inbox, f: MuxFrame): Inbox {
    if inbox.cut then inbox else inbox.(frames := inbox.frames + [f])
  }

  /** Queues a frame to the other end. */
  function Send(s: Net, at: At, f: MuxFrame): Net {
    var peer := EndOf(s, at.Peer());
    With(s, at.Peer(), peer.(inbox := Pushed(peer.inbox, f)))
  }

  /** A close that is dropped when the queue is full. */
  function TryClose(s: Net, at: At, id: StreamId, queued: bool): Net {
    if queued then Send(s, at, Frame(Close, id, [])) else s
  }

  /** Says something on a stream whose side becomes `side`. */
  function Say(s: Net, at: At, id: StreamId, side: Side, said: Said): Net {
    Send(Change(s, at, id, side.(said := side.said + [said])), at, FrameOf(id, said))
  }

  // ----- steps

  datatype Action =
    | Allocate                                                // client: the next id
    | AddPending(id: StreamId)                                // client: pending entry
    | AddEntry(id: StreamId)                                  // client: registry entry
    | Ask(id: StreamId)                                       // client: OPEN is queued
    | AskFails(id: StreamId)                                  // client: the outbound queue is closed
    | Succeed(id: StreamId)                                   // client: the waiter sees a positive reply
    | GiveUp(id: StreamId, queued: bool)                      // client: refused, timed out or tunnel dead
    | Hear(at: At, accept: bool, queued: bool)                // demux: the next frame
    | Deliver(at: At)                                         // demux: the event enters its channel
    | Lose(at: At, queued: bool)                              // demux: no receiver, or it stalls too long
    | Connected(id: StreamId)                                 // server: target up, positive reply
    | Refuse(id: StreamId)                                    // server: target down, negative reply
    | ReplyFails(id: StreamId)                                // server: the outbound queue is closed
    | Pump(at: At, id: StreamId, data: Bytes)                 // local data becomes a DATA frame
    | PumpEof(at: At, id: StreamId)                           // local half-close becomes EOF
    | PumpStops(at: At, id: StreamId, queued: bool)           // local read error or abort
    | Take(at: At, id: StreamId)                              // the pump receives the next event
    | TakeStops(at: At, id: StreamId, queued: bool)           // local write error or abort
    | Finished(at: At, id: StreamId, queued: bool)            // the stream handle goes, with a close or not
    | MarkDead                                                // client: every entry is dropped, the first time
    | Kill                                                    // client: marked dead, the demux loop aborted anywhere
    | Stop(at: At)                                            // a demux loop ends between two frames
    | Cut(at: At, n: nat)                                     // the tunnel dies: frames past the first n are lost

  /** None where no task stands before the step. */
  function Do(s: Net, a: Action): Option<Net> {
    match a
    case Allocate => if s.opens + 1 < TWO32 then Some(Allocated(s)) else None
    case AddPending(id) =>
      var c := Look(s, Client, id);
      if c.phase == Numbered then Some(Change(s, Client, id, c.(phase := Awaited, pending := true))) else None
    case AddEntry(id) =>
      var c := Look(s, Client, id);
      if c.phase == Awaited
      then Some(Change(s, Client, id, c.(phase := Preparing, registered := true, listening := true))) else None
    case Ask(id) =>
      var c := Look(s, Client, id);
      if c.phase == Preparing then Some(Say(s, Client, id, c.(phase := Asked), Opens)) else None
    case AskFails(id) =>
      var c := Look(s, Client, id);
      if c.phase == Preparing then Some(Change(s, Client, id, Unregistered(c))) else None
    case Succeed(id) =>
      var c := Look(s, Client, id);
      if c.phase == Asked && c.verdict == Some(true)
      then Some(Change(s, Client, id, c.(phase := Live, sending := true))) else None
    case GiveUp(id, queued) =>
      var c := Look(s, Client, id);
      if c.phase == Asked then Some(TryClose(Change(s, Client, id, Unregistered(c)), Client, id, queued)) else None
    case Hear(at, accept, queued) =>
      var e := EndOf(s, at);
      if e.loop.Running? && e.routing.NotRouting? && e.inbox.frames != [] then Some(Heard(s, at, accept, queued)) else None
    case Deliver(at) => Delivered(s, at)
    case Lose(at, queued) => Lost(s, at, queued)
    case Connected(id) =>
      var v := Look(s, Server, id);
      if v.phase == Preparing then Some(Say(s, Server, id, v.(phase := Live, sending := true), Verdict(true))) else None
    case Refuse(id) =>
      var v := Look(s, Server, id);
      if v.phase == Preparing then Some(Say(s, Server, id, Unregistered(v), Verdict(false))) else None
    case ReplyFails(id) =>
      var v := Look(s, Server, id);
      if v.phase == Preparing then Some(Change(s, Server, id, Unregistered(v))) else None
    case Pump(at, id, data) =>
      var x := Look(s, at, id);
      if x.phase == Live && x.sending && data != [] then Some(Say(s, at, id, x, Event(Chunk(data)))) else None
    case PumpEof(at, id) =>
      var x := Look(s, at, id);
      if x.phase == Live && x.sending then Some(Say(s, at, id, x.(sending := false), Event(Finish))) else None
    case PumpStops(at, id, queued) =>
      var x := Look(s, at, id);
      if x.phase == Live && x.sending then Some(TryClose(Change(s, at, id, x.(sending := false)), at, id, queued)) else None
    case Take(at, id) =>
      var x := Look(s, at, id);
      if x.phase == Live && x.listening && x.channel != [] then Some(Change(s, at, id, Taken(x))) else None
    case TakeStops(at, id, queued) =>
      var x := Look(s, at, id);
      if x.phase == Live && x.listening then Some(TryClose(Change(s, at, id, x.(listening := false)), at, id, queued)) else None
    case Finished(at, id, queued) =>
      var x := Look(s, at, id);
      if x.phase == Live then Some(TryClose(Change(s, at, id, Unregistered(x)), at, id, at.Client? && queued)) else None
    case MarkDead => Some(s.(client := MarkedDead(s.client)))
    case Kill => Some(s.(client := MarkedDead(s.client).(loop := Killed, routing := NotRouting)))
    case Stop(at) =>
      // The server's map outlives its demux loop: every stream task shares it.
      var e := EndOf(s, at);
      if !e.loop.Running? || e.routing.Routing? then None
      else Some(With(s, at, (if at.Client? then MarkedDead(e) else e).(loop := Stopped)))
    case Cut(at, n) =>
      var e := EndOf(s, at);
      Some(With(s, at, e.(inbox := Inbox(if n < |e.inbox.frames| then e.inbox.frames[..n] else e.inbox.frames, true))))
  }

  function NextId(s: Net): StreamId { (s.opens + 1) % TWO32 }

  /** Ids count up from 1. */
  function Allocated(s: Net): Net {
    var id := NextId(s);
    Change(s, Client, id, UNUSED.(phase := Numbered)).(opens := s.opens + 1)
  }

  /** The entry and the receiver are dropped; the stream is over at this end. */
  function Unregistered(x: Side): Side {
    x.(phase := Gone, registered := false, listening := false, sending := false, pending := false)
  }

  function Taken(x: Side): Side
    requires x.channel != []
  {
    x.(got := x.got + [x.channel[0]], channel := x.channel[1..], listening := x.channel[0].Chunk?)
  }

  /** Only the first to mark a tunnel dead clears the entries. */
  function MarkedDead(e: End): End {
    if !e.alive then e
    else e.(sides := map id | id in e.sides :: e.sides[id].(registered := false, pending := false), alive := false)
  }

  /** The demux loop of one end handles the next frame. */
  function Heard(s: Net, at: At, accept: bool, queued: bool): Net
    requires EndOf(s, at).inbox.frames != []
  {
    var f, rest := EndOf(s, at).inbox.frames[0], EndOf(s, at).inbox.frames[1..];
    var s1 := With(s, at, EndOf(s, at).(inbox := EndOf(s, at).inbox.(frames := rest)));
    var x := Look(s, at, f.id);
    match SaidBy(f)
    case None => Change(s1, at, f.id, x.(registered := false))
    case Some(said) => HeardSaid(s1, at, f.id, x.(heard := x.heard + [said]), said, accept, queued)
  }

  function HeardSaid(s: Net, at: At, id: StreamId, x: Side, said: Said, accept: bool, queued: bool): Net {
    match said
    case Event(event) =>
      if x.registered then With(s, at, Put(EndOf(s, at), id, x).(routing := Routing(id, event)))
      else TryClose(Change(s, at, id, x), at, id, queued)
    case Opens =>
      if at.Client? then With(s, at, Put(EndOf(s, at), id, x).(loop := Stopped))
      else if x.registered then TryClose(Change(s, at, id, x), at, id, queued)
      else if !accept then TryClose(Change(s, at, id, x.(phase := Gone)), at, id, queued)
      else Change(s, at, id, x.(phase := Preparing, registered := true, listening := true))
    case Verdict(ok) =>
      if at.Server? then With(s, at, Put(EndOf(s, at), id, x).(loop := Stopped))
      else Change(s, at, id, if x.pending then x.(pending := false, verdict := Some(ok)) else x)
  }

  function Delivered(s: Net, at: At): Option<Net> {
    var e := EndOf(s, at);
    if !e.routing.Routing? || !SideOf(e, e.routing.id).listening then None
    else
      var x := SideOf(e, e.routing.id);
      Some(With(s, at, Put(e, e.routing.id, x.(channel := x.channel + [e.routing.event])).(routing := NotRouting)))
  }

  function Lost(s: Net, at: At, queued: bool): Option<Net> {
    var e := EndOf(s, at);
    if !e.routing.Routing? then None
    else
      var x := SideOf(e, e.routing.id);
      Some(TryClose(With(s, at, Put(e, e.routing.id, x.(registered := false)).(routing := NotRouting)), at, e.routing.id, queued))
  }

  function Run(s: Net, actions: seq<Action>): Option<Net>
    decreases |actions|
  {
    if actions == [] then Some(s)
    else
      match Do(s, actions[0])
      case None => None
      case Some(next) => Run(next, actions[1..])
  }

  // ----- the invariant, stream by stream

  function Routed(e: End, id: StreamId): seq<StreamEvent> {
    if e.routing.Routing? && e.routing.id == id then [e.routing.event] else []
  }

  /** Everything handed to the stream so far, in order. */
  function Handed(e: End, id: StreamId): seq<StreamEvent> {
    SideOf(e, id).got + SideOf(e, id).channel + Routed(e, id)
  }

  /** An opening word of this end, then data, then at most one end of file. */
  ghost predicate Proper(at: At, said: seq<Said>) {
    said != [] ==>
      && (if at.Client? then said[0] == Opens else said[0].Verdict?)
      && (said[0] == Verdict(false) ==> |said| == 1)
      && (forall i :: 1 <= i < |said| ==> said[i].Event?)
      && (forall i :: 1 <= i < |said| - 1 ==> said[i].event.Chunk?)
  }

  ghost predicate Unfinished(said: seq<Said>) {
    said != [] && said[0] != Verdict(false) && forall i :: 1 <= i < |said| ==> said[i] != Event(Finish)
  }

  /** What was heard and is still coming is what the peer said; after a cut, a front part of it. */
  ghost predicate Fifo(said: seq<Said>, heard: seq<Said>, coming: seq<Said>, cut: bool) {
    if cut then heard + coming <= said else heard + coming == said
  }

  /** What was handed to the stream are the first events heard; all of them while it is registered and the loop not killed. */
  ghost predicate Ordered(e: End, id: StreamId) {
    var x := SideOf(e, id);
    Handed(e, id) <= Events(x.heard) && (x.registered && !e.loop.Killed? ==> Handed(e, id) == Events(x.heard))
  }

  ghost predicate Phased(at: At, x: Side) {
    && Proper(at, x.said)
    && (x.sending ==> x.phase == Live && Unfinished(x.said))
    && (x.phase == Idle ==> x == UNUSED)
    && (x.phase.Numbered? || x.phase.Awaited? || x.phase.Preparing? ==> x.said == [])
    && (at.Client? ==> (x.phase == Asked ==> x.said == [Opens]) && (x.verdict.Some? ==> x.heard != [] && x.heard[0] == Verdict(x.verdict.value)))
    && (at.Client? && x.phase == Live ==> x.heard != [] && x.heard[0] == Verdict(true) && x.said != [])
    && (at.Server? ==> (x.phase == Idle <==> x.heard == []) && (x.phase == Live ==> x.said != []))
  }

  ghost predicate Good(s: Net, at: At, id: StreamId) {
    var e, x, y := EndOf(s, at), Look(s, at, id), Look(s, at.Peer(), id);
    && Fifo(y.said, x.heard, Coming(e.inbox.frames, id), e.inbox.cut)
    && Ordered(e, id) && Phased(at, x)
  }

  ghost predicate Fresh(s: Net) {
    forall id: StreamId :: id > s.opens || id == 0 ==> Look(s, Client, id) == UNUSED
  }

  ghost predicate Inv(s: Net) {
    Fresh(s) && forall at, id :: Good(s, at, id)
  }

  // ----- lists of frames and of words

  lemma {:induction false} ComingAppends(frames: seq<MuxFrame>, f: MuxFrame, id: StreamId)
    ensures Coming(frames + [f], id) == Coming(frames, id) + Coming([f], id)
    decreases |frames|
  {
    var all := frames + [f];
    if frames == [] {
      assert all == [f];
    } else {
      ComingAppends(frames[1..], f, id);
      assert all[1..] == frames[1..] + [f] && all[0] == frames[0];
      var rest, last := Coming(frames[1..], id), Coming([f], id);
      var first := if frames[0].id == id && SaidBy(frames[0]).Some? then [SaidBy(frames[0]).value] else [];
      hide SaidBy;
      assert Coming(all, id) == first + Coming(all[1..], id) && Coming(frames, id) == first + rest;
      assert first + (rest + last) == (first + rest) + last;
    }
  }

  lemma ComingOne(f: MuxFrame, id: StreamId)
    ensures Coming([f], id) == if f.id == id && SaidBy(f).Some? then [SaidBy(f).value] else []
  {
    assert Coming([f][1..], id) == [];
  }

  lemma {:induction false} ComingFront(frames: seq<MuxFrame>, n: nat, id: StreamId)
    requires n <= |frames|
    ensures Coming(frames[..n], id) <= Coming(frames, id)
    decreases n
  {
    if n > 0 {
      ComingFront(frames[1..], n - 1, id);
      assert frames[..n][1..] == frames[1..][..n - 1];
    }
  }

  lemma {:induction false} EventsAppend(said: seq<Said>, more: seq<Said>)
    ensures Events(said + more) == Events(said) + Events(more)
    decreases |said|
  {
    if said == [] {
      assert said + more == more;
    } else {
      EventsAppend(said[1..], more);
      var all := said + more;
      var first := if said[0].Event? then [said[0].event] else [];
      assert all[1..] == said[1..] + more && all[0] == said[0];
      assert Events(all) == first + Events(all[1..]);
      assert first + (Events(said[1..]) + Events(more)) == (first + Events(said[1..])) + Events(more);
    }
  }

  lemma EventsGrow(said: seq<Said>, word: Said)
    ensures Events(said + [word]) == Events(said) + if word.Event? then [word.event] else []
    ensures Events([]) == []
  {
    EventsAppend(said, [word]);
    assert [word][1..] == [] && Events([word][1..]) == [];
  }

  // ----- steps that say nothing and hear nothing

  /** One side changes without saying, hearing or losing track of anything. */
  lemma QuietChange(s: Net, at: At, id: StreamId, x: Side)
    requires Inv(s) && Phased(at, x) && Look(s, at, id) != UNUSED
    requires var was := Look(s, at, id);
      && x.said == was.said && x.heard == was.heard && x.got + x.channel == was.got + was.channel
      && (x.registered ==> was.registered || was.heard == [])
    ensures Inv(Change(s, at, id, x))
  {
    EventsNothing();
    hide Fifo, Phased, Events, Coming;
    var s' := Change(s, at, id, x);
    forall j: StreamId | j > s.opens || j == 0 ensures Look(s', Client, j) == UNUSED {
      assert Look(s, Client, j) == UNUSED;
    }
    forall at', id' ensures Good(s', at', id') {
      assert Good(s, at', id');
    }
  }

  /** Queueing a close changes nothing of what is said. */
  lemma CloseKeeps(s: Net, at: At, id: StreamId, queued: bool)
    requires Inv(s)
    ensures Inv(TryClose(s, at, id, queued))
  {
    hide Phased, Events, Coming, Handed;
    var f := Frame(Close, id, []);
    var inbox := EndOf(s, at.Peer()).inbox;
    var s' := TryClose(s, at, id, queued);
    forall j: StreamId | j > s.opens || j == 0 ensures Look(s', Client, j) == UNUSED {
      assert Look(s, Client, j) == UNUSED;
    }
    forall at', id' ensures Good(s', at', id') {
      assert Good(s, at', id');
      ComingAppends(inbox.frames, f, id');
      ComingOne(f, id');
      assert Coming(inbox.frames, id') + [] == Coming(inbox.frames, id');
      SameHanded(s, s', at', id');
    }
  }

  /** Handed events depend on nothing else. */
  lemma SameHanded(s: Net, t: Net, at: At, id: StreamId)
    requires Look(s, at, id) == Look(t, at, id) && EndOf(s, at).routing == EndOf(t, at).routing
    ensures Handed(EndOf(s, at), id) == Handed(EndOf(t, at), id)
  {
  }

  /** What is said enters the queue, unless it is cut. */
  lemma FifoGrows(said: seq<Said>, heard: seq<Said>, inbox: Inbox, id: StreamId, word: Said)
    requires Fifo(said, heard, Coming(inbox.frames, id), inbox.cut)
    ensures Fifo(said + [word], heard, Coming(Pushed(inbox, FrameOf(id, word)).frames, id), inbox.cut)
  {
    ComingAppends(inbox.frames, FrameOf(id, word), id);
    ComingOne(FrameOf(id, word), id);
    var coming := Coming(inbox.frames, id);
    hide Coming;
    assert (heard + coming) + [word] == heard + (coming + [word]);
  }

  lemma OthersUnmoved(inbox: Inbox, f: MuxFrame, id: StreamId)
    requires !(f.id == id)
    ensures Coming(Pushed(inbox, f).frames, id) == Coming(inbox.frames, id)
  {
    ComingAppends(inbox.frames, f, id);
    ComingOne(f, id);
    assert Coming(inbox.frames, id) + [] == Coming(inbox.frames, id);
  }

  lemma SayKeeps(s: Net, at: At, id: StreamId, x: Side, word: Said)
    requires Inv(s) && Look(s, at, id) != UNUSED
    requires var was := Look(s, at, id);
      x.said == was.said && x.heard == was.heard && x.got + x.channel == was.got + was.channel && (x.registered ==> was.registered)
    requires Phased(at, x.(said := x.said + [word]))
    ensures Inv(Say(s, at, id, x, word))
  {
    hide Fifo, Phased, Events, Coming, Handed, FrameOf, Pushed;
    var s' := Say(s, at, id, x, word);
    forall j: StreamId | j > s.opens || j == 0 ensures Look(s', Client, j) == UNUSED {
      assert Look(s, Client, j) == UNUSED;
    }
    var inbox := EndOf(s, at.Peer()).inbox;
    PushedCut(inbox, FrameOf(id, word));
    FrameOfId(id, word);
    forall at', id' ensures Good(s', at', id') {
      assert Good(s, at', id');
      SaidHanded(s, s', at', id');
      if at' == at.Peer() {
        if id' == id {
          FifoGrows(Look(s, at, id).said, Look(s, at', id).heard, inbox, id, word);
        } else {
          OthersUnmoved(inbox, FrameOf(id, word), id');
        }
      }
    }
  }

  lemma PushedCut(inbox: Inbox, f: MuxFrame)
    ensures Pushed(inbox, f).cut == inbox.cut
  {
  }

  lemma FrameOfId(id: StreamId, word: Said)
    ensures FrameOf(id, word).id == id
  {
  }

  lemma SaidHanded(s: Net, t: Net, at: At, id: StreamId)
    requires Look(s, at, id).got + Look(s, at, id).channel == Look(t, at, id).got + Look(t, at, id).channel
    requires EndOf(s, at).routing == EndOf(t, at).routing
    ensures Handed(EndOf(s, at), id) == Handed(EndOf(t, at), id)
  {
  }

  // ----- steps of the demux loop

  lemma DeliverKeeps(s: Net, at: At)
    requires Inv(s) && Delivered(s, at).Some?
    ensures Inv(Delivered(s, at).value)
  {
    hide Fifo, Phased, Ordered, Coming;
    var e := EndOf(s, at);
    var id := e.routing.id;
    var s' := Delivered(s, at).value;
    assert Good(s, at, id);
    RoutedPhased(at, SideOf(e, id), e.routing.event);
    forall j: StreamId | j > s.opens || j == 0 ensures Look(s', Client, j) == UNUSED {
      assert Look(s, Client, j) == UNUSED;
    }
    forall at', id' ensures Good(s', at', id') {
      assert Good(s, at', id');
      DeliveredOrdered(s, at, at', id');
    }
  }

  /** The event moves from the loop to the end of the channel. */
  lemma DeliveredOrdered(s: Net, at: At, at': At, id: StreamId)
    requires Delivered(s, at).Some? && Ordered(EndOf(s, at'), id)
    ensures Ordered(EndOf(Delivered(s, at).value, at'), id)
  {
    hide Events;
    var e := EndOf(s, at);
    var x := SideOf(e, e.routing.id);
    assert x.got + (x.channel + [e.routing.event]) + [] == x.got + x.channel + [e.routing.event];
  }

  lemma RoutedPhased(at: At, x: Side, event: StreamEvent)
    requires Phased(at, x) && x != UNUSED
    ensures Phased(at, x.(channel := x.channel + [event]))
  {
  }

  lemma LostKeeps(s: Net, at: At, queued: bool)
    requires Inv(s) && Lost(s, at, queued).Some?
    ensures Inv(Lost(s, at, queued).value)
  {
    hide Fifo, Phased, Events, Coming, TryClose;
    var e := EndOf(s, at);
    var id := e.routing.id;
    var x := SideOf(e, id);
    var s' := With(s, at, Put(e, id, x.(registered := false)).(routing := NotRouting));
    assert Good(s, at, id);
    DroppedPhased(at, x);
    forall j: StreamId | j > s.opens || j == 0 ensures Look(s', Client, j) == UNUSED {
      assert Look(s, Client, j) == UNUSED;
    }
    forall at', id' ensures Good(s', at', id') {
      assert Good(s, at', id');
    }
    CloseKeeps(s', at, id, queued);
  }

  lemma DroppedPhased(at: At, x: Side)
    requires Phased(at, x)
    ensures Phased(at, x.(registered := false)) && Phased(at, x.(registered := false, pending := false))
  {
  }

  /** The loop takes the front frame, the stream's side becomes `x`. */
  function Popped(s: Net, at: At, id: StreamId, x: Side, routing: Routing): Net
    requires EndOf(s, at).inbox.frames != []
  {
    var e := EndOf(s, at);
    With(s, at, Put(e, id, x).(inbox := e.inbox.(frames := e.inbox.frames[1..]), routing := routing))
  }

  /** What the front frame says on its stream. */
  function Words(f: MuxFrame): seq<Said> {
    if SaidBy(f).Some? then [SaidBy(f).value] else []
  }

  lemma ComingFirst(frames: seq<MuxFrame>, id: StreamId)
    requires frames != []
    ensures Coming(frames, id) == (if frames[0].id == id then Words(frames[0]) else []) + Coming(frames[1..], id)
  {
  }

  lemma FifoPops(said: seq<Said>, heard: seq<Said>, words: seq<Said>, coming: seq<Said>, cut: bool)
    requires Fifo(said, heard, words + coming, cut)
    ensures Fifo(said, heard + words, coming, cut)
  {
    assert (heard + words) + coming == heard + (words + coming);
  }

  lemma PoppedKeeps(s: Net, at: At, id: StreamId, x: Side, routing: Routing)
    requires Inv(s) && EndOf(s, at).inbox.frames != [] && EndOf(s, at).routing.NotRouting? && EndOf(s, at).loop.Running?
    requires EndOf(s, at).inbox.frames[0].id == id
    requires x.said == Look(s, at, id).said && x.heard == Look(s, at, id).heard + Words(EndOf(s, at).inbox.frames[0])
    requires Phased(at, x) && (at.Client? ==> x == Look(s, at, id) || Look(s, at, id) != UNUSED)
    requires Ordered(EndOf(Popped(s, at, id, x, routing), at), id)
    requires routing.Routing? ==> routing.id == id
    ensures Inv(Popped(s, at, id, x, routing))
  {
    hide Fifo, Phased, Events, Coming, Words;
    var s' := Popped(s, at, id, x, routing);
    var frames := EndOf(s, at).inbox.frames;
    forall j: StreamId | j > s.opens || j == 0 ensures Look(s', Client, j) == UNUSED {
      assert Look(s, Client, j) == UNUSED;
    }
    forall at', id' ensures Good(s', at', id') {
      assert Good(s, at', id');
      if at' == at {
        ComingFirst(frames, id');
        if id' == id {
          FifoPops(Look(s, at.Peer(), id).said, Look(s, at, id).heard, Words(frames[0]), Coming(frames[1..], id), EndOf(s, at).inbox.cut);
        } else {
          assert [] + Coming(frames[1..], id') == Coming(frames[1..], id');
        }
      }
    }
  }

  /** The place of the word at the front in what the peer said. */
  lemma NextWord(s: Net, at: At, f: MuxFrame)
    requires Inv(s) && EndOf(s, at).inbox.frames != [] && f == EndOf(s, at).inbox.frames[0]
    requires SaidBy(f).Some?
    ensures var x, y, word := Look(s, at, f.id), Look(s, at.Peer(), f.id), SaidBy(f).value;
      && |x.heard| < |y.said| && word == y.said[|x.heard|]
      && (x.heard == [] <==> !word.Event?)
      && (x.heard == [] ==> if at.Client? then word.Verdict? else word == Opens)
  {
    hide Coming, Events;
    var frames := EndOf(s, at).inbox.frames;
    assert Good(s, at, f.id) && Good(s, at.Peer(), f.id);
    ComingFirst(frames, f.id);
    var x, y := Look(s, at, f.id), Look(s, at.Peer(), f.id);
    assert Coming(frames, f.id)[0] == SaidBy(f).value;
    assert (x.heard + Coming(frames, f.id))[|x.heard|] == SaidBy(f).value;
  }

  /** The client has asked on every stream the server says something on. */
  lemma AskedFirst(s: Net, id: StreamId)
    requires Inv(s) && Look(s, Server, id).said != []
    ensures Look(s, Client, id) != UNUSED
  {
    hide Coming, Events;
    assert Good(s, Client, id) && Good(s, Server, id);
  }

  lemma HearEvent(s: Net, at: At, f: MuxFrame, accept: bool, queued: bool)
    requires Inv(s) && EndOf(s, at).inbox.frames != [] && f == EndOf(s, at).inbox.frames[0] && EndOf(s, at).routing.NotRouting? && EndOf(s, at).loop.Running?
    requires SaidBy(f).Some? && SaidBy(f).value.Event?
    ensures Inv(Heard(s, at, accept, queued))
  {
    hide Coming, Events, Fifo, TryClose;
    var x, word := Look(s, at, f.id), SaidBy(f).value;
    NextWord(s, at, f);
    assert Good(s, at, f.id);
    EventsGrow(x.heard, word);
    var x' := x.(heard := x.heard + [word]);
    assert x.got + x.channel + [] == x.got + x.channel;
    var routing := if x.registered then Routing(f.id, word.event) else NotRouting;
    PoppedKeeps(s, at, f.id, x', routing);
    if !x.registered {
      CloseKeeps(Popped(s, at, f.id, x', NotRouting), at, f.id, queued);
    }
  }

  lemma HearOpen(s: Net, at: At, f: MuxFrame, accept: bool, queued: bool)
    requires Inv(s) && EndOf(s, at).inbox.frames != [] && f == EndOf(s, at).inbox.frames[0] && EndOf(s, at).routing.NotRouting? && EndOf(s, at).loop.Running?
    requires SaidBy(f) == Some(Opens)
    ensures Inv(Heard(s, at, accept, queued))
  {
    hide Coming, Events, Fifo, TryClose;
    var x := Look(s, at, f.id);
    NextWord(s, at, f);
    assert Good(s, at, f.id) && x == UNUSED;
    EventsGrow([], Opens);
    assert [] + [Opens] == [Opens];
    var x' := x.(heard := x.heard + [Opens]);
    if accept {
      PoppedKeeps(s, at, f.id, x'.(phase := Preparing, registered := true, listening := true), NotRouting);
    } else {
      PoppedKeeps(s, at, f.id, x'.(phase := Gone), NotRouting);
      CloseKeeps(Popped(s, at, f.id, x'.(phase := Gone), NotRouting), at, f.id, queued);
    }
  }

  lemma HearVerdict(s: Net, at: At, f: MuxFrame, accept: bool, queued: bool)
    requires Inv(s) && EndOf(s, at).inbox.frames != [] && f == EndOf(s, at).inbox.frames[0] && EndOf(s, at).routing.NotRouting? && EndOf(s, at).loop.Running?
    requires SaidBy(f).Some? && SaidBy(f).value.Verdict?
    ensures Inv(Heard(s, at, accept, queued))
  {
    hide Coming, Events, Fifo;
    var x, word := Look(s, at, f.id), SaidBy(f).value;
    NextWord(s, at, f);
    assert Good(s, at, f.id) && at.Client?;
    AskedFirst(s, f.id);
    EventsGrow([], word);
    assert [] + [word] == [word];
    var x' := x.(heard := x.heard + [word]);
    PoppedKeeps(s, at, f.id, if x.pending then x'.(pending := false, verdict := Some(word.ok)) else x', NotRouting);
  }

  lemma HearClose(s: Net, at: At, f: MuxFrame, accept: bool, queued: bool)
    requires Inv(s) && EndOf(s, at).inbox.frames != [] && f == EndOf(s, at).inbox.frames[0] && EndOf(s, at).routing.NotRouting? && EndOf(s, at).loop.Running?
    requires SaidBy(f).None?
    ensures Inv(Heard(s, at, accept, queued))
  {
    hide Coming, Events, Fifo;
    var x := Look(s, at, f.id);
    assert Good(s, at, f.id);
    assert x.heard + [] == x.heard;
    DroppedPhased(at, x);
    PoppedKeeps(s, at, f.id, x.(registered := false), NotRouting);
  }

  lemma HearKeeps(s: Net, at: At, accept: bool, queued: bool)
    requires Inv(s) && EndOf(s, at).inbox.frames != [] && EndOf(s, at).routing.NotRouting? && EndOf(s, at).loop.Running?
    ensures Inv(Heard(s, at, accept, queued))
  {
    hide Inv, Heard;
    var f := EndOf(s, at).inbox.frames[0];
    match SaidBy(f)
    case None => HearClose(s, at, f, accept, queued);
    case Some(Event(_)) => HearEvent(s, at, f, accept, queued);
    case Some(Opens) => HearOpen(s, at, f, accept, queued);
    case Some(Verdict(_)) => HearVerdict(s, at, f, accept, queued);
  }

  // ----- the end of a tunnel

  /** Loops that stop, entries that go, a routed event that is dropped with its loop: nothing is reordered. */
  lemma DeathKeeps(s: Net, at: At, e: End)
    requires Inv(s) && EndOf(s, at).inbox == e.inbox && (EndOf(s, at).loop.Killed? ==> e.loop.Killed?)
    requires e.sides == EndOf(s, at).sides || (at.Client? && e.sides == MarkedDead(EndOf(s, at)).sides)
    requires e.routing == EndOf(s, at).routing || (e.routing == NotRouting && e.loop.Killed?)
    ensures Inv(With(s, at, e))
  {
    hide Phased, Events, Fifo, Coming;
    var s' := With(s, at, e);
    forall j: StreamId | j > s.opens || j == 0 ensures Look(s', Client, j) == UNUSED {
      assert Look(s, Client, j) == UNUSED;
    }
    forall at', id' ensures Good(s', at', id') {
      assert Good(s, at', id');
      DroppedPhased(at', Look(s, at', id'));
    }
  }

  lemma CutKeeps(s: Net, at: At, n: nat)
    requires Inv(s)
    ensures Inv(Do(s, Cut(at, n)).value)
  {
    hide Phased, Events, Coming;
    var s' := Do(s, Cut(at, n)).value;
    var frames := EndOf(s, at).inbox.frames;
    forall j: StreamId | j > s.opens || j == 0 ensures Look(s', Client, j) == UNUSED {
      assert Look(s, Client, j) == UNUSED;
    }
    forall at', id' ensures Good(s', at', id') {
      assert Good(s, at', id');
      ComingFront(frames, if n < |frames| then n else |frames|, id');
    }
  }

  // ----- every step, every run

  lemma AllocateKeeps(s: Net)
    requires Inv(s) && Do(s, Allocate).Some?
    ensures Inv(Allocated(s))
  {
    hide Events, Coming, Phased, Fifo;
    var s', id := Allocated(s), NextId(s);
    assert Look(s, Client, id) == UNUSED;
    NumberedPhased();
    forall j: StreamId | j > s'.opens || j == 0 ensures Look(s', Client, j) == UNUSED {
      assert Look(s, Client, j) == UNUSED;
    }
    forall at', id' ensures Good(s', at', id') {
      assert Good(s, at', id');
    }
  }

  lemma NumberedPhased()
    ensures Phased(Client, UNUSED.(phase := Numbered))
  {
  }

  lemma EventsNothing()
    ensures Events([]) == []
  {
  }

  /** The registry entry comes before anything was said on the stream at either end. */
  lemma NothingHeard(s: Net, id: StreamId)
    requires Inv(s) && Look(s, Client, id).said == []
    ensures Look(s, Client, id).heard == []
  {
    hide Events, Coming, Ordered;
    assert Good(s, Client, id) && Good(s, Server, id);
  }

  lemma ClientStep(s: Net, a: Action)
    requires Inv(s) && (a.AddPending? || a.AddEntry? || a.Ask? || a.AskFails? || a.Succeed? || a.GiveUp?) && Do(s, a).Some?
    ensures Inv(Do(s, a).value)
  {
    hide Events, Coming, Fifo, Ordered, TryClose;
    assert Good(s, Client, a.id);
    var c := Look(s, Client, a.id);
    match a
    case AddPending(id) => QuietChange(s, Client, id, c.(phase := Awaited, pending := true));
    case AddEntry(id) =>
      NothingHeard(s, id);
      QuietChange(s, Client, id, c.(phase := Preparing, registered := true, listening := true));
    case Ask(id) => SayKeeps(s, Client, id, c.(phase := Asked), Opens);
    case AskFails(id) => QuietChange(s, Client, id, Unregistered(c));
    case Succeed(id) =>
      QuietChange(s, Client, id, c.(phase := Live, sending := true));
    case GiveUp(id, queued) =>
      QuietChange(s, Client, id, Unregistered(c));
      CloseKeeps(Change(s, Client, id, Unregistered(c)), Client, id, queued);
  }

  lemma ServerStep(s: Net, a: Action)
    requires Inv(s) && (a.Connected? || a.Refuse? || a.ReplyFails?) && Do(s, a).Some?
    ensures Inv(Do(s, a).value)
  {
    hide Events, Coming, Fifo, Ordered;
    assert Good(s, Server, a.id);
    var v := Look(s, Server, a.id);
    match a
    case Connected(id) => SayKeeps(s, Server, id, v.(phase := Live, sending := true), Verdict(true));
    case Refuse(id) => SayKeeps(s, Server, id, Unregistered(v), Verdict(false));
    case ReplyFails(id) => QuietChange(s, Server, id, Unregistered(v));
  }

  lemma SendingStep(s: Net, a: Action)
    requires Inv(s) && (a.Pump? || a.PumpEof? || a.PumpStops?) && Do(s, a).Some?
    ensures Inv(Do(s, a).value)
  {
    hide Events, Coming, Fifo, Ordered, TryClose;
    assert Good(s, a.at, a.id);
    var x := Look(s, a.at, a.id);
    match a
    case Pump(at, id, data) => SayKeeps(s, at, id, x, Event(Chunk(data)));
    case PumpEof(at, id) => SayKeeps(s, at, id, x.(sending := false), Event(Finish));
    case PumpStops(at, id, queued) =>
      QuietChange(s, at, id, x.(sending := false));
      CloseKeeps(Change(s, at, id, x.(sending := false)), at, id, queued);
  }

  lemma TakenQuietly(at: At, x: Side)
    requires Phased(at, x) && x.phase.Live? && x.channel != []
    ensures Taken(x).got + Taken(x).channel == x.got + x.channel && Phased(at, Taken(x))
    ensures Taken(x).said == x.said && Taken(x).heard == x.heard && Taken(x).registered == x.registered
  {
    assert x.channel == [x.channel[0]] + x.channel[1..];
  }

  lemma TakingStep(s: Net, a: Action)
    requires Inv(s) && (a.Take? || a.TakeStops? || a.Finished?) && Do(s, a).Some?
    ensures Inv(Do(s, a).value)
  {
    hide Events, Coming, Fifo, Ordered, TryClose, Taken;
    assert Good(s, a.at, a.id);
    var x := Look(s, a.at, a.id);
    match a
    case Take(at, id) =>
      TakenQuietly(at, x);
      QuietChange(s, at, id, Taken(x));
    case TakeStops(at, id, queued) =>
      QuietChange(s, at, id, x.(listening := false));
      CloseKeeps(Change(s, at, id, x.(listening := false)), at, id, queued);
    case Finished(at, id, queued) =>
      QuietChange(s, at, id, Unregistered(x));
      CloseKeeps(Change(s, at, id, Unregistered(x)), at, id, at.Client? && queued);
  }

  lemma StepKeeps(s: Net, a: Action)
    requires Inv(s) && Do(s, a).Some?
    ensures Inv(Do(s, a).value)
  {
    hide Inv, Heard, Delivered, Lost, Allocated, Change, Say, TryClose, Unregistered, Taken;
    match a
    case Allocate => AllocateKeeps(s);
    case AddPending(_) => ClientStep(s, a);
    case AddEntry(_) => ClientStep(s, a);
    case Ask(_) => ClientStep(s, a);
    case AskFails(_) => ClientStep(s, a);
    case Succeed(_) => ClientStep(s, a);
    case GiveUp(_, _) => ClientStep(s, a);
    case Hear(at, accept, queued) => HearKeeps(s, at, accept, queued);
    case Deliver(at) => DeliverKeeps(s, at);
    case Lose(at, queued) => LostKeeps(s, at, queued);
    case Connected(_) => ServerStep(s, a);
    case Refuse(_) => ServerStep(s, a);
    case ReplyFails(_) => ServerStep(s, a);
    case Pump(_, _, _) => SendingStep(s, a);
    case PumpEof(_, _) => SendingStep(s, a);
    case PumpStops(_, _, _) => SendingStep(s, a);
    case Take(_, _) => TakingStep(s, a);
    case TakeStops(_, _, _) => TakingStep(s, a);
    case Finished(_, _, _) => TakingStep(s, a);
    case MarkDead => DeathKeeps(s, Client, MarkedDead(s.client));
    case Kill => DeathKeeps(s, Client, MarkedDead(s.client).(loop := Killed, routing := NotRouting));
    case Stop(at) => DeathKeeps(s, at, (if at.Client? then MarkedDead(s.client) else s.server).(loop := Stopped));
    case Cut(at, n) => CutKeeps(s, at, n);
  }

  lemma {:induction false} RunKeeps(s: Net, actions: seq<Action>)
    requires Inv(s) && Run(s, actions).Some?
    ensures Inv(Run(s, actions).value)
    decreases |actions|
  {
    hide Inv, Do;
    if actions != [] {
      StepKeeps(s, actions[0]);
      RunKeeps(Do(s, actions[0]).value, actions[1..]);
    }
  }

  ghost predicate Reachable(s: Net) {
    exists actions :: Run(START, actions) == Some(s)
  }

  lemma ReachableInv(s: Net)
    requires Reachable(s)
    ensures Inv(s)
  {
    hide Do;
    EventsNothing();
    var actions :| Run(START, actions) == Some(s);
    assert Inv(START);
    RunKeeps(START, actions);
  }

  // ----- what a stream guarantees

  lemma {:induction false} EventsFront(a: seq<Said>, b: seq<Said>)
    requires a <= b
    ensures Events(a) <= Events(b)
  {
    EventsAppend(a, b[|a|..]);
    assert b == a + b[|a|..];
  }

  /**
   Stream safety, in every run and at both ends: what a pump receives on a stream is a front part of
   what the other end's pump sent on the same stream id, in order and with nothing left out between.
   This holds under batching, stalls, closes, refusals and the death of the tunnel.
   */
  lemma ReceivedIsPrefix(s: Net, at: At, id: StreamId)
    requires Reachable(s)
    ensures Look(s, at, id).got <= Events(Look(s, at.Peer(), id).said)
  {
    hide Do, Run, Events, Coming;
    ReachableInv(s);
    assert Good(s, at, id);
    var x := Look(s, at, id);
    EventsFront(x.heard, Look(s, at.Peer(), id).said);
  }

  lemma {:induction false} EventsAtMost(said: seq<Said>)
    ensures |Events(said)| <= |said|
    decreases |said|
  {
    if said != [] {
      EventsAtMost(said[1..]);
    }
  }

  lemma {:induction false} ProperEvents(said: seq<Said>, i: nat)
    requires forall k :: 0 <= k < |said| ==> said[k].Event?
    requires forall k :: 0 <= k < |said| - 1 ==> said[k].event.Chunk?
    requires i < |Events(said)| - 1
    ensures Events(said)[i].Chunk?
    decreases |said|
  {
    if i > 0 {
      ProperEvents(said[1..], i - 1);
    } else {
      EventsAtMost(said);
    }
  }

  /** No data follows an end of file, and there is at most one. */
  lemma FinishIsLast(s: Net, at: At, id: StreamId, i: nat)
    requires Reachable(s) && i < |Look(s, at, id).got| && Look(s, at, id).got[i] == Finish
    ensures i == |Look(s, at, id).got| - 1
  {
    hide Do, Run, Coming;
    ReachableInv(s);
    ReceivedIsPrefix(s, at, id);
    assert Good(s, at.Peer(), id);
    var said := Look(s, at.Peer(), id).said;
    assert said != [] by { EventsNothing(); }
    assert Events(said) == Events(said[1..]);
    if i < |Look(s, at, id).got| - 1 {
      ProperEvents(said[1..], i);
    }
  }

  /** The client hears the positive reply of a stream before any event of it. */
  lemma ReplyComesFirst(s: Net, id: StreamId)
    requires Reachable(s)
    ensures var c := Look(s, Client, id);
      Handed(s.client, id) != [] || c.phase.Live? ==> c.heard != [] && c.heard[0] == Verdict(true)
  {
    hide Do, Run, Coming;
    ReachableInv(s);
    assert Good(s, Client, id) && Good(s, Server, id);
    var c := Look(s, Client, id);
    EventsNothing();
    if Handed(s.client, id) != [] {
      var said := Look(s, Server, id).said;
      assert c.heard <= said;
      EventsGrow([], Verdict(false));
      assert [] + [Verdict(false)] == [Verdict(false)];
      assert c.heard != [Verdict(false)];
    }
  }

  /** While the entry stands and the tunnel lives, everything sent is received, in a channel, or on its way. */
  lemma NothingLost(s: Net, at: At, id: StreamId)
    requires Reachable(s) && Look(s, at, id).registered && !EndOf(s, at).inbox.cut && !EndOf(s, at).loop.Killed?
    ensures Handed(EndOf(s, at), id) + Events(Coming(EndOf(s, at).inbox.frames, id)) == Events(Look(s, at.Peer(), id).said)
  {
    hide Do, Run, Events, Coming;
    ReachableInv(s);
    assert Good(s, at, id);
    EventsAppend(Look(s, at, id).heard, Coming(EndOf(s, at).inbox.frames, id));
  }

  /** No role is violated and no id is opened twice: the loops stop only for the carrier's sake. */
  lemma NoViolation(s: Net, at: At, accept: bool, queued: bool)
    requires Reachable(s) && Do(s, Hear(at, accept, queued)).Some?
    ensures EndOf(Do(s, Hear(at, accept, queued)).value, at).loop.Running?
  {
    hide Run, Coming, Events;
    ReachableInv(s);
    var f := EndOf(s, at).inbox.frames[0];
    if SaidBy(f).Some? {
      NextWord(s, at, f);
    }
  }

  // ----- the verdict is the truth

  /** The first word the server said on a stream. */
  function FirstWord(s: Net, id: StreamId): Option<Said> {
    var said := Look(s, Server, id).said;
    if said == [] then None else Some(said[0])
  }

  /** What a step makes of it. */
  function FirstWordAfter(s: Net, a: Action, id: StreamId): Option<Said> {
    if a == Connected(id) then Some(Verdict(true)) else if a == Refuse(id) then Some(Verdict(false)) else FirstWord(s, id)
  }

  lemma VerdictStep(s: Net, a: Action, id: StreamId)
    requires Inv(s) && (a.Connected? || a.Refuse? || a.ReplyFails?) && Do(s, a).Some?
    ensures FirstWord(Do(s, a).value, id) == FirstWordAfter(s, a, id)
    ensures a == Connected(id) || a == Refuse(id) ==> FirstWord(s, id) == None
  {
    assert Good(s, Server, id);
  }

  /** Closing queues a frame and changes no side. */
  lemma CloseSides(s: Net, at: At, id: StreamId, queued: bool)
    ensures var t := TryClose(s, at, id, queued);
      t.client.sides == s.client.sides && t.server.sides == s.server.sides
  {
  }

  /** Saying more leaves the first word. */
  lemma SayWords(s: Net, at: At, to: StreamId, x: Side, word: Said, id: StreamId)
    requires x.said == Look(s, at, to).said && (at.Server? ==> x.said != [])
    ensures FirstWord(Say(s, at, to, x, word), id) == FirstWord(s, id)
  {
    hide Pushed, FrameOf;
  }

  lemma LiveSaid(s: Net, at: At, id: StreamId)
    requires Inv(s) && Look(s, at, id).phase.Live?
    ensures Look(s, at, id).said != []
  {
    assert Good(s, at, id);
  }

  lemma PumpWords(s: Net, a: Action, id: StreamId)
    requires Inv(s) && (a.Pump? || a.PumpEof?) && Do(s, a).Some?
    ensures FirstWord(Do(s, a).value, id) == FirstWord(s, id)
  {
    hide Inv, Say, FirstWord;
    var x := Look(s, a.at, a.id);
    LiveSaid(s, a.at, a.id);
    if a.Pump? {
      SayWords(s, a.at, a.id, x, Event(Chunk(a.data)), id);
    } else {
      SayWords(s, a.at, a.id, x.(sending := false), Event(Finish), id);
    }
  }

  lemma QuietWords(s: Net, a: Action, id: StreamId)
    requires (a.PumpStops? || a.Take? || a.TakeStops? || a.Finished?) && Do(s, a).Some?
    ensures FirstWord(Do(s, a).value, id) == FirstWord(s, id)
  {
    hide TryClose;
    var x := Look(s, a.at, a.id);
    if a.PumpStops? {
      CloseSides(Change(s, a.at, a.id, x.(sending := false)), a.at, a.id, a.queued);
    } else if a.TakeStops? {
      CloseSides(Change(s, a.at, a.id, x.(listening := false)), a.at, a.id, a.queued);
    } else if a.Finished? {
      CloseSides(Change(s, a.at, a.id, Unregistered(x)), a.at, a.id, a.at.Client? && a.queued);
    }
  }

  lemma HearWords(s: Net, at: At, accept: bool, queued: bool, id: StreamId)
    requires EndOf(s, at).inbox.frames != []
    ensures FirstWord(Heard(s, at, accept, queued), id) == FirstWord(s, id)
  {
    hide Pushed, SaidBy, FirstWord;
    HearSays(s, at, accept, queued, id);
    SameWord(s, Heard(s, at, accept, queued), id);
  }

  lemma SameWord(s: Net, t: Net, id: StreamId)
    requires Look(s, Server, id).said == Look(t, Server, id).said
    ensures FirstWord(s, id) == FirstWord(t, id)
  {
  }

  lemma HearSays(s: Net, at: At, accept: bool, queued: bool, id: StreamId)
    requires EndOf(s, at).inbox.frames != []
    ensures Look(Heard(s, at, accept, queued), Server, id).said == Look(s, Server, id).said
  {
    if at.Client? {
      hide Heard;
      HeardElsewhere(s, accept, queued);
    } else {
      ServerHearSays(s, accept, queued, id);
    }
  }

  lemma ServerHearSays(s: Net, accept: bool, queued: bool, id: StreamId)
    requires s.server.inbox.frames != []
    ensures Look(Heard(s, Server, accept, queued), Server, id).said == Look(s, Server, id).said
  {
    hide HeardSaid, SaidBy;
    var f, rest := s.server.inbox.frames[0], s.server.inbox.frames[1..];
    var s1 := s.(server := s.server.(inbox := s.server.inbox.(frames := rest)));
    var x := Look(s, Server, f.id);
    match SaidBy(f)
    case None =>
    case Some(said) => HeardSaidSays(s1, f.id, x.(heard := x.heard + [said]), said, accept, queued, id);
  }

  lemma HeardSaidSays(s: Net, at: StreamId, x: Side, said: Said, accept: bool, queued: bool, id: StreamId)
    requires x.said == Look(s, Server, at).said
    ensures Look(HeardSaid(s, Server, at, x, said, accept, queued), Server, id).said == Look(s, Server, id).said
  {
    hide Pushed;
  }

  lemma RouteWords(s: Net, a: Action, id: StreamId)
    requires (a.Deliver? || a.Lose?) && Do(s, a).Some?
    ensures FirstWord(Do(s, a).value, id) == FirstWord(s, id)
  {
  }

  lemma FirstWordStep(s: Net, a: Action, id: StreamId)
    requires Inv(s) && Do(s, a).Some?
    ensures FirstWord(Do(s, a).value, id) == FirstWordAfter(s, a, id)
    ensures a == Connected(id) || a == Refuse(id) ==> FirstWord(s, id) == None
  {
    hide Inv;
    if a.Connected? || a.Refuse? || a.ReplyFails? {
      VerdictStep(s, a, id);
    } else if a.Hear? {
      hide Heard;
      HearWords(s, a.at, a.accept, a.queued, id);
    } else if a.Deliver? || a.Lose? {
      RouteWords(s, a, id);
    } else if a.Pump? || a.PumpEof? {
      PumpWords(s, a, id);
    } else if a.PumpStops? || a.Take? || a.TakeStops? || a.Finished? {
      QuietWords(s, a, id);
    }
  }

  lemma {:induction false} FirstWordRun(s: Net, actions: seq<Action>, id: StreamId)
    requires Inv(s) && Run(s, actions).Some?
    ensures var word := FirstWord(Run(s, actions).value, id);
      && (word == Some(Verdict(true)) <==> FirstWord(s, id) == Some(Verdict(true)) || Connected(id) in actions)
      && (word == Some(Verdict(false)) <==> FirstWord(s, id) == Some(Verdict(false)) || Refuse(id) in actions)
    decreases |actions|
  {
    hide Inv, Do, FirstWord;
    if actions != [] {
      var a, rest := actions[0], actions[1..];
      assert actions == [a] + rest;
      StepKeeps(s, a);
      FirstWordStep(s, a, id);
      FirstWordRun(Do(s, a).value, rest, id);
    }
  }

  /**
   The verdict on a stream is what happened to its target: positive exactly if it was connected,
   negative exactly if it was refused, in every run.
   */
  lemma VerdictIsTrue(actions: seq<Action>, id: StreamId)
    requires Run(START, actions).Some?
    ensures var said := Look(Run(START, actions).value, Server, id).said;
      && (said != [] && said[0] == Verdict(true) <==> Connected(id) in actions)
      && (said != [] && said[0] == Verdict(false) <==> Refuse(id) in actions)
  {
    hide Do, Run;
    StartInv();
    FirstWordRun(START, actions, id);
  }

  lemma StartInv()
    ensures Inv(START)
  {
    EventsNothing();
  }

  /** A client takes a stream for open only after its target was connected, and never one that was refused. */
  lemma OpenMeansConnected(actions: seq<Action>, id: StreamId)
    requires Run(START, actions).Some?
    ensures var s := Run(START, actions).value;
      && (Look(s, Client, id).phase.Live? || Do(s, Succeed(id)).Some? ==> Connected(id) in actions)
      && (Refuse(id) in actions ==> !Look(s, Client, id).phase.Live? && Do(s, Succeed(id)) == None)
  {
    hide Run, Events, Coming;
    var s := Run(START, actions).value;
    VerdictIsTrue(actions, id);
    assert Reachable(s);
    ReachableInv(s);
    assert Good(s, Client, id);
  }

  // ----- closed streams stay closed

  /** The stream had its entry at this end, or lost the chance. */
  predicate Past(at: At, x: Side) {
    if at.Client? then !x.phase.Idle? && !x.phase.Numbered? && !x.phase.Awaited? else !x.phase.Idle?
  }

  /** A stream without its entry, and with no event on the way to its channel. */
  predicate Closed(s: Net, at: At, id: StreamId) {
    var e := EndOf(s, at);
    Past(at, SideOf(e, id)) && !SideOf(e, id).registered && (e.routing.Routing? ==> e.routing.id != id)
  }

  /** The events a pump has received or can still receive. */
  function Offered(s: Net, at: At, id: StreamId): seq<StreamEvent> { Look(s, at, id).got + Look(s, at, id).channel }

  ghost predicate StaysClosed(s: Net, t: Net, at: At, id: StreamId) {
    Closed(s, at, id) ==> Closed(t, at, id) && Offered(t, at, id) == Offered(s, at, id)
  }

  lemma HearStaysClosed(s: Net, from: At, accept: bool, queued: bool, at: At, id: StreamId)
    requires Inv(s) && EndOf(s, from).inbox.frames != [] && EndOf(s, from).routing.NotRouting?
    ensures StaysClosed(s, Heard(s, from, accept, queued), at, id)
  {
    hide Coming, Events, Pushed, Inv, TryClose;
    var f := EndOf(s, from).inbox.frames[0];
    if SaidBy(f) == Some(Opens) {
      HeardOpenUsed(s, from, f);
      HearOpenClosed(s, accept, queued, at, id);
    } else {
      HearRestClosed(s, from, accept, queued, at, id);
    }
  }

  lemma HearOpenClosed(s: Net, accept: bool, queued: bool, at: At, id: StreamId)
    requires s.server.inbox.frames != [] && SaidBy(s.server.inbox.frames[0]) == Some(Opens) && s.server.routing.NotRouting?
    requires Look(s, Server, s.server.inbox.frames[0].id) == UNUSED
    ensures StaysClosed(s, Heard(s, Server, accept, queued), at, id)
  {
    hide Pushed;
  }

  lemma HearRestClosed(s: Net, from: At, accept: bool, queued: bool, at: At, id: StreamId)
    requires EndOf(s, from).inbox.frames != [] && EndOf(s, from).routing.NotRouting?
    requires SaidBy(EndOf(s, from).inbox.frames[0]) != Some(Opens)
    ensures StaysClosed(s, Heard(s, from, accept, queued), at, id)
  {
    hide StaysClosed, Heard, SaidBy;
    match SaidBy(EndOf(s, from).inbox.frames[0])
    case Some(Event(_)) => HearEventClosed(s, from, accept, queued, at, id);
    case _ => HearWordClosed(s, from, accept, queued, at, id);
  }

  lemma HearEventClosed(s: Net, from: At, accept: bool, queued: bool, at: At, id: StreamId)
    requires EndOf(s, from).inbox.frames != [] && EndOf(s, from).routing.NotRouting?
    requires SaidBy(EndOf(s, from).inbox.frames[0]).Some? && SaidBy(EndOf(s, from).inbox.frames[0]).value.Event?
    ensures StaysClosed(s, Heard(s, from, accept, queued), at, id)
  {
    hide Pushed, SaidBy;
  }

  lemma HearWordClosed(s: Net, from: At, accept: bool, queued: bool, at: At, id: StreamId)
    requires EndOf(s, from).inbox.frames != [] && EndOf(s, from).routing.NotRouting?
    requires SaidBy(EndOf(s, from).inbox.frames[0]).Some? ==> SaidBy(EndOf(s, from).inbox.frames[0]).value.Verdict?
    ensures StaysClosed(s, Heard(s, from, accept, queued), at, id)
  {
    hide Pushed, SaidBy, TryClose;
  }

  /** An OPEN is heard by the server only on an unused stream. */
  lemma HeardOpenUsed(s: Net, at: At, f: MuxFrame)
    requires Inv(s) && EndOf(s, at).inbox.frames != [] && f == EndOf(s, at).inbox.frames[0] && SaidBy(f) == Some(Opens)
    ensures at.Server? && Look(s, at, f.id) == UNUSED
  {
    hide Coming, Events, Fifo;
    NextWord(s, at, f);
    assert Good(s, at, f.id);
  }

  lemma PumpStaysClosed(s: Net, a: Action, at: At, id: StreamId)
    requires (a.Pump? || a.PumpEof? || a.PumpStops? || a.Take? || a.TakeStops? || a.Finished?) && Do(s, a).Some?
    ensures StaysClosed(s, Do(s, a).value, at, id)
  {
    hide StaysClosed;
    if a.Take? {
      TakeStaysClosed(s, a.at, a.id, at, id);
    } else if a.Pump? || a.PumpEof? {
      SayStaysClosed(s, a, at, id);
    } else {
      StopStaysClosed(s, a, at, id);
    }
  }

  lemma TakeStaysClosed(s: Net, from: At, stream: StreamId, at: At, id: StreamId)
    requires Do(s, Take(from, stream)).Some?
    ensures StaysClosed(s, Do(s, Take(from, stream)).value, at, id)
  {
    var x := Look(s, from, stream);
    assert x.got + x.channel == (x.got + [x.channel[0]]) + x.channel[1..];
  }

  lemma SayStaysClosed(s: Net, a: Action, at: At, id: StreamId)
    requires (a.Pump? || a.PumpEof?) && Do(s, a).Some?
    ensures StaysClosed(s, Do(s, a).value, at, id)
  {
    hide Pushed, FrameOf;
  }

  lemma StopStaysClosed(s: Net, a: Action, at: At, id: StreamId)
    requires (a.PumpStops? || a.TakeStops? || a.Finished?) && Do(s, a).Some?
    ensures StaysClosed(s, Do(s, a).value, at, id)
  {
    hide Pushed;
  }

  lemma OpenStaysClosed(s: Net, a: Action, at: At, id: StreamId)
    requires (a.Allocate? || a.AddPending? || a.AddEntry? || a.Ask? || a.AskFails? || a.Succeed? || a.GiveUp?) && Do(s, a).Some?
    requires Inv(s)
    ensures StaysClosed(s, Do(s, a).value, at, id)
  {
    hide Pushed, Inv;
    if a.Allocate? {
      FreshId(s);
    }
  }

  lemma RestStaysClosed(s: Net, a: Action, at: At, id: StreamId)
    requires (a.Deliver? || a.Lose? || a.Connected? || a.Refuse? || a.ReplyFails? || a.MarkDead? || a.Kill? || a.Stop? || a.Cut?) && Do(s, a).Some?
    ensures StaysClosed(s, Do(s, a).value, at, id)
  {
    hide Pushed;
  }

  lemma FreshId(s: Net)
    requires Inv(s) && Do(s, Allocate).Some?
    ensures Look(s, Client, NextId(s)) == UNUSED
  {
  }

  lemma {:induction false} ClosedRun(s: Net, actions: seq<Action>, at: At, id: StreamId)
    requires Inv(s) && Run(s, actions).Some? && Closed(s, at, id)
    ensures Closed(Run(s, actions).value, at, id) && Offered(Run(s, actions).value, at, id) == Offered(s, at, id)
    decreases |actions|
  {
    hide Inv, Do, Closed, Offered;
    if actions != [] {
      StepKeeps(s, actions[0]);
      StepStaysClosed(s, actions[0], at, id);
      ClosedRun(Do(s, actions[0]).value, actions[1..], at, id);
    }
  }

  lemma StepStaysClosed(s: Net, a: Action, at: At, id: StreamId)
    requires Inv(s) && Do(s, a).Some?
    ensures StaysClosed(s, Do(s, a).value, at, id)
  {
    hide Inv, StaysClosed, Heard;
    if a.Hear? {
      HearStaysClosed(s, a.at, a.accept, a.queued, at, id);
    } else if a.Pump? || a.PumpEof? || a.PumpStops? || a.Take? || a.TakeStops? || a.Finished? {
      PumpStaysClosed(s, a, at, id);
    } else if a.Allocate? || a.AddPending? || a.AddEntry? || a.Ask? || a.AskFails? || a.Succeed? || a.GiveUp? {
      OpenStaysClosed(s, a, at, id);
    } else {
      RestStaysClosed(s, a, at, id);
    }
  }

  /**
   A CLOSE ends its stream: the end that hears it drops the entry, and in no run from there does the
   stream get its entry back or its pump another event than those already in the channel.
   */
  lemma CloseIsFinal(s: Net, at: At, accept: bool, queued: bool, actions: seq<Action>)
    requires Reachable(s) && Do(s, Hear(at, accept, queued)).Some? && EndOf(s, at).inbox.frames[0].kind == Close
    requires Run(Do(s, Hear(at, accept, queued)).value, actions).Some?
    ensures var id := EndOf(s, at).inbox.frames[0].id;
      var t := Run(Do(s, Hear(at, accept, queued)).value, actions).value;
      && !Look(Do(s, Hear(at, accept, queued)).value, at, id).registered
      && (Past(at, Look(s, at, id)) ==> !Look(t, at, id).registered && Offered(t, at, id) == Offered(s, at, id))
  {
    hide Run, Inv;
    ReachableInv(s);
    var id, next := EndOf(s, at).inbox.frames[0].id, Do(s, Hear(at, accept, queued)).value;
    StepKeeps(s, Hear(at, accept, queued));
    if Past(at, Look(s, at, id)) {
      ClosedRun(next, actions, at, id);
    }
  }

  /** The steps that close a stream towards the other end, if there is room in the queue: which stream, from where. */
  function Bounces(s: Net, a: Action): Option<(At, StreamId)> {
    match a
    case GiveUp(id, true) => Some((Client, id))
    case Lose(at, true) => if EndOf(s, at).routing.Routing? then Some((at, EndOf(s, at).routing.id)) else None
    case PumpStops(at, id, true) => Some((at, id))
    case TakeStops(at, id, true) => Some((at, id))
    case Finished(Client, id, true) => Some((Client, id))
    case Hear(at, accept, true) =>
      if EndOf(s, at).inbox.frames == [] then None
      else
        var f := EndOf(s, at).inbox.frames[0];
        if (f.kind == Data || f.kind == Eof) && !Look(s, at, f.id).registered then Some((at, f.id))
        else if f.kind == Open && at.Server? && (Look(s, at, f.id).registered || !accept) then Some((at, f.id))
        else None
    case _ => None
  }

  /** A stalled, abandoned, failed, unknown or rejected stream is closed towards the other end too. */
  lemma ClosesTheOther(s: Net, a: Action)
    requires Do(s, a).Some? && !a.Cut? && Bounces(s, a).Some?
    ensures var (at, id) := Bounces(s, a).value;
      EndOf(Do(s, a).value, at.Peer()).inbox == Pushed(EndOf(s, at.Peer()).inbox, Frame(Close, id, []))
  {
  }

  // ----- the server's entries once its demux loop has ended

  /** The steps that take the entry of `id` out of the server's map when no demux loop runs. */
  predicate Removes(s: Net, a: Action, id: StreamId) {
    match a
    case Refuse(i) => i == id
    case ReplyFails(i) => i == id
    case Finished(at, i, _) => at.Server? && i == id
    case Lose(at, _) => at.Server? && s.server.routing.Routing? && s.server.routing.id == id
    case _ => false
  }

  ghost predicate Removed(s: Net, actions: seq<Action>, id: StreamId)
    requires Run(s, actions).Some?
    decreases |actions|
  {
    actions != [] && (Removes(s, actions[0], id) || Removed(Do(s, actions[0]).value, actions[1..], id))
  }

  lemma EntryStep(s: Net, a: Action, id: StreamId)
    requires !s.server.loop.Running? && Do(s, a).Some?
    ensures var t := Do(s, a).value;
      && !t.server.loop.Running?
      && (Look(t, Server, id).registered <==> Look(s, Server, id).registered && !Removes(s, a, id))
  {
    hide Heard, HeardSaid;
    if a.Hear? {
      HeardElsewhere(s, a.accept, a.queued);
    }
  }

  /** The client's loop touches none of the server's entries. */
  lemma HeardElsewhere(s: Net, accept: bool, queued: bool)
    requires s.client.inbox.frames != []
    ensures var t := Heard(s, Client, accept, queued);
      t.server == s.server.(inbox := t.server.inbox)
  {
  }

  /**
   Leaving the demux loop closes no stream: over any run after it, the entry of a stream stands
   exactly if it stood before and the stream's own task, or the loss of an event already being
   routed to it, has not taken it out.
   */
  lemma {:induction false} EntriesOutliveLoop(s: Net, actions: seq<Action>, id: StreamId)
    requires !s.server.loop.Running? && Run(s, actions).Some?
    ensures var t := Run(s, actions).value;
      Look(t, Server, id).registered <==> Look(s, Server, id).registered && !Removed(s, actions, id)
    decreases |actions|
  {
    hide Do, Removes, Look;
    if actions != [] {
      EntryStep(s, actions[0], id);
      EntriesOutliveLoop(Do(s, actions[0]).value, actions[1..], id);
    }
  }

  lemma RunFirst(s: Net, a: Action, t: Net, rest: seq<Action>)
    requires Do(s, a) == Some(t)
    ensures Run(s, [a] + rest) == Run(t, rest)
  {
    assert ([a] + rest)[1..] == rest;
  }

  /** A stream opened from the start and asked for: OPEN is all that is on its way. */
  lemma OpensFirst() returns (s: Net)
    ensures Run(START, [Allocate, AddPending(1), AddEntry(1), Ask(1)]) == Some(s)
    ensures s.server == QUIET.(inbox := Inbox([Frame(Open, 1, [])], false))
  {
    var s1 := Do(START, Allocate).value;
    assert Look(s1, Client, 1).phase == Numbered && s1.server == QUIET;
    var s2 := Do(s1, AddPending(1)).value;
    assert Look(s2, Client, 1).phase == Awaited && s2.server == QUIET;
    var s3 := Do(s2, AddEntry(1)).value;
    assert Look(s3, Client, 1).phase == Preparing && s3.server == QUIET;
    s := Do(s3, Ask(1)).value;
    assert [] + [Frame(Open, 1, [])] == [Frame(Open, 1, [])];
    assert Run(s, []) == Some(s);
    hide Run, Do;
    RunFirst(s3, Ask(1), s, []);
    RunFirst(s2, AddEntry(1), s3, [Ask(1)] + []);
    RunFirst(s1, AddPending(1), s2, [AddEntry(1)] + ([Ask(1)] + []));
    RunFirst(START, Allocate, s1, [AddPending(1)] + ([AddEntry(1)] + ([Ask(1)] + [])));
    assert [Allocate] + ([AddPending(1)] + ([AddEntry(1)] + ([Ask(1)] + [])))
        == [Allocate, AddPending(1), AddEntry(1), Ask(1)];
  }

  lemma Accepts(s: Net) returns (t: Net)
    requires s.server == QUIET.(inbox := Inbox([Frame(Open, 1, [])], false))
    ensures Do(s, Hear(Server, true, false)) == Some(t)
    ensures Look(t, Server, 1).phase.Preparing? && Look(t, Server, 1).registered
    ensures t.server.loop.Running? && t.server.routing.NotRouting?
  {
    t := Do(s, Hear(Server, true, false)).value;
  }

  /** A server accepts the stream, connects it, and its demux loop ends: the live stream keeps its entry. */
  lemma StopsLater(s: Net) returns (t: Net)
    requires s.server == QUIET.(inbox := Inbox([Frame(Open, 1, [])], false))
    ensures Run(s, [Hear(Server, true, false), Connected(1), Stop(Server)]) == Some(t)
    ensures t.server.loop.Stopped? && Look(t, Server, 1).phase.Live? && Look(t, Server, 1).registered
  {
    var s1 := Accepts(s);
    hide Heard;
    var s2 := Do(s1, Connected(1)).value;
    assert Look(s2, Server, 1).phase.Live? && Look(s2, Server, 1).registered;
    assert s2.server.loop.Running? && s2.server.routing.NotRouting?;
    t := Do(s2, Stop(Server)).value;
    assert Run(t, []) == Some(t);
    hide Run, Do;
    RunFirst(s2, Stop(Server), t, []);
    RunFirst(s1, Connected(1), s2, [Stop(Server)] + []);
    RunFirst(s, Hear(Server, true, false), s1, [Connected(1)] + ([Stop(Server)] + []));
    assert [Hear(Server, true, false)] + ([Connected(1)] + ([Stop(Server)] + []))
        == [Hear(Server, true, false), Connected(1), Stop(Server)];
  }

  lemma {:induction false} RunAppends(s: Net, a: seq<Action>, b: seq<Action>)
    requires Run(s, a).Some?
    ensures Run(s, a + b) == Run(Run(s, a).value, b)
    decreases |a|
  {
    hide Do;
    if a == [] {
      assert a + b == b;
    } else {
      assert (a + b)[1..] == a[1..] + b;
      RunAppends(Do(s, a[0]).value, a[1..], b);
    }
  }

  /** A run after which the server's demux loop is over and a live stream still has its entry. */
  lemma EntryOutlivesLoop() returns (actions: seq<Action>, t: Net)
    ensures Run(START, actions) == Some(t)
    ensures !t.server.loop.Running? && Look(t, Server, 1).phase.Live? && Look(t, Server, 1).registered
  {
    hide Run, Do, Look;
    var first, later := [Allocate, AddPending(1), AddEntry(1), Ask(1)], [Hear(Server, true, false), Connected(1), Stop(Server)];
    var s := OpensFirst();
    t := StopsLater(s);
    RunAppends(START, first, later);
    actions := first + later;
  }

  // ----- what words and steps are

  /** The frames of the words, down to their bytes on the wire. */
  lemma WordsOnWire(id: StreamId, data: Bytes)
    ensures FrameOf(id, Opens) == Frame(Open, id, []) && HeaderBytes(Open, id) == [0x00] + Varint(id)
    ensures FrameOf(id, Verdict(true)) == Frame(Reply, id, [0x00]) && HeaderBytes(Reply, id) == [0x01] + Varint(id)
    ensures FrameOf(id, Verdict(false)) == Frame(Reply, id, [0x01])
    ensures FrameOf(id, Event(Chunk(data))) == Frame(Data, id, data) && HeaderBytes(Data, id) == [0x02] + Varint(id)
    ensures FrameOf(id, Event(Finish)) == Frame(Eof, id, []) && HeaderBytes(Eof, id) == [0x03] + Varint(id)
    ensures HeaderBytes(Close, id) == [0x04] + Varint(id)
    ensures KindOf(0) == Some(Open) && KindOf(1) == Some(Reply) && KindOf(2) == Some(Data) && KindOf(3) == Some(Eof)
    ensures forall b: byte :: KindOf(b).Some? ==> b < 5
  {
  }

  /** Local data is queued as one DATA frame and local end of file as EOF; a taken event is the oldest in the channel. */
  lemma PumpsMove(s: Net, at: At, id: StreamId, data: Bytes)
    ensures Do(s, Pump(at, id, data)).Some? ==>
      EndOf(Do(s, Pump(at, id, data)).value, at.Peer()).inbox == Pushed(EndOf(s, at.Peer()).inbox, Frame(Data, id, data))
    ensures Do(s, PumpEof(at, id)).Some? ==>
      EndOf(Do(s, PumpEof(at, id)).value, at.Peer()).inbox == Pushed(EndOf(s, at.Peer()).inbox, Frame(Eof, id, []))
    ensures Do(s, Take(at, id)).Some? <==> Look(s, at, id).phase.Live? && Look(s, at, id).listening && Look(s, at, id).channel != []
    ensures Do(s, Take(at, id)).Some? ==>
      Look(Do(s, Take(at, id)).value, at, id).got == Look(s, at, id).got + Look(s, at, id).channel[..1]
  {
    hide Pushed;
  }
}
