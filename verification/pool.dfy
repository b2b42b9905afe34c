/** The client's tunnels: stream accounting of one tunnel, and how many tunnels the maintainer keeps. */
module Pool {
  import opened Bits
  import opened Mux

  // ----- one tunnel's shared state and the atomic operations on it

  datatype Shared = Shared(alive: bool, pending: set<StreamId>, registry: set<StreamId>, next: u32, streams: u32)

  const NEW_TUNNEL := Shared(true, {}, {}, 0, 0)

  function Numbered(t: Shared): Shared { t.(next := (t.next + 1) % TWO32) }
  function PendingIn(t: Shared, id: StreamId): Shared { t.(pending := t.pending + {id}) }
  function RegistryIn(t: Shared, id: StreamId): Shared { t.(registry := t.registry + {id}) }
  function CountedUp(t: Shared): Shared { t.(streams := (t.streams + 1) % TWO32) }
  function PendingOut(t: Shared, id: StreamId): Shared { t.(pending := t.pending - {id}) }
  function RegistryOut(t: Shared, id: StreamId): Shared { t.(registry := t.registry - {id}) }

  /** The counter wraps below zero. */
  function CountedDown(t: Shared): Shared { t.(streams := (t.streams + TWO32 - 1) % TWO32) }

  class Tunnel {
    var pending: set<StreamId>
    var registry: set<StreamId>
    var nextStream: u32
    var streams: u32
    var alive: bool

    ghost function State(): Shared
      reads this
    {
      Shared(alive, pending, registry, nextStream, streams)
    }

    constructor ()
      ensures State() == NEW_TUNNEL
    {
      pending, registry, nextStream, streams, alive := {}, {}, 0, 0, true;
    }

    /**
     Fails pending opens and live streams; a tunnel already dead is left alone. For the tunnel's tasks
     it is the swap and, the first time, the two clears.
     */
    method MarkDead(ghost s: Sys)
      modifies this
      ensures s.shared == old(State()) ==>
        Run(s, if s.shared.alive then [Kill, KillPending, KillRegistry] else [Kill]) ==
          Some(s.(shared := State(), dying := if s.shared.alive then 3 else s.dying))
      ensures State() == if old(alive) then old(State()).(alive := false, pending := {}, registry := {}) else old(State())
    {
      var was := alive;
      MarkDeadRuns(s);
      alive := false;
      if !was {
        return;
      }
      pending := {};
      registry := {};
    }

    method AllocStream() returns (id: StreamId)
      modifies this`nextStream
      ensures State() == Numbered(old(State())) && id == nextStream
    {
      var was := nextStream;
      nextStream := (nextStream + 1) % TWO32;
      id := (was + 1) % TWO32;
    }

    /**
     The entries of a new stream, before OPEN is sent: as one task of the tunnel runs it, this takes
     the stream to its open, under an id that no task has and without the counter wrapping.
     */
    method Register(ghost s: Sys) returns (id: StreamId)
      modifies this
      ensures State() == CountedUp(RegistryIn(PendingIn(Numbered(old(State())), id), id)) && id == nextStream
      ensures Inv(s) && s.shared == old(State()) && s.opens + 1 < TWO32 ==>
        && id !in s.tasks && streams == old(streams) + 1 && id in pending && id in registry
        && Run(s, Registering(id)) == Some(Move(s, id, Opening, State()).(opens := s.opens + 1))
        && Inv(Move(s, id, Opening, State()).(opens := s.opens + 1))
    {
      id := AllocStream();
      pending := pending + {id};
      registry := registry + {id};
      streams := (streams + 1) % TWO32;
      if Inv(s) && s.shared == old(State()) && s.opens + 1 < TWO32 {
        RegisterRuns(s);
      }
    }

    /**
     Takes out every trace of a stream: as its task runs it, from the start of leaving to the end,
     which frees one slot and leaves both maps as they were before the stream was registered.
     */
    method Unregister(id: StreamId, ghost s: Sys)
      modifies this
      ensures State() == CountedDown(RegistryOut(PendingOut(old(State()), id), id))
      ensures Inv(s) && s.shared == old(State()) && At(s, id) == Some(Leaving) ==>
        && streams == old(streams) - 1 && id !in pending && id !in registry
        && Run(s, Unregistering(id)) == Some(Move(s, id, Left, State()))
        && Inv(Move(s, id, Left, State()))
    {
      pending := pending - {id};
      registry := registry - {id};
      streams := (streams + TWO32 - 1) % TWO32;
      if Inv(s) && s.shared == old(State()) && At(s, id) == Some(Leaving) {
        UnregisterRuns(s, id);
      }
    }
  }

  // ----- all tasks on one tunnel

  /** Where the task of one stream is, between the atomic operations of opening and unregistering. */
  datatype Stage =
    | Numbering | Awaited | Listed                  // number taken, pending entry in, registry entry in
    | Opening                                       // counted; OPEN on its way or its reply awaited
    | Handle                                        // the caller holds a stream
    | Leaving | Unawaited | Unlisted                // unregister begun, pending entry out, registry entry out
    | Left                                          // counted down
    | Cancelled                                     // the open was dropped at an await

  datatype Sys = Sys(shared: Shared, tasks: map<StreamId, Stage>, opens: nat, dying: nat)

  const START := Sys(NEW_TUNNEL, map[], 0, 0)

  datatype Action =
    | Begin                        // alloc_stream
    | Advance(id: StreamId)        // the next operation of opening or unregistering
    | OpenSucceeds(id: StreamId)
    | OpenFails(id: StreamId)      // refused, timed out, queue closed, tunnel dead
    | DropHandle(id: StreamId)
    | Cancel(id: StreamId)
    | ReplyArrives(id: StreamId)   // demux: the waiter is taken out
    | CloseArrives(id: StreamId)   // demux: the channel is taken out
    | Kill                         // mark_dead, its three operations
    | KillPending
    | KillRegistry

  function At(s: Sys, id: StreamId): Option<Stage> { if id in s.tasks then Some(s.tasks[id]) else None }

  function Move(s: Sys, id: StreamId, stage: Stage, shared: Shared): Sys {
    s.(tasks := s.tasks[id := stage], shared := shared)
  }

  function Advanced(s: Sys, id: StreamId): Option<Sys> {
    var t := s.shared;
    match At(s, id)
    case Some(Numbering) => Some(Move(s, id, Awaited, PendingIn(t, id)))
    case Some(Awaited) => Some(Move(s, id, Listed, RegistryIn(t, id)))
    case Some(Listed) => Some(Move(s, id, Opening, CountedUp(t)))
    case Some(Leaving) => Some(Move(s, id, Unawaited, PendingOut(t, id)))
    case Some(Unawaited) => Some(Move(s, id, Unlisted, RegistryOut(t, id)))
    case Some(Unlisted) => Some(Move(s, id, Left, CountedDown(t)))
    case _ => None
  }

  function Do(s: Sys, a: Action): Option<Sys> {
    match a
    case Begin =>
      if s.opens + 1 >= TWO32 then None
      else Some(Move(s, Numbered(s.shared).next, Numbering, Numbered(s.shared)).(opens := s.opens + 1))
    case Advance(id) => Advanced(s, id)
    case OpenSucceeds(id) => if At(s, id) == Some(Opening) then Some(Move(s, id, Handle, s.shared)) else None
    case OpenFails(id) => if At(s, id) == Some(Opening) then Some(Move(s, id, Leaving, s.shared)) else None
    case DropHandle(id) => if At(s, id) == Some(Handle) then Some(Move(s, id, Leaving, s.shared)) else None
    case Cancel(id) => if At(s, id) == Some(Opening) then Some(Move(s, id, Cancelled, s.shared)) else None
    case ReplyArrives(id) => Some(s.(shared := PendingOut(s.shared, id)))
    case CloseArrives(id) => Some(s.(shared := RegistryOut(s.shared, id)))
    case Kill =>
      // `swap` tells the second killer that it comes too late.
      Some(s.(shared := s.shared.(alive := false), dying := if s.shared.alive then 1 else s.dying))
    case KillPending => if s.dying == 1 then Some(s.(shared := s.shared.(pending := {}), dying := 2)) else None
    case KillRegistry => if s.dying == 2 then Some(s.(shared := s.shared.(registry := {}), dying := 3)) else None
  }

  function Run(s: Sys, actions: seq<Action>): Option<Sys>
    decreases |actions|
  {
    if actions == [] then Some(s)
    else
      match Do(s, actions[0])
      case None => None
      case Some(next) => Run(next, actions[1..])
  }

  predicate Counts(stage: Stage) { stage.Opening? || stage.Handle? || stage.Leaving? || stage.Unawaited? || stage.Unlisted? || stage.Cancelled? }

  /** Streams between their count up and their count down. */
  function Counted(s: Sys): set<StreamId> { set id | id in s.tasks && Counts(s.tasks[id]) }

  predicate MayAwait(stage: Stage) { stage in {Awaited, Listed, Opening, Handle, Leaving, Cancelled} }
  predicate MayList(stage: Stage) { stage in {Listed, Opening, Handle, Leaving, Unawaited, Cancelled} }

  ghost predicate Inv(s: Sys) {
    && s.opens < TWO32 && s.shared.next == s.opens
    && (forall id :: id in s.tasks <==> 1 <= id <= s.opens)
    && s.shared.streams == |Counted(s)|
    && (forall id :: id in s.shared.pending ==> id in s.tasks && MayAwait(s.tasks[id]))
    && (forall id :: id in s.shared.registry ==> id in s.tasks && MayList(s.tasks[id]))
  }

  lemma {:induction false} AtMost(ids: set<StreamId>, n: nat)
    requires forall id :: id in ids ==> 1 <= id <= n
    ensures |ids| <= n
  {
    if n == 0 {
      assert ids == {} by { if id :| id in ids { assert false; } }
    } else {
      AtMost(ids - {n}, n - 1);
    }
  }

  function Bit(b: bool): nat { if b then 1 else 0 }

  lemma CountedMoves(s: Sys, id: StreamId, stage: Stage, shared: Shared)
    requires id in s.tasks || !Counts(stage)
    ensures |Counted(Move(s, id, stage, shared))| + Bit(id in s.tasks && Counts(s.tasks[id])) == |Counted(s)| + Bit(Counts(stage))
  {
    var before, after := Counted(s), Counted(Move(s, id, stage, shared));
    assert Counts(stage) ==> after == before + {id};
    assert !Counts(stage) ==> after == before - {id};
  }

  /** A task's next operation, given what it does to the shared state. */
  lemma MoveKeeps(s: Sys, id: StreamId, stage: Stage, shared: Shared)
    requires Inv(s) && id in s.tasks && shared.next == s.shared.next
    requires shared.streams == s.shared.streams + Bit(Counts(stage)) - Bit(Counts(s.tasks[id]))
    requires shared.pending - {id} <= s.shared.pending && (id in shared.pending ==> MayAwait(stage))
    requires shared.registry - {id} <= s.shared.registry && (id in shared.registry ==> MayList(stage))
    ensures Inv(Move(s, id, stage, shared))
  {
    hide Counted, MayAwait, MayList, Counts;
    CountedMoves(s, id, stage, shared);
    var t := Move(s, id, stage, shared);
    forall j | j in t.shared.pending ensures j in t.tasks && MayAwait(t.tasks[j]) {
      assert j != id ==> j in s.shared.pending;
    }
    forall j | j in t.shared.registry ensures j in t.tasks && MayList(t.tasks[j]) {
      assert j != id ==> j in s.shared.registry;
    }
  }

  /** Neither wrap-around happens: the counter goes up below 2^32 and down only above zero. */
  lemma CounterExact(s: Sys, id: StreamId)
    requires Inv(s) && id in s.tasks
    ensures s.tasks[id].Listed? ==> CountedUp(s.shared).streams == s.shared.streams + 1
    ensures s.tasks[id].Unlisted? ==> s.shared.streams > 0 && CountedDown(s.shared).streams == s.shared.streams - 1
  {
    AtMost(Counted(s), s.opens);
    if s.tasks[id].Unlisted? {
      assert id in Counted(s);
    }
    if s.tasks[id].Listed? {
      assert id !in Counted(s) && forall j :: j in Counted(s) + {id} ==> 1 <= j <= s.opens;
      AtMost(Counted(s) + {id}, s.opens);
    }
  }

  lemma AdvanceKeeps(s: Sys, id: StreamId)
    requires Inv(s) && Advanced(s, id).Some?
    ensures Inv(Advanced(s, id).value)
  {
    hide Counted, CountedUp, CountedDown;
    CounterExact(s, id);
    CountedKeepsRest(s.shared);
    var s' := Advanced(s, id).value;
    MoveKeeps(s, id, s'.tasks[id], s'.shared);
  }

  lemma CountedKeepsRest(t: Shared)
    ensures CountedUp(t) == t.(streams := CountedUp(t).streams) && CountedDown(t) == t.(streams := CountedDown(t).streams)
  {
  }

  lemma BeginKeeps(s: Sys)
    requires Inv(s) && Do(s, Begin).Some?
    ensures Inv(Do(s, Begin).value)
  {
    hide Counted;
    var s' := Do(s, Begin).value;
    var moved := Move(s, s.opens + 1, Numbering, Numbered(s.shared));
    CountedMoves(s, s.opens + 1, Numbering, Numbered(s.shared));
    SameTasks(s', moved);
  }

  lemma SameTasks(s: Sys, t: Sys)
    requires s.tasks == t.tasks
    ensures Counted(s) == Counted(t)
  {
  }

  lemma StepKeeps(s: Sys, a: Action)
    requires Inv(s) && Do(s, a).Some?
    ensures Inv(Do(s, a).value)
  {
    hide Counted, Advanced;
    match a
    case Begin => BeginKeeps(s);
    case Advance(id) => AdvanceKeeps(s, id);
    case OpenSucceeds(id) => MoveKeeps(s, id, Handle, s.shared);
    case OpenFails(id) => MoveKeeps(s, id, Leaving, s.shared);
    case DropHandle(id) => MoveKeeps(s, id, Leaving, s.shared);
    case Cancel(id) => MoveKeeps(s, id, Cancelled, s.shared);
    case _ => SameTasks(s, Do(s, a).value);
  }

  lemma {:induction false} RunKeeps(s: Sys, actions: seq<Action>)
    requires Inv(s) && Run(s, actions).Some?
    ensures Inv(Run(s, actions).value)
    decreases |actions|
  {
    hide Inv;
    if actions != [] {
      StepKeeps(s, actions[0]);
      RunKeeps(Do(s, actions[0]).value, actions[1..]);
    }
  }

  ghost predicate Reachable(s: Sys) {
    exists actions :: Run(START, actions) == Some(s)
  }

  lemma ReachableInv(s: Sys)
    requires Reachable(s)
    ensures Inv(s)
  {
    hide Do;
    var actions :| Run(START, actions) == Some(s);
    assert Counted(START) == {};
    RunKeeps(START, actions);
  }

  /** Opens that are counted but have not become a handle, or are being unregistered. */
  function InFlight(s: Sys): set<StreamId> {
    set id | id in s.tasks && s.tasks[id] in {Opening, Leaving, Unawaited, Unlisted}
  }

  function Handles(s: Sys): set<StreamId> { set id | id in s.tasks && s.tasks[id] == Handle }

  function Abandoned(s: Sys): set<StreamId> { set id | id in s.tasks && s.tasks[id] == Cancelled }

  /**
   Stream accounting: in every reachable state the counter is the number of opens in flight plus the
   live handles, exactly as long as no open future has been dropped half-way; each such drop
   leaves it one too high for good.
   */
  lemma StreamsExact(s: Sys)
    requires Reachable(s)
    ensures s.shared.streams == |InFlight(s)| + |Handles(s)| + |Abandoned(s)|
    ensures s.shared.streams == |InFlight(s)| + |Handles(s)| <==> Abandoned(s) == {}
  {
    ReachableInv(s);
    CountedSplits(s);
    hide Counted, InFlight, Handles, Abandoned;
    assert |Abandoned(s)| == 0 <==> Abandoned(s) == {};
  }

  lemma CountedSplits(s: Sys)
    ensures |Counted(s)| == |InFlight(s)| + |Handles(s)| + |Abandoned(s)|
  {
    var a, b, c := InFlight(s), Handles(s), Abandoned(s);
    assert Counted(s) == a + b + c && a !! b && (a + b) !! c;
    Disjoint(a, b);
    Disjoint(a + b, c);
  }

  lemma Disjoint<T>(a: set<T>, b: set<T>)
    requires a !! b
    ensures |a + b| == |a| + |b|
  {
  }

  /** Leaving takes back all that registering put in; only the id stays used. */
  lemma RegistrationUndone(s: Sys)
    requires Inv(s) && s.opens + 1 < TWO32
    ensures var id := Numbered(s.shared).next;
      var registered := CountedUp(RegistryIn(PendingIn(Numbered(s.shared), id), id));
      CountedDown(RegistryOut(PendingOut(registered, id), id)) == Numbered(s.shared)
  {
    var id := Numbered(s.shared).next;
    assert id !in s.tasks;
    assert s.shared.pending + {id} - {id} == s.shared.pending && s.shared.registry + {id} - {id} == s.shared.registry;
    RegisterRuns(s);
  }

  /** Entries belong to tasks that put them in and have not taken them out; a finished stream leaves none. */
  lemma EntriesOwned(s: Sys, id: StreamId)
    requires Reachable(s)
    ensures id in s.shared.pending ==> id in s.tasks && MayAwait(s.tasks[id])
    ensures id in s.shared.registry ==> id in s.tasks && MayList(s.tasks[id])
    ensures id in s.tasks && s.tasks[id] == Unlisted ==> s.shared.streams > 0
    ensures (forall j :: j in s.tasks ==> s.tasks[j] == Left) ==> s.shared == Shared(s.shared.alive, {}, {}, s.shared.next, 0)
  {
    ReachableInv(s);
    if id in s.tasks {
      CounterExact(s, id);
    }
    if forall j :: j in s.tasks ==> s.tasks[j] == Left {
      assert Counted(s) == {};
      assert s.shared.pending == {} && s.shared.registry == {};
    }
  }

  /** A stream is unregistered at most once: a task that has left, or was dropped, takes no further operation. */
  lemma {:induction false} Final(s: Sys, actions: seq<Action>, id: StreamId)
    requires Inv(s) && Run(s, actions).Some? && id in s.tasks && s.tasks[id] in {Left, Cancelled}
    ensures var t := Run(s, actions).value; id in t.tasks && t.tasks[id] == s.tasks[id]
    decreases |actions|
  {
    hide Inv;
    if actions != [] {
      StepKeeps(s, actions[0]);
      StaysFinal(s, actions[0], id);
      Final(Do(s, actions[0]).value, actions[1..], id);
    }
  }

  lemma StaysFinal(s: Sys, a: Action, id: StreamId)
    requires Inv(s) && Do(s, a).Some? && id in s.tasks && s.tasks[id] in {Left, Cancelled}
    ensures var t := Do(s, a).value; id in t.tasks && t.tasks[id] == s.tasks[id]
  {
  }

  /** A dead tunnel never becomes alive, whatever its tasks do. */
  lemma {:induction false} StaysDead(s: Sys, actions: seq<Action>)
    requires !s.shared.alive && Run(s, actions).Some?
    ensures !Run(s, actions).value.shared.alive
    decreases |actions|
  {
    hide Do;
    if actions != [] {
      DeadStep(s, actions[0]);
      StaysDead(Do(s, actions[0]).value, actions[1..]);
    }
  }

  lemma DeadStep(s: Sys, a: Action)
    requires !s.shared.alive && Do(s, a).Some?
    ensures !Do(s, a).value.shared.alive
  {
  }

  // ----- whole calls as runs of one task

  function Registering(id: StreamId): seq<Action> { [Begin, Advance(id), Advance(id), Advance(id)] }

  function Unregistering(id: StreamId): seq<Action> { [Advance(id), Advance(id), Advance(id)] }

  lemma RunFirst(s: Sys, a: Action, t: Sys, rest: seq<Action>)
    requires Do(s, a) == Some(t)
    ensures Run(s, [a] + rest) == Run(t, rest)
  {
    assert ([a] + rest)[1..] == rest;
  }

  /** Three operations of the same task in a row. */
  lemma ThreeAdvance(s: Sys, id: StreamId, a: Sys, b: Sys, c: Sys)
    requires Advanced(s, id) == Some(a) && Advanced(a, id) == Some(b) && Advanced(b, id) == Some(c)
    ensures Run(s, [Advance(id), Advance(id), Advance(id)]) == Some(c)
  {
    assert Run(c, []) == Some(c);
    hide Run, Advanced;
    RunFirst(b, Advance(id), c, []);
    RunFirst(a, Advance(id), b, [Advance(id)] + []);
    RunFirst(s, Advance(id), a, [Advance(id)] + ([Advance(id)] + []));
    assert [Advance(id)] + ([Advance(id)] + ([Advance(id)] + [])) == [Advance(id), Advance(id), Advance(id)];
  }

  /** A fresh id, and one count up, for a task that registers without interruption. */
  lemma IdIsFresh(s: Sys)
    requires Inv(s) && s.opens + 1 < TWO32
    ensures Numbered(s.shared).next !in s.tasks
  {
  }

  lemma RegisterRuns(s: Sys)
    requires Inv(s) && s.opens + 1 < TWO32
    ensures var id := Numbered(s.shared).next;
      var shared := CountedUp(RegistryIn(PendingIn(Numbered(s.shared), id), id));
      var t := Move(s, id, Opening, shared).(opens := s.opens + 1);
      && id !in s.tasks && shared.streams == s.shared.streams + 1 && id in shared.pending && id in shared.registry
      && Run(s, Registering(id)) == Some(t) && Inv(t)
  {
    hide Inv, Counted;
    IdIsFresh(s);
    var id := Numbered(s.shared).next;
    var a := Do(s, Begin).value;
    var b := Advanced(a, id).value;
    var c := Advanced(b, id).value;
    var t := Advanced(c, id).value;
    ThreeAdvance(a, id, b, c, t);
    RunFirst(s, Begin, a, [Advance(id), Advance(id), Advance(id)]);
    assert [Begin] + [Advance(id), Advance(id), Advance(id)] == Registering(id);
    BeginKeeps(s);
    AdvanceKeeps(a, id);
    AdvanceKeeps(b, id);
    CounterExact(c, id);
    AdvanceKeeps(c, id);
    assert t.tasks == s.tasks[id := Opening];
  }

  /** Marking dead is the swap and, by whoever comes first, the two clears. */
  lemma MarkDeadRuns(s: Sys)
    ensures !s.shared.alive ==> Run(s, [Kill]) == Some(s)
    ensures s.shared.alive ==>
      Run(s, [Kill, KillPending, KillRegistry]) ==
        Some(s.(shared := s.shared.(alive := false, pending := {}, registry := {}), dying := 3))
  {
    var a := Do(s, Kill).value;
    if s.shared.alive {
      var b := Do(a, KillPending).value;
      var c := Do(b, KillRegistry).value;
      assert Run(c, []) == Some(c);
      hide Run;
      RunFirst(b, KillRegistry, c, []);
      RunFirst(a, KillPending, b, [KillRegistry] + []);
      RunFirst(s, Kill, a, [KillPending] + ([KillRegistry] + []));
      assert [Kill] + ([KillPending] + ([KillRegistry] + [])) == [Kill, KillPending, KillRegistry];
    } else {
      assert a == s && Run(s, []) == Some(s);
      RunFirst(s, Kill, s, []);
      assert [Kill] + [] == [Kill];
    }
  }

  lemma UnregisterRuns(s: Sys, id: StreamId)
    requires Inv(s) && At(s, id) == Some(Leaving)
    ensures var shared := CountedDown(RegistryOut(PendingOut(s.shared, id), id));
      && shared.streams == s.shared.streams - 1
      && Run(s, Unregistering(id)) == Some(Move(s, id, Left, shared)) && Inv(Move(s, id, Left, shared))
  {
    var a := Advanced(s, id).value;
    var b := Advanced(a, id).value;
    var t := Advanced(b, id).value;
    ThreeAdvance(s, id, a, b, t);
    AdvanceKeeps(s, id);
    AdvanceKeeps(a, id);
    CounterExact(b, id);
    AdvanceKeeps(b, id);
    assert t.tasks == s.tasks[id := Left];
  }

  // ----- the maintainer

  /** The maintainer's place in a round: idle, live tunnels read, or with dials left to spawn. */
  datatype Round = Resting | LiveRead(live: nat) | Spawning(left: nat)

  /**
   Pooled tunnels that live, dial tasks by what they have still to do, the dial counter; and for
   the record the dials pushed since the live tunnels were read, how many of those finished in that
   window, and the largest such number so far.
   */
  datatype Tunnels = Tunnels(
    size: nat, live: set<nat>, dials: set<nat>, pushed: set<nat>, failed: set<nat>, dialing: int, next: nat,
    round: Round, recent: set<nat>, slipped: nat, most: nat)

  function NoTunnels(size: nat): Tunnels { Tunnels(size, {}, {}, {}, {}, 0, 0, Resting, {}, 0, 0) }

  datatype PoolAction =
    | ReadLive                  // count under the lock, dead tunnels dropped
    | ReadDialing               // the counter, then the shortfall
    | Spawn                     // counter up, one dial task
    | Rest                      // the round's spawns are done
    | Push(id: nat)             // a dial succeeded, its tunnel joins the pool
    | Fail(id: nat)             // a dial failed
    | Undial(id: nat)           // the task's guard counts down
    | Die(id: nat)              // a tunnel dies

  function PoolDo(p: Tunnels, a: PoolAction): Option<Tunnels> {
    match a
    case ReadLive => if p.round.Resting? then Some(p.(round := LiveRead(|p.live|), recent := {}, slipped := 0)) else None
    case ReadDialing =>
      if !p.round.LiveRead? then None
      else
        var short := p.size - (p.round.live + p.dialing);
        Some(p.(round := Spawning(if short > 0 then short else 0), most := if p.slipped > p.most then p.slipped else p.most))
    case Spawn =>
      if !p.round.Spawning? || p.round.left == 0 then None
      else Some(p.(round := Spawning(p.round.left - 1), dials := p.dials + {p.next}, next := p.next + 1, dialing := p.dialing + 1))
    case Rest => if p.round == Spawning(0) then Some(p.(round := Resting)) else None
    case Push(id) =>
      if id !in p.dials then None
      else Some(p.(dials := p.dials - {id}, pushed := p.pushed + {id}, live := p.live + {id}, recent := p.recent + {id}))
    case Fail(id) => if id !in p.dials then None else Some(p.(dials := p.dials - {id}, failed := p.failed + {id}))
    case Undial(id) =>
      if id !in p.pushed && id !in p.failed then None
      else Some(p.(pushed := p.pushed - {id}, failed := p.failed - {id}, dialing := p.dialing - 1,
                   slipped := if id in p.recent then p.slipped + 1 else p.slipped, recent := p.recent - {id}))
    case Die(id) => Some(p.(live := p.live - {id}))
  }

  function PoolRun(p: Tunnels, actions: seq<PoolAction>): Option<Tunnels>
    decreases |actions|
  {
    if actions == [] then Some(p)
    else
      match PoolDo(p, actions[0])
      case None => None
      case Some(next) => PoolRun(next, actions[1..])
  }

  /** Tunnels that live or may still join. */
  function Load(p: Tunnels): nat { |p.live| + |p.dials| }

  ghost predicate Below(ids: set<nat>, n: nat) {
    forall id :: id in ids ==> id < n
  }

  ghost predicate Named(p: Tunnels) {
    && Below(p.live, p.next) && Below(p.dials, p.next) && Below(p.pushed, p.next) && Below(p.failed, p.next)
    && p.live !! p.dials && p.dials !! p.pushed && p.dials !! p.failed && p.pushed !! p.failed
    && p.recent <= p.pushed
  }

  /** The counter is the number of dial tasks whose guard is still held. */
  ghost predicate Tallied(p: Tunnels) { p.dialing == |p.dials| + |p.pushed| + |p.failed| }

  ghost predicate Bounded(p: Tunnels) {
    && (p.round.Spawning? ==> Load(p) + p.round.left <= p.size + p.most || p.round.left == 0)
    && (p.round.LiveRead? ==> |p.live| <= p.round.live + |p.recent| + p.slipped)
    && Load(p) <= p.size + p.most
  }

  lemma PushKeepsSizes(p: Tunnels, id: nat)
    requires Named(p) && id in p.dials
    ensures |p.dials - {id}| == |p.dials| - 1 && |p.pushed + {id}| == |p.pushed| + 1 && |p.failed + {id}| == |p.failed| + 1
    ensures |p.live + {id}| == |p.live| + 1 && |p.recent + {id}| == |p.recent| + 1
  {
    assert id !in p.pushed && id !in p.failed && id !in p.live && id !in p.recent;
  }

  lemma UndialKeepsSizes(p: Tunnels, id: nat)
    requires Named(p) && (id in p.pushed || id in p.failed)
    ensures |p.pushed - {id}| + |p.failed - {id}| == |p.pushed| + |p.failed| - 1
    ensures |p.recent - {id}| == |p.recent| - Bit(id in p.recent)
  {
    assert !(id in p.pushed && id in p.failed);
    assert id in p.pushed ==> |p.pushed - {id}| == |p.pushed| - 1 && p.failed - {id} == p.failed;
    assert id in p.failed ==> |p.failed - {id}| == |p.failed| - 1 && p.pushed - {id} == p.pushed;
    assert id !in p.recent ==> p.recent - {id} == p.recent;
  }

  lemma PoolNamed(p: Tunnels, a: PoolAction)
    requires Named(p) && PoolDo(p, a).Some?
    ensures Named(PoolDo(p, a).value)
  {
  }

  lemma PoolTallied(p: Tunnels, a: PoolAction)
    requires Named(p) && Tallied(p) && PoolDo(p, a).Some?
    ensures Tallied(PoolDo(p, a).value)
  {
    hide Named;
    if a.Push? || a.Fail? {
      DialTallied(p, a, a.id);
    } else if a.Undial? {
      UndialTallied(p, a.id);
    } else if a.Spawn? {
      SpawnKeepsSizes(p);
    }
  }

  lemma DialTallied(p: Tunnels, a: PoolAction, id: nat)
    requires Named(p) && Tallied(p) && (a == Push(id) || a == Fail(id)) && PoolDo(p, a).Some?
    ensures Tallied(PoolDo(p, a).value)
  {
    PushKeepsSizes(p, id);
    hide Named;
  }

  lemma UndialTallied(p: Tunnels, id: nat)
    requires Named(p) && Tallied(p) && PoolDo(p, Undial(id)).Some?
    ensures Tallied(PoolDo(p, Undial(id)).value)
  {
    UndialKeepsSizes(p, id);
    hide Named;
  }

  lemma SpawnKeepsSizes(p: Tunnels)
    requires Named(p)
    ensures |p.dials + {p.next}| == |p.dials| + 1
  {
    assert p.next !in p.dials;
  }

  lemma Subset<T>(a: set<T>, b: set<T>)
    requires a <= b
    ensures |a| <= |b|
  {
    assert b == a + (b - a);
  }

  lemma PoolBounded(p: Tunnels, a: PoolAction)
    requires Named(p) && Tallied(p) && Bounded(p) && PoolDo(p, a).Some?
    ensures Bounded(PoolDo(p, a).value)
  {
    match a
    case Push(id) => TaskBounded(p, a, id);
    case Fail(id) => TaskBounded(p, a, id);
    case Undial(id) => TaskBounded(p, a, id);
    case Spawn => SpawnKeepsSizes(p);
    case Die(id) => Subset(p.live - {id}, p.live);
    case ReadDialing => Subset(p.recent, p.pushed);
    case _ =>
  }

  lemma TaskBounded(p: Tunnels, a: PoolAction, id: nat)
    requires Named(p) && Bounded(p) && PoolDo(p, a).Some? && (a == Push(id) || a == Fail(id) || a == Undial(id))
    ensures Bounded(PoolDo(p, a).value)
  {
    if a.Undial? {
      UndialKeepsSizes(p, id);
    } else {
      PushKeepsSizes(p, id);
    }
  }

  lemma {:induction false} PoolKeeps(p: Tunnels, actions: seq<PoolAction>)
    requires Named(p) && Tallied(p) && Bounded(p) && PoolRun(p, actions).Some?
    ensures var q := PoolRun(p, actions).value; Named(q) && Tallied(q) && Bounded(q)
    ensures PoolRun(p, actions).value.size == p.size
    decreases |actions|
  {
    hide Named, Tallied, Bounded;
    if actions != [] {
      PoolNamed(p, actions[0]);
      PoolTallied(p, actions[0]);
      PoolBounded(p, actions[0]);
      PoolKeeps(PoolDo(p, actions[0]).value, actions[1..]);
    }
  }

  /**
   Pool target: in every interleaving the live tunnels and the dials that may still push one exceed
   the configured size by at most the number of dials that push and finish between the maintainer's
   two reads of one round, and not at all unless the second read of some round slips.
   */
  lemma PoolTarget(size: nat, actions: seq<PoolAction>)
    requires PoolRun(NoTunnels(size), actions).Some?
    ensures var p := PoolRun(NoTunnels(size), actions).value;
      && Load(p) <= size + p.most
      && (NeverSlips(NoTunnels(size), actions) ==> Load(p) <= size)
      && p.dialing == |p.dials| + |p.pushed| + |p.failed|
  {
    hide PoolDo;
    PoolKeeps(NoTunnels(size), actions);
    if NeverSlips(NoTunnels(size), actions) {
      NoSlipNoOvershoot(size, actions);
    }
  }

  lemma PoolRunFirst(p: Tunnels, a: PoolAction, q: Tunnels, rest: seq<PoolAction>)
    requires PoolDo(p, a) == Some(q)
    ensures PoolRun(p, [a] + rest) == PoolRun(q, rest)
  {
    assert ([a] + rest)[1..] == rest;
  }

  /**
   The bound is met: in a full pool at rest, any dial in flight that pushes and finishes between the
   two reads makes the maintainer spawn one more than the pool should hold.
   */
  lemma OvershootHappens(p: Tunnels, id: nat) returns (actions: seq<PoolAction>)
    requires Named(p) && p.round.Resting? && p.most == 0
    requires p.dialing == |p.dials| && Load(p) == p.size && id in p.dials
    ensures PoolRun(p, actions).Some?
    ensures Load(PoolRun(p, actions).value) == p.size + 1 && PoolRun(p, actions).value.most == 1
  {
    var p1 := PoolDo(p, ReadLive).value;
    PushKeepsSizes(p, id);
    var p2 := PoolDo(p1, Push(id)).value;
    var p3 := PoolDo(p2, Undial(id)).value;
    var p4 := PoolDo(p3, ReadDialing).value;
    var p5 := PoolDo(p4, Spawn).value;
    assert |p4.dials + {p4.next}| == |p4.dials| + 1;
    assert PoolRun(p5, []) == Some(p5);
    hide PoolRun, PoolDo;
    PoolRunFirst(p4, Spawn, p5, []);
    PoolRunFirst(p3, ReadDialing, p4, [Spawn] + []);
    PoolRunFirst(p2, Undial(id), p3, [ReadDialing] + ([Spawn] + []));
    PoolRunFirst(p1, Push(id), p2, [Undial(id)] + ([ReadDialing] + ([Spawn] + [])));
    actions := [ReadLive] + ([Push(id)] + ([Undial(id)] + ([ReadDialing] + ([Spawn] + []))));
    PoolRunFirst(p, ReadLive, p1, [Push(id)] + ([Undial(id)] + ([ReadDialing] + ([Spawn] + []))));
  }

  // ----- exactly when a round overshoots

  /**
   What goes wrong between the two reads: the counter leaves a shortfall, and more tunnels live than
   were read and than the dials that are still counted can account for.
   */
  predicate Slips(p: Tunnels) {
    && p.round.LiveRead? && p.round.live + p.dialing < p.size
    && |p.live| > p.round.live + |p.pushed| + |p.failed|
  }

  /** Within the target, the second read makes the round exceed it, once its dials are spawned, exactly if it slips. */
  lemma RoundExact(p: Tunnels)
    requires Tallied(p) && p.round.LiveRead? && Load(p) <= p.size
    ensures var q := PoolDo(p, ReadDialing).value;
      && (q.round.left > 0 <==> p.round.live + p.dialing < p.size)
      && (Load(q) + q.round.left > q.size <==> Slips(p))
  {
  }

  function Spawns(n: nat): seq<PoolAction> { seq(n, _ => Spawn) }

  /** The spawns of a round, one after the other, all add to the load. */
  lemma {:induction false} SpawnAll(p: Tunnels) returns (q: Tunnels)
    requires Named(p) && Tallied(p) && p.round.Spawning?
    ensures PoolRun(p, Spawns(p.round.left)) == Some(q)
    ensures q == p.(round := Spawning(0), dials := q.dials, next := q.next, dialing := q.dialing)
    ensures Named(q) && Tallied(q) && |q.dials| == |p.dials| + p.round.left
    decreases p.round.left
  {
    var n := p.round.left;
    if n == 0 {
      q := p;
    } else {
      var next := PoolDo(p, Spawn).value;
      PoolNamed(p, Spawn);
      PoolTallied(p, Spawn);
      SpawnKeepsSizes(p);
      q := SpawnAll(next);
      PoolRunFirst(p, Spawn, next, Spawns(n - 1));
      assert Spawns(n) == [Spawn] + Spawns(n - 1);
    }
  }

  /** A round that slips does overshoot if it goes on undisturbed. */
  lemma SlipOvershoots(p: Tunnels) returns (q: Tunnels)
    requires Named(p) && Tallied(p) && Slips(p)
    ensures PoolRun(p, [ReadDialing] + Spawns(p.size - (p.round.live + p.dialing))) == Some(q)
    ensures Load(q) > q.size == p.size
  {
    var r := PoolDo(p, ReadDialing).value;
    PoolNamed(p, ReadDialing);
    PoolTallied(p, ReadDialing);
    q := SpawnAll(r);
    PoolRunFirst(p, ReadDialing, r, Spawns(r.round.left));
  }

  /** The second read of no round of the run slips. */
  ghost predicate NeverSlips(p: Tunnels, actions: seq<PoolAction>)
    requires PoolRun(p, actions).Some?
    decreases |actions|
  {
    actions == []
    || (!(actions[0].ReadDialing? && Slips(p)) && NeverSlips(PoolDo(p, actions[0]).value, actions[1..]))
  }

  ghost predicate Within(p: Tunnels) {
    Load(p) <= p.size && (p.round.Spawning? ==> Load(p) + p.round.left <= p.size)
  }

  lemma WithinStep(p: Tunnels, a: PoolAction)
    requires Named(p) && Tallied(p) && Within(p) && PoolDo(p, a).Some? && !(a.ReadDialing? && Slips(p))
    ensures Within(PoolDo(p, a).value)
  {
    if a.Push? || a.Fail? {
      PushKeepsSizes(p, a.id);
    } else if a.Spawn? {
      SpawnKeepsSizes(p);
    } else if a.Die? {
      Subset(p.live - {a.id}, p.live);
    }
  }

  lemma {:induction false} WithinKeeps(p: Tunnels, actions: seq<PoolAction>)
    requires Named(p) && Tallied(p) && Within(p) && PoolRun(p, actions).Some? && NeverSlips(p, actions)
    ensures Within(PoolRun(p, actions).value)
    decreases |actions|
  {
    hide Named, Tallied, Within, Slips;
    if actions != [] {
      PoolNamed(p, actions[0]);
      PoolTallied(p, actions[0]);
      WithinStep(p, actions[0]);
      WithinKeeps(PoolDo(p, actions[0]).value, actions[1..]);
    }
  }

  /** A pool whose rounds never slip never holds more than its size, in every interleaving. */
  lemma NoSlipNoOvershoot(size: nat, actions: seq<PoolAction>)
    requires PoolRun(NoTunnels(size), actions).Some? && NeverSlips(NoTunnels(size), actions)
    ensures Load(PoolRun(NoTunnels(size), actions).value) <= size
  {
    hide PoolDo;
    PoolKeeps(NoTunnels(size), actions);
    WithinKeeps(NoTunnels(size), actions);
  }

  lemma {:induction false} PoolAppends(p: Tunnels, a: seq<PoolAction>, b: seq<PoolAction>)
    requires PoolRun(p, a).Some?
    ensures PoolRun(p, a + b) == PoolRun(PoolRun(p, a).value, b)
    decreases |a|
  {
    hide PoolDo;
    if a == [] {
      assert a + b == b;
    } else {
      assert (a + b)[1..] == a[1..] + b;
      PoolAppends(PoolDo(p, a[0]).value, a[1..], b);
    }
  }

  lemma FirstReads(size: nat)
    ensures var p := NoTunnels(size).(round := LiveRead(0));
      && PoolDo(NoTunnels(size), ReadLive) == Some(p)
      && PoolDo(p, ReadDialing) == Some(NoTunnels(size).(round := Spawning(size)))
  {
  }

  lemma FirstState(size: nat, round: Round)
    ensures Named(NoTunnels(size).(round := round)) && Tallied(NoTunnels(size).(round := round))
  {
  }

  /** The first round of a pool dials as many tunnels as it should hold. */
  lemma FirstRound(size: nat) returns (actions: seq<PoolAction>, p: Tunnels)
    ensures PoolRun(NoTunnels(size), actions) == Some(p)
    ensures Named(p) && Tallied(p) && p.round.Resting? && p.most == 0 && p.size == size
    ensures p.live == {} && p.pushed == {} && p.failed == {} && |p.dials| == size
  {
    var start := NoTunnels(size);
    var p1, p2 := start.(round := LiveRead(0)), start.(round := Spawning(size));
    FirstReads(size);
    FirstState(size, p2.round);
    hide PoolDo, Named;
    var p3 := SpawnAll(p2);
    p := Rested(p3);
    hide PoolRun;
    PoolAppends(p2, Spawns(size), [Rest]);
    PoolRunFirst(p1, ReadDialing, p2, Spawns(size) + [Rest]);
    actions := [ReadLive] + ([ReadDialing] + (Spawns(size) + [Rest]));
    PoolRunFirst(start, ReadLive, p1, [ReadDialing] + (Spawns(size) + [Rest]));
  }

  lemma Rested(p: Tunnels) returns (q: Tunnels)
    requires Named(p) && Tallied(p) && p.round == Spawning(0)
    ensures PoolRun(p, [Rest]) == Some(q) && q == p.(round := Resting) && Named(q) && Tallied(q)
  {
    q := PoolDo(p, Rest).value;
    assert PoolRun(q, []) == Some(q);
    PoolRunFirst(p, Rest, q, []);
    assert [Rest] + [] == [Rest];
  }

  /** For every pool size there is a run, from the start, after which one tunnel too many is held or dialed. */
  lemma OvershootReachable(size: nat) returns (actions: seq<PoolAction>)
    requires size > 0
    ensures PoolRun(NoTunnels(size), actions).Some? && Load(PoolRun(NoTunnels(size), actions).value) == size + 1
  {
    hide PoolRun, PoolDo, Named;
    var first, p := FirstRound(size);
    var id :| id in p.dials;
    var second := OvershootHappens(p, id);
    PoolAppends(NoTunnels(size), first, second);
    actions := first + second;
  }

  /** A round also refills: once its dials are spawned, at most the finished dials still counted are missing. */
  lemma RoundRefills(p: Tunnels)
    requires Tallied(p) && p.round.LiveRead? && p.round.live <= |p.live|
    ensures var q := PoolDo(p, ReadDialing).value;
      Load(q) + q.round.left + |p.pushed| + |p.failed| >= p.size
  {
  }
}
