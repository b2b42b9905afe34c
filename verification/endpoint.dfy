/** The handshake as each end runs it, blocking, over its two codec cores and one byte transport. */
module Endpoint {
  import opened Bits
  import opened Errors
  import opened Config
  import opened SessionCiphers
  import opened Wire
  import opened Incremental
  import opened Handshake
  import opened HandshakeProtocol
  import opened Transmission
  import Base94
  import Ssea

  /** The draws of one handshake packet. */
  datatype PacketDraws = PacketDraws(id: IdDraws, wire: Draws) {
    predicate Valid(key: ObfuscationKey, v: u128) { ValidDraws(key, v, id) && wire.Valid() }
  }

  /** The packet of `id` as sent from state `d`. */
  function IdPacket(key: ObfuscationKey, d: Dir, id: u128, draws: PacketDraws): Bytes
    requires draws.Valid(key, id)
  {
    PackedSendable(key, id, draws.id);
    Packet(d, PackedId(key, id, draws.id), draws.wire)
  }

  /** The noise prelude, one packet per element of `draws`. */
  function PreludeBytes(key: ObfuscationKey, d: Dir, draws: seq<PacketDraws>): Bytes
    requires forall i :: 0 <= i < |draws| ==> draws[i].Valid(key, 0)
    decreases |draws|
  {
    if draws == [] then [] else IdPacket(key, d, 0, draws[0]) + PreludeBytes(key, d.Sent(), draws[1..])
  }

  /** Output and state once the packets of `draws` are out. */
  function Ahead(key: ObfuscationKey, d: Dir, output: Bytes, draws: seq<PacketDraws>): (Bytes, Dir)
    requires forall i :: 0 <= i < |draws| ==> draws[i].Valid(key, 0)
  {
    (output + PreludeBytes(key, d, draws), After(d, |draws|))
  }

  lemma PreludeFirst(key: ObfuscationKey, d: Dir, output: Bytes, draws: seq<PacketDraws>)
    requires draws != [] && forall i :: 0 <= i < |draws| ==> draws[i].Valid(key, 0)
    ensures Ahead(key, d, output, draws) == Ahead(key, d.Sent(), output + IdPacket(key, d, 0, draws[0]), draws[1..])
  {
    hide IdPacket;
    var w, rest := IdPacket(key, d, 0, draws[0]), PreludeBytes(key, d.Sent(), draws[1..]);
    assert output + (w + rest) == (output + w) + rest;
  }

  lemma PreludeLast(key: ObfuscationKey, d: Dir, output: Bytes)
    ensures Ahead(key, d, output, []) == (output, d)
  {
    assert output + [] == output;
  }

  /** A reading end: what was read, the state it is in, and what the transport still holds. */
  datatype Got<T> = Got(result: Result<T>, d: Dir, rest: Bytes)

  /** The next id on the stream, dummies skipped within the budget; the protocol's reads in a row. */
  function ReadId(key: ObfuscationKey, d: Dir, stream: Bytes, budget: nat): Got<u128>
    decreases budget
  {
    var (step, taken) := ReadBuf(d, stream);
    var rest := if taken <= |stream| then stream[taken..] else [];
    match IdStep(key, step.result, budget)
    case Refused(e) => Got(Err(e), step.next, rest)
    case Found(id) => Got(Ok(id), step.next, rest)
    case Skipped(b) => ReadId(key, step.next, rest, b)
  }

  lemma ReadIdFirst(key: ObfuscationKey, d: Dir, stream: Bytes, budget: nat)
    ensures var (step, taken) := ReadBuf(d, stream);
      var rest := if taken <= |stream| then stream[taken..] else [];
      var read := IdStep(key, step.result, budget);
      && (read.Skipped? ==> read.budget < budget)
      && ReadId(key, d, stream, budget) ==
         match read
         case Refused(e) => Got(Err(e), step.next, rest)
         case Found(id) => Got(Ok(id), step.next, rest)
         case Skipped(b) => ReadId(key, step.next, rest, b)
  {
  }

  /** The client's confirm phase: id, then mux answer, then the receiving direction switches. */
  function Confirmed(prim: Primitives, key: ObfuscationKey, role: SessionRole, ivv: u128, d: Dir, stream: Bytes): Got<u128> {
    var a := ReadId(key, d, stream, MaxNopPackets(key));
    if a.result.Err? then a
    else if a.result.value == 0 then a.(result := Err(HandshakeFailed))
    else
      var b := ReadId(key, a.d, a.rest, MaxNopPackets(key));
      if b.result.Err? then b
      else
        match CheckMux(key, role, b.result.value)
        case Err(e) => b.(result := Err(e))
        case Ok(_) => Got(Ok(a.result.value), b.d.Rekeyed(prim, ivv).Completed(), b.rest)
  }

  /** The server's reading: the client's ivv and the role it is granted. */
  function Heard(key: ObfuscationKey, allowBond: bool, d: Dir, stream: Bytes): Got<(u128, SessionRole)> {
    var g := ReadId(key, d, stream, MaxNopPackets(key));
    match g.result
    case Err(e) => Got(Err(e), g.d, g.rest)
    case Ok(ivv) => Got(if ivv == 0 then Err(HandshakeFailed) else Ok((ivv, Effective(allowBond, ivv))), g.d, g.rest)
  }

  // ----- the two ends against each other

  /** One packet on the stream: what it carries, and how much of the stream it is. */
  lemma ReadOnePacket(key: ObfuscationKey, d: Dir, id: u128, draws: PacketDraws, rest: Bytes, budget: nat)
    requires draws.Valid(key, id)
    ensures var w := IdPacket(key, d, id, draws);
      ReadId(key, d, w + rest, budget) ==
        if id != 0 then Got(Ok(id), d.Sent(), rest)
        else if budget == 0 then Got(Err(HandshakeFailed), d.Sent(), rest)
        else ReadId(key, d.Sent(), rest, budget - 1)
  {
    hide Packet, PackedId, ReadBuf;
    PackedSendable(key, id, draws.id);
    IdRoundTrip(key, key, id, draws.id);
    var w := IdPacket(key, d, id, draws);
    PacketRoundTrip(d, PackedId(key, id, draws.id), draws.wire, rest);
    assert (w + rest)[|w|..] == rest;
  }

  /** Noise within the budget is skipped, the id behind it is read, nothing beyond it is touched. */
  lemma {:induction false} ReadBehindNoise(key: ObfuscationKey, d: Dir, noise: seq<PacketDraws>, id: u128, draws: PacketDraws, rest: Bytes, budget: nat)
    requires (forall i :: 0 <= i < |noise| ==> noise[i].Valid(key, 0)) && draws.Valid(key, id) && id != 0
    requires |noise| <= budget
    ensures var d' := After(d, |noise|);
      ReadId(key, d, PreludeBytes(key, d, noise) + (IdPacket(key, d', id, draws) + rest), budget) == Got(Ok(id), d'.Sent(), rest)
    decreases |noise|
  {
    hide IdPacket, ReadId;
    var d' := After(d, |noise|);
    var tail := IdPacket(key, d', id, draws) + rest;
    if noise == [] {
      assert [] + tail == tail;
      ReadOnePacket(key, d, id, draws, rest, budget);
    } else {
      var more := PreludeBytes(key, d.Sent(), noise[1..]) + tail;
      assert PreludeBytes(key, d, noise) + tail == IdPacket(key, d, 0, noise[0]) + more;
      ReadOnePacket(key, d, 0, noise[0], more, budget);
      ReadBehindNoise(key, d.Sent(), noise[1..], id, draws, rest, budget - 1);
    }
  }

  /** The server hears exactly the ivv and the role granted for it, and leaves early client data unread. */
  lemma ServerHears(c: Setup, noise: seq<PacketDraws>, last: PacketDraws, data: Bytes)
    requires (forall i :: 0 <= i < |noise| ==> noise[i].Valid(c.key, 0)) && last.Valid(c.key, c.IvvSent())
    requires c.Valid() && |noise| == NopRounds(c.clientSample)
    ensures var d := NewDir(c.prim, c.key);
      var d' := After(d, |noise|);
      Heard(c.key, c.allowBond, d, PreludeBytes(c.key, d, noise) + (IdPacket(c.key, d', c.IvvSent(), last) + data))
        == Got(Ok((c.IvvSent(), c.Granted())), d'.Sent(), data)
  {
    hide IdPacket, ReadId, PreludeBytes, After, MaxNopPackets, Ivv, Effective;
    PreludeWithinBudget(c.key, c.clientSample);
    IvvCarriesRole(c.role, c.nonce);
    ReadBehindNoise(c.key, NewDir(c.prim, c.key), noise, c.IvvSent(), last, data, MaxNopPackets(c.key));
  }

  /** The client's confirm phase ends in the id if its role was granted, and in a refusal otherwise. */
  lemma ClientConfirms(c: Setup, noise: seq<PacketDraws>, first: PacketDraws, answer: PacketDraws, data: Bytes)
    requires (forall i :: 0 <= i < |noise| ==> noise[i].Valid(c.key, 0)) && first.Valid(c.key, c.id)
    requires c.Valid() && |noise| == NopRounds(c.serverSample) && answer.Valid(c.key, c.NmuxSent())
    ensures var d := NewDir(c.prim, c.key);
      var d' := After(d, |noise|);
      var sent := PreludeBytes(c.key, d, noise)
        + (IdPacket(c.key, d', c.id, first) + (IdPacket(c.key, d'.Sent(), c.NmuxSent(), answer) + data));
      Confirmed(c.prim, c.key, c.role, c.IvvSent(), d, sent) ==
        if c.Granted() == c.role then Got(Ok(c.id), d'.Sent().Sent().Rekeyed(c.prim, c.IvvSent()).Completed(), data)
        else Got(Err(RoleRefused), d'.Sent().Sent(), data)
  {
    hide IdPacket, ReadId, PreludeBytes, After, MaxNopPackets, Ivv, Effective, Nmux, CheckMux;
    var d := NewDir(c.prim, c.key);
    var d' := After(d, |noise|);
    PreludeWithinBudget(c.key, c.serverSample);
    NmuxCarries(c.key, c.Granted(), c.low);
    MuxAnswer(c);
    ReadBehindNoise(c.key, d, noise, c.id, first, IdPacket(c.key, d'.Sent(), c.NmuxSent(), answer) + data, MaxNopPackets(c.key));
    ReadOnePacket(c.key, d'.Sent(), c.NmuxSent(), answer, data, MaxNopPackets(c.key));
  }

  /** A prelude beyond the budget ends the handshake, whatever follows it. */
  lemma {:induction false} TooMuchNoise(key: ObfuscationKey, d: Dir, noise: seq<PacketDraws>, rest: Bytes, budget: nat)
    requires (forall i :: 0 <= i < |noise| ==> noise[i].Valid(key, 0)) && |noise| > budget
    ensures ReadId(key, d, PreludeBytes(key, d, noise) + rest, budget).result == Err(HandshakeFailed)
    decreases budget
  {
    hide IdPacket, ReadId;
    var more := PreludeBytes(key, d.Sent(), noise[1..]) + rest;
    assert PreludeBytes(key, d, noise) + rest == IdPacket(key, d, 0, noise[0]) + more;
    ReadOnePacket(key, d, 0, noise[0], more, budget);
    if budget > 0 {
      TooMuchNoise(key, d.Sent(), noise[1..], rest, budget - 1);
    }
  }

  // ----- ends whose switches differ

  /** Keys alike in all but the four switches. */
  predicate AlikeButSwitches(a: ObfuscationKey, b: ObfuscationKey) {
    b == a.(masked := b.masked, plaintext := b.plaintext, deltaEncode := b.deltaEncode, shuffleData := b.shuffleData)
  }

  /** Before the handshake is over the switches play no part in a packet. */
  lemma SamePacket(a: ObfuscationKey, b: ObfuscationKey, d: Dir, id: u128, draws: PacketDraws)
    requires AlikeButSwitches(a, b) && d.key == a && !d.handshaked && draws.Valid(a, id)
    ensures draws.Valid(b, id) && IdPacket(b, d.(key := b), id, draws) == IdPacket(a, d, id, draws)
    ensures d.(key := b).Sent() == d.Sent().(key := b) && d.Sent().key == a && !d.Sent().handshaked
  {
    var e, msg := d.(key := b), PackedId(a, id, draws.id);
    assert PackedId(b, id, draws.id) == msg;
    PackedSendable(a, id, draws.id);
    hide PackedId, Applied, Ssea.Masked, Ssea.Shuffled, Base94.Frame;
    assert BinaryPacket(e, msg, draws.wire.seed) == BinaryPacket(d, msg, draws.wire.seed);
  }

  lemma {:induction false} SamePrelude(a: ObfuscationKey, b: ObfuscationKey, d: Dir, noise: seq<PacketDraws>)
    requires AlikeButSwitches(a, b) && d.key == a && !d.handshaked && forall i :: 0 <= i < |noise| ==> noise[i].Valid(a, 0)
    ensures forall i :: 0 <= i < |noise| ==> noise[i].Valid(b, 0)
    ensures PreludeBytes(b, d.(key := b), noise) == PreludeBytes(a, d, noise)
    ensures var x := After(d, |noise|);
      After(d.(key := b), |noise|) == x.(key := b) && x.key == a && !x.handshaked
    decreases |noise|
  {
    hide IdPacket, ValidDraws;
    if noise != [] {
      SamePacket(a, b, d, 0, noise[0]);
      SamePrelude(a, b, d.Sent(), noise[1..]);
      forall i | 0 <= i < |noise| ensures noise[i].Valid(b, 0) {
        if i > 0 {
          assert noise[i] == noise[1..][i - 1];
        }
      }
    }
  }

  /** Against a server whose switches differ the confirm phase ends in FlagsMismatch, whatever role was asked or granted. */
  lemma SwitchesDetected(
      prim: Primitives, a: ObfuscationKey, b: ObfuscationKey, asked: SessionRole, granted: SessionRole, low: u64, id: u128,
      ivv: u128, noise: seq<PacketDraws>, first: PacketDraws, answer: PacketDraws, data: Bytes)
    requires AlikeButSwitches(a, b) && a != b && id != 0 && |noise| <= MaxNopPackets(a)
    requires (forall i :: 0 <= i < |noise| ==> noise[i].Valid(b, 0)) && first.Valid(b, id) && answer.Valid(b, Nmux(b, granted, low))
    ensures var e := NewDir(prim, b);
      var x := After(e, |noise|);
      var sent := PreludeBytes(b, e, noise) + (IdPacket(b, x, id, first) + (IdPacket(b, x.Sent(), Nmux(b, granted, low), answer) + data));
      Confirmed(prim, a, asked, ivv, NewDir(prim, a), sent).result == Err(FlagsMismatch)
  {
    hide IdPacket, ReadId, PreludeBytes, After, MaxNopPackets, Nmux, CheckMux, ValidDraws;
    var d := NewDir(prim, a);
    var e, x, nmux := NewDir(prim, b), After(d, |noise|), Nmux(b, granted, low);
    assert e == d.(key := b);
    SwitchesValid(a, b, 0, noise);
    SwitchesValid(a, b, id, [first]);
    SwitchesValid(a, b, nmux, [answer]);
    assert [first][0].Valid(a, id) && [answer][0].Valid(a, nmux);
    SamePrelude(a, b, d, noise);
    SamePacket(a, b, x, id, first);
    SamePacket(a, b, x.Sent(), nmux, answer);
    ReadBehindNoise(a, d, noise, id, first, IdPacket(a, x.Sent(), nmux, answer) + data, MaxNopPackets(a));
    NmuxCarries(b, granted, low);
    ReadOnePacket(a, x.Sent(), nmux, answer, data, MaxNopPackets(a));
    FlagsDecide(a, b, asked, granted, low);
  }

  lemma SwitchesValid(a: ObfuscationKey, b: ObfuscationKey, id: u128, draws: seq<PacketDraws>)
    requires AlikeButSwitches(a, b) && forall i :: 0 <= i < |draws| ==> draws[i].Valid(b, id)
    ensures forall i :: 0 <= i < |draws| ==> draws[i].Valid(a, id)
  {
    forall i | 0 <= i < |draws| ensures draws[i].Valid(a, id) {
      assert draws[i].Valid(b, id);
    }
  }

  // ----- the blocking code is a run of the protocol's steps

  lemma TakenFits(d: Dir, stream: Bytes)
    ensures ReadBuf(d, stream).1 <= |stream|
  {
    hide DecryptTail, Body;
  }

  function ClientReading(n: nat): seq<Action> { seq(n, _ => ClientReads) }

  lemma RunFirst(c: Setup, s: Net, a: Action, t: Net, rest: seq<Action>)
    requires Do(c, s, a) == Some(t)
    ensures Run(c, s, [a] + rest) == Run(c, t, rest)
  {
    assert ([a] + rest)[1..] == rest;
  }

  /** The budget of a client that waits for an id. */
  function Budget(pc: Client): nat
    requires pc.ReadingId? || pc.ReadingMux?
  {
    pc.budget
  }

  /** Where the read that ends the wait is about to happen. */
  ghost predicate AtLast(c: Setup, s: Net, g: Got<u128>) {
    && (s.client.ReadingId? || s.client.ReadingMux?)
    && var (step, taken) := ReadBuf(s.crx, s.down.bytes);
       var read := IdStep(c.key, step.result, s.client.budget);
       && step.result != Err(Io) && !read.Skipped? && step.next == g.d && taken <= |s.down.bytes|
       && g.rest == s.down.bytes[taken..] && g.result == if read.Found? then Ok(read.id) else Err(read.error)
  }

  /** The skipping loop of a waiting client is a row of reading steps up to the last one. */
  lemma {:induction false} SkipsRun(c: Setup, s: Net, g: Got<u128>) returns (n: nat, t: Net)
    requires (s.client.ReadingId? || s.client.ReadingMux?) && g.result != Err(Io)
    requires g == ReadId(c.key, s.crx, s.down.bytes, Budget(s.client))
    ensures Run(c, s, ClientReading(n)) == Some(t) && AtLast(c, t, g)
    ensures t == s.(client := s.client.(budget := t.client.budget), crx := t.crx, down := t.down)
    decreases Budget(s.client)
  {
    hide ReadBuf;
    TakenFits(s.crx, s.down.bytes);
    ReadIdFirst(c.key, s.crx, s.down.bytes, Budget(s.client));
    var (step, taken) := ReadBuf(s.crx, s.down.bytes);
    var read := IdStep(c.key, step.result, Budget(s.client));
    if read.Skipped? {
      var next := ClientRead(c, s);
      assert Do(c, s, ClientReads) == Some(next);
      n, t := SkipsRun(c, next, g);
      RunFirst(c, s, ClientReads, next, ClientReading(n));
      assert ClientReading(n + 1) == [ClientReads] + ClientReading(n);
      n := n + 1;
    } else {
      n, t := 0, s;
      assert ClientReading(0) == [];
    }
  }

  lemma {:induction false} RunAppends(c: Setup, s: Net, a: seq<Action>, b: seq<Action>)
    requires Run(c, s, a).Some?
    ensures Run(c, s, a + b) == Run(c, Run(c, s, a).value, b)
    decreases |a|
  {
    hide Do;
    if a == [] {
      assert a + b == b;
    } else {
      assert (a + b)[1..] == a[1..] + b;
      RunAppends(c, Do(c, s, a[0]).value, a[1..], b);
    }
  }

  /** The read that ends the wait for the server's id. */
  lemma LastIdRead(c: Setup, s: Net, g: Got<u128>) returns (t: Net)
    requires AtLast(c, s, g) && s.client.ReadingId?
    ensures Do(c, s, ClientReads) == Some(t)
    ensures t == s.(client := t.client, crx := g.d, down := t.down)
    ensures g.result.Err? ==> t.client == Failed(g.result.error)
    ensures g.result.Ok? ==> t.down.bytes == g.rest
    ensures g.result.Ok? ==>
      t.client == if g.result.value == 0 then Failed(HandshakeFailed) else ReadingMux(g.result.value, MaxNopPackets(c.key))
  {
    hide ReadBuf, MaxNopPackets;
    t := ClientRead(c, s);
  }

  /** The read that ends the wait for the server's answer. */
  lemma LastMuxRead(c: Setup, s: Net, g: Got<u128>) returns (t: Net)
    requires AtLast(c, s, g) && s.client.ReadingMux?
    ensures Do(c, s, ClientReads) == Some(t) && t == s.(client := t.client, crx := t.crx, down := t.down)
    ensures g.result.Err? ==> t.client == Failed(g.result.error) && t.crx == g.d
    ensures g.result.Ok? ==> t.down.bytes == g.rest
    ensures g.result.Ok? ==>
      match CheckMux(c.key, c.role, g.result.value)
      case Err(e) => t.client == Failed(e) && t.crx == g.d
      case Ok(_) => t.client == Up(s.client.id) && t.crx == g.d.Rekeyed(c.prim, c.IvvSent()).Completed()
  {
    hide ReadBuf, CheckMux;
    t := ClientRead(c, s);
  }

  lemma ThenReads(c: Setup, s: Net, n: nat, t: Net, u: Net)
    requires Run(c, s, ClientReading(n)) == Some(t) && Do(c, t, ClientReads) == Some(u)
    ensures Run(c, s, ClientReading(n + 1)) == Some(u)
  {
    hide Do;
    assert Run(c, u, []) == Some(u);
    RunFirst(c, t, ClientReads, u, []);
    RunAppends(c, s, ClientReading(n), [ClientReads] + []);
    assert ClientReading(n + 1) == ClientReading(n) + ([ClientReads] + []);
  }

  /**
   The client's blocking confirm phase, whatever the bytes, is a row of the protocol's reading steps:
   it ends in the same state, with the same verdict, wherever it does not block.
   */
  lemma ConfirmRuns(c: Setup, s: Net) returns (n: nat, t: Net)
    requires s.client == ReadingId(MaxNopPackets(c.key))
    requires Confirmed(c.prim, c.key, c.role, c.IvvSent(), s.crx, s.down.bytes).result != Err(Io)
    ensures var g := Confirmed(c.prim, c.key, c.role, c.IvvSent(), s.crx, s.down.bytes);
      && Run(c, s, ClientReading(n)) == Some(t) && t == s.(client := t.client, crx := g.d, down := t.down)
      && t.client == (if g.result.Ok? then Up(g.result.value) else Failed(g.result.error))
      && (g.result.Ok? ==> t.down.bytes == g.rest)
  {
    hide Run, Do, ReadId, MaxNopPackets, CheckMux, AtLast;
    var a := ReadId(c.key, s.crx, s.down.bytes, MaxNopPackets(c.key));
    var skipped, before := SkipsRun(c, s, a);
    n := skipped + 1;
    t := LastIdRead(c, before, a);
    ThenReads(c, s, skipped, before, t);
    if t.client.ReadingMux? {
      var b := ReadId(c.key, t.crx, t.down.bytes, MaxNopPackets(c.key));
      var more, last := SkipsRun(c, t, b);
      var u := LastMuxRead(c, last, b);
      ThenReads(c, t, more, last, u);
      RunAppends(c, s, ClientReading(n), ClientReading(more + 1));
      assert ClientReading(n) + ClientReading(more + 1) == ClientReading(n + more + 1);
      n, t := n + more + 1, u;
    }
  }

  function ServerReading(n: nat): seq<Action> { seq(n, _ => ServerReads) }

  /** The server's wait for the ivv is a row of the protocol's reading steps, with the same verdict. */
  lemma {:induction false} HearRuns(c: Setup, s: Net) returns (n: nat, t: Net)
    requires s.server.ReadingIvv? && ReadId(c.key, s.srx, s.up.bytes, s.server.budget).result != Err(Io)
    ensures var g := ReadId(c.key, s.srx, s.up.bytes, s.server.budget);
      && Run(c, s, ServerReading(n)) == Some(t) && t == s.(server := t.server, srx := g.d, up := t.up)
      && (g.result.Err? ==> t.server == Aborted(g.result.error))
      && (g.result.Ok? ==> t.up.bytes == g.rest && t.server == ServerAfterIvv(c.allowBond, Found(g.result.value)))
    decreases s.server.budget
  {
    hide ReadBuf, Effective;
    TakenFits(s.srx, s.up.bytes);
    ReadIdFirst(c.key, s.srx, s.up.bytes, s.server.budget);
    var next := ServerRead(c, s);
    assert Do(c, s, ServerReads) == Some(next);
    if next.server.ReadingIvv? {
      n, t := HearRuns(c, next);
      RunFirst(c, s, ServerReads, next, ServerReading(n));
      assert ServerReading(n + 1) == [ServerReads] + ServerReading(n);
      n := n + 1;
    } else {
      n, t := 1, next;
      assert Run(c, t, []) == Some(t);
      RunFirst(c, s, ServerReads, t, []);
      assert ServerReading(1) == [ServerReads] + [];
    }
  }

  function Writing(noise: seq<PacketDraws>, last: PacketDraws): seq<Action> {
    seq(|noise|, i requires 0 <= i < |noise| => ClientWrites(noise[i].id, noise[i].wire)) + [ClientWrites(last.id, last.wire)]
  }

  /** The client's send phase is a row of its writing steps: the same bytes, the same switched state. */
  lemma {:induction false} SendRuns(c: Setup, s: Net, noise: seq<PacketDraws>, last: PacketDraws) returns (t: Net)
    requires s.client == Prelude(|noise|)
    requires last.Valid(c.key, c.IvvSent()) && forall i :: 0 <= i < |noise| ==> noise[i].Valid(c.key, 0)
    ensures Run(c, s, Writing(noise, last)) == Some(t) && t.client == ReadingId(MaxNopPackets(c.key))
    ensures var (out, d) := Ahead(c.key, s.ctx, s.up.bytes, noise);
      && t.up.bytes == out + IdPacket(c.key, d, c.IvvSent(), last)
      && t.ctx == d.Sent().Rekeyed(c.prim, c.IvvSent()).Completed()
    ensures t == s.(client := t.client, ctx := t.ctx, up := t.up)
    decreases |noise|
  {
    hide Packet, PackedId, MaxNopPackets, Ivv, ValidDraws;
    IvvCarriesRole(c.role, c.nonce);
    var draws := if noise == [] then last else noise[0];
    var a := ClientWrites(draws.id, draws.wire);
    var next := Do(c, s, a).value;
    if noise == [] {
      t := next;
      PreludeLast(c.key, s.ctx, s.up.bytes);
      assert t.up.bytes == s.up.bytes + IdPacket(c.key, s.ctx, c.IvvSent(), last) + [];
      assert Run(c, t, []) == Some(t);
      RunFirst(c, s, a, t, []);
      assert Writing(noise, last) == [a] + [];
    } else {
      assert next.client == Prelude(|noise[1..]|);
      t := SendRuns(c, next, noise[1..], last);
      PreludeFirst(c.key, s.ctx, s.up.bytes, noise);
      RunFirst(c, s, a, next, Writing(noise[1..], last));
      assert Writing(noise, last) == [a] + Writing(noise[1..], last);
    }
  }

  function Greetings(noise: seq<PacketDraws>, first: PacketDraws): seq<Action> {
    seq(|noise|, i requires 0 <= i < |noise| => ServerWrites(noise[i].id, noise[i].wire)) + [ServerWrites(first.id, first.wire)]
  }

  /** The server's prelude and id are a row of its writing steps. */
  lemma {:induction false} GreetRuns(c: Setup, s: Net, noise: seq<PacketDraws>, first: PacketDraws) returns (t: Net)
    requires s.server == Greeting(|noise|) && c.id != 0
    requires first.Valid(c.key, c.id) && forall i :: 0 <= i < |noise| ==> noise[i].Valid(c.key, 0)
    ensures Run(c, s, Greetings(noise, first)) == Some(t) && t.server == ReadingIvv(MaxNopPackets(c.key))
    ensures var (out, d) := Ahead(c.key, s.stx, s.down.bytes, noise);
      t.down.bytes == out + IdPacket(c.key, d, c.id, first) && t.stx == d.Sent()
    ensures t == s.(server := t.server, stx := t.stx, down := t.down)
    decreases |noise|
  {
    hide Packet, PackedId, MaxNopPackets, ValidDraws;
    var draws := if noise == [] then first else noise[0];
    var a := ServerWrites(draws.id, draws.wire);
    var next := Do(c, s, a).value;
    if noise == [] {
      t := next;
      PreludeLast(c.key, s.stx, s.down.bytes);
      assert Run(c, t, []) == Some(t);
      RunFirst(c, s, a, t, []);
      assert Greetings(noise, first) == [a] + [];
    } else {
      assert next.server == Greeting(|noise[1..]|);
      t := GreetRuns(c, next, noise[1..], first);
      PreludeFirst(c.key, s.stx, s.down.bytes, noise);
      RunFirst(c, s, a, next, Greetings(noise[1..], first));
      assert Greetings(noise, first) == [a] + Greetings(noise[1..], first);
    }
  }

  /** The server's answer and the switch of both directions are its last writing step. */
  lemma AnswerRuns(c: Setup, s: Net, ivv: u128, role: SessionRole, draws: PacketDraws)
    requires s.server == Answering(ivv, role) && draws.Valid(c.key, Nmux(c.key, role, c.low))
    ensures Do(c, s, ServerWrites(draws.id, draws.wire)).Some?
    ensures var t := Do(c, s, ServerWrites(draws.id, draws.wire)).value;
      && t.server == Serving(ivv, role)
      && t.down.bytes == s.down.bytes + IdPacket(c.key, s.stx, Nmux(c.key, role, c.low), draws)
      && t.stx == s.stx.Sent().Rekeyed(c.prim, ivv).Completed() && t.srx == s.srx.Rekeyed(c.prim, ivv).Completed()
      && t == s.(server := t.server, stx := t.stx, srx := t.srx, down := t.down, up := t.up) && t.up.bytes == s.up.bytes
  {
    hide Packet, PackedId, ValidDraws, Nmux;
    NmuxCarries(c.key, role, c.low);
    var w := IdPacket(c.key, s.stx, Nmux(c.key, role, c.low), draws);
    assert s.down.bytes + w + [] == s.down.bytes + w;
  }

  /** How serving a client takes both directions from where they were to where they are. */
  ghost predicate Serves(
      prim: Primitives, key: ObfuscationKey, id: u128, allowBond: bool, low: u64,
      noise: seq<PacketDraws>, first: PacketDraws, answer: PacketDraws, r: Result<SessionRole>,
      tx: Dir, rx: Dir, input: Bytes, output: Bytes, tx': Dir, rx': Dir, input': Bytes, output': Bytes)
    requires first.Valid(key, id) && forall i :: 0 <= i < |noise| ==> noise[i].Valid(key, 0)
    requires r.Ok? ==> answer.Valid(key, Nmux(key, r.value, low))
  {
    var (out, d) := Ahead(key, tx, output, noise);
    var heard := Heard(key, allowBond, rx, input);
    var greeting := out + IdPacket(key, d, id, first);
    && input' == heard.rest
    && (heard.result.Err? ==> r == Err(heard.result.error) && output' == greeting && tx' == d.Sent() && rx' == heard.d)
    && (heard.result.Ok? ==>
          var (ivv, role) := heard.result.value;
          && r == Ok(role)
          && output' == greeting + IdPacket(key, d.Sent(), Nmux(key, role, low), answer)
          && tx' == d.Sent().Sent().Rekeyed(prim, ivv).Completed()
          && rx' == heard.d.Rekeyed(prim, ivv).Completed())
  }

  class Endpoint {
    const prim: Primitives
    const key: ObfuscationKey
    const tx: TxCore
    const rx: RxCore
    var input: Bytes
    var output: Bytes
    var sessionId: u128
    var pending: Option<(u128, SessionRole)>

    ghost predicate Valid()
      reads this, tx, rx, tx.protocolTx, tx.transportTx, rx.protocolRx, rx.transportRx
    {
      && tx.Valid() && rx.Valid() && tx.key == key && rx.key == key && tx.prim == prim && rx.prim == prim
      && tx.b94 != rx.b94 && {tx.protocolTx, tx.transportTx} !! {rx.protocolRx, rx.transportRx}
    }

    constructor (prim: Primitives, key: ObfuscationKey)
      ensures Valid() && this.prim == prim && this.key == key
      ensures tx.State() == NewDir(prim, key) && rx.State() == NewDir(prim, key)
      ensures input == [] && output == [] && sessionId == 0 && pending == None
    {
      this.prim, this.key := prim, key;
      tx := new TxCore(prim, key);
      rx := new RxCore(prim, key);
      input, output, sessionId, pending := [], [], 0, None;
    }

    method SendSessionId(id: u128, draws: PacketDraws)
      requires Valid() && draws.Valid(key, id)
      modifies this`output, tx.b94, tx.protocolTx, tx.transportTx
      ensures Valid()
      ensures output == old(output) + IdPacket(key, old(tx.State()), id, draws) && tx.State() == old(tx.State()).Sent()
    {
      hide PackedId, Packet, RxCore.State;
      PackedSendable(key, id, draws.id);
      var packet := PackSessionId(key, id, draws.id);
      assert [] + packet == packet;
      var written;
      written, output := tx.EncryptImpl(output, [], packet, draws.wire);
    }

    method Prelude(draws: seq<PacketDraws>)
      requires Valid() && forall i :: 0 <= i < |draws| ==> draws[i].Valid(key, 0)
      modifies this`output, tx.b94, tx.protocolTx, tx.transportTx
      ensures Valid()
      ensures (output, tx.State()) == Ahead(key, old(tx.State()), old(output), draws)
    {
      hide IdPacket, Ahead, TxCore.State, RxCore.State, ValidDraws;
      ghost var whole := Ahead(key, tx.State(), output, draws);
      assert draws[0..] == draws;
      for i := 0 to |draws|
        invariant Valid()
        invariant Ahead(key, tx.State(), output, draws[i..]) == whole
      {
        assert draws[i..][1..] == draws[i + 1..];
        PreludeFirst(key, tx.State(), output, draws[i..]);
        SendSessionId(0, draws[i]);
      }
      assert draws[|draws|..] == [];
      PreludeLast(key, tx.State(), output);
    }

    /** One packet and what it means to a reader that can still skip `budget` dummies. */
    method ReadOnce(budget: nat) returns (read: IdRead)
      requires Valid()
      modifies this`input, rx.b94, rx.protocolRx, rx.transportRx
      ensures Valid()
      ensures var (step, taken) := ReadBuf(old(rx.State()), old(input));
        && read == IdStep(key, step.result, budget) && rx.State() == step.next
        && taken <= |old(input)| && input == old(input)[taken..]
    {
      hide ReadBuf, TxCore.State, RxCore.State, Unpacked;
      var packet;
      packet, input := rx.ReadFrom(input);
      if packet.Err? {
        return Refused(packet.error);
      }
      var id := UnpackSessionId(key, packet.value);
      if id.Err? {
        return Refused(id.error);
      }
      if id.value.Session? {
        return Found(id.value.id);
      }
      read := if budget == 0 then Refused(HandshakeFailed) else Skipped(budget - 1);
    }

    /** Skips dummies; the budget is checked before it is spent. */
    method ReadSessionId() returns (r: Result<u128>)
      requires Valid()
      modifies this`input, rx.b94, rx.protocolRx, rx.transportRx
      ensures Valid()
      ensures Got(r, rx.State(), input) == ReadId(key, old(rx.State()), old(input), MaxNopPackets(key))
    {
      hide ReadBuf, MaxNopPackets, TxCore.State, RxCore.State, IdStep, ReadId;
      var budget := MaxNopPackets(key);
      while true
        invariant Valid()
        invariant ReadId(key, rx.State(), input, budget) == ReadId(key, old(rx.State()), old(input), MaxNopPackets(key))
        decreases budget
      {
        ReadIdFirst(key, rx.State(), input, budget);
        var read := ReadOnce(budget);
        if read.Refused? {
          return Err(read.error);
        }
        if read.Found? {
          return Ok(read.id);
        }
        budget := read.budget;
      }
    }

    /** Prelude and ivv, then the sending direction switches at once; nothing is read. */
    method ClientSend(role: SessionRole, nonce: u64, noise: seq<PacketDraws>, last: PacketDraws)
      requires Valid() && last.Valid(key, Ivv(role, nonce)) && forall i :: 0 <= i < |noise| ==> noise[i].Valid(key, 0)
      modifies this, tx, tx.b94, tx.protocolTx, tx.transportTx
      ensures Valid() && input == old(input) && sessionId == old(sessionId)
      ensures var (out, d) := Ahead(key, old(tx.State()), old(output), noise);
        && output == out + IdPacket(key, d, Ivv(role, nonce), last)
        && tx.State() == d.Sent().Rekeyed(prim, Ivv(role, nonce)).Completed()
      ensures pending == Some((Ivv(role, nonce), role))
    {
      hide IdPacket, Ahead, TxCore.State, RxCore.State, ValidDraws, Ivv;
      Prelude(noise);
      SendSessionId(Ivv(role, nonce), last);
      tx.Rekey(Ivv(role, nonce));
      tx.OnHandshakeComplete();
      pending := Some((Ivv(role, nonce), role));
    }

    /** Both answers are read under the old keys; only then the receiving direction switches. */
    method ClientConfirm() returns (r: Result<u128>)
      requires Valid()
      modifies this, rx, rx.b94, rx.protocolRx, rx.transportRx
      ensures Valid() && pending == None && output == old(output)
      ensures old(pending).None? ==> r == Err(HandshakeFailed) && rx.State() == old(rx.State()) && input == old(input)
      ensures old(pending).Some? ==>
        var (ivv, role) := old(pending).value;
        Got(r, rx.State(), input) == Confirmed(prim, key, role, ivv, old(rx.State()), old(input))
      ensures sessionId == if r.Ok? then r.value else old(sessionId)
    {
      hide ReadId, CheckMux, MaxNopPackets, TxCore.State, RxCore.State;
      if pending.None? {
        return Err(HandshakeFailed);
      }
      var (ivv, role) := pending.value;
      pending := None;
      var id := ReadSessionId();
      if id.Err? {
        return id;
      }
      if id.value == 0 {
        return Err(HandshakeFailed);
      }
      var nmux := ReadSessionId();
      if nmux.Err? {
        return nmux;
      }
      var checked := CheckMux(key, role, nmux.value);
      if checked.Err? {
        return Err(checked.error);
      }
      rx.Rekey(ivv);
      rx.OnHandshakeComplete();
      sessionId := id.value;
      return id;
    }

    /** The client's ivv, and the role it asks for as far as it is granted. */
    method HearClient(allowBond: bool) returns (r: Result<(u128, SessionRole)>)
      requires Valid()
      modifies this`input, rx.b94, rx.protocolRx, rx.transportRx
      ensures Valid() && Got(r, rx.State(), input) == Heard(key, allowBond, old(rx.State()), old(input))
    {
      hide ReadId, MaxNopPackets, RxCore.State, Effective;
      var ivv := ReadSessionId();
      if ivv.Err? {
        return Err(ivv.error);
      }
      if ivv.value == 0 {
        return Err(HandshakeFailed);
      }
      return Ok((ivv.value, Effective(allowBond, ivv.value)));
    }

    /** The answer echoes the role; both directions switch last. */
    method AnswerClient(ivv: u128, role: SessionRole, low: u64, draws: PacketDraws)
      requires Valid() && draws.Valid(key, Nmux(key, role, low))
      modifies this`output, tx, tx.b94, tx.protocolTx, tx.transportTx, rx
      ensures Valid()
      ensures output == old(output) + IdPacket(key, old(tx.State()), Nmux(key, role, low), draws)
      ensures tx.State() == old(tx.State()).Sent().Rekeyed(prim, ivv).Completed()
      ensures rx.State() == old(rx.State()).Rekeyed(prim, ivv).Completed()
    {
      hide IdPacket, TxCore.State, RxCore.State, ValidDraws, Nmux;
      SendSessionId(Nmux(key, role, low), draws);
      tx.Rekey(ivv);
      rx.Rekey(ivv);
      tx.OnHandshakeComplete();
      rx.OnHandshakeComplete();
    }

    /** Prelude and id, the client's ivv, then the answer for the role granted. */
    method Serve(id: u128, allowBond: bool, low: u64, noise: seq<PacketDraws>, first: PacketDraws, mux: PacketDraws, bond: PacketDraws)
      returns (r: Result<SessionRole>)
      requires Valid() && first.Valid(key, id) && forall i :: 0 <= i < |noise| ==> noise[i].Valid(key, 0)
      requires mux.Valid(key, Nmux(key, MuxTunnel, low)) && bond.Valid(key, Nmux(key, BondLink, low))
      modifies this, tx, tx.b94, tx.protocolTx, tx.transportTx, rx, rx.b94, rx.protocolRx, rx.transportRx
      ensures Valid()
      ensures id == 0 ==> r == Err(InvalidSessionId) && output == old(output) && input == old(input)
      ensures id != 0 ==>
        Serves(prim, key, id, allowBond, low, noise, first, if r == Ok(MuxTunnel) then mux else bond, r,
               old(tx.State()), old(rx.State()), old(input), old(output), tx.State(), rx.State(), input, output)
      ensures r.Ok? ==> sessionId == id
    {
      hide Heard, IdPacket, Ahead, TxCore.State, RxCore.State, ValidDraws, Nmux;
      if id == 0 {
        return Err(InvalidSessionId);
      }
      Prelude(noise);
      SendSessionId(id, first);
      var heard := HearClient(allowBond);
      if heard.Err? {
        return Err(heard.error);
      }
      var (ivv, role) := heard.value;
      AnswerClient(ivv, role, low, if role == MuxTunnel then mux else bond);
      sessionId := id;
      return Ok(role);
    }
  }
}
