/**
 The two-party handshake over two pipes, and the data before and after it. Every step works on the
 bytes in the pipes; any interleaving of the two ends is a run.
 */
module HandshakeProtocol {
  import opened Bits
  import opened Errors
  import opened Config
  import opened SessionCiphers
  import opened Wire
  import opened Incremental
  import opened Handshake
  import opened Lockstep
  import Base94

  /** Shared key, what each side asks for, and the values each side draws. */
  datatype Setup = Setup(
    prim: Primitives, key: ObfuscationKey,
    role: SessionRole, nonce: u64, clientSample: nat,
    id: u128, allowBond: bool, low: u64, serverSample: nat)
  {
    /** The server's caller assigns a nonzero id; the samples are in the drawn range. */
    predicate Valid() { id != 0 && ValidSample(key, clientSample) && ValidSample(key, serverSample) }

    function IvvSent(): u128 { Ivv(role, nonce) }

    /** A bond request is downgraded where bonds are not allowed. */
    function Granted(): SessionRole { Effective(allowBond, IvvSent()) }

    function NmuxSent(): u128 { Nmux(key, Granted(), low) }
  }

  function Effective(allowBond: bool, ivv: u128): SessionRole {
    if RoleFromIvv(ivv) == BondLink && !allowBond then MuxTunnel else RoleFromIvv(ivv)
  }

  datatype Client =
    | Prelude(left: nat)
    | ReadingId(budget: nat)
    | ReadingMux(id: u128, budget: nat)
    | Up(id: u128)
    | Failed(error: Error)

  datatype Server =
    | Greeting(left: nat)
    | ReadingIvv(budget: nat)
    | Answering(ivv: u128, role: SessionRole)
    | Serving(ivv: u128, role: SessionRole)
    | Aborted(error: Error)

  datatype Net = Net(client: Client, ctx: Dir, crx: Dir, server: Server, stx: Dir, srx: Dir, up: Pipe, down: Pipe)

  /**
   One atomic step: writing the next handshake packet, writing data, or one blocking read together
   with what the reader does about it.
   */
  datatype Action =
    | ClientWrites(draws: IdDraws, wire: Draws)
    | ClientReads
    | ClientSends(item: GoodItem)
    | ServerWrites(draws: IdDraws, wire: Draws)
    | ServerReads
    | ServerSends(item: GoodItem)

  ghost function Start(c: Setup): Net {
    var d := NewDir(c.prim, c.key);
    Net(Prelude(NopRounds(c.clientSample)), d, d, Greeting(NopRounds(c.serverSample)), d, d,
        Pipe([], [], Stage(NopRounds(c.clientSample), [c.IvvSent()], false), [], []),
        Pipe([], [], Stage(NopRounds(c.serverSample), [c.id, c.NmuxSent()], false), [], []))
  }

  // ----- reading ids

  /** What one packet means to a reader that waits for an id and has `budget` dummies left to skip. */
  datatype IdRead = Skipped(budget: nat) | Found(id: u128) | Refused(error: Error)

  function IdStep(key: ObfuscationKey, result: Result<Bytes>, budget: nat): IdRead {
    match result
    case Err(e) => Refused(e)
    case Ok(packet) =>
      match Unpacked(key, packet)
      case Err(e) => Refused(e)
      case Ok(Session(id)) => Found(id)
      case Ok(Dummy) => if budget == 0 then Refused(HandshakeFailed) else Skipped(budget - 1)
  }

  function ClientAfterId(key: ObfuscationKey, read: IdRead): Client {
    match read
    case Refused(e) => Failed(e)
    case Skipped(b) => ReadingId(b)
    case Found(id) => if id == 0 then Failed(HandshakeFailed) else ReadingMux(id, MaxNopPackets(key))
  }

  /** Zero check, canary check if the peer embeds one, then the role echo. */
  function CheckMux(key: ObfuscationKey, role: SessionRole, nmux: u128): Result<()> {
    var high := nmux / TWO64;
    if nmux == 0 then Err(HandshakeFailed)
    else if HasCanary(high) && high != FlagCanary(key) then Err(FlagsMismatch)
    else if EchoesMux(nmux) != (role == MuxTunnel) then Err(RoleRefused)
    else Ok(())
  }

  function ClientAfterMux(key: ObfuscationKey, role: SessionRole, id: u128, read: IdRead): Client {
    match read
    case Refused(e) => Failed(e)
    case Skipped(b) => ReadingMux(id, b)
    case Found(nmux) =>
      match CheckMux(key, role, nmux)
      case Err(e) => Failed(e)
      case Ok(_) => Up(id)
  }

  function ServerAfterIvv(allowBond: bool, read: IdRead): Server {
    match read
    case Refused(e) => Aborted(e)
    case Skipped(b) => ReadingIvv(b)
    case Found(ivv) => if ivv == 0 then Aborted(HandshakeFailed) else Answering(ivv, Effective(allowBond, ivv))
  }

  // ----- steps

  /** The handshake packet of `id`; id 0 is noise. */
  function IdEvent(key: ObfuscationKey, id: u128, draws: IdDraws, wire: Draws): Event
    requires ValidDraws(key, id, draws) && wire.Valid()
  {
    PackedSendable(key, id, draws);
    var item := Item(PackedId(key, id, draws), wire);
    if id == 0 then Noise(item) else Id(id, item)
  }

  /** The id the client's next handshake packet carries. */
  function ClientId(c: Setup, pc: Client): Option<u128> {
    if !pc.Prelude? then None else if pc.left > 0 then Some(0) else Some(c.IvvSent())
  }

  function ServerId(c: Setup, pc: Server): Option<u128> {
    match pc
    case Greeting(left) => if left > 0 then Some(0) else Some(c.id)
    case Answering(_, role) => Some(Nmux(c.key, role, c.low))
    case _ => None
  }

  /** The last packet before the switch is followed by rekeying the sending direction at once. */
  ghost function ClientWrite(c: Setup, s: Net, e: Event): Net
    requires s.client.Prelude?
  {
    var s1 := s.(ctx := Apply(c.prim, s.ctx, e), up := Pushed(s.up, s.ctx, e));
    if s.client.left > 0 then s1.(client := Prelude(s.client.left - 1))
    else s1.(client := ReadingId(MaxNopPackets(c.key)),
             ctx := Apply(c.prim, s1.ctx, Rekey(c.IvvSent())), up := Pushed(s1.up, s1.ctx, Rekey(c.IvvSent())))
  }

  /** The server switches both directions after its last handshake packet, under the ivv it read. */
  ghost function ServerWrite(c: Setup, s: Net, e: Event): Net
    requires s.server.Greeting? || s.server.Answering?
  {
    var s1 := s.(stx := Apply(c.prim, s.stx, e), down := Pushed(s.down, s.stx, e));
    match s.server
    case Greeting(left) =>
      s1.(server := if left > 0 then Greeting(left - 1) else ReadingIvv(MaxNopPackets(c.key)))
    case Answering(ivv, role) =>
      s1.(server := Serving(ivv, role),
          stx := Apply(c.prim, s1.stx, Rekey(ivv)), down := Pushed(s1.down, s1.stx, Rekey(ivv)),
          srx := s1.srx.Rekeyed(c.prim, ivv).Completed(), up := Popped(s1.up, c.IvvSent()))
  }

  /** The pipe after a read; a failed read leaves no message. */
  function Taken(p: Pipe, ivv: u128, rx: Dir, result: Result<Bytes>, taken: nat): Pipe {
    if result.Ok? && taken <= |p.bytes| then Received(p, ivv, rx, result.value, taken) else p
  }

  /** A blocking read returns only once the bytes for it are there. */
  predicate Readable(rx: Dir, p: Pipe) { ReadBuf(rx, p.bytes).0.result != Err(Io) }

  function ClientRead(c: Setup, s: Net): Net {
    var (step, taken) := ReadBuf(s.crx, s.down.bytes);
    var s1 := s.(crx := step.next, down := Taken(s.down, c.IvvSent(), s.crx, step.result, taken));
    match s.client
    case ReadingId(b) => s1.(client := ClientAfterId(c.key, IdStep(c.key, step.result, b)))
    case ReadingMux(id, b) =>
      var next := ClientAfterMux(c.key, c.role, id, IdStep(c.key, step.result, b));
      if !next.Up? then s1.(client := next)
      else s1.(client := next, crx := s1.crx.Rekeyed(c.prim, c.IvvSent()).Completed(), down := Popped(s1.down, c.IvvSent()))
    case _ => if step.result.Err? then s1.(client := Failed(step.result.error)) else s1
  }

  function ServerRead(c: Setup, s: Net): Net {
    var (step, taken) := ReadBuf(s.srx, s.up.bytes);
    var s1 := s.(srx := step.next, up := Taken(s.up, c.IvvSent(), s.srx, step.result, taken));
    match s.server
    case ReadingIvv(b) => s1.(server := ServerAfterIvv(c.allowBond, IdStep(c.key, step.result, b)))
    case _ => if step.result.Err? then s1.(server := Aborted(step.result.error)) else s1
  }

  /** None where the program is not at, or is blocked before, the action. */
  ghost function Do(c: Setup, s: Net, a: Action): Option<Net> {
    match a
    case ClientWrites(draws, wire) =>
      var id := ClientId(c, s.client);
      if id.Some? && ValidDraws(c.key, id.value, draws) && wire.Valid()
      then Some(ClientWrite(c, s, IdEvent(c.key, id.value, draws, wire))) else None
    case ServerWrites(draws, wire) =>
      var id := ServerId(c, s.server);
      if id.Some? && ValidDraws(c.key, id.value, draws) && wire.Valid()
      then Some(ServerWrite(c, s, IdEvent(c.key, id.value, draws, wire))) else None
    case ClientReads =>
      if !s.client.Prelude? && !s.client.Failed? && Readable(s.crx, s.down) then Some(ClientRead(c, s)) else None
    case ServerReads =>
      if (s.server.ReadingIvv? || s.server.Serving?) && Readable(s.srx, s.up) then Some(ServerRead(c, s)) else None
    case ClientSends(item) =>
      // Data may follow the ivv at once, before anything was read.
      if !s.client.Prelude? && !s.client.Failed?
      then Some(s.(ctx := s.ctx.Sent(), up := Pushed(s.up, s.ctx, Data(item)))) else None
    case ServerSends(item) =>
      if s.server.Serving? then Some(s.(stx := s.stx.Sent(), down := Pushed(s.down, s.stx, Data(item)))) else None
  }

  ghost function Run(c: Setup, s: Net, actions: seq<Action>): Option<Net>
    decreases |actions|
  {
    if actions == [] then Some(s)
    else
      match Do(c, s, actions[0])
      case None => None
      case Some(next) => Run(c, next, actions[1..])
  }

  ghost predicate Reachable(c: Setup, s: Net) {
    exists actions :: Run(c, Start(c), actions) == Some(s)
  }

  // ----- the invariant

  /** Where the client is in its sending script. */
  function ClientStage(c: Setup, pc: Client): Stage {
    if pc.Prelude? then Stage(pc.left, [c.IvvSent()], false) else Stage(0, [], true)
  }

  function ServerStage(c: Setup, pc: Server): Stage {
    match pc
    case Greeting(left) => Stage(left, [c.id, c.NmuxSent()], false)
    case Serving(_, _) => Stage(0, [], true)
    case _ => Stage(0, [c.NmuxSent()], false)
  }

  /** What the client's position says about how far it has read. */
  ghost predicate ClientAt(c: Setup, pc: Client, read: Stage) {
    match pc
    case Prelude(_) => read == Stage(NopRounds(c.serverSample), [c.id, c.NmuxSent()], false)
    case ReadingId(b) => read.noise <= b && read == Stage(read.noise, [c.id, c.NmuxSent()], false)
    case ReadingMux(id, _) => id == c.id && read == Stage(0, [c.NmuxSent()], false)
    case Up(id) => id == c.id && c.Granted() == c.role && read == Stage(0, [], true)
    case Failed(e) => e == RoleRefused && c.Granted() != c.role && read == Stage(0, [], false)
  }

  ghost predicate ServerAt(c: Setup, pc: Server, read: Stage) {
    match pc
    case Greeting(_) => read == Stage(NopRounds(c.clientSample), [c.IvvSent()], false)
    case ReadingIvv(b) => read.noise <= b && read == Stage(read.noise, [c.IvvSent()], false)
    case Answering(ivv, role) => ivv == c.IvvSent() && role == c.Granted() && read == Stage(0, [], false)
    case Serving(ivv, role) => ivv == c.IvvSent() && role == c.Granted() && read == Stage(0, [], true)
    case Aborted(_) => false
  }

  ghost predicate UpLocked(c: Setup, s: Net) {
    Locked(c.prim, c.key, c.IvvSent(), s.up, s.srx, s.ctx, ClientStage(c, s.client))
  }

  ghost predicate DownLocked(c: Setup, s: Net) {
    Locked(c.prim, c.key, c.IvvSent(), s.down, s.crx, s.stx, ServerStage(c, s.server))
  }

  ghost predicate Inv(c: Setup, s: Net) {
    && UpLocked(c, s) && DownLocked(c, s)
    && ClientAt(c, s.client, s.down.stage) && ServerAt(c, s.server, s.up.stage)
  }

  lemma IdEventOk(key: ObfuscationKey, id: u128, draws: IdDraws, wire: Draws)
    requires ValidDraws(key, id, draws) && wire.Valid()
    ensures EventOk(key, IdEvent(key, id, draws, wire))
  {
    IdRoundTrip(key, key, id, draws);
  }

  lemma ClientWriteKeeps(c: Setup, s: Net, draws: IdDraws, wire: Draws)
    requires c.Valid() && Inv(c, s) && Do(c, s, ClientWrites(draws, wire)).Some?
    ensures Inv(c, Do(c, s, ClientWrites(draws, wire)).value)
  {
    hide Locked, Apply, EventWire, EventFrames, EventOk, MaxNopPackets, NopRounds, ValidDraws, ValidSample, PackedId, Ivv, Nmux;
    var id := ClientId(c, s.client).value;
    var e := IdEvent(c.key, id, draws, wire);
    IdEventOk(c.key, id, draws, wire);
    IvvCarriesRole(c.role, c.nonce);
    PreludeWithinBudget(c.key, c.serverSample);
    PushKeepsLock(c.prim, c.key, c.IvvSent(), s.up, s.srx, s.ctx, ClientStage(c, s.client), e);
    if s.client.left == 0 {
      assert [c.IvvSent()][1..] == [];
      var p, tx := Pushed(s.up, s.ctx, e), Apply(c.prim, s.ctx, e);
      SwitchPushed(c, p, s.srx, tx);
    }
  }

  /** A switch after the last id. */
  lemma SwitchPushed(c: Setup, p: Pipe, rx: Dir, tx: Dir)
    requires Locked(c.prim, c.key, c.IvvSent(), p, rx, tx, Stage(0, [], false))
    ensures Locked(c.prim, c.key, c.IvvSent(), Pushed(p, tx, Rekey(c.IvvSent())), rx,
                   Apply(c.prim, tx, Rekey(c.IvvSent())), Stage(0, [], true))
    ensures Pushed(p, tx, Rekey(c.IvvSent())).stage == p.stage
  {
    hide Locked, Apply;
    PushKeepsLock(c.prim, c.key, c.IvvSent(), p, rx, tx, Stage(0, [], false), Rekey(c.IvvSent()));
  }

  lemma ServerWriteKeeps(c: Setup, s: Net, draws: IdDraws, wire: Draws)
    requires c.Valid() && Inv(c, s) && Do(c, s, ServerWrites(draws, wire)).Some?
    ensures Inv(c, Do(c, s, ServerWrites(draws, wire)).value)
  {
    hide Locked, Apply, EventWire, EventFrames, EventOk, MaxNopPackets, NopRounds, ValidDraws, ValidSample, PackedId, Ivv, Nmux, Effective, ReadBuf;
    var id := ServerId(c, s.server).value;
    var e := IdEvent(c.key, id, draws, wire);
    IdEventOk(c.key, id, draws, wire);
    NmuxCarries(c.key, c.Granted(), c.low);
    PreludeWithinBudget(c.key, c.clientSample);
    assert [c.id, c.NmuxSent()][1..] == [c.NmuxSent()] && [c.NmuxSent()][1..] == [];
    PushKeepsLock(c.prim, c.key, c.IvvSent(), s.down, s.crx, s.stx, ServerStage(c, s.server), e);
    if s.server.Answering? {
      SwitchPushed(c, Pushed(s.down, s.stx, e), s.crx, Apply(c.prim, s.stx, e));
      AskedSwitched(c, s.up, s.srx, s.ctx, s.client);
      SwitchNext(c, s.up, s.srx, s.ctx, ClientStage(c, s.client));
    }
  }

  /** A reader that has every id and a peer that has switched: it switches too. */
  lemma SwitchNext(c: Setup, p: Pipe, rx: Dir, tx: Dir, writer: Stage)
    requires Locked(c.prim, c.key, c.IvvSent(), p, rx, tx, writer)
    requires p.stage == Stage(0, [], false) && writer.switched
    ensures Locked(c.prim, c.key, c.IvvSent(), Popped(p, c.IvvSent()), rx.Rekeyed(c.prim, c.IvvSent()).Completed(), tx, writer)
    ensures Popped(p, c.IvvSent()).stage == Stage(0, [], true)
  {
    hide FlightWire, FlightFrames, FlightEnd, EventOk;
    assert p.flight != [] && p.flight[0] == Rekey(c.IvvSent());
    SwitchHead(c.prim, c.key, c.IvvSent(), p, rx, tx, writer);
  }

  /** What a read of a locked pipe yields, by the reader's stage. */
  ghost predicate Yields(c: Setup, p: Pipe, result: Result<Bytes>, after: Stage) {
    && result.Ok?
    && (p.stage.noise > 0 ==>
          Unpacked(c.key, result.value) == Ok(Dummy) && after == p.stage.(noise := p.stage.noise - 1))
    && (p.stage.noise == 0 && p.stage.ids != [] ==>
          Unpacked(c.key, result.value) == Ok(Session(p.stage.ids[0])) && after == p.stage.(ids := p.stage.ids[1..]))
    && (p.stage.noise == 0 && p.stage.ids == [] && p.stage.switched ==> after == p.stage)
  }

  lemma ReadYields(c: Setup, p: Pipe, rx: Dir, tx: Dir, writer: Stage)
    requires Locked(c.prim, c.key, c.IvvSent(), p, rx, tx, writer) && Readable(rx, p)
    requires p.stage != Stage(0, [], false) && (p.stage.switched ==> p.stage.noise == 0 && p.stage.ids == [])
    ensures var (step, taken) := ReadBuf(rx, p.bytes);
      var after := Taken(p, c.IvvSent(), rx, step.result, taken);
      && step.next == rx.Sent() && Yields(c, p, step.result, after.stage)
      && Locked(c.prim, c.key, c.IvvSent(), after, rx.Sent(), tx, writer)
  {
    hide FlightWire, FlightFrames, FlightEnd, ReadBuf, Unpacked;
    if p.flight == [] {
      NothingToRead(c.prim, c.key, c.IvvSent(), p, rx, tx, writer);
    } else {
      assert !p.flight[0].Rekey?;
      ReadHead(c.prim, c.key, c.IvvSent(), p, rx, tx, writer);
    }
  }

  lemma ClientReadKeeps(c: Setup, s: Net)
    requires c.Valid() && Inv(c, s) && Do(c, s, ClientReads).Some?
    ensures Inv(c, Do(c, s, ClientReads).value)
  {
    hide Locked, ReadBuf, MaxNopPackets, NopRounds, ValidSample, Ivv, Nmux, Effective, Unpacked, Taken, Popped;
    var (step, taken) := ReadBuf(s.crx, s.down.bytes);
    var after := Taken(s.down, c.IvvSent(), s.crx, step.result, taken);
    assert s.down.stage != Stage(0, [], false);
    ReadYields(c, s.down, s.crx, s.stx, ServerStage(c, s.server));
    assert [c.id, c.NmuxSent()][1..] == [c.NmuxSent()] && [c.NmuxSent()][1..] == [];
    if s.client.ReadingMux? {
      MuxAnswer(c);
      assert CheckMux(c.key, c.role, c.NmuxSent()) == if c.Granted() == c.role then Ok(()) else Err(RoleRefused);
      if c.Granted() == c.role {
        AnsweredSwitched(c, after, s.crx.Sent(), s.stx, s.server);
        SwitchNext(c, after, s.crx.Sent(), s.stx, ServerStage(c, s.server));
      }
    }
  }

  /** The client's verdict on the server's answer. */
  lemma MuxAnswer(c: Setup)
    ensures CheckMux(c.key, c.role, c.NmuxSent()) == if c.Granted() == c.role then Ok(()) else Err(RoleRefused)
  {
    hide Nmux, FlagCanary, Effective;
    NmuxCarries(c.key, c.Granted(), c.low);
  }

  /** The verdict on an honest server's answer, whatever the two keys: flags first, then the role. */
  lemma FlagsDecide(a: ObfuscationKey, b: ObfuscationKey, asked: SessionRole, granted: SessionRole, low: u64)
    ensures var agree := && a.masked == b.masked && a.plaintext == b.plaintext && a.deltaEncode == b.deltaEncode
                         && a.shuffleData == b.shuffleData && a.kf % 0x1000 == b.kf % 0x1000;
      CheckMux(a, asked, Nmux(b, granted, low)) ==
        if !agree then Err(FlagsMismatch) else if asked != granted then Err(RoleRefused) else Ok(())
  {
    hide Nmux, FlagCanary;
    NmuxCarries(b, granted, low);
    CanaryPins(a, b);
    CanaryPins(b, a);
  }

  /** An answer without the canary magic, from a peer that embeds none, is judged by its parity alone. */
  lemma NoCanary(key: ObfuscationKey, asked: SessionRole, nmux: u128)
    requires nmux / TWO64 % 0x1_0000_0000_0000 != 0xc0de_c0de_c0de
    ensures CheckMux(key, asked, nmux) ==
      if nmux == 0 then Err(HandshakeFailed)
      else if (nmux % 2 == 1) == (asked == MuxTunnel) then Ok(()) else Err(RoleRefused)
  {
  }

  /** Ids that are zero end the handshake at either end. */
  lemma ZeroRefused(key: ObfuscationKey, role: SessionRole, id: u128, allowBond: bool)
    ensures ClientAfterId(key, Found(0)) == Failed(HandshakeFailed)
    ensures ClientAfterMux(key, role, id, Found(0)) == Failed(HandshakeFailed)
    ensures ServerAfterIvv(allowBond, Found(0)) == Aborted(HandshakeFailed)
  {
  }

  lemma AnsweredSwitched(c: Setup, p: Pipe, rx: Dir, tx: Dir, pc: Server)
    requires Locked(c.prim, c.key, c.IvvSent(), p, rx, tx, ServerStage(c, pc)) && p.stage == Stage(0, [], false)
    ensures ServerStage(c, pc).switched
  {
    ReaderBehind(p.stage, c.IvvSent(), p.flight);
  }

  lemma AskedSwitched(c: Setup, p: Pipe, rx: Dir, tx: Dir, pc: Client)
    requires Locked(c.prim, c.key, c.IvvSent(), p, rx, tx, ClientStage(c, pc)) && p.stage == Stage(0, [], false)
    ensures ClientStage(c, pc).switched
  {
    ReaderBehind(p.stage, c.IvvSent(), p.flight);
  }

  lemma ServerReadKeeps(c: Setup, s: Net)
    requires c.Valid() && Inv(c, s) && Do(c, s, ServerReads).Some?
    ensures Inv(c, Do(c, s, ServerReads).value)
  {
    hide Locked, ReadBuf, MaxNopPackets, NopRounds, ValidSample, Nmux, Effective, Unpacked, Taken;
    ReadYields(c, s.up, s.srx, s.ctx, ClientStage(c, s.client));
    IvvCarriesRole(c.role, c.nonce);
    assert [c.IvvSent()][1..] == [];
  }

  lemma SendKeeps(c: Setup, s: Net, a: Action)
    requires Inv(c, s) && (a.ClientSends? || a.ServerSends?) && Do(c, s, a).Some?
    ensures Inv(c, Do(c, s, a).value)
  {
    hide Locked, EventWire, EventFrames, NopRounds, MaxNopPackets, Nmux, Ivv, Effective;
    if a.ClientSends? {
      PushKeepsLock(c.prim, c.key, c.IvvSent(), s.up, s.srx, s.ctx, ClientStage(c, s.client), Data(a.item));
    } else {
      PushKeepsLock(c.prim, c.key, c.IvvSent(), s.down, s.crx, s.stx, ServerStage(c, s.server), Data(a.item));
    }
  }

  lemma StepKeeps(c: Setup, s: Net, a: Action)
    requires c.Valid() && Inv(c, s) && Do(c, s, a).Some?
    ensures Inv(c, Do(c, s, a).value)
  {
    hide Inv, ClientWrite, ServerWrite, ClientRead, ServerRead;
    match a
    case ClientWrites(draws, wire) => ClientWriteKeeps(c, s, draws, wire);
    case ServerWrites(draws, wire) => ServerWriteKeeps(c, s, draws, wire);
    case ClientReads => ClientReadKeeps(c, s);
    case ServerReads => ServerReadKeeps(c, s);
    case ClientSends(_) => SendKeeps(c, s, a);
    case ServerSends(_) => SendKeeps(c, s, a);
  }

  lemma {:induction false} RunKeeps(c: Setup, s: Net, actions: seq<Action>)
    requires c.Valid() && Inv(c, s) && Run(c, s, actions).Some?
    ensures Inv(c, Run(c, s, actions).value)
    decreases |actions|
  {
    hide Inv, Do;
    if actions != [] {
      StepKeeps(c, s, actions[0]);
      RunKeeps(c, Do(c, s, actions[0]).value, actions[1..]);
    }
  }

  /** The invariant holds in every interleaving, data sent ahead of the confirmation included. */
  lemma ReachableInv(c: Setup, s: Net)
    requires c.Valid() && Reachable(c, s)
    ensures Inv(c, s)
  {
    hide Inv;
    StartInv(c);
    var actions :| Run(c, Start(c), actions) == Some(s);
    RunKeeps(c, Start(c), actions);
  }

  // ----- what the handshake achieves

  /**
   Lockstep: in each direction the frames read are, in order, frames written, each decoded under the
   keys, packet number, first-frame flag and framing mode it was encoded under; and what the pipe
   still holds is exactly the packets of the rest.
   */
  lemma FramesInLockstep(c: Setup, s: Net)
    requires c.Valid() && Reachable(c, s)
    ensures s.up.got <= s.up.sent && s.down.got <= s.down.sent
    ensures s.up.got == s.up.sent <==> s.up.bytes == []
    ensures s.down.got == s.down.sent <==> s.down.bytes == []
  {
    ReachableInv(c, s);
    hide Inv;
    EmptyPipe(c.prim, s.srx, s.up.flight);
    EmptyPipe(c.prim, s.crx, s.down.flight);
  }

  lemma {:induction false} EmptyPipe(prim: Primitives, rx: Dir, flight: seq<Event>)
    ensures FlightWire(prim, rx, flight) == [] <==> FlightFrames(prim, rx, flight) == []
    decreases |flight|
  {
    hide Packet;
    if flight != [] {
      EmptyPipe(prim, Apply(prim, rx, flight[0]), flight[1..]);
      if !flight[0].Rekey? {
        PacketNonempty(rx, flight[0].item.msg, flight[0].item.draws);
      }
    }
  }

  /** A client that succeeds shares id, ivv and role with a server that has succeeded too. */
  lemma Agreement(c: Setup, s: Net)
    requires c.Valid() && Reachable(c, s) && s.client.Up?
    ensures s.client.id == c.id && s.server == Serving(c.IvvSent(), c.role)
  {
    ReachableInv(c, s);
    ReaderBehind(s.down.stage, c.IvvSent(), s.down.flight);
  }

  /** The only way a client of an honest server fails is a bond request where bonds are not allowed. */
  lemma Refusal(c: Setup, s: Net)
    requires c.Valid() && Reachable(c, s)
    ensures !s.server.Aborted?
    ensures s.client.Failed? ==>
      s.client.error == RoleRefused && c.role == BondLink && !c.allowBond && s.server == Serving(c.IvvSent(), MuxTunnel)
    ensures s.client.Up? ==> c.role == MuxTunnel || c.allowBond
  {
    hide Locked, Nmux, Ivv, RoleFromIvv;
    ReachableInv(c, s);
    IvvCarriesRole(c.role, c.nonce);
    if s.client.Failed? {
      AnsweredSwitched(c, s.down, s.crx, s.stx, s.server);
    }
  }

  // ----- which keys and numbers every frame is under

  /** The state frame number `i` is coded in when the first `n` come before the switch. */
  function StateAt(c: Setup, n: nat, i: nat): Dir {
    var d := NewDir(c.prim, c.key);
    if i < n then After(d, i) else After(After(d, n).Rekeyed(c.prim, c.IvvSent()).Completed(), i - n)
  }

  /** Upward, the noise and the ivv come before the switch; downward the noise, the id and the answer. */
  function UpState(c: Setup, i: nat): Dir { StateAt(c, NopRounds(c.clientSample) + 1, i) }

  function DownState(c: Setup, i: nat): Dir { StateAt(c, NopRounds(c.serverSample) + 2, i) }

  /** Every frame sent up so far was coded in its state, and the handshake's own frames mean what they should. */
  ghost predicate UpLogged(c: Setup, s: Net) {
    var sent, n := s.up.sent, NopRounds(c.clientSample);
    && s.ctx == UpState(c, |sent|)
    && (if s.client.Prelude? then |sent| + s.client.left == n else |sent| > n)
    && (forall i :: 0 <= i < |sent| ==> sent[i].d == UpState(c, i))
    && (forall i :: 0 <= i < |sent| && i < n ==> Unpacked(c.key, sent[i].msg) == Ok(Dummy))
    && (n < |sent| ==> Unpacked(c.key, sent[n].msg) == Ok(Session(c.IvvSent())))
  }

  ghost predicate DownLogged(c: Setup, s: Net) {
    var sent, n := s.down.sent, NopRounds(c.serverSample);
    && s.stx == DownState(c, |sent|)
    && (match s.server
        case Greeting(left) => |sent| + left == n
        case Serving(_, _) => |sent| > n + 1
        case Aborted(_) => |sent| > n
        case _ => |sent| == n + 1)
    && (forall i :: 0 <= i < |sent| ==> sent[i].d == DownState(c, i))
    && (forall i :: 0 <= i < |sent| && i < n ==> Unpacked(c.key, sent[i].msg) == Ok(Dummy))
    && (n < |sent| ==> Unpacked(c.key, sent[n].msg) == Ok(Session(c.id)))
    && (n + 1 < |sent| ==> Unpacked(c.key, sent[n + 1].msg) == Ok(Session(c.NmuxSent())))
  }

  lemma AfterNext(d: Dir, i: nat)
    ensures After(d, i).Sent() == After(d, i + 1) && After(d, 0) == d
  {
    AfterAdds(d, i, 1);
    assert After(After(d, i), 1) == After(After(d, i).Sent(), 0);
  }

  lemma StateNext(c: Setup, n: nat, i: nat)
    ensures StateAt(c, n, i + 1) ==
      if i + 1 == n then StateAt(c, n, i).Sent().Rekeyed(c.prim, c.IvvSent()).Completed() else StateAt(c, n, i).Sent()
  {
    var d := NewDir(c.prim, c.key);
    var switched := After(d, n).Rekeyed(c.prim, c.IvvSent()).Completed();
    AfterNext(d, i);
    AfterNext(switched, if i >= n then i - n else 0);
    hide After, NewDir, Ivv;
  }

  /** Nothing was written upwards. */
  lemma UpSame(c: Setup, s: Net, t: Net)
    requires UpLogged(c, s) && t.up.sent == s.up.sent && t.ctx == s.ctx
    requires t.client == s.client || (!s.client.Prelude? && !t.client.Prelude?)
    ensures UpLogged(c, t)
  {
    hide NopRounds, StateAt, Unpacked;
  }

  lemma DownSame(c: Setup, s: Net, t: Net)
    requires DownLogged(c, s) && t.down.sent == s.down.sent && t.stx == s.stx
    requires t.server == s.server
          || (!s.server.Greeting? && t.server.Aborted?)
          || (s.server.ReadingIvv? && (t.server.ReadingIvv? || t.server.Answering?))
    ensures DownLogged(c, t)
  {
    hide NopRounds, StateAt, Unpacked;
  }

  lemma ClientWriteLogs(c: Setup, s: Net, draws: IdDraws, wire: Draws)
    requires c.Valid() && UpLogged(c, s) && DownLogged(c, s) && Do(c, s, ClientWrites(draws, wire)).Some?
    ensures var t := Do(c, s, ClientWrites(draws, wire)).value; UpLogged(c, t) && DownLogged(c, t)
  {
    hide Unpacked, PackedId, NopRounds, StateAt, EventWire, Ivv, ValidDraws, MaxNopPackets, ValidSample, DownLogged;
    var id := ClientId(c, s.client).value;
    IdRoundTrip(c.key, c.key, id, draws);
    IvvCarriesRole(c.role, c.nonce);
    StateNext(c, NopRounds(c.clientSample) + 1, |s.up.sent|);
    DownSame(c, s, Do(c, s, ClientWrites(draws, wire)).value);
  }

  lemma ServerWriteLogs(c: Setup, s: Net, draws: IdDraws, wire: Draws)
    requires c.Valid() && Inv(c, s) && UpLogged(c, s) && DownLogged(c, s) && Do(c, s, ServerWrites(draws, wire)).Some?
    ensures var t := Do(c, s, ServerWrites(draws, wire)).value; UpLogged(c, t) && DownLogged(c, t)
  {
    hide Unpacked, PackedId, NopRounds, StateAt, EventWire, Nmux, Ivv, Effective, ValidDraws, MaxNopPackets, ValidSample;
    hide Locked, UpLogged;
    var id := ServerId(c, s.server).value;
    IdRoundTrip(c.key, c.key, id, draws);
    NmuxCarries(c.key, c.Granted(), c.low);
    StateNext(c, NopRounds(c.serverSample) + 2, |s.down.sent|);
    UpSame(c, s, Do(c, s, ServerWrites(draws, wire)).value);
  }

  lemma ClientSendLogs(c: Setup, s: Net, a: Action)
    requires UpLogged(c, s) && DownLogged(c, s) && a.ClientSends? && Do(c, s, a).Some?
    ensures UpLogged(c, Do(c, s, a).value) && DownLogged(c, Do(c, s, a).value)
  {
    hide Unpacked, NopRounds, StateAt, EventWire, Nmux, Ivv, Effective, DownLogged;
    StateNext(c, NopRounds(c.clientSample) + 1, |s.up.sent|);
    DownSame(c, s, Do(c, s, a).value);
  }

  lemma ServerSendLogs(c: Setup, s: Net, a: Action)
    requires UpLogged(c, s) && DownLogged(c, s) && a.ServerSends? && Do(c, s, a).Some?
    ensures UpLogged(c, Do(c, s, a).value) && DownLogged(c, Do(c, s, a).value)
  {
    hide Unpacked, NopRounds, StateAt, EventWire, Nmux, Ivv, Effective, UpLogged;
    StateNext(c, NopRounds(c.serverSample) + 2, |s.down.sent|);
    UpSame(c, s, Do(c, s, a).value);
  }

  /** Reading, and switching the receiving direction, writes nothing. */
  lemma ReadLogs(c: Setup, s: Net, a: Action)
    requires UpLogged(c, s) && DownLogged(c, s) && (a.ClientReads? || a.ServerReads?) && Do(c, s, a).Some?
    ensures UpLogged(c, Do(c, s, a).value) && DownLogged(c, Do(c, s, a).value)
  {
    hide UpLogged, DownLogged, ReadBuf, CheckMux, MaxNopPackets, Ivv, Effective, IdStep;
    UpSame(c, s, Do(c, s, a).value);
    DownSame(c, s, Do(c, s, a).value);
  }

  lemma StepLogs(c: Setup, s: Net, a: Action)
    requires c.Valid() && Inv(c, s) && UpLogged(c, s) && DownLogged(c, s) && Do(c, s, a).Some?
    ensures UpLogged(c, Do(c, s, a).value) && DownLogged(c, Do(c, s, a).value)
  {
    hide Inv, Do, UpLogged, DownLogged;
    match a
    case ClientWrites(draws, wire) => ClientWriteLogs(c, s, draws, wire);
    case ServerWrites(draws, wire) => ServerWriteLogs(c, s, draws, wire);
    case ClientReads => ReadLogs(c, s, a);
    case ServerReads => ReadLogs(c, s, a);
    case ClientSends(_) => ClientSendLogs(c, s, a);
    case ServerSends(_) => ServerSendLogs(c, s, a);
  }

  lemma {:induction false} RunLogs(c: Setup, s: Net, actions: seq<Action>)
    requires c.Valid() && Inv(c, s) && UpLogged(c, s) && DownLogged(c, s) && Run(c, s, actions).Some?
    ensures UpLogged(c, Run(c, s, actions).value) && DownLogged(c, Run(c, s, actions).value)
    decreases |actions|
  {
    hide Inv, Do, UpLogged, DownLogged;
    if actions != [] {
      StepKeeps(c, s, actions[0]);
      StepLogs(c, s, actions[0]);
      RunLogs(c, Do(c, s, actions[0]).value, actions[1..]);
    }
  }

  /**
   Which keys and number every frame is coded under, in every run: frame `i` of a direction is under
   the password keys and number `i` while it belongs to the handshake, and under the ivv's keys,
   counted from the switch, after it. The handshake's frames are the noise, then the ids.
   */
  lemma FramesKeyed(c: Setup, s: Net)
    requires c.Valid() && Reachable(c, s)
    ensures UpLogged(c, s) && DownLogged(c, s)
  {
    hide Inv, Do, NopRounds, Ivv, Nmux;
    var actions :| Run(c, Start(c), actions) == Some(s);
    StartInv(c);
    AfterNext(NewDir(c.prim, c.key), 0);
    assert UpLogged(c, Start(c)) && DownLogged(c, Start(c));
    RunLogs(c, Start(c), actions);
  }

  // ----- progress

  /** Handshake packets still to be written and to be read, at each end. */
  function ClientLeft(s: Net): nat {
    match s.client
    case Prelude(left) => left + 1 + s.down.stage.noise + 2
    case ReadingId(_) => s.down.stage.noise + 2
    case ReadingMux(_, _) => 1
    case _ => 0
  }

  function ServerLeft(s: Net): nat {
    match s.server
    case Greeting(left) => left + 1 + s.up.stage.noise + 2
    case ReadingIvv(_) => s.up.stage.noise + 2
    case Answering(_, _) => 1
    case _ => 0
  }

  function StepsLeft(s: Net): nat { ClientLeft(s) + ServerLeft(s) }

  predicate Handshaking(s: Net, a: Action) {
    match a
    case ClientWrites(_, _) | ServerWrites(_, _) => true
    case ClientReads => s.client.ReadingId? || s.client.ReadingMux?
    case ServerReads => s.server.ReadingIvv?
    case _ => false
  }

  ghost predicate Counts(c: Setup, s: Net, a: Action)
    requires Do(c, s, a).Some?
  {
    StepsLeft(Do(c, s, a).value) == StepsLeft(s) - if Handshaking(s, a) then 1 else 0
  }

  lemma WritesCount(c: Setup, s: Net, a: Action)
    requires c.Valid() && Inv(c, s) && (a.ClientWrites? || a.ServerWrites?) && Do(c, s, a).Some?
    ensures Counts(c, s, a)
  {
    hide Locked, Apply, EventWire, EventFrames, MaxNopPackets, NopRounds, ValidDraws, PackedId, Ivv, Nmux, Effective, ReadBuf;
    if s.server.Answering? && a.ServerWrites? {
      AskedSwitched(c, s.up, s.srx, s.ctx, s.client);
      SwitchNext(c, s.up, s.srx, s.ctx, ClientStage(c, s.client));
    }
  }

  lemma ReadsCount(c: Setup, s: Net, a: Action)
    requires c.Valid() && Inv(c, s) && (a.ClientReads? || a.ServerReads?) && Do(c, s, a).Some?
    ensures Counts(c, s, a)
  {
    hide Locked, Apply, EventWire, EventFrames, MaxNopPackets, NopRounds, Ivv, Nmux, Effective, ReadBuf, Taken, Unpacked;
    StepKeeps(c, s, a);
    if a.ClientReads? {
      ReadYields(c, s.down, s.crx, s.stx, ServerStage(c, s.server));
    } else {
      ReadYields(c, s.up, s.srx, s.ctx, ClientStage(c, s.client));
    }
  }

  /** Handshake steps bring the end exactly one step nearer, all others leave it where it is. */
  lemma EveryStepCounts(c: Setup, s: Net, a: Action)
    requires c.Valid() && Inv(c, s) && Do(c, s, a).Some?
    ensures Counts(c, s, a)
  {
    hide Inv, Counts, ClientWrite, ServerWrite, ClientRead, ServerRead, Readable, ValidDraws;
    match a
    case ClientWrites(_, _) => WritesCount(c, s, a);
    case ServerWrites(_, _) => WritesCount(c, s, a);
    case ClientReads => ReadsCount(c, s, a);
    case ServerReads => ReadsCount(c, s, a);
    case ClientSends(_) => SendsCount(c, s, a);
    case ServerSends(_) => SendsCount(c, s, a);
  }

  lemma SendsCount(c: Setup, s: Net, a: Action)
    requires (a.ClientSends? || a.ServerSends?) && Do(c, s, a).Some?
    ensures Counts(c, s, a)
  {
    hide EventWire, EventFrames;
  }

  function SomeDraws(key: ObfuscationKey, id: u128): (draws: IdDraws)
    ensures ValidDraws(key, id, draws)
  {
    var max := key.kx % 0x100;
    IdDraws([if id == 0 then 0x80 else 0, 1, 1, 1], 1, 0x20, seq(max, _ => 0x20), if max == 0 then [] else [0x20])
  }

  const SOME_WIRE: Draws := Draws(1, Base94.Draw(0x20, 0x20))

  /** An id the writer has sent and the reader has not had is readable now. */
  lemma IdWaiting(c: Setup, p: Pipe, rx: Dir, tx: Dir, writer: Stage)
    requires Locked(c.prim, c.key, c.IvvSent(), p, rx, tx, writer)
    requires p.stage.ids != [] && writer == Stage(0, [], true)
    ensures Readable(rx, p)
  {
    hide FlightWire, FlightFrames, FlightEnd, ReadBuf, EventOk;
    assert p.flight != [] && !p.flight[0].Rekey?;
    ReadHead(c.prim, c.key, c.IvvSent(), p, rx, tx, writer);
  }

  /** No reachable state is stuck: until both ends are through, one of them has a handshake step to take. */
  lemma Progress(c: Setup, s: Net) returns (a: Action)
    requires c.Valid() && Reachable(c, s) && StepsLeft(s) > 0
    ensures Handshaking(s, a) && Do(c, s, a).Some?
  {
    ReachableInv(c, s);
    a := NextStep(c, s);
  }

  lemma NextStep(c: Setup, s: Net) returns (a: Action)
    requires c.Valid() && Inv(c, s) && StepsLeft(s) > 0
    ensures Handshaking(s, a) && Do(c, s, a).Some?
  {
    hide Locked, Readable, ValidDraws, ClientWrite, ServerWrite, ClientRead, ServerRead, Ivv, Nmux, Effective, NopRounds;
    if s.client.Prelude? {
      a := ClientWrites(SomeDraws(c.key, ClientId(c, s.client).value), SOME_WIRE);
    } else if s.server.Greeting? || s.server.Answering? {
      a := ServerWrites(SomeDraws(c.key, ServerId(c, s.server).value), SOME_WIRE);
    } else if s.server.ReadingIvv? {
      IdWaiting(c, s.up, s.srx, s.ctx, ClientStage(c, s.client));
      a := ServerReads;
    } else {
      IdWaiting(c, s.down, s.crx, s.stx, ServerStage(c, s.server));
      a := ClientReads;
    }
  }

  /** How many steps of a run belong to the handshake. */
  ghost function HandshakeSteps(c: Setup, s: Net, actions: seq<Action>): nat
    requires Run(c, s, actions).Some?
    decreases |actions|
  {
    if actions == [] then 0
    else (if Handshaking(s, actions[0]) then 1 else 0) + HandshakeSteps(c, Do(c, s, actions[0]).value, actions[1..])
  }

  lemma {:induction false} RunCounts(c: Setup, s: Net, actions: seq<Action>)
    requires c.Valid() && Inv(c, s) && Run(c, s, actions).Some?
    ensures HandshakeSteps(c, s, actions) + StepsLeft(Run(c, s, actions).value) == StepsLeft(s)
    decreases |actions|
  {
    hide Inv, Do;
    if actions != [] {
      StepKeeps(c, s, actions[0]);
      EveryStepCounts(c, s, actions[0]);
      RunCounts(c, Do(c, s, actions[0]).value, actions[1..]);
    }
  }

  /**
   Every run takes at most a fixed number of handshake steps, however much data is interleaved; one
   that takes them all ends with the server serving and the client up, or refused where the server
   grants another role.
   */
  lemma Termination(c: Setup, actions: seq<Action>)
    requires c.Valid() && Run(c, Start(c), actions).Some?
    ensures var s, n := Run(c, Start(c), actions).value, HandshakeSteps(c, Start(c), actions);
      var all := 2 * (NopRounds(c.clientSample) + NopRounds(c.serverSample) + 3);
      && n <= all
      && (n == all <==> s.server == Serving(c.IvvSent(), c.Granted())
                        && s.client == if c.Granted() == c.role then Up(c.id) else Failed(RoleRefused))
  {
    hide NopRounds, Inv, Do, Run, HandshakeSteps;
    StartInv(c);
    RunCounts(c, Start(c), actions);
    RunKeeps(c, Start(c), actions);
    AllThrough(c, Run(c, Start(c), actions).value);
  }

  lemma StartInv(c: Setup)
    requires c.Valid()
    ensures Inv(c, Start(c))
    ensures StepsLeft(Start(c)) == 2 * (NopRounds(c.clientSample) + NopRounds(c.serverSample) + 3)
  {
    hide NopRounds, Ivv, Nmux, Effective;
  }

  lemma AllThrough(c: Setup, s: Net)
    requires Inv(c, s)
    ensures StepsLeft(s) == 0 <==>
      && s.server == Serving(c.IvvSent(), c.Granted())
      && s.client == if c.Granted() == c.role then Up(c.id) else Failed(RoleRefused)
  {
    hide Locked, NopRounds, Ivv, Nmux, Effective;
  }

  /** From every state of a run the handshake can still be brought to its end. */
  lemma {:induction false} CanFinish(c: Setup, s: Net) returns (actions: seq<Action>)
    requires c.Valid() && Inv(c, s)
    ensures Run(c, s, actions).Some? && Inv(c, Run(c, s, actions).value) && StepsLeft(Run(c, s, actions).value) == 0
    decreases StepsLeft(s)
  {
    hide Inv, Do, StepsLeft;
    if StepsLeft(s) == 0 {
      actions := [];
    } else {
      var a := NextStep(c, s);
      StepKeeps(c, s, a);
      EveryStepCounts(c, s, a);
      var rest := CanFinish(c, Do(c, s, a).value);
      actions := [a] + rest;
      assert actions[1..] == rest;
    }
  }
}
