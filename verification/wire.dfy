/** One direction of a connection as a pure codec: packets out, packets in, and the state both ends must share. */
module Wire {
  import opened Bits
  import opened Errors
  import opened Limits
  import opened Config
  import opened SessionCiphers
  import Binary
  import Base94
  import Framer

  const HEADER_SIZE := Binary.HEADER_SIZE

  /**
   Everything one direction's coding depends on: the keyed ciphers with their packet counters, the
   base94 first-frame flag and whether the handshake is over. The sender advances it per packet
   sent, the receiver per packet read.
   */
  datatype Dir = Dir(
    key: ObfuscationKey, p: Base94.Obfuscation,
    protocol: Keyed, transport: Keyed,
    pseq: u64, tseq: u64, first: bool, handshaked: bool)
  {
    /** Before the handshake, and in plaintext mode always. */
    predicate Enveloped() { !handshaked || key.plaintext }

    function Flags(): Binary.PayloadFlags { EffectiveFlags(key, handshaked) }

    /** The state after one more packet. */
    function Sent(): Dir {
      this.(pseq := Advance(pseq), tseq := Advance(tseq), first := first && !Enveloped())
    }

    function Rekeyed(prim: Primitives, ivv: u128): Dir {
      this.(protocol := Derived(prim, key.protocol, Protocol, key.protocolKey, Some(ivv)),
            transport := Derived(prim, key.transport, Transport, key.transportKey, Some(ivv)),
            pseq := 0, tseq := 0)
    }

    function Completed(): Dir { this.(handshaked := true) }
  }

  function EffectiveFlags(key: ObfuscationKey, handshaked: bool): Binary.PayloadFlags {
    if handshaked then Binary.PayloadFlags(key.masked, key.shuffleData, key.deltaEncode) else Binary.SAFEST
  }

  function NewDir(prim: Primitives, key: ObfuscationKey): Dir {
    Dir(key, Base94.Derive(key.kf),
        Derived(prim, key.protocol, Protocol, key.protocolKey, None),
        Derived(prim, key.transport, Transport, key.transportKey, None),
        0, 0, true, false)
  }

  // ----- sending

  /** The random draws of one packet. */
  datatype Draws = Draws(seed: byte, header: Base94.Draw) {
    predicate Valid() { seed >= 1 && header.Valid() }
  }

  predicate Sendable(msg: Bytes) { 1 <= |msg| <= PPP_BUFFER_SIZE }

  /** Encrypted header and transformed body. */
  function BinaryPacket(d: Dir, msg: Bytes, seed: byte): (r: Bytes)
    requires Sendable(msg)
    ensures |r| == HEADER_SIZE + |msg|
  {
    Binary.EncryptedHeader(d.key.kf, d.protocol, d.pseq, |msg|, seed)
    + Binary.Obfuscated(Applied(d.transport, d.tseq, true, msg), d.Flags(), XorWord(d.key.kf, seed), d.key.kf)
  }

  /** The complete wire packet of a message. */
  function Packet(d: Dir, msg: Bytes, draws: Draws): Bytes
    requires Sendable(msg) && draws.Valid()
  {
    var bin := BinaryPacket(d, msg, draws.seed);
    if d.Enveloped() then Base94.Frame(d.p, d.first, bin, draws.header) else bin
  }

  // ----- receiving

  /** A result together with the state it leaves; a failure may have advanced the state too. */
  datatype Step<+T> = Step(result: Result<T>, next: Dir)

  /** A decrypted binary header: body length and header key. */
  type BinaryHeader = h: (nat, u32) | 1 <= h.0 <= PPP_BUFFER_SIZE witness (1, 0)

  function Header(d: Dir, h: Bytes): BinaryHeader
    requires |h| == HEADER_SIZE
  {
    Binary.DecryptedHeader(d.key.kf, d.protocol, d.pseq, h)
  }

  function HeaderRead(d: Dir): Dir { d.(pseq := Advance(d.pseq)) }

  /** Undoes the payload transforms and the transport cipher. */
  function Body(d: Dir, headerKf: u32, body: Bytes): Bytes
    requires |body| <= PPP_BUFFER_SIZE
    ensures |Body(d, headerKf, body)| == |body|
  {
    Applied(d.transport, d.tseq, false, Binary.Deobfuscated(body, d.Flags(), headerKf, d.key.kf))
  }

  function BodyRead(d: Dir): Dir { d.(tseq := Advance(d.tseq)) }

  /** A whole binary packet held in memory; its declared length must match. */
  function DecryptTail(d: Dir, bin: Bytes): Step<Bytes>
  {
    if |bin| <= HEADER_SIZE then Step(Err(InvalidFrame), d)
    else
      var (length, headerKf) := Header(d, bin[..HEADER_SIZE]);
      var d1 := HeaderRead(d);
      if length + HEADER_SIZE != |bin| then Step(Err(InvalidFrame), d1)
      else Step(Ok(Body(d1, headerKf, bin[HEADER_SIZE..])), BodyRead(d1))
  }

  /** In-memory decryption of one complete wire packet. */
  function Decrypt(d: Dir, packet: Bytes): Step<Bytes>
  {
    if d.Enveloped() then
      match Base94.DecodePacket(d.p, d.first, packet)
      case Err(e) => Step(Err(e), d)
      case Ok(bin) => DecryptTail(d.(first := false), bin)
    else DecryptTail(d, packet)
  }

  /** Blocking read of one message off a stream: step and bytes taken. */
  function ReadBuf(d: Dir, stream: Bytes): (Step<Bytes>, nat)
  {
    if d.Enveloped() then
      var read := Framer.ReadFrame(d.p, d.first, stream);
      match read.result
      case Err(e) => (Step(Err(e), d), read.taken)
      case Ok(bin) => (DecryptTail(d.(first := false), bin), read.taken)
    else if |stream| < HEADER_SIZE then (Step(Err(Io), d), |stream|)
    else
      var (length, headerKf) := Header(d, stream[..HEADER_SIZE]);
      var d1 := HeaderRead(d);
      var end := HEADER_SIZE + length;
      if |stream| < end then (Step(Err(Io), d1), |stream|)
      else (Step(Ok(Body(d1, headerKf, stream[HEADER_SIZE..end])), BodyRead(d1)), end)
  }

  /** A binary header already consumed whose body is still arriving. */
  type Pending = Option<BinaryHeader>

  /** Outcome of one poll: the message if a frame was complete, the state, and the caller's buffer. */
  datatype Poll = Poll(result: Result<Option<Bytes>>, next: Dir, pending: Pending, buf: Bytes, consumed: nat)

  function PollFrame(d: Dir, pending: Pending, buf: Bytes): Poll
  {
    if d.Enveloped() then
      match Base94.PeekFrameLen(d.p, d.first, buf)
      case Err(e) => Poll(Err(e), d, pending, buf, 0)
      case Ok(None) => Poll(Ok(None), d, pending, buf, 0)
      case Ok(Some(total)) =>
        if |buf| < total then Poll(Ok(None), d, pending, buf, 0)
        else
          var s := Decrypt(d, buf[..total]);
          if s.result.Err? then Poll(Err(s.result.error), s.next, pending, buf, 0)
          else Poll(Ok(Some(s.result.value)), s.next, pending, buf, total)
    else if pending.None? && |buf| < HEADER_SIZE then Poll(Ok(None), d, None, buf, 0)
    else if pending.None? then
      PollBody(HeaderRead(d), Header(d, buf[..HEADER_SIZE]), buf[HEADER_SIZE..])
    else PollBody(d, pending.value, buf)
  }

  function PollBody(d: Dir, header: BinaryHeader, buf: Bytes): Poll
  {
    if |buf| < header.0 then Poll(Ok(None), d, Some(header), buf, 0)
    else Poll(Ok(Some(Body(d, header.1, buf[..header.0]))), BodyRead(d), None, Deciphered(d, header, buf), header.0)
  }

  /** The body is deciphered inside the caller's buffer. */
  function Deciphered(d: Dir, header: BinaryHeader, buf: Bytes): Bytes
    requires header.0 <= |buf|
  {
    Body(d, header.1, buf[..header.0]) + buf[header.0..]
  }

  // ----- what the receiver recovers

  /** The body of an honest packet, at the sender's packet number. */
  lemma BodyInverts(d: Dir, msg: Bytes, seed: byte)
    requires Sendable(msg)
    ensures var bin := BinaryPacket(d, msg, seed);
      && Header(d, bin[..HEADER_SIZE]) == (|msg|, XorWord(d.key.kf, seed))
      && Body(HeaderRead(d), XorWord(d.key.kf, seed), bin[HEADER_SIZE..]) == msg
  {
    var headerKf := XorWord(d.key.kf, seed);
    var c := Applied(d.transport, d.tseq, true, msg);
    var h := Binary.EncryptedHeader(d.key.kf, d.protocol, d.pseq, |msg|, seed);
    var o := Binary.Obfuscated(c, d.Flags(), headerKf, d.key.kf);
    assert (h + o)[..HEADER_SIZE] == h && (h + o)[HEADER_SIZE..] == o;
    Binary.HeaderInverts(d.key.kf, d.protocol, d.pseq, |msg|, seed);
    Binary.ObfuscationInverts(c, d.Flags(), headerKf, d.key.kf);
    AppliedInverts(d.transport, d.tseq, msg);
  }

  lemma TailInverts(d: Dir, e: Dir, msg: Bytes, seed: byte)
    requires Sendable(msg) && e == d.(first := e.first)
    ensures DecryptTail(e, BinaryPacket(d, msg, seed)) == Step(Ok(msg), BodyRead(HeaderRead(e)))
  {
    BodyInverts(d, msg, seed);
    assert BinaryPacket(e, msg, seed) == BinaryPacket(d, msg, seed);
  }

  /** Any of the three complete-packet readers gets the message back and ends in the sender's next state. */
  lemma PacketRoundTrip(d: Dir, msg: Bytes, draws: Draws, rest: Bytes)
    requires Sendable(msg) && draws.Valid()
    ensures var w := Packet(d, msg, draws);
      && Decrypt(d, w) == Step(Ok(msg), d.Sent())
      && ReadBuf(d, w + rest) == (Step(Ok(msg), d.Sent()), |w|)
  {
    var bin := BinaryPacket(d, msg, draws.seed);
    var w := Packet(d, msg, draws);
    if d.Enveloped() {
      Base94.FrameRoundTrip(d.p, d.first, bin, draws.header, rest);
      Framer.ReadFront(d.p, d.first, w, rest);
      TailInverts(d, d.(first := false), msg, draws.seed);
    } else {
      TailInverts(d, d, msg, draws.seed);
      BodyInverts(d, msg, draws.seed);
      assert (w + rest)[..HEADER_SIZE] == bin[..HEADER_SIZE];
      assert (w + rest)[HEADER_SIZE..|w|] == bin[HEADER_SIZE..];
    }
  }

  lemma PacketNonempty(d: Dir, msg: Bytes, draws: Draws)
    requires Sendable(msg) && draws.Valid()
    ensures Packet(d, msg, draws) != []
  {
    hide Packet, BinaryPacket;
    PacketRoundTrip(d, msg, draws, []);
    assert Packet(d, msg, draws) + [] == Packet(d, msg, draws);
  }

  /** The three readers of one complete packet accept together, with the same message and next state. */
  ghost predicate Agree(d: Dir, packet: Bytes) {
    var a, b, c := Decrypt(d, packet), ReadBuf(d, packet), PollFrame(d, None, packet);
    && (a.result.Ok? <==> b.0.result.Ok? && b.1 == |packet|)
    && (a.result.Ok? <==> c.result.Ok? && c.result.value.Some? && c.consumed == |c.buf|)
    && (a.result.Ok? ==> b.0 == a && c.result.value == Some(a.result.value) && c.next == a.next && c.pending == None)
  }

  lemma EnvelopedPathsAgree(d: Dir, packet: Bytes)
    requires d.Enveloped()
    ensures Agree(d, packet)
  {
    hide Base94.DecodePacket, Base94.PeekFrameLen, Framer.ReadFrame, DecryptTail;
    Framer.ReadIsDecode(d.p, d.first, packet);
    assert packet[..|packet|] == packet;
  }

  lemma BinaryPathsAgree(d: Dir, packet: Bytes)
    requires !d.Enveloped()
    ensures Agree(d, packet)
  {
    hide Body, Header;
    if |packet| > HEADER_SIZE {
      var end := HEADER_SIZE + Header(d, packet[..HEADER_SIZE]).0;
      if end == |packet| {
        assert packet[HEADER_SIZE..end] == packet[HEADER_SIZE..];
        assert packet[HEADER_SIZE..][..end - HEADER_SIZE] == packet[HEADER_SIZE..];
      }
    }
  }

  /** On any bytes forming one complete packet, honest or not, streaming, in-memory and polling readers agree. */
  lemma PathsAgree(d: Dir, packet: Bytes)
    ensures Agree(d, packet)
  {
    if d.Enveloped() {
      EnvelopedPathsAgree(d, packet);
    } else {
      BinaryPathsAgree(d, packet);
    }
  }
}
