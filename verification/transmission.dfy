/** The per-direction codec cores: ciphers, framer and handshake flag, updated packet by packet. */
module Transmission {
  import opened Bits
  import opened Errors
  import opened Limits
  import opened Config
  import opened SessionCiphers
  import opened Wire
  import Base94
  import Binary
  import Framer

  class TxCore {
    const prim: Primitives
    const key: ObfuscationKey
    const b94: Framer.Base94Framer
    var protocolTx: SessionCipher
    var transportTx: SessionCipher
    var handshaked: bool

    ghost predicate Valid()
      reads this, protocolTx, transportTx
    {
      protocolTx != transportTx && protocolTx.encrypting && transportTx.encrypting && b94.p == Base94.Derive(key.kf)
    }

    ghost function State(): Dir
      reads this, b94, protocolTx, transportTx
    {
      Dir(key, b94.p, protocolTx.keyed, transportTx.keyed, protocolTx.counter, transportTx.counter, b94.txFirst, handshaked)
    }

    constructor (prim: Primitives, key: ObfuscationKey)
      ensures Valid() && fresh(b94) && fresh(protocolTx) && fresh(transportTx)
      ensures State() == NewDir(prim, key) && this.prim == prim
    {
      this.prim, this.key := prim, key;
      b94 := new Framer.Base94Framer(key.kf);
      protocolTx := new SessionCipher(Derived(prim, key.protocol, Protocol, key.protocolKey, None), true);
      transportTx := new SessionCipher(Derived(prim, key.transport, Transport, key.transportKey, None), true);
      handshaked := false;
    }

    /**
     One message, `prefix` then `payload`, appended to `out` as a complete wire packet. A rejected
     message leaves all state alone; an accepted one advances both ciphers by one packet.
     */
    method EncryptImpl(out: Bytes, prefix: Bytes, payload: Bytes, draws: Draws) returns (r: Result<()>, out': Bytes)
      requires Valid() && draws.Valid()
      modifies b94, protocolTx, transportTx
      ensures Valid()
      ensures r.Ok? <==> Sendable(prefix + payload)
      ensures r.Ok? ==> out' == out + Packet(old(State()), prefix + payload, draws) && State() == old(State()).Sent()
      ensures r.Err? ==> out' == out && State() == old(State())
      ensures r.Err? ==> r == Err(if prefix + payload == [] then ZeroLength else FrameTooLarge)
    {
      var total := |payload| + |prefix|;
      if total == 0 {
        return Err(ZeroLength), out;
      }
      if total > PPP_BUFFER_SIZE {
        return Err(FrameTooLarge), out;
      }
      var bin := Assemble(prefix + payload, draws.seed);
      if !handshaked || key.plaintext {
        Base94.EncodedFits(bin, key.kf);
        r, out' := b94.EncodeFrame(out, bin, draws.header);
      } else {
        r, out' := Ok(()), out + bin;
      }
    }

    /** Encrypted header and transformed body; both ciphers advance. */
    method Assemble(msg: Bytes, seed: byte) returns (bin: Bytes)
      requires Valid() && Sendable(msg)
      modifies protocolTx, transportTx
      ensures Valid() && bin == BinaryPacket(old(State()), msg, seed)
      ensures State() == old(State()).(pseq := Advance(old(protocolTx.counter)), tseq := Advance(old(transportTx.counter)))
    {
      var encrypted := Binary.HeaderEncrypt(key.kf, protocolTx, |msg|, seed);
      var (header, headerKf) := encrypted.value;
      var body := Framer.ToArray(msg);
      transportTx.Apply(body);
      Binary.PayloadObfuscate(body, EffectiveFlags(key, handshaked), headerKf, key.kf);
      bin := header + body[..];
    }

    /** New key material from the connection's ivv; packet numbers start over. */
    method Rekey(ivv: u128)
      requires Valid()
      modifies this
      ensures Valid() && State() == old(State()).Rekeyed(prim, ivv)
      ensures fresh(protocolTx) && fresh(transportTx)
    {
      protocolTx := new SessionCipher(Derived(prim, key.protocol, Protocol, key.protocolKey, Some(ivv)), true);
      transportTx := new SessionCipher(Derived(prim, key.transport, Transport, key.transportKey, Some(ivv)), true);
    }

    method OnHandshakeComplete()
      requires Valid()
      modifies this`handshaked
      ensures Valid() && State() == old(State()).Completed()
    {
      handshaked := true;
    }
  }

  class RxCore {
    const prim: Primitives
    const key: ObfuscationKey
    const b94: Framer.Base94Framer
    var protocolRx: SessionCipher
    var transportRx: SessionCipher
    var handshaked: bool

    ghost predicate Valid()
      reads this, protocolRx, transportRx
    {
      protocolRx != transportRx && !protocolRx.encrypting && !transportRx.encrypting && b94.p == Base94.Derive(key.kf)
    }

    ghost function State(): Dir
      reads this, b94, protocolRx, transportRx
    {
      Dir(key, b94.p, protocolRx.keyed, transportRx.keyed, protocolRx.counter, transportRx.counter, b94.rxFirst, handshaked)
    }

    constructor (prim: Primitives, key: ObfuscationKey)
      ensures Valid() && fresh(b94) && fresh(protocolRx) && fresh(transportRx)
      ensures State() == NewDir(prim, key) && this.prim == prim
    {
      this.prim, this.key := prim, key;
      b94 := new Framer.Base94Framer(key.kf);
      protocolRx := new SessionCipher(Derived(prim, key.protocol, Protocol, key.protocolKey, None), false);
      transportRx := new SessionCipher(Derived(prim, key.transport, Transport, key.transportKey, None), false);
      handshaked := false;
    }

    /** Header off a whole binary packet, length check, then the body in place past the header. */
    method DecryptTailOf(bin: Bytes) returns (r: Result<Bytes>)
      requires Valid()
      modifies protocolRx, transportRx
      ensures Valid() && Step(r, State()) == DecryptTail(old(State()), bin)
    {
      if |bin| <= HEADER_SIZE {
        return Err(InvalidFrame);
      }
      var length, headerKf := Binary.HeaderDecrypt(key.kf, protocolRx, bin[..HEADER_SIZE]);
      if length + HEADER_SIZE != |bin| {
        return Err(InvalidFrame);
      }
      var msg := DecryptBody(headerKf, bin[HEADER_SIZE..]);
      return Ok(msg);
    }

    method DecryptBody(headerKf: u32, bytes: Bytes) returns (msg: Bytes)
      requires Valid() && |bytes| <= PPP_BUFFER_SIZE
      modifies transportRx
      ensures Valid() && msg == Body(old(State()), headerKf, bytes) && State() == BodyRead(old(State()))
    {
      var body := Framer.ToArray(bytes);
      Binary.PayloadDeobfuscate(body, EffectiveFlags(key, handshaked), headerKf, key.kf);
      transportRx.Apply(body);
      msg := body[..];
    }

    /** One complete wire packet held in memory. */
    method DecryptPacket(packet: Bytes) returns (r: Result<Bytes>)
      requires Valid()
      modifies b94, protocolRx, transportRx
      ensures Valid() && Step(r, State()) == Decrypt(old(State()), packet)
    {
      if !handshaked || key.plaintext {
        var bin := b94.DecodePacketInto(packet);
        if bin.Err? {
          return Err(bin.error);
        }
        r := DecryptTailOf(bin.value);
      } else {
        r := DecryptTailOf(packet);
      }
    }

    /** One message off a blocking stream; `rest` is what the stream still holds. */
    method ReadFrom(stream: Bytes) returns (r: Result<Bytes>, rest: Bytes)
      requires Valid()
      modifies b94, protocolRx, transportRx
      ensures Valid()
      ensures var (step, taken) := ReadBuf(old(State()), stream);
        Step(r, State()) == step && taken <= |stream| && rest == stream[taken..]
    {
      if !handshaked || key.plaintext {
        var bin;
        bin, rest := b94.ReadFrameInto(stream);
        if bin.Err? {
          return Err(bin.error), rest;
        }
        r := DecryptTailOf(bin.value);
      } else {
        if |stream| < HEADER_SIZE {
          return Err(Io), [];
        }
        var length, headerKf := Binary.HeaderDecrypt(key.kf, protocolRx, stream[..HEADER_SIZE]);
        if |stream| < HEADER_SIZE + length {
          return Err(Io), [];
        }
        var msg := DecryptBody(headerKf, stream[HEADER_SIZE..HEADER_SIZE + length]);
        r, rest := Ok(msg), stream[HEADER_SIZE + length..];
      }
    }

    method Rekey(ivv: u128)
      requires Valid()
      modifies this
      ensures Valid() && State() == old(State()).Rekeyed(prim, ivv)
      ensures fresh(protocolRx) && fresh(transportRx)
    {
      protocolRx := new SessionCipher(Derived(prim, key.protocol, Protocol, key.protocolKey, Some(ivv)), false);
      transportRx := new SessionCipher(Derived(prim, key.transport, Transport, key.transportKey, Some(ivv)), false);
    }

    method OnHandshakeComplete()
      requires Valid()
      modifies this`handshaked
      ensures Valid() && State() == old(State()).Completed()
    {
      handshaked := true;
    }
  }
}
