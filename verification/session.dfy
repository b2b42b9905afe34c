/** The transport-free receiving half: incremental decoding out of the caller's buffer. */
module Session {
  import opened Bits
  import opened Errors
  import opened SessionCiphers
  import opened Wire
  import opened Transmission
  import Base94
  import Binary

  class SessionRx {
    const core: RxCore
    /** A binary header already taken off the buffer whose body is still incomplete. */
    var pending: Pending
    /** Bytes of the caller's buffer occupied by the last frame returned. */
    var consumed: nat

    ghost predicate Valid()
      reads this, core, core.protocolRx, core.transportRx
    {
      core.Valid()
    }

    constructor (core: RxCore)
      requires core.Valid()
      ensures this.core == core && pending == None && consumed == 0
    {
      this.core := core;
      pending, consumed := None, 0;
    }

    /** At most one frame off the front of `buf`, which comes back as `buf'`. */
    method PollFrame(buf: Bytes) returns (r: Result<Option<Bytes>>, buf': Bytes)
      requires Valid()
      modifies this, core.b94, core.protocolRx, core.transportRx
      ensures Valid()
      ensures var p := Wire.PollFrame(old(core.State()), old(pending), buf);
        && r == p.result && core.State() == p.next && pending == p.pending && buf' == p.buf
        && consumed == if r.Ok? && r.value.Some? then p.consumed else old(consumed)
    {
      buf' := buf;
      if !core.handshaked || core.key.plaintext {
        // The envelope header is not encrypted, so peeking touches no cipher.
        var peek := Base94.PeekFrameLen(core.b94.p, core.b94.rxFirst, buf);
        if peek.Err? {
          return Err(peek.error), buf;
        }
        if peek.value.None? || |buf| < peek.value.value {
          return Ok(None), buf;
        }
        var total := peek.value.value;
        var msg := core.DecryptPacket(buf[..total]);
        if msg.Err? {
          return Err(msg.error), buf;
        }
        consumed := total;
        r := Ok(Some(msg.value));
      } else {
        r, buf' := PollBinary(buf);
      }
    }

    method PollBinary(buf: Bytes) returns (r: Result<Option<Bytes>>, buf': Bytes)
      requires Valid() && !core.State().Enveloped()
      modifies this, core.protocolRx, core.transportRx
      ensures Valid()
      ensures var p := Wire.PollFrame(old(core.State()), old(pending), buf);
        && r == p.result && core.State() == p.next && pending == p.pending && buf' == p.buf
        && consumed == if r.Ok? && r.value.Some? then p.consumed else old(consumed)
    {
      buf' := buf;
      if pending.None? {
        if |buf| < HEADER_SIZE {
          return Ok(None), buf;
        }
        var length, headerKf := Binary.HeaderDecrypt(core.key.kf, core.protocolRx, buf[..HEADER_SIZE]);
        buf' := buf[HEADER_SIZE..];
        pending := Some((length, headerKf));
      }
      var (length, headerKf) := pending.value;
      if |buf'| < length {
        return Ok(None), buf';
      }
      var msg := core.DecryptBody(headerKf, buf'[..length]);
      buf' := msg + buf'[length..];
      pending, consumed := None, length;
      r := Ok(Some(msg));
    }

    method TakeConsumed() returns (n: nat)
      modifies this`consumed
      ensures n == old(consumed) && consumed == 0
    {
      n := consumed;
      consumed := 0;
    }

    predicate IsFramePending()
      reads this
    {
      pending.Some?
    }
  }
}
