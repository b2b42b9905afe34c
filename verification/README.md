# Verification of the nextppp protocol stack

A Dafny model of the protocol stack in `crates/core`, the tunnel and link drivers in `crates/common`, and the
stream bookkeeping of `crates/client` and `crates/server`, with proofs of what they promise. `dafny verify
dfyconfig.toml` checks all of it.

The model has three layers.

* **Codec.** A message is enciphered, given a three-byte header, masked, shuffled and delta coded, and wrapped in a
  printable envelope before the handshake is over (and always in plaintext mode). `Ssea`, `Simd`, `Cipher`,
  `SessionCiphers`, `Checksum`, `Base94`, `Framer` and `Binary` model the parts, in place on arrays where the source
  works in place, and prove each fast form equal to a simple one. `Wire` states one direction as a pure codec with
  all its hidden state (`Dir`); the classes of `Transmission` and `Session` are proved against it, and `PacketForm` says
  which bytes a packet consists of, under which keys and numbers, in terms of the primitives. `Incremental` proves
  that chunking does not matter.
* **Handshake.** `Handshake` models the id packets, role tags and canary; `Endpoint` the blocking code of each end;
  `Lockstep` one pipe with the packets in flight; `HandshakeProtocol` all interleavings of both ends, over the actual
  bytes; the blocking code is proved to run as steps of it (`Endpoint.ConfirmRuns` and its neighbours).
  The proofs follow the code, in which the server reads the ivv before it answers.
* **Tunnels.** `Mux` models frames and varints, `Tunnel` the batching writer and the reassembling reader, `Link` the
  byte stream adapters, `MuxProtocol` the registries, demux loops and pumps of both ends as a transition system whose
  steps follow the locks, channel operations and awaits of the tasks, and `Pool` the stream counter and the tunnel
  maintainer in the same way.

`Vectors` holds byte-level examples from the repository's tests, proved of the model. They are no general results: they
pin the formats, which the laws alone leave open, and close the table below, marked as examples.

Block ciphers, the ChaCha20 keystream and the key derivation are arbitrary functions (`Primitives`). Random draws are
parameters constrained to their ranges. Machine words are bounded integers and every wrap-around is written out;
exclusive or is defined digit by digit in `Bits`. Two bit fields that do not overlap are combined by addition.

Where the code and its own texts disagree, the model follows the code:

* `crates/core/src/transmission.rs:628-631` and `crates/core/README.md:528-537` say the server sends its answer before
  it reads the ivv; the code at `crates/core/src/transmission.rs:715-739` reads first.
* `crates/core/src/frame/base94.rs:7-8` shows one byte more than the headers have: the second byte is filler or the
  first digit, not both.
* `crates/common/src/tunnel.rs:234-236` calls the end a clean one. The reader gives the same answer when the carrier ends
  inside a frame: `Tunnel.EndsInsideFrame` is a concrete input for each carrier, `Tunnel.EveryCutLooksClean` covers every
  frame and cut, and `Tunnel.EndOnBoundary` says exactly when the end was clean.
* `crates/server/src/lib.rs:163-166` and `519-521` say that leaving the demux loop closes every stream's channel. Each
  stream task holds the same shared map: `MuxProtocol.EntryOutlivesLoop` is a run after which a live stream keeps its
  entry, and `MuxProtocol.EntriesOutliveLoop` says for all runs exactly when an entry still stands.
* `crates/client/src/pool.rs:167-169` says concurrent refill rounds cannot overshoot the pool size.
  `Pool.OvershootReachable` is a run, for every size, that does; `Pool.RoundExact`, `Pool.SlipOvershoots` and
  `Pool.NoSlipNoOvershoot` say exactly which second read makes a round overshoot, and `Pool.PoolTarget` by how much at most.

## Model

| member | source | states |
|---|---|---|
| Incremental.ChunkingDoesNotMatter | crates/core/src/session.rs:196-249 | from any synchronised reader, header already taken or not, every way of cutting the rest of the wire bytes into chunks makes the append, poll, drain loop yield exactly the remaining messages in order and end at the state after the last packet, with an empty buffer and no pending header |
| Incremental.FreshReaderRecovers | crates/core/src/session.rs:196-249 | the same from a new reader: for every key, every list of messages and random draws, every chunking |
| Incremental.PollAdvances | crates/core/src/session.rs:196-249 | one poll either delivers the next message and stays in step with the sender, or keeps everything buffered; with all bytes in, waiting means there is nothing left |
| Incremental.DrainSyncs | crates/core/src/session.rs:196-249 | draining a buffer delivers a front part of the messages and stops exactly between frames or after a header |
| Incremental.PollConsumes | crates/core/src/session.rs:196-249 | a poll never grows the buffer, and counts consumed bytes exactly when it returns a message |
| Incremental.PollInStep | crates/core/src/session.rs:222-248 | on any bytes at all, a successful poll keeps the header cipher one packet ahead of the body cipher exactly while a header is pending |
| Incremental.FeedInStep | crates/core/src/session.rs:222-248 | the same over a whole run on arbitrary chunks |
| Wire.PacketRoundTrip | crates/core/src/transmission.rs:182-225 | the packet of any message, first or later, enveloped or binary, followed by anything, is read back by the in-memory and the streaming reader, which end in the state the sender is in |
| Wire.PathsAgree | crates/core/src/transmission.rs:304-426 | on any bytes, honest or not, in-memory decryption, the blocking reader and the poller accept the same complete packets, with the same message and the same state after |
| Wire.BodyInverts | crates/core/src/transmission.rs:70-110 | an honest packet's header gives back length and header key, and its body the message |
| PacketForm.PacketBytes | crates/core/src/transmission.rs:182-225 | what the bytes of every packet are: before the handshake and in plaintext mode inside the envelope, else bare; header under the protocol cipher; message under the transport cipher first, then masked and shuffled under the header key and delta coded, all three before the handshake and as configured after it |
| PacketForm.InitialKeys | crates/core/src/crypto/cipher.rs:139-219 | before the handshake both ciphers have the material derived from role, method and password alone, number 0 |
| PacketForm.RekeyedKeys | crates/core/src/transmission.rs:241-258 | after rekeying, at either end, both ciphers have the material derived from role, method, password and this ivv, number 0; framing state kept |
| PacketForm.CountersAfter | crates/core/src/crypto/cipher.rs:266-290 | after n packets both counters are n further modulo 2^64, and only the first envelope was a first one |
| PacketForm.NoncesOfPackets | crates/core/src/crypto/cipher.rs:266-290 | any two packets of a direction share a nonce, header or body, exactly if whole periods lie between them |
| Transmission.TxCore.EncryptImpl | crates/core/src/transmission.rs:182-225 | succeeds exactly for 1 to 65536 bytes of prefix and payload, appending the packet of that message (PacketForm.PacketBytes says which bytes) and advancing both ciphers and the first-frame flag once; a failure names the cause and changes nothing |
| Transmission.TxCore.Rekey | crates/core/src/transmission.rs:241-258 | the sending direction takes the keys of the ivv (PacketForm.RekeyedKeys) and restarts at number 0; framing and first-frame flag stay |
| Transmission.RxCore.DecryptTailOf | crates/core/src/transmission.rs:70-91 | refuses a binary packet of at most three bytes, or of another length than its header says, after the header cipher moved on |
| Transmission.RxCore.DecryptPacket | crates/core/src/transmission.rs:304-355 | a complete packet in memory, with the state a failure leaves |
| Transmission.RxCore.ReadFrom | crates/core/src/transmission.rs:357-426 | the blocking reader takes one frame off the stream and nothing of the next, with the state a failure leaves |
| Transmission.RxCore.Rekey | crates/core/src/transmission.rs:429-444 | the receiving direction takes the same keys (PacketForm.RekeyedKeys) |
| Session.SessionRx.PollFrame | crates/core/src/session.rs:196-249 | result, cipher states, stashed header, caller's buffer and consumed count of one poll |
| Session.SessionRx.PollBinary | crates/core/src/session.rs:222-248 | binary framing: the header is decrypted once and stashed while its body is incomplete |
| Binary.HeaderInverts | crates/core/src/frame/binary.rs:64-110 | for every length 1 to 65536, seed byte, key and packet number the three header bytes decode to that length and to the header key |
| Binary.HeaderEncrypt | crates/core/src/frame/binary.rs:64-89 | refuses lengths outside 1 to 65536 without using a nonce, and uses exactly one otherwise |
| Binary.HeaderDecrypt | crates/core/src/frame/binary.rs:93-110 | one nonce, and a length between 1 and 65536 whatever the bytes |
| Binary.ObfuscationInverts | crates/core/src/frame/binary.rs:114-138 | deobfuscation undoes obfuscation for every buffer below 2^32 bytes, all eight flag combinations and all keys |
| Binary.PayloadObfuscate | crates/core/src/frame/binary.rs:114-125 | the in-place chain mask, shuffle, delta |
| Binary.PayloadDeobfuscate | crates/core/src/frame/binary.rs:128-138 | the in-place chain in reverse |
| Ssea.FastModExact | crates/core/src/crypto/ssea.rs:63-74 | two multiplications and a shift give the exact remainder for every 32-bit dividend and every divisor from 2, no product leaving 64 or 128 bits but the wrapping one |
| Ssea.LcgNext | crates/core/src/crypto/ssea.rs:47-54 | the three independent affine maps advance the seed and assemble the value of three chained generator steps |
| Ssea.LcgAffineTwo | crates/core/src/crypto/ssea.rs:29-40 | the two-step coefficients are those of two chained steps modulo 2^32 |
| Ssea.LcgAffineThree | crates/core/src/crypto/ssea.rs:29-40 | the three-step coefficients are those of three chained steps modulo 2^32 |
| Ssea.LcgCoefficients | crates/core/src/crypto/ssea.rs:29-38 | the four literal coefficients are the wrapping products that define them |
| Ssea.ShuffleInverts | crates/core/src/crypto/ssea.rs:91-124 | shuffle and unshuffle undo each other both ways and permute the bytes |
| Ssea.Shuffle | crates/core/src/crypto/ssea.rs:91-105 | the swaps in place, each index by the fast remainder |
| Ssea.Unshuffle | crates/core/src/crypto/ssea.rs:108-124 | the swaps in reverse order in place |
| Ssea.MaskedTwice | crates/core/src/crypto/ssea.rs:151-168 | masking with the evolving key twice is the identity, for every length |
| Ssea.MaskedByte | crates/core/src/crypto/ssea.rs:151-168 | which byte of which key of the chain every byte is xored with: words, then a half word, then an odd byte |
| Ssea.MaskedXorRandomNext | crates/core/src/crypto/ssea.rs:151-168 | little-endian words, then a half word, then an odd byte, each under the next key of the chain, in place |
| Ssea.WordXor | crates/core/src/crypto/ssea.rs:151-168 | xor of little-endian words is xor of their bytes |
| Simd.DeltaInverts | crates/core/src/crypto/simd.rs:27-50 | delta coding and its running sum undo each other both ways |
| Simd.ScanSums | crates/core/src/crypto/simd.rs:64-130 | four shifted additions over sixteen lanes give all sixteen prefix sums modulo 256 |
| Simd.ScanBlock | crates/core/src/crypto/simd.rs:64-130 | with the carry folded into lane 0 a scanned block is sixteen bytes of the scalar decoding |
| Simd.EncodeBlock | crates/core/src/crypto/simd.rs:64-130 | subtracting the block shifted by one, its first lane filled from the previous block, is sixteen bytes of the scalar encoding |
| Simd.DeltaEncode | crates/core/src/crypto/simd.rs:64-130 | blocks and tail in place equal the scalar encoding for every length |
| Simd.DeltaDecode | crates/core/src/crypto/simd.rs:64-130 | blocks and tail in place equal the scalar running sum for every length |
| Simd.ScalarDeltaEncode | crates/core/src/crypto/simd.rs:27-38 | the reference loop |
| Simd.ScalarDeltaDecode | crates/core/src/crypto/simd.rs:39-50 | the reference loop |
| Cipher.CfbDecrypt | crates/core/src/crypto/cipher.rs:336-366 | the eight-block batched in-place decryption equals block-at-a-time CFB128 of section 6.3 of NIST SP 800-38A, for any block function and length |
| Cipher.CfbEncrypt | crates/core/src/crypto/cipher.rs:307-320 | in-place encryption equals the same textbook mode |
| Cipher.CfbInverts | crates/core/src/crypto/cipher.rs:307-366 | decryption undoes encryption, partial last block included |
| Cipher.CfbEncryptedByte | crates/core/src/crypto/cipher.rs:307-320 | every byte, the short last segment included, is xored with the enciphered ciphertext block before it (section 6.3 of NIST SP 800-38A) |
| Cipher.CfbDecryptedByte | crates/core/src/crypto/cipher.rs:336-381 | every byte, the short last segment included, is xored with the enciphered ciphertext block before it |
| Cipher.XorTail | crates/core/src/crypto/cipher.rs:369-381 | the last short segment is xored with the enciphered feedback |
| Cipher.CtrApply | crates/core/src/crypto/cipher.rs:384-406 | the batched counter mode equals one block at a time (section 6.5 of NIST SP 800-38A), counting modulo 2^128 from the nonce |
| Cipher.CtrTwice | crates/core/src/crypto/cipher.rs:384-406 | counter mode is its own inverse |
| Cipher.CounterByte | crates/core/src/crypto/cipher.rs:384-406 | byte i is xored with the enciphered block whose number is the nonce's plus i / 16 modulo 2^128 |
| Cipher.ToBeByte | crates/core/src/crypto/cipher.rs:384-406 | counter blocks are big endian |
| Cipher.FromBeByte | crates/core/src/crypto/cipher.rs:384-406 | the nonce is read big endian |
| SessionCiphers.AppliedInverts | crates/core/src/crypto/cipher.rs:230-258 | for all five methods, packet n deciphered under number n is the packet enciphered |
| SessionCiphers.AppliedByte | crates/core/src/crypto/cipher.rs:126-258 | every byte of a packet by the equation of its method, over AES with 16 or 32 key bytes or the ChaCha20 keystream, and the packet's nonce |
| SessionCiphers.NonceBytes | crates/core/src/crypto/cipher.rs:266-290 | which bytes of the base IV take which bytes of the packet number |
| SessionCiphers.NonceCollision | crates/core/src/crypto/cipher.rs:266-290 | two packets of a direction share a nonce exactly when their numbers agree modulo the period |
| SessionCiphers.Periods | crates/core/src/crypto/cipher.rs:266-290 | the period is 2^64 packets with AES and 2^32 with ChaCha20 |
| SessionCiphers.SessionCipher.NextNonce | crates/core/src/crypto/cipher.rs:266-290 | the base IV with the big-endian counter xored in (section 5.3 of RFC 8446), and the counter one further |
| SessionCiphers.SessionCipher.Apply | crates/core/src/crypto/cipher.rs:230-258 | one packet in place, one nonce used |
| Base94.DecodeInverts | crates/core/README.md:136-187 | the byte codec gives every byte string back under every key |
| Base94.EncodedFits | crates/core/src/frame/base94.rs:77-101 | no binary packet of at most 65539 bytes encodes to more than 131136 characters, so encryption cannot fail late |
| Base94.PadDigits | tools/vectors.cpp:82-129 | padded decimal digits are the three-digit form, three real digits exactly from 8836 on |
| Base94.FieldRoundTrip | crates/core/src/frame/base94.rs:104-201 | a number below the modulus survives shift, digits and unshift |
| Base94.SimpleRoundTrip | crates/core/src/frame/base94.rs:104-201 | the parity of k tells whether the second byte is a digit, whatever filler was drawn |
| Base94.CheckFits | crates/core/src/frame/base94.rs:104-201 | checksum xor length is always below 64^3, hence below every modulus |
| Base94.HeaderRoundTrip | crates/core/src/frame/base94.rs:104-201 | for every key and every length 1 to 131136 and every draw, both headers are printable and decode to that length with the checksum accepted |
| Base94.FrameRoundTrip | crates/core/src/frame/base94.rs:77-101 | a frame is printable; its length is known from its front alone; it decodes to the packet |
| Base94.CheckDecides | crates/core/src/frame/base94.rs:178-191 | after an honest first header exactly those check digits are accepted whose number is congruent to the one sent modulo the modulus; all others are an error |
| Base94.HeaderBounds | crates/core/src/frame/base94.rs:203-237 | no header is accepted for an empty body and none beyond 131136 characters |
| Base94.DeriveSigned | crates/core/src/frame/base94.rs:60-72 | modulus from one draw, residue from the absolute signed remainder of the key |
| Base94.EncodeConcat | crates/core/README.md:136-187 | the code of a text is the codes of its bytes in order |
| Framer.ReadIsDecode | crates/core/src/frame/base94.rs:253-342 | the streaming reader accepts a whole packet exactly when the in-memory decoder does |
| Framer.ReadFront | crates/core/src/frame/base94.rs:253-294 | reading takes the frame at the front and nothing behind it |
| Framer.Base94Framer.EncodeHeader | crates/core/src/frame/base94.rs:104-158 | four or seven bytes, the flag for the first frame cleared |
| Framer.Base94Framer.EncodeFrame | crates/core/src/frame/base94.rs:77-101 | succeeds exactly when the encoding has 1 to 131136 characters; a refused packet leaves the first-frame flag alone |
| Framer.Base94Framer.DecodeHeaderInPlace | crates/core/src/frame/base94.rs:160-201 | the header arrays edited in place |
| Framer.Base94Framer.DecodePacketInto | crates/core/src/frame/base94.rs:322-350 | the first-frame flag falls only with an accepted frame |
| Framer.Base94Framer.ReadFrameInto | crates/core/src/frame/base94.rs:253-294 | bytes taken and flag for every stream, complete or cut short |
| Checksum.ChecksumMeaning | crates/core/src/frame/checksum.rs:11-25 | the complement of the checksum is the sum of big-endian words modulo 0xffff (section 1 of RFC 1071), and 0xffff means all words are zero |
| Checksum.ComputeInetChecksum | crates/core/src/frame/checksum.rs:11-25 | the accumulation and end-around-carry loops compute it |
| Handshake.IdRoundTrip | crates/core/src/handshake.rs:135-238 | every nonzero 128-bit id survives packing under any padding and key bytes, even when the reader has another key; id 0 always reads back as noise |
| Handshake.PackedBytes | crates/core/src/handshake.rs:135-199 | the bytes of an id packet: four key bytes, then number, separator and padding under the second and fourth of them |
| Handshake.DecimalDigit | crates/core/src/handshake.rs:242-254 | the digits of the number in order, without a leading zero |
| Handshake.NetMask | crates/core/src/handshake.rs:135-238 | after the four rounds the configured key has cancelled: the net mask is the second and fourth key byte |
| Handshake.RoundsInvert | crates/core/src/handshake.rs:135-238 | the xor layer undoes itself across different keys |
| Handshake.PackedSendable | crates/core/src/handshake.rs:135-199 | an id packet always fits one message |
| Handshake.PackSessionId | crates/core/src/handshake.rs:135-199 | body, padding and masking loops |
| Handshake.UnpackSessionId | crates/core/src/handshake.rs:202-238 | every malformed packet is refused, every dummy recognised |
| Handshake.AppendDecimal | crates/core/src/handshake.rs:242-254 | the reversed digit buffer of 40 bytes suffices and spells the number |
| Handshake.ParseDecimal | crates/core/src/handshake.rs:202-238 | per-digit overflow checks refuse exactly the numbers that do not fit 128 bits |
| Handshake.IvvCarriesRole | crates/core/src/handshake.rs:61-82 | an ivv is never zero and carries its role under every nonce |
| Handshake.RoleDecides | crates/core/src/handshake.rs:75-82 | an ivv reads as a bond link exactly if it carries the magic and the bond bit, every other as a mux tunnel |
| Handshake.NmuxCarries | crates/core/src/transmission.rs:724-739 | the answer is never zero, its high word is the canary, its parity the role |
| Handshake.CanaryPins | crates/core/src/handshake.rs:96-104 | two canaries agree exactly when the four switches and the low twelve key bits agree |
| Handshake.PreludeWithinBudget | crates/core/src/handshake.rs:108-131 | the rounds are the sample divided by 1400, rounded up: at least one and never more than the reader's skip budget |
| Handshake.BudgetIsLarger | crates/core/src/handshake.rs:129-131 | the skip budget is the larger of the two powers |
| Handshake.BudgetFits | crates/core/src/config.rs:85-93 | under a validated key sample and budget stay at most 2^20, so no 32-bit shift overflows, and a prelude has at most 749 packets |
| Lockstep.ReadHead | crates/core/src/transmission.rs:357-426 | a read in lockstep returns the message of the first packet in flight under the state it was written under, and takes no later byte |
| Lockstep.PushKeepsLock | crates/core/src/transmission.rs:632-646 | writing a packet or switching keys keeps the pipe equal to the packets in flight |
| Lockstep.SwitchHead | crates/core/src/transmission.rs:690-693 | the reader switches keys at the very packet boundary where the writer did |
| HandshakeProtocol.StepKeeps | crates/core/src/transmission.rs:632-778 | every step of either end, data before the confirmation included, keeps the invariant of both pipes and both ends |
| HandshakeProtocol.ReachableInv | crates/core/src/transmission.rs:632-778 | the invariant holds in every reachable state of every interleaving |
| HandshakeProtocol.FramesInLockstep | crates/core/src/transmission.rs:632-746 | in both directions the frames read are the first frames written, each under the same keys, packet number, first-frame flag and framing mode, and the pipe is empty exactly when all are read |
| HandshakeProtocol.FramesKeyed | crates/core/src/transmission.rs:632-746 | in every run frame i of a direction is coded under the password keys and number i while it belongs to the handshake, under the ivv's keys and counted from the switch after it; the handshake's frames are the noise, then the ids |
| HandshakeProtocol.Agreement | crates/core/src/transmission.rs:656-694 | a client that succeeds holds the server's id, and the server serves under the client's ivv and role |
| HandshakeProtocol.Refusal | crates/core/src/transmission.rs:656-739 | an honest server never aborts; a client fails only with RoleRefused, only for a bond request where bonds are off, and then the server serves a mux tunnel |
| HandshakeProtocol.MuxAnswer | crates/core/src/transmission.rs:666-688 | the client accepts the answer exactly when its role was granted, and otherwise the error is RoleRefused |
| HandshakeProtocol.FlagsDecide | crates/core/src/transmission.rs:666-688 | for all keys of the two ends the verdict on the answer is FlagsMismatch exactly if the four switches or the low twelve key bits differ, else the role decides |
| HandshakeProtocol.NoCanary | crates/core/src/transmission.rs:676-688 | an answer without the canary magic is never a mismatch; its parity decides |
| HandshakeProtocol.ZeroRefused | crates/core/src/transmission.rs:662-669 | a zero id, answer or ivv ends the handshake |
| HandshakeProtocol.Progress | crates/core/src/transmission.rs:632-778 | no reachable state is stuck: until both ends are through, a handshake step is enabled |
| HandshakeProtocol.EveryStepCounts | crates/core/src/transmission.rs:632-778 | each handshake step brings the end exactly one step nearer and data steps do not move it |
| HandshakeProtocol.Termination | crates/core/src/transmission.rs:632-778 | every run has at most a fixed number of handshake steps, and has taken all of them exactly when the server serves and the client is up, or refused where another role is granted |
| HandshakeProtocol.CanFinish | crates/core/src/transmission.rs:632-778 | from every state of a run there is a run to the end |
| Endpoint.ReadBehindNoise | crates/core/src/transmission.rs:767-778 | the skipping loop passes a prelude within its budget, returns the id behind it and leaves the rest |
| Endpoint.ServerHears | crates/core/src/transmission.rs:715-723 | against the client's real bytes the server reads exactly the ivv and grants the right role, early data left unread |
| Endpoint.ClientConfirms | crates/core/src/transmission.rs:656-694 | against the server's real bytes the client ends with the id and switched keys, or RoleRefused |
| Endpoint.SwitchesDetected | crates/core/src/transmission.rs:656-688 | against the bytes of a server whose switches differ the confirm phase ends in FlagsMismatch, whatever role was asked or granted |
| Endpoint.TooMuchNoise | crates/core/src/transmission.rs:767-778 | a prelude beyond the budget ends the handshake |
| Endpoint.ConfirmRuns | crates/core/src/transmission.rs:656-694 | whatever the bytes, the blocking confirm phase is a row of the protocol's reading steps with the same verdict, state and rest, wherever it does not block |
| Endpoint.HearRuns | crates/core/src/transmission.rs:715-723 | the same for the server's wait for the ivv |
| Endpoint.SendRuns | crates/core/src/transmission.rs:632-646 | the blocking send phase is a row of the client's writing steps: same bytes, same switched state |
| Endpoint.GreetRuns | crates/core/src/transmission.rs:711-713 | the server's prelude and id are a row of its writing steps |
| Endpoint.AnswerRuns | crates/core/src/transmission.rs:724-743 | the answer and the switch of both directions are its last writing step |
| Endpoint.Endpoint.SendSessionId | crates/core/src/transmission.rs:759-762 | one packet of that id |
| Endpoint.Endpoint.Prelude | crates/core/src/transmission.rs:749-755 | one noise packet per round |
| Endpoint.Endpoint.ReadSessionId | crates/core/src/transmission.rs:767-778 | the loop with its budget, every error included |
| Endpoint.Endpoint.ClientSend | crates/core/src/transmission.rs:632-646 | prelude and ivv under the old keys, then the sending direction alone switches |
| Endpoint.Endpoint.ClientConfirm | crates/core/src/transmission.rs:656-694 | both answers under the old keys, then the receiving direction switches; every refusal in order |
| Endpoint.Endpoint.HearClient | crates/core/src/transmission.rs:715-723 | the ivv, refused if zero, and the role granted |
| Endpoint.Endpoint.AnswerClient | crates/core/src/transmission.rs:724-743 | the role echo under the old keys, then both directions switch |
| Endpoint.Endpoint.Serve | crates/core/src/transmission.rs:703-746 | id 0 is refused before anything is sent; else prelude, id, ivv, answer in this order |
| Mux.VarintRoundTrip | crates/common/src/mux.rs:133-166 | every 32-bit value comes back from at most five bytes, whatever follows |
| Mux.VarintIsPrefixStable | crates/common/src/mux.rs:152-166 | growing the buffer never changes a decoded value, and undecodable bytes can still become an encoding exactly while fewer than five |
| Mux.OverlongAccepted | crates/common/src/mux.rs:152-166 | the bytes decoded are the canonical encoding exactly unless the last of several is zero |
| Mux.EncodeVarint | crates/common/src/mux.rs:133-147 | the loop writes the encoding, in one to five bytes |
| Mux.DecodeVarint | crates/common/src/mux.rs:152-166 | the loop with its five-byte and 32-bit limits |
| Mux.FrameRoundTrip | crates/common/src/mux.rs:124-129 | kind, id and payload come back from the message |
| Mux.FrameHeader.constructor | crates/common/src/mux.rs:98-117 | kind byte and id in at most six bytes |
| Tunnel.TunnelIsFifo | crates/common/src/tunnel.rs:136-283 | whatever the batches and chunks and wherever the stream is cut, on both carriers, the reader delivers exactly the queued frames that arrived whole, in order, each parsing back, and then the end or error of the carrier; nothing lost means all of them |
| Tunnel.RunWriter | crates/common/src/tunnel.rs:136-176 | the bytes written are a front part of the queue encoded frame by frame, whatever the batching and the errors of the carrier; without errors whole frames, and the whole queue if every frame fits |
| Tunnel.Encode | crates/common/src/tunnel.rs:109-128 | one message is appended exactly when it fits the carrier; else nothing changes |
| Tunnel.NextDelivers | crates/common/src/tunnel.rs:242-283 | over any chunks and any cut a call delivers the next message, or comes to the end or error of the carrier holding less than one frame |
| Tunnel.CallsDeliver | crates/common/src/tunnel.rs:242-283 | calls in a row deliver exactly the messages whole in the bytes received, then the end or error |
| Tunnel.EndOnBoundary | crates/common/src/tunnel.rs:277-281 | at the end of the carrier the bytes received end on a frame boundary exactly if nothing is buffered and no header is stashed |
| Tunnel.EveryCutLooksClean | crates/common/src/tunnel.rs:277-281 | for every message of both carriers and every cut inside its frame, the reader gives the answer of a clean end, which it was not |
| Tunnel.EndsInsideFrame | crates/common/src/tunnel.rs:277-281 | a concrete byte on each carrier that gives that answer |
| Tunnel.EncodeBatch | crates/common/src/tunnel.rs:141-164 | one batch of at most 32 frames, encoded in order, or a frame that does not fit |
| Tunnel.ReassemblyBounded | crates/common/src/tunnel.rs:184-202 | on any bytes, a reader that asks for more holds fewer than 131143, so its cap is never exceeded |
| Tunnel.PrefixRefuses | crates/common/src/tunnel.rs:186-202 | the exact outcome of the prefix parser: zero, too large, undecodable, incomplete, or the frame |
| Tunnel.PeekFront | crates/common/src/tunnel.rs:186-202 | a length prefix is never misread from a partial buffer |
| Tunnel.FrameReader.NextFrame | crates/common/src/tunnel.rs:242-283 | the loop, end and errors of the carrier included, equals the reader without a cap |
| Tunnel.FrameReader.TryCut | crates/common/src/tunnel.rs:242-275 | one attempt on the buffer, for both carriers |
| Tunnel.PollDrained | crates/common/src/tunnel.rs:247-262 | a poll and the drain of what it consumed |
| Link.OneByteStream | crates/common/src/link.rs:68-235 | under every schedule of pending and partial carrier I/O and all buffer sizes the bytes delivered are a front part of those accepted, and all of them once everything is flushed and a read blocks |
| Link.StepKeeps | crates/common/src/link.rs:68-235 | every poll conserves accepted bytes: delivered, decrypted, or inside packets in flight, in order |
| Link.CleanEndIffBoundary | crates/common/src/link.rs:105-121 | the carrier's end is reported clean exactly when the bytes received end on a frame boundary |
| Link.Bounded | crates/common/src/link.rs:98-103 | the wire cap is never exceeded |
| Link.FlushConserves | crates/common/src/link.rs:161-180 | what is pushed and what is left are the pending frame, which is gone exactly when the flush succeeds |
| Link.ReadFills | crates/common/src/link.rs:76-87 | a delivery fills the buffer as far as the decrypted bytes go, never nothing into a buffer with room |
| Link.FlushFinishes | crates/common/src/link.rs:161-180 | a carrier that always takes something gets the whole frame |
| Link.WriteAccepts | crates/common/src/link.rs:183-212 | with nothing left to flush a write accepts all it is given up to 65536 bytes |
| Link.WriteWaits | crates/common/src/link.rs:183-199 | while a frame is leaving nothing is accepted |
| Link.LinkReadHalf.PollRead | crates/common/src/link.rs:69-132 | one poll, all outcomes |
| Link.LinkReadHalf.Serve | crates/common/src/link.rs:76-87 | partial delivery of a decrypted frame |
| Link.LinkWriteHalf.FlushOut | crates/common/src/link.rs:161-180 | the push loop |
| Link.LinkWriteHalf.PollWrite | crates/common/src/link.rs:183-212 | the previous frame leaves before at most 65536 further bytes are accepted |
| MuxProtocol.ReceivedIsPrefix | crates/client/src/pool.rs:662-743 | in every run, at both ends and on every stream, the events a pump received are a front part of those the other end's pump sent on that id, in order and without a gap |
| MuxProtocol.FinishIsLast | crates/common/src/tunnel.rs:389-450 | no data follows an end of file and there is at most one |
| MuxProtocol.ReplyComesFirst | crates/server/src/lib.rs:608-648 | the client hears the positive reply before any event of the stream, and a live stream has heard it |
| MuxProtocol.VerdictIsTrue | crates/server/src/lib.rs:618-650 | in every run the server's first word on a stream is positive exactly if its target was connected and negative exactly if it was refused |
| MuxProtocol.OpenMeansConnected | crates/client/src/pool.rs:431-446 | a client takes a stream for open only after its target was connected, never one that was refused |
| MuxProtocol.CloseIsFinal | crates/server/src/lib.rs:494-496 | a CLOSE drops the entry at the end that hears it, and in no run from there does the entry come back or the pump get a further event |
| MuxProtocol.ClosesTheOther | crates/client/src/pool.rs:724-743 | a stalled, unknown, abandoned, failed or rejected stream is closed towards the other end |
| MuxProtocol.WordsOnWire | crates/common/src/mux.rs:33-76 | the frames and kind bytes of opens, verdicts, data, end of file and close |
| MuxProtocol.PumpsMove | crates/common/src/tunnel.rs:389-450 | local data and end of file become one frame each, and the pump takes the oldest event |
| MuxProtocol.NothingLost | crates/server/src/lib.rs:465-558 | while the entry stands, the tunnel is not cut and the loop not killed, all sent events are received, queued or on their way |
| MuxProtocol.EntriesOutliveLoop | crates/server/src/lib.rs:465-522 | over any run after the server's demux loop has ended, an entry stands exactly if it stood before and the stream's own task, or the loss of an event already routed to it, did not take it out |
| MuxProtocol.EntryOutlivesLoop | crates/server/src/lib.rs:465-522 | a run from the start after which the loop is over and a live stream still has its entry |
| MuxProtocol.NoViolation | crates/server/src/lib.rs:496-500 | honest ends never trip each other's role checks |
| MuxProtocol.StepKeeps | crates/server/src/lib.rs:465-667 | the invariant under opens, replies, routing, stalls, closes, drops, pumps, kills and the death of the tunnel |
| MuxProtocol.HearKeeps | crates/client/src/pool.rs:671-705 | the demux loops, both ends, every frame kind |
| MuxProtocol.NextWord | crates/server/src/lib.rs:561-606 | the frame at the front is the next word the peer said: an opening word exactly if nothing was heard before, so no id is opened twice |
| Pool.StreamsExact | crates/client/src/pool.rs:385-456 | the counter equals in-flight opens plus handles plus dropped opens, so it is exact exactly if no open future was dropped half-way |
| Pool.EntriesOwned | crates/client/src/pool.rs:393-397 | pending and registry entries belong to tasks between their insertion and removal; the counter never underflows; when all tasks are done nothing is left |
| Pool.Final | crates/client/src/pool.rs:393-397 | a task that has left, or whose open was dropped, takes no further operation in any run, so a stream counts down at most once |
| Pool.StaysDead | crates/client/src/pool.rs:356-367 | a dead tunnel never becomes alive, in any run |
| Pool.RegisterRuns | crates/client/src/pool.rs:403-415 | registering without interruption is the run of one task to its open, under a fresh id and counting one up without wrapping |
| Pool.UnregisterRuns | crates/client/src/pool.rs:393-397 | leaving without interruption is the run of one task to its end, counting one down |
| Pool.MarkDeadRuns | crates/client/src/pool.rs:358-367 | marking dead as a run of its three operations, the second time of the swap alone |
| Pool.RegistrationUndone | crates/client/src/pool.rs:385-415 | leaving takes back all that registering put in; only the id stays used |
| Pool.StepKeeps | crates/client/src/pool.rs:356-511 | the accounting under every interleaving of the atomic operations |
| Pool.CounterExact | crates/client/src/pool.rs:385-397 | neither the count up nor the count down wraps |
| Pool.PoolTarget | crates/client/src/pool.rs:750-818 | live tunnels and unfinished dials exceed the pool size by at most the dials that push and finish between the two reads of one round, and not at all if no second read slips; the dial counter never underflows |
| Pool.RoundExact | crates/client/src/pool.rs:768-778 | within the target, a second read makes the round exceed it exactly if the counter leaves a shortfall and more tunnels live than were read and than the dials still counted account for |
| Pool.RoundRefills | crates/client/src/pool.rs:768-803 | a round spawns enough: at most the finished dials still counted are missing from the target |
| Pool.SlipOvershoots | crates/client/src/pool.rs:778-803 | a round that slips so and goes on undisturbed does overshoot |
| Pool.NoSlipNoOvershoot | crates/client/src/pool.rs:750-818 | a pool whose rounds never slip never holds more than its size, in every interleaving |
| Pool.OvershootReachable | crates/client/src/pool.rs:750-818 | for every pool size a run from the start to one tunnel too many |
| Pool.Tunnel.MarkDead | crates/client/src/pool.rs:358-367 | for the tunnel's tasks the swap and, the first time only, the two clears |
| Pool.Tunnel.Register | crates/client/src/pool.rs:403-415 | for a tunnel whose tasks are in any state that keeps the invariant: a run of one task to its open, an id no task has, one count up without wrapping |
| Pool.Tunnel.Unregister | crates/client/src/pool.rs:393-397 | for a leaving task: its run to the end, one count down without wrapping, no trace of the id left |
| Vectors.Generator | crates/core/tests/golden_vectors.rs:14-19 | example: four draws from the default key |
| Vectors.Mask | crates/core/tests/golden_vectors.rs:83-95 | example: a five-byte buffer masked across a word and an odd byte |
| Vectors.Shuffle | crates/core/tests/golden_vectors.rs:21-66 | example: a seven-byte buffer shuffled |
| Vectors.Bytewise | crates/core/tests/golden_vectors.rs:97-114 | example: one- and two-character codes of the first and last bytes under two keys |
| Vectors.Checksums | crates/core/tests/golden_vectors.rs:116-120 | example: even and odd lengths |
| Vectors.Decimals | crates/core/tests/golden_vectors.rs:122-129 | example: one to three digits |
| Vectors.DefaultParams | crates/core/tests/golden_vectors.rs:131-138 | example: length modulus and key residue of the default key |
| Vectors.ExtendedHeader | crates/core/tests/golden_vectors.rs:131-138 | example: the first-frame header of length 1, checksum included |
| Vectors.SimpleHeader1 | crates/core/tests/golden_vectors.rs:131-138 | example: filler before two digits: length 5 |
| Vectors.SimpleHeader2 | crates/core/tests/golden_vectors.rs:131-138 | example: three digits: length 8649 |
| Vectors.SimpleHeader3 | crates/core/tests/golden_vectors.rs:131-138 | example: the longest length, 131136 |
| Vectors.BinaryHeader | crates/core/tests/golden_vectors.rs:140-145 | example: length 256 with its bytes swapped by the shuffle, without a cipher |
| Vectors.Payload | crates/core/tests/golden_vectors.rs:147-161 | example: the whole payload chain on one byte |
| Vectors.Varints | crates/common/src/mux.rs:197-219 | example: the encodings of 0, 300 and the largest id, and two refused ones |
| Vectors.Delta | crates/core/tests/golden_vectors.rs:68-81 | example: the first bytes under three keys |
| Vectors.Roles | crates/core/src/handshake.rs:378-397 | example: the two tags and three values that are no bond request |
| Vectors.Malformed | crates/common/src/mux.rs:239-244 | example: an empty, two truncated and an unknown frame |

## Left out

- Sub-slices: a Rust slice method takes a whole array here, and a caller that edits part of a buffer copies that part into an array of its own; growing vectors are sequences passed in and returned. Aliasing between a buffer and its parts is not captured.
- `decrypt` and `decrypt_in_place` are one member, `Transmission.RxCore.DecryptPacket`: they differ only in where the message is held.
- Allocation, scratch buffers and their release, and performance.
- AES, ChaCha20, SHA-256 and HKDF themselves, the spelling of the derivation input in base 32, and all secrecy claims. Nothing is said about distinct counter blocks: counter mode counts up from the nonce.
- `base94-simd` is not part of this model; its byte and decimal codecs are modelled from the scalar definitions in `crates/core/README.md:136-187` and `tools/vectors.cpp:82-129`.
- The packet number is counted modulo 2^64, as a release build does; a debug build would stop there instead. The 32-bit accumulator of the checksum is unbounded, which makes no difference for the header it is applied to.
- The header codec's case without a protocol cipher, which no caller uses, and the plain payload flags lookup by name.
- The NEON kernel of the delta coding; it has the same shape as the SSE2 kernel that is modelled.
- Blocking writes are one step, and the pipes of the handshake hold any number of bytes. Timeouts and transport errors end a run and are not steps of `HandshakeProtocol`.
- Endpoint.ConfirmRuns: and its neighbours speak of reads that do not block; the time-outs that end a blocked read are not modelled.
- HandshakeProtocol.Agreement: assumes equal keys at both ends. What the canary detects otherwise is `Handshake.CanaryPins`; it covers neither the prelude bounds, the padding length nor the cipher methods.
- Tamper detection: no claim is made about altered bytes beyond the agreement of the readers, since length values alias modulo the key's modulus.
- Link.OneByteStream: assumes a carrier without errors, as the adapters give no stream guarantee after one; `poll_shutdown` is a flush followed by the carrier's own shutdown.
- MuxProtocol.ReceivedIsPrefix: target addresses and the stream limit become the outcome `accept` of an open; channel bounds are dropped, so a run may queue more than the program would, and time-outs may happen at any moment. After a cut an end may go on sending into a queue nobody empties; that counts as sent. Marking a tunnel dead is one step here and three in `Pool`. The channel, writer, carrier and reader of one direction are one queue, as `Tunnel.TunnelIsFifo` justifies. It holds for fewer than 2^32 opens on a tunnel; after that ids repeat.
- Pool.StreamsExact: one tunnel, with fewer than 2^32 opens.
- Pool.PoolTarget: tunnels die and are dropped from the list in one step; upkeep of bond links inside a round is not modelled.
- No stream cap is claimed: picking a tunnel and opening on it are separate steps. Nor is it claimed that every open is answered: a CLOSE in place of a reply leaves the waiter to its timeout.
- The choice of the least-loaded tunnel, dialing and its retries, dedicated tunnels, joining of the two pump directions, logging, configuration loading, SOCKS5, addresses, DNS and sockets: plumbing that adds only easy members.
