/** The obfuscation key shared by both endpoints. */
module Config {
  import opened Bits
  import opened SessionCiphers

  const MAX_NOP_EXPONENT: nat := 20

  datatype ObfuscationKey = ObfuscationKey(
    kf: u32, kl: nat, kh: nat, kx: u32,
    protocol: Method, protocolKey: string,
    transport: Method, transportKey: string,
    masked: bool, plaintext: bool, deltaEncode: bool, shuffleData: bool)
  {
    predicate Valid() {
      && kl <= MAX_NOP_EXPONENT && kh <= MAX_NOP_EXPONENT
      && protocolKey != [] && transportKey != []
    }
  }
}
