/** Size limits of the protocol. */
module Limits {
  /** Largest plaintext of one packet. */
  const PPP_BUFFER_SIZE: nat := 65536
  /** Largest encoded body: every byte may take two characters. */
  const BASE94_MAX_FRAME: nat := PPP_BUFFER_SIZE * 2 + 64
  /** Bounds of the length modulus. */
  const MOD_MIN: nat := 64 * 64 * 64
  const MOD_MAX: nat := 94 * 94 * 94
}
