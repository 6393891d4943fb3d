/** The C `uint32_t`/`unsigned int` values the audio manager and the timestamp tester carry. */
module Ints {
  type u32 = x: nat | x < 0x1_0000_0000
}
