/** Shared value types: optional results and the fixed-width integers of the chain. */
module Basics {
  datatype Option<+T> = None | Some(value: T)

  const ADDRESS_SPACE: nat := 0x1_00000000_00000000_00000000_00000000_00000000
  const WORD_SPACE: nat :=
    0x1_00000000_00000000_00000000_00000000_00000000_00000000_00000000_00000000
  const UINT64_SPACE: nat := 0x1_00000000_00000000
  const MAX_WORD: nat := WORD_SPACE - 1

  type Byte = b: nat | b < 256
  type Bytes = seq<Byte>

  /** A 20-byte account address, taken as a number. */
  type Address = a: nat | a < ADDRESS_SPACE

  /** `uint256` and `bytes32` values. */
  type Word = w: nat | w < WORD_SPACE

  type Uint64 = u: nat | u < UINT64_SPACE

  const ZERO_ADDRESS: Address := 0
}
