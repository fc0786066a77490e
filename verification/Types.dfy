/** The scalar types of the machine: 64-bit and 256-bit unsigned integers,
    20-byte addresses and bytes, with Go's wrap-around written out. */
module Types {
  const TWO_64: int := 0x1_0000_0000_0000_0000
  const TWO_256: int := 0x1_0000_0000_0000_0000_0000_0000_0000_0000_0000_0000_0000_0000_0000_0000_0000_0000

  type U64 = x: int | 0 <= x < 0x1_0000_0000_0000_0000
  type Word = x: int | 0 <= x < 0x1_0000_0000_0000_0000_0000_0000_0000_0000_0000_0000_0000_0000_0000_0000_0000_0000
  type Address = x: int | 0 <= x < 0x1_0000_0000_0000_0000_0000_0000_0000_0000_0000_0000
  type Byte = x: int | 0 <= x < 256
  type Hash = Word
  type Code = seq<Byte>

  datatype Option<+T> = None | Some(value: T)

  /** Go's uint64 arithmetic. */
  function Wrap64(x: int): U64 {
    x % TWO_64
  }

  /** uint256 arithmetic. */
  function Wrap256(x: int): Word {
    x % TWO_256
  }

  /** uint256.Uint64: the low 64 bits. */
  function Low64(w: Word): U64 {
    w % TWO_64
  }
}
