/** Machine words shared by the models: bytes and 64-bit unsigned numbers. */
module Words {

  const TWO_63: int := 0x8000_0000_0000_0000
  const TWO_64: int := 0x1_0000_0000_0000_0000

  type Byte = n: nat | n < 256
  type U64 = n: nat | n < TWO_64

  function Min(a: nat, b: nat): nat {
    if a <= b then a else b
  }
}
