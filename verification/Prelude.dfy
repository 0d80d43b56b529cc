/** Shared vocabulary. */
module Prelude {
  datatype Option<+T> = None | Some(value: T)

  const TWO16 := 0x1_0000
  const TWO32 := 0x1_0000_0000
  type U16 = x: int | 0 <= x < TWO16
  type U32 = x: int | 0 <= x < TWO32

  /** Arithmetic on unsigned fields of 16 and 32 bits. */
  function Wrap16(x: int): U16 { x % 0x1_0000 }
  function Wrap32(x: int): U32 { x % 0x1_0000_0000 }

  lemma Wrap16Shift(a: int, k: int)
    ensures Wrap16(a + k * 0x1_0000) == Wrap16(a)
  {
  }

  /** Taking the difference commutes with wrapping. */
  lemma Wrap16Difference(y: int, x: int)
    ensures Wrap16(Wrap16(y) - Wrap16(x)) == Wrap16(y - x)
  {
    var p, q := y / 0x1_0000, x / 0x1_0000;
    assert y == p * 0x1_0000 + Wrap16(y) && x == q * 0x1_0000 + Wrap16(x);
    Wrap16Shift(Wrap16(y) - Wrap16(x), p - q);
  }

  lemma Wrap32Shift(a: int, k: int)
    ensures Wrap32(a + k * 0x1_0000_0000) == Wrap32(a)
  {
  }

  lemma Wrap32Small(k: nat)
    requires k < TWO32
    ensures Wrap32(k) == k
  {
  }

  lemma Wrap32Sum(x: int, d: int)
    ensures Wrap32(Wrap32(x) + d) == Wrap32(x + d)
  {
    var q := x / 0x1_0000_0000;
    assert x == q * 0x1_0000_0000 + Wrap32(x);
    Wrap32Shift(Wrap32(x) + d, q);
  }

  lemma Wrap32Difference(y: int, x: int)
    ensures Wrap32(Wrap32(y) - Wrap32(x)) == Wrap32(y - x)
  {
    var p, q := y / 0x1_0000_0000, x / 0x1_0000_0000;
    assert y == p * 0x1_0000_0000 + Wrap32(y) && x == q * 0x1_0000_0000 + Wrap32(x);
    Wrap32Shift(Wrap32(y) - Wrap32(x), p - q);
  }
}
