/** Numbers as variables of 32 and 64 bits hold them. */
module MachineWords {

  const TWO_32: int := 0x1_0000_0000
  const TWO_64: int := 0x1_0000_0000_0000_0000

  /** 32-bit two's complement. */
  function Signed32(x: int): int {
    var u := x % TWO_32;
    if u < TWO_32 / 2 then u else u - TWO_32
  }

  lemma SignedIs(x: int)
    requires -TWO_32 < x < TWO_32 / 2
    ensures Signed32(x) == if x >= -(TWO_32 / 2) then x else x + TWO_32
  {
  }

  lemma SignedAtMost(x: nat)
    ensures Signed32(x) <= x && (x < TWO_32 / 2 ==> Signed32(x) == x)
  {
    if x < TWO_32 {
      assert x % TWO_32 == x;
    }
  }

  lemma DifferenceOfMultiples(a: int, b: int)
    requires a % 8 == 0 && b % 8 == 0
    ensures (a - b) % 8 == 0
  {
  }

  /** Multiples of eight, the alignment of a 64-bit build, add up to one. */
  lemma SumOfMultiples(a: int, b: int)
    requires a % 8 == 0 && b % 8 == 0
    ensures (a + b) % 8 == 0
  {
  }
}
