/** Integers as the source has them. */
module GoInts {
  function Min(a: int, b: int): int {
    if a < b then a else b
  }

  function Max(a: int, b: int): int {
    if a > b then a else b
  }

  const TWO_32: int := 0x1_0000_0000
  const TWO_31: int := 0x8000_0000

  /** The value of an int32 after wrap-around. */
  function Int32(x: int): int {
    (x + TWO_31) % TWO_32 - TWO_31
  }

  lemma Int32Add(a: int, b: int)
    ensures Int32(Int32(a) + Int32(b)) == Int32(a + b) == Int32(Int32(a) + b)
  {
  }

  /** A total in 32 bits is that of two parts, one of which is counted in 32 bits itself. */
  lemma Int32Parts(part: nat, rest: nat)
    ensures Int32(part + Int32(rest)) == Int32(part + rest)
    ensures part + rest < TWO_31 ==> Int32(rest) == rest && Int32(part + rest) == part + rest
  {
    Int32Add(rest, part);
  }

  /** And it is that of one part alone exactly when the other counts as zero. */
  lemma Int32PartAlone(part: int, rest: int)
    ensures Int32(part) == Int32(part + rest) <==> Int32(rest) == 0
  {
    var q, r := (part + TWO_31) / TWO_32, (part + TWO_31) % TWO_32;
    var s, t := (rest + TWO_31) / TWO_32, (rest + TWO_31) % TWO_32;
    assert part + rest + TWO_31 == TWO_32 * (q + s) + (r + t - TWO_31);
  }

  lemma Int32Exact(a: int, b: int)
    requires 0 <= a && 0 <= b
    ensures Int32(Int32(a) + Int32(b)) == Int32(a + b)
    ensures a + b < TWO_31 ==> Int32(a) == a && Int32(b) == b && Int32(a + b) == a + b
  {
    Int32Add(a, b);
  }
}
