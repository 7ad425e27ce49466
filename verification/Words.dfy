/** Machine words of 64 bits: their largest value, saturating arithmetic, and what their products need. */
module Words {
  const U64_MAX: nat := 0xFFFF_FFFF_FFFF_FFFF

  function SaturatingAdd(a: nat, b: nat): (r: nat)
    ensures r <= U64_MAX
  {
    if a + b <= U64_MAX then a + b else U64_MAX
  }

  function SaturatingSub(a: nat, b: nat): (r: nat)
    ensures r <= a
  {
    if b <= a then a - b else 0
  }

  lemma ProductFits(a: nat, b: nat)
    requires a <= U64_MAX && b <= U64_MAX
    ensures 0 <= a * b <= U64_MAX * U64_MAX
  {
    assert a * b <= U64_MAX * b;
  }
}
