/** The size of the machine word that identities, counters and the random stream wrap at. */
module Words {
  const U64: nat := 0x1_0000_0000_0000_0000

  lemma WrapSum(a: nat, b: nat)
    ensures (a % U64 + b) % U64 == (a + b) % U64
  {
  }

  lemma {:induction false} WrapMultiple(x: nat, k: nat)
    ensures (x + k * U64) % U64 == x % U64
    decreases k
  {
    if k > 0 { WrapMultiple(x + U64, k - 1); }
  }
}
