/** The fixed-width integers of Go that matter here, and one fact about products. */
module GoTypes {

  newtype byte = x: int | 0 <= x < 256

  newtype int32 = x: int | -0x8000_0000 <= x < 0x8000_0000

  newtype int64 = x: int | -0x8000_0000_0000_0000 <= x < 0x8000_0000_0000_0000

  newtype uint64 = x: int | 0 <= x < 0x1_0000_0000_0000_0000

  /** The values of a uint32, as plain numbers: IDs are drawn, compared and printed but never computed with. */
  type Uint32 = n: nat | n < 0x1_0000_0000

  lemma MulAtLeast(x: int, b: int)
    requires b > 0 && x >= 0
    ensures x * b >= x
  {
    assert x * b - x == x * (b - 1);
  }

  /** Fewer than `n` IDs used: one below `n` is free. */
  lemma {:induction false} FreeID(used: set<Uint32>, n: nat) returns (id: Uint32)
    requires |used| < n <= 0x1_0000_0000
    ensures id < n && id !in used
    decreases n
  {
    id := n - 1;
    if id in used {
      id := FreeID(used - {id}, n - 1);
    }
  }
}
