/** Guest addresses and the 64-byte cache lines they fall in. */
module Lines {

  /** A guest address; cache lines are 64 bytes. */
  type Addr = bv64

  /** `guest_addr & ~63`: the address of the cache line holding `a`. */
  function LineOf(a: Addr): (l: Addr)
    ensures l & 63 == 0
    ensures l <= a && a - l < 64
  {
    a & !63
  }

  /** Two addresses collapse to one footprint element exactly when they lie in the same 64-byte line. */
  lemma SameLine(a: Addr, b: Addr)
    ensures a / 64 == b / 64 ==> LineOf(a) == LineOf(b)
    ensures LineOf(a) == LineOf(b) ==> a / 64 == b / 64
  {
  }
}
