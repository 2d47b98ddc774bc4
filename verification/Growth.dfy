/** How libev's dynamic arrays grow. */
module Growth {

  const MALLOC_ROUND := 4096
  const POINTERS := 32 // sizeof (void *) * 4

  /** `n & ~(MALLOC_ROUND - 1)` for a non-negative `n`. */
  function RoundDown(n: nat): nat { n - n % MALLOC_ROUND }

  /** `array_nextsize`: the new size holds `cnt` elements and at least doubles the old one,
      even after the byte size has been rounded for the allocator. */
  method ArrayNextsize(elem: nat, cur: nat, cnt: int) returns (ncur: nat)
    requires elem > 0
    ensures ncur >= cnt && ncur >= 2 * (cur + 1)
  {
    ncur := cur + 1;
    ncur := ncur * 2;
    while cnt > ncur
      invariant ncur >= 2 * (cur + 1)
    {
      ncur := ncur * 2;
    }
    if elem * ncur > MALLOC_ROUND - POINTERS {
      ghost var doubled := ncur;
      ncur := ncur * elem;
      ncur := RoundDown(ncur + elem + (MALLOC_ROUND - 1) + POINTERS);
      ncur := ncur - POINTERS;
      DividesUp(elem, doubled, ncur);
      ncur := ncur / elem;
    }
  }

  lemma DividesUp(elem: nat, n: nat, bytes: nat)
    requires elem > 0 && n * elem <= bytes
    ensures n <= bytes / elem
  {
    var q := bytes / elem;
    assert bytes < elem * q + elem == elem * (q + 1);
    MulOrder(elem, q + 1, n);
  }

  lemma MulOrder(e: nat, a: int, b: int)
    requires e * a > e * b
    ensures a > b
  {
    assert e * (a - b) > 0;
  }
}
