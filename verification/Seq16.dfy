/** Wrap-around 16-bit sequence numbers (crates/jam-protocol/src/seq.rs). The lemmas relate them to
    the unbounded numbers the rest of the project counts in. */
module Seq16 {
  import opened Common

  /** The 16-bit image of an unbounded sequence number. */
  function Wrap(n: int): u16 { n % 0x1_0000 }

  /** `x as i16` */
  function AsI16(x: u16): int { if x < 0x8000 then x else x - 0x1_0000 }

  function Diff(a: u16, b: u16): int { AsI16(Wrap(a - b)) }

  predicate NewerThan(a: u16, b: u16) { Diff(a, b) > 0 }

  /** Wrapped subtraction is the wrapped difference. */
  lemma WrapSub(x: int, y: int)
    ensures Wrap(Wrap(x) - Wrap(y)) == Wrap(x - y)
  {
    var m := 0x1_0000;
    assert x - y == (x / m - y / m) * m + (Wrap(x) - Wrap(y));
    ModShift(Wrap(x) - Wrap(y), x / m - y / m);
  }

  lemma ModShift(r: int, k: int)
    ensures (k * 0x1_0000 + r) % 0x1_0000 == r % 0x1_0000
  {
  }

  /** The signed distance is the true one exactly on the window of a signed 16-bit integer. */
  lemma DiffIsTrueDistance(x: int, y: int)
    ensures Diff(Wrap(x), Wrap(y)) == x - y <==> -0x8000 <= x - y <= 0x7fff
  {
    WrapSub(x, y);
  }

  /** `newer_than` decides the true order whenever the numbers are within 32767 of each other; the
      first distance at which it errs is 32768, where the newer number is reported as not newer. */
  lemma NewerThanIsTrueOrder(x: int, y: int)
    ensures -0x8000 <= x - y <= 0x7fff ==> (NewerThan(Wrap(x), Wrap(y)) <==> x > y)
    ensures x - y == 0x8000 ==> !NewerThan(Wrap(x), Wrap(y))
  {
    WrapSub(x, y);
  }

  lemma WrapInjectiveNearby(x: int, y: int)
    requires -0x1_0000 < x - y < 0x1_0000
    ensures Wrap(x) == Wrap(y) <==> x == y
  {
  }

  /** `SeqGen`: the generator that stamps outgoing packets. */
  class SeqGen {
    var current: u16

    constructor ()
      ensures current == 0
    {
      current := 0;
    }

    method Next() returns (s: u16)
      modifies this
      ensures s == old(current) && current == Wrap(old(current) + 1)
    {
      s := current;
      current := Wrap(current + 1);
    }
  }
}
