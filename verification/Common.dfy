/** Machine integers and the small datatypes the other modules share. */
module Common {

  type byte = n: int | 0 <= n < 0x100
  type u16 = n: int | 0 <= n < 0x1_0000
  type u32 = n: int | 0 <= n < 0x1_0000_0000

  type u64 = n: int | 0 <= n < 0x1_0000_0000_0000_0000

  datatype Option<+T> = None | Some(value: T)

  /** A Rust `Result`, usable with Dafny's `:-`. */
  datatype Result<+T, +E> = Ok(value: T) | Err(error: E) {
    predicate IsFailure() { Err? }
    function PropagateFailure<U>(): Result<U, E>
      requires Err?
    {
      Err(error)
    }
    function Extract(): T
      requires Ok?
    {
      value
    }
  }

  function Min(a: int, b: int): int { if a < b then a else b }

  function Max(a: int, b: int): int { if a < b then b else a }

  /** Rust's `saturating_sub` on unsigned integers. */
  function Monus(a: nat, b: nat): nat { if a < b then 0 else a - b }

  function Clamp(x: real, lo: real, hi: real): real
    requires lo <= hi
  {
    if x < lo then lo else if hi < x then hi else x
  }

  function Abs(x: real): real { if x < 0.0 then -x else x }

  lemma Regroup<T>(a: seq<T>, b: seq<T>, c: seq<T>)
    ensures (a + b) + c == a + (b + c)
  {
  }

  lemma NatProduct(a: nat, b: nat)
    ensures a * b >= 0
  {
  }

  lemma NotNegative(a: real, b: real)
    requires a >= 0.0 && b >= 0.0
    ensures a * b >= 0.0
  {
  }

  lemma Positive(a: real, b: real)
    requires a > 0.0 && b > 0.0
    ensures a * b > 0.0
  {
  }
}
