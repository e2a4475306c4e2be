/** Shared datatypes and the machine-integer arithmetic of the runtime. */
module Prelude {
  datatype Option<+T> = None | Some(value: T)

  datatype Result<+T, +E> = Ok(value: T) | Err(error: E)

  /** A JSON value. Numbers are kept as integers: no property here depends on their fraction. */
  datatype Value =
    | Null
    | Bool(b: bool)
    | Number(n: int)
    | Text(s: string)
    | List(items: seq<Value>)
    | Object(fields: map<string, Value>)

  const U32_MAX: nat := 0xFFFF_FFFF
  const U64_MAX: nat := 0xFFFF_FFFF_FFFF_FFFF
  const I64_MAX: nat := 0x7FFF_FFFF_FFFF_FFFF
  /** Number of values of a 64-bit `usize`. */
  const USIZE_RANGE: nat := 0x1_0000_0000_0000_0000

  function Min(a: int, b: int): int {
    if a <= b then a else b
  }

  function Max(a: int, b: int): int {
    if a <= b then b else a
  }

  /** The sum of a weight over a sequence. */
  function SumBy<T>(f: T -> nat, xs: seq<T>): nat {
    if xs == [] then 0 else f(xs[0]) + SumBy(f, xs[1..])
  }

  lemma {:induction false} SumByUpdate<T>(f: T -> nat, xs: seq<T>, i: nat, x: T)
    requires i < |xs|
    ensures SumBy(f, xs[i := x]) == SumBy(f, xs) - f(xs[i]) + f(x)
  {
    if i == 0 {
      assert xs[i := x][1..] == xs[1..];
    } else {
      assert xs[i := x][1..] == xs[1..][i - 1 := x];
      SumByUpdate(f, xs[1..], i - 1, x);
    }
  }

  lemma {:induction false} SumByAtLeast<T>(f: T -> nat, xs: seq<T>, i: nat)
    requires i < |xs|
    ensures SumBy(f, xs) >= f(xs[i])
  {
    if i > 0 {
      SumByAtLeast(f, xs[1..], i - 1);
    }
  }

  lemma {:induction false} SumByZero<T>(f: T -> nat, xs: seq<T>)
    ensures SumBy(f, xs) == 0 <==> forall i :: 0 <= i < |xs| ==> f(xs[i]) == 0
  {
    if xs != [] {
      SumByZero(f, xs[1..]);
      assert forall i :: 0 < i < |xs| ==> xs[i] == xs[1..][i - 1];
      if forall i :: 0 <= i < |xs| ==> f(xs[i]) == 0 {
        assert forall j :: 0 <= j < |xs[1..]| ==> xs[1..][j] == xs[j + 1];
      }
    }
  }
}
