/** The two wrapper datatypes the models share. */
module Prelude {
  datatype Option<+T> = None | Some(value: T)

  datatype Result<+T, +E> = Ok(value: T) | Err(error: E) {
    predicate IsFailure() { Err? }

    function PropagateFailure<U>(): Result<U, E>
      requires Err?
    {
      Err(error)
    }

    function Extract(): T
      requires Ok?
    {
      value
    }
  }

  type byte = x: int | 0 <= x < 256

  const U64_MAX := 0xffff_ffff_ffff_ffff

  predicate Distinct(s: seq<string>) { forall i, j :: 0 <= i < j < |s| ==> s[i] != s[j] }

  /** n applications of f. */
  ghost function Iterate<S>(f: S -> S, s: S, n: nat): S { if n == 0 then s else f(Iterate(f, s, n - 1)) }

  lemma {:induction false} IterateStays<S>(f: S -> S, s: S, m: nat, n: nat)
    requires m <= n && f(Iterate(f, s, m)) == Iterate(f, s, m)
    ensures Iterate(f, s, n) == Iterate(f, s, m)
    decreases n
  {
    if m < n { IterateStays(f, s, m, n - 1); }
  }

  lemma {:induction false} IterateAdd<S>(f: S -> S, s: S, m: nat, n: nat)
    ensures Iterate(f, s, m + n) == Iterate(f, Iterate(f, s, m), n)
  {
    if n > 0 { IterateAdd(f, s, m, n - 1); }
  }

  lemma {:induction false} IterateLast<S>(f: S -> S, s: S, n: nat)
    requires n > 0 && f(f(s)) == f(s)
    ensures Iterate(f, s, n) == f(s)
  {
    if n > 1 { IterateLast(f, s, n - 1); }
  }

  lemma Associate<T>(a: seq<T>, b: seq<T>, c: seq<T>)
    ensures a + (b + c) == (a + b) + c
  {}

  function Max(a: nat, b: nat): nat { if a < b then b else a }
}
