/** Small datatypes and trace helpers shared by every module. */
module Prelude {

  datatype Option<+T> = None | Some(value: T)

  /** How many elements of a trace satisfy p. */
  function Count<T>(es: seq<T>, p: T -> bool): (n: nat)
    ensures n <= |es|
  {
    if es == [] then 0
    else Count(es[..|es| - 1], p) + (if p(es[|es| - 1]) then 1 else 0)
  }

  /** The elements of a trace that satisfy p, in order. */
  function Select<T>(es: seq<T>, p: T -> bool): seq<T> {
    if es == [] then []
    else Select(es[..|es| - 1], p) + (if p(es[|es| - 1]) then [es[|es| - 1]] else [])
  }

  lemma Assoc<T>(a: seq<T>, b: seq<T>, c: seq<T>)
    ensures (a + b) + c == a + (b + c)
  {
  }
}
