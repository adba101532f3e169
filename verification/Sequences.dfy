/** Concatenation facts the solver wants spelled out. */
module Sequences {
  lemma Associate<T>(a: seq<T>, b: seq<T>, c: seq<T>)
    ensures a + (b + c) == (a + b) + c
    ensures c == [] ==> a + b == (a + b) + c
  {
  }

  lemma EmptyInFront<T>(s: seq<T>)
    ensures [] + s == s
  {
  }
}
