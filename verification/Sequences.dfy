/** Facts of sequences that several modules need. */
module Sequences {

  lemma Regroup<T>(a: seq<T>, b: seq<T>, c: seq<T>)
    ensures a + (b + c) == (a + b) + c
  {}
}
