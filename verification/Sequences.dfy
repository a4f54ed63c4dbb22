/** Small facts about sequences. */
module Sequences {

  lemma Associate<T>(a: seq<T>, b: seq<T>, c: seq<T>)
    ensures (a + b) + c == a + (b + c)
  {}

  /** The first element and the rest of a concatenation. */
  lemma FirstAndRest<T>(a: seq<T>, b: seq<T>)
    ensures a == [] ==> a + b == b
    ensures a != [] ==> (a + b) != [] && (a + b)[0] == a[0] && (a + b)[1..] == a[1..] + b
  {}
}
