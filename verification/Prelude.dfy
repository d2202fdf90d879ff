/** The optional value used wherever the source has `null` or `undefined`, and a few facts
    about sequences and sets that keep longer proofs small. */
module Prelude {
  datatype Option<+T> = None | Some(value: T)

  lemma Assoc<T>(a: seq<T>, b: seq<T>, c: seq<T>)
    ensures a + (b + c) == (a + b) + c
  {}

  lemma HeadTail<T>(a: seq<T>, b: seq<T>)
    requires a != []
    ensures a + b != [] && (a + b)[0] == a[0] && (a + b)[1..] == a[1..] + b
  {}

  lemma ConsTail<T>(x: T, b: seq<T>)
    ensures [x] + b != [] && ([x] + b)[0] == x && ([x] + b)[1..] == b
  {}

  /** What is left of `all` when one more element is taken from `rest`. */
  lemma OneLess<T>(all: set<T>, rest: set<T>, x: T)
    requires x in rest && rest <= all
    ensures all - (rest - {x}) == (all - rest) + {x}
  {}

  lemma {:induction false} SubsetSize<T>(a: set<T>, b: set<T>)
    requires a <= b
    ensures |a| <= |b|
  {
    if x :| x in a { SubsetSize(a - {x}, b - {x}); }
  }
}
