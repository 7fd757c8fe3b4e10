/** Small facts about sequences that several modules share. */
module Seqs {
  datatype Option<+T> = None | Some(value: T)

  function Min(a: int, b: int): int { if a < b then a else b }

  function Max(a: int, b: int): int { if a < b then b else a }

  lemma Reassociate<T>(a: seq<T>, b: seq<T>, c: seq<T>)
    ensures a + (b + c) == (a + b) + c
  {
  }

  function FlatMap<A, B>(f: A -> seq<B>, xs: seq<A>): seq<B> {
    if xs == [] then [] else f(xs[0]) + FlatMap(f, xs[1..])
  }

  lemma {:induction false} FlatMapConcat<A, B>(f: A -> seq<B>, a: seq<A>, b: seq<A>)
    ensures FlatMap(f, a + b) == FlatMap(f, a) + FlatMap(f, b)
  {
    if a == [] {
      assert a + b == b;
    } else {
      assert FlatMap(f, a + b) == f(a[0]) + FlatMap(f, a[1..] + b) by {
        assert (a + b)[1..] == a[1..] + b;
      }
      FlatMapConcat(f, a[1..], b);
      Reassociate(f(a[0]), FlatMap(f, a[1..]), FlatMap(f, b));
    }
  }

  lemma FlatMapSnoc<A, B>(f: A -> seq<B>, a: seq<A>, x: A)
    ensures FlatMap(f, a + [x]) == FlatMap(f, a) + f(x)
  {
    FlatMapConcat(f, a, [x]);
    assert FlatMap(f, [x]) == f(x) + FlatMap(f, []);
  }
}
