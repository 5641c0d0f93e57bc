/** Concatenation: its laws, and flattening a list of lists. */
module Sequences {

  lemma Assoc<T>(a: seq<T>, b: seq<T>, c: seq<T>)
    ensures (a + b) + c == a + (b + c)
  {}

  function Flat<T>(xs: seq<seq<T>>): seq<T> {
    if xs == [] then [] else Flat(xs[..|xs| - 1]) + xs[|xs| - 1]
  }

  lemma FlatSnoc<T>(xs: seq<seq<T>>, x: seq<T>)
    ensures Flat(xs + [x]) == Flat(xs) + x
  {
    assert (xs + [x])[..|xs|] == xs;
  }

  lemma FlatPrefix<T>(xs: seq<seq<T>>, m: nat)
    requires 0 < m <= |xs|
    ensures Flat(xs[..m]) == Flat(xs[..m - 1]) + xs[m - 1]
  {
    assert xs[..m] == xs[..m - 1] + [xs[m - 1]];
    FlatSnoc(xs[..m - 1], xs[m - 1]);
  }

  lemma {:induction false} FlatCons<T>(x: seq<T>, xs: seq<seq<T>>)
    ensures Flat([x] + xs) == x + Flat(xs)
  {
    if xs == [] {
      assert ([x] + xs)[..0] == [];
    } else {
      var m := |xs| - 1;
      FlatCons(x, xs[..m]);
      assert ([x] + xs)[..|xs|] == [x] + xs[..m];
      Assoc(x, Flat(xs[..m]), xs[m]);
    }
  }
}
