// Small datatypes and collection facts shared by every module.
module Common {

  datatype Option<+T> = None | Some(value: T)

  newtype byte = x: int | 0 <= x < 256

  type Bytes = seq<byte>

  datatype Result<+T, +E> = Ok(value: T) | Err(error: E)

  /** The elements of a sequence. */
  ghost function Elements<T>(xs: seq<T>): set<T> {
    set x | x in xs
  }

  /** xs names every element of s exactly once: one possible iteration order of a Go map or directory. */
  ghost predicate Listing<T(!new)>(xs: seq<T>, s: set<T>) {
    && (forall x :: x in xs <==> x in s)
    && (forall i, j :: 0 <= i < j < |xs| ==> xs[i] != xs[j])
  }

  lemma {:induction false} ListingSize<T(!new)>(xs: seq<T>, s: set<T>)
    requires Listing(xs, s)
    ensures |xs| == |s|
  {
    if xs == [] {
      assert s == {};
    } else {
      var rest := xs[..|xs| - 1];
      var last := xs[|xs| - 1];
      assert xs == rest + [last];
      assert Listing(rest, s - {last});
      ListingSize(rest, s - {last});
    }
  }

  lemma ListingSnoc<T(!new)>(xs: seq<T>, s: set<T>, x: T)
    requires Listing(xs, s) && x !in s
    ensures Listing(xs + [x], s + {x})
  {
    assert Listing([x], {x});
    ListingConcat(xs, s, [x], {x});
  }

  lemma ListingConcat<T(!new)>(xs: seq<T>, a: set<T>, ys: seq<T>, b: set<T>)
    requires Listing(xs, a) && Listing(ys, b) && a !! b
    ensures Listing(xs + ys, a + b)
  {
    forall i, j | 0 <= i < j < |xs + ys| ensures (xs + ys)[i] != (xs + ys)[j] {
      if i < |xs| <= j {
        assert xs[i] in a && ys[j - |xs|] in b;
      }
    }
  }

  lemma SubsetSize<T>(a: set<T>, b: set<T>)
    requires a <= b
    ensures |a| <= |b|
    ensures |a| == |b| ==> a == b
  {
    assert b == a + (b - a);
  }
}
