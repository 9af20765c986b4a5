/** Option, Result, and the facts on sequences and sets shared by the other modules. */
module Prelude {
  datatype Option<+T> = None | Some(value: T)

  datatype Result<+T, +E> = Ok(value: T) | Err(error: E)

  /** The smaller of two numbers. */
  function Min(a: int, b: int): int {
    if a < b then a else b
  }

  /** No element comes twice. */
  predicate Distinct<T(==)>(s: seq<T>) {
    forall i, j :: 0 <= i < j < |s| ==> s[i] != s[j]
  }

  /** All but the last element of a concatenation, and its last one. */
  lemma ConcatLast<T>(a: seq<T>, b: seq<T>)
    requires b != []
    ensures (a + b)[..|a + b| - 1] == a + b[..|b| - 1] && (a + b)[|a + b| - 1] == b[|b| - 1]
  {
  }

  /** Two disjoint sets are counted separately. */
  lemma UnionSize<T>(a: set<T>, b: set<T>)
    requires a !! b
    ensures |a + b| == |a| + |b|
  {
  }

  /** A subset is not larger. */
  lemma SubsetSize<T>(a: set<T>, b: set<T>)
    requires a <= b
    ensures |a| <= |b|
  {
    assert b == a + (b - a);
    UnionSize(a, b - a);
  }

  /** A map that is one-to-one on a set has an image of the same size. */
  lemma {:induction false} ImageSize<K, V>(keys: set<K>, m: map<K, V>, image: set<V>)
    requires keys <= m.Keys
    requires forall k :: k in keys ==> m[k] in image
    requires forall v :: v in image ==> exists k :: k in keys && m[k] == v
    requires forall k, l :: k in keys && l in keys && m[k] == m[l] ==> k == l
    ensures |keys| == |image|
  {
    if keys == {} {
      assert image == {};
    } else {
      var k :| k in keys;
      ImageSize(keys - {k}, m, image - {m[k]});
    }
  }
}
