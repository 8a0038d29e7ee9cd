/** Small facts about collections that several modules use. */
module Collections {

  type Byte = x: int | 0 <= x < 256

  lemma {:induction false} SubsetSize<T>(a: set<T>, b: set<T>)
    requires a <= b
    ensures |a| <= |b|
  {
    if x :| x in a {
      SubsetSize(a - {x}, b - {x});
    }
  }

  lemma Cancel<T>(prefix: seq<T>, x: seq<T>, y: seq<T>)
    requires prefix + x == prefix + y
    ensures x == y
  {
    assert x == (prefix + x)[|prefix|..] && y == (prefix + y)[|prefix|..];
  }
}
