/** Small datatypes and sequence facts shared by the service models. */
module Common {

  datatype Option<+T> = None | Some(value: T)

  datatype Result<+T, +E> = Ok(value: T) | Err(error: E)

  /** A database identifier (a UUID in the services). */
  type Id = nat

  /** An instant; the unit is whatever the service's clock counts in. */
  type Time = int

  function Last<T>(s: seq<T>): T
    requires |s| > 0
  {
    s[|s| - 1]
  }

  function Front<T>(s: seq<T>): seq<T>
    requires |s| > 0
  {
    s[..|s| - 1]
  }

  function Min(a: int, b: int): int {
    if a <= b then a else b
  }

  function Max(a: int, b: int): int {
    if a >= b then a else b
  }

  function Elements<T>(s: seq<T>): set<T> {
    set x | x in s
  }

  predicate Distinct<T(==)>(s: seq<T>) {
    forall i, j :: 0 <= i < j < |s| ==> s[i] != s[j]
  }

  /** Every finite set can be listed. */
  lemma {:induction false} ListSet<T>(elements: set<T>) returns (listing: seq<T>)
    ensures Elements(listing) == elements
  {
    if elements == {} {
      listing := [];
    } else {
      var x :| x in elements;
      var rest := ListSet(elements - {x});
      listing := rest + [x];
      assert Elements(listing) == Elements(rest) + {x};
    }
  }

  /** A set contained in another of the same size is that set. */
  lemma SubsetOfEqualSize<T>(a: set<T>, b: set<T>)
    requires a <= b && |a| == |b|
    ensures a == b
  {
    var rest := b - a;
    assert b == a + rest;
    assert |b| == |a| + |rest|;
  }
}
