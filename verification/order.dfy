/** Lexicographic order of identifiers, and sorting by it.

    The program sorts identifiers wherever the order of a set would otherwise leak into a result.
    Sorting is modelled once, on sequences, together with the fact every use relies on: a sorted
    sequence is determined by its multiset of elements.
 */
module Order {

  /** The lexicographic order of strings by code point; an identifier precedes its extensions. */
  predicate Leq(a: string, b: string) {
    if a == "" then true
    else if b == "" then false
    else if a[0] != b[0] then a[0] < b[0]
    else Leq(a[1..], b[1..])
  }

  lemma {:induction false} LeqTotal(a: string, b: string)
    ensures Leq(a, b) || Leq(b, a)
  {
    if a != "" && b != "" && a[0] == b[0] {
      LeqTotal(a[1..], b[1..]);
    }
  }

  lemma {:induction false} LeqAntisymmetric(a: string, b: string)
    requires Leq(a, b) && Leq(b, a)
    ensures a == b
  {
    if a != "" && b != "" {
      LeqAntisymmetric(a[1..], b[1..]);
      assert a == [a[0]] + a[1..] && b == [b[0]] + b[1..];
    }
  }

  lemma {:induction false} LeqTransitive(a: string, b: string, c: string)
    requires Leq(a, b) && Leq(b, c)
    ensures Leq(a, c)
  {
    if a != "" && b != "" && c != "" && a[0] == b[0] == c[0] {
      LeqTransitive(a[1..], b[1..], c[1..]);
    }
  }

  predicate Ascending(s: seq<string>) {
    forall i, j | 0 <= i < j < |s| :: Leq(s[i], s[j])
  }

  ghost predicate Distinct<T>(s: seq<T>) {
    forall i, j | 0 <= i < j < |s| :: s[i] != s[j]
  }

  /** What Python's sorted() makes of a set of identifiers. */
  ghost predicate SortedListing(q: seq<string>, s: set<string>) {
    && Ascending(q)
    && Distinct(q)
    && (forall x :: x in q <==> x in s)
  }

  /** Puts x into its place in an ascending sequence. */
  method InsertSorted(q: seq<string>, x: string) returns (r: seq<string>)
    requires Ascending(q) && Distinct(q) && x !in q
    ensures Ascending(r) && Distinct(r)
    ensures forall y :: y in r <==> y in q || y == x
  {
    var i := 0;
    while i < |q| && Leq(q[i], x)
      invariant 0 <= i <= |q|
      invariant forall k | 0 <= k < i :: Leq(q[k], x)
    {
      i := i + 1;
    }
    r := q[..i] + [x] + q[i..];
    if i < |q| {
      LeqTotal(q[i], x);
      forall k | i <= k < |q| ensures Leq(x, q[k]) {
        if i < k {
          LeqTransitive(x, q[i], q[k]);
        }
      }
    }
  }

  method Sorted(s: set<string>) returns (q: seq<string>)
    ensures SortedListing(q, s)
  {
    q := [];
    var rest := s;
    while rest != {}
      invariant rest <= s
      invariant SortedListing(q, s - rest)
      decreases rest
    {
      var x :| x in rest;
      q := InsertSorted(q, x);
      rest := rest - {x};
    }
  }
}
