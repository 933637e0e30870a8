/** Sorting lists of records by a key, and the fact canonical forms rest on: a list sorted by a key that tells its
    elements apart is determined by the multiset of its elements.
 */
module Sorting {
  import opened Collections
  import opened Order

  /** Keys are pairs of identifiers, compared like tuples; a single identifier is paired with the empty one. */
  type Key = (string, string)

  predicate Below(a: Key, b: Key) {
    if a.0 == b.0 then Leq(a.1, b.1) else Leq(a.0, b.0)
  }

  lemma BelowTotal(a: Key, b: Key)
    ensures Below(a, b) || Below(b, a)
  {
    LeqTotal(a.0, b.0);
    LeqTotal(a.1, b.1);
  }

  lemma BelowAntisymmetric(a: Key, b: Key)
    requires Below(a, b) && Below(b, a)
    ensures a == b
  {
    if a.0 == b.0 {
      LeqAntisymmetric(a.1, b.1);
    } else {
      LeqAntisymmetric(a.0, b.0);
    }
  }

  lemma BelowTransitive(a: Key, b: Key, c: Key)
    requires Below(a, b) && Below(b, c)
    ensures Below(a, c)
  {
    if a.0 == b.0 == c.0 {
      LeqTransitive(a.1, b.1, c.1);
    } else {
      if a.0 != b.0 && b.0 != c.0 {
        LeqTransitive(a.0, b.0, c.0);
        if a.0 == c.0 {
          LeqAntisymmetric(a.0, b.0);
        }
      }
    }
  }

  predicate SortedBy<T>(key: T -> Key, s: seq<T>) {
    forall i, j | 0 <= i < j < |s| :: Below(key(s[i]), key(s[j]))
  }

  /** Elements with the same key are the same. */
  predicate Keyed<T(==)>(key: T -> Key, s: seq<T>) {
    forall i, j | 0 <= i < |s| && 0 <= j < |s| && key(s[i]) == key(s[j]) :: s[i] == s[j]
  }

  predicate UniqueBy<T>(key: T -> Key, s: seq<T>) {
    forall i, j | 0 <= i < j < |s| :: key(s[i]) != key(s[j])
  }

  /** Puts x behind the elements whose keys do not exceed its own. */
  function Insert<T>(key: T -> Key, s: seq<T>, x: T): seq<T> {
    if s == [] then [x]
    else if Below(key(s[|s| - 1]), key(x)) then s + [x]
    else Insert(key, s[..|s| - 1], x) + [s[|s| - 1]]
  }

  function SortBy<T>(key: T -> Key, s: seq<T>): seq<T> {
    if s == [] then [] else Insert(key, SortBy(key, s[..|s| - 1]), s[|s| - 1])
  }

  lemma {:induction false} InsertElements<T>(key: T -> Key, s: seq<T>, x: T)
    ensures multiset(Insert(key, s, x)) == multiset(s) + multiset{x}
  {
    if s != [] && !Below(key(s[|s| - 1]), key(x)) {
      InsertElements(key, s[..|s| - 1], x);
      assert s == s[..|s| - 1] + [s[|s| - 1]];
    }
  }

  lemma {:induction false} InsertSorted<T>(key: T -> Key, s: seq<T>, x: T)
    requires SortedBy(key, s)
    ensures SortedBy(key, Insert(key, s, x))
  {
    if s == [] {
    } else if Below(key(s[|s| - 1]), key(x)) {
      forall i | 0 <= i < |s| - 1 ensures Below(key(s[i]), key(x)) {
        BelowTransitive(key(s[i]), key(s[|s| - 1]), key(x));
      }
      assert AllBelow(key, s, x);
      AppendSorted(key, s, x);
    } else {
      InsertSorted(key, s[..|s| - 1], x);
      InsertBelow(key, s, x);
      AppendSorted(key, Insert(key, s[..|s| - 1], x), s[|s| - 1]);
    }
  }

  predicate AllBelow<T>(key: T -> Key, s: seq<T>, x: T) {
    forall i | 0 <= i < |s| :: Below(key(s[i]), key(x))
  }

  lemma AppendSorted<T>(key: T -> Key, s: seq<T>, x: T)
    requires SortedBy(key, s) && AllBelow(key, s, x)
    ensures SortedBy(key, s + [x])
  {
  }

  lemma InsertBelow<T>(key: T -> Key, s: seq<T>, x: T)
    requires SortedBy(key, s) && s != [] && !Below(key(s[|s| - 1]), key(x))
    ensures AllBelow(key, Insert(key, s[..|s| - 1], x), s[|s| - 1])
  {
    var init, last := s[..|s| - 1], s[|s| - 1];
    var r := Insert(key, init, x);
    InsertElements(key, init, x);
    BelowTotal(key(last), key(x));
    forall i | 0 <= i < |r| ensures Below(key(r[i]), key(last)) {
      assert r[i] in multiset(r);
      assert r[i] == x || r[i] in init;
    }
  }

  lemma {:induction false} SortByKeeps<T>(key: T -> Key, s: seq<T>)
    ensures multiset(SortBy(key, s)) == multiset(s) && |SortBy(key, s)| == |s|
    ensures SortedBy(key, SortBy(key, s))
  {
    if s != [] {
      var init := s[..|s| - 1];
      SortByKeeps(key, init);
      InsertElements(key, SortBy(key, init), s[|s| - 1]);
      InsertSorted(key, SortBy(key, init), s[|s| - 1]);
      assert s == init + [s[|s| - 1]];
      assert |multiset(SortBy(key, s))| == |multiset(s)|;
    }
  }

  lemma SortByMembers<T>(key: T -> Key, s: seq<T>, x: T)
    ensures x in SortBy(key, s) <==> x in s
  {
    SortByKeeps(key, s);
    assert x in multiset(SortBy(key, s)) <==> x in multiset(s);
  }

  lemma LastAgree<T>(key: T -> Key, a: seq<T>, b: seq<T>)
    requires multiset(a) == multiset(b) && SortedBy(key, a) && SortedBy(key, b) && Keyed(key, a) && a != [] && b != []
    ensures a[|a| - 1] == b[|b| - 1]
  {
    var x, y := a[|a| - 1], b[|b| - 1];
    assert x in multiset(b) && y in multiset(a);
    var i :| 0 <= i < |b| && b[i] == x;
    var j :| 0 <= j < |a| && a[j] == y;
    if i < |b| - 1 && j < |a| - 1 {
      BelowAntisymmetric(key(x), key(y));
    }
  }

  lemma DropSameLast<T>(a: seq<T>, b: seq<T>)
    requires a != [] && b != [] && multiset(a) == multiset(b) && a[|a| - 1] == b[|b| - 1]
    ensures multiset(a[..|a| - 1]) == multiset(b[..|b| - 1])
  {
    var x := a[|a| - 1];
    assert a == a[..|a| - 1] + [x] && b == b[..|b| - 1] + [x];
    assert multiset(a[..|a| - 1]) == multiset(a) - multiset{x};
    assert multiset(b[..|b| - 1]) == multiset(b) - multiset{x};
  }

  lemma {:induction false} SortedDetermined<T>(key: T -> Key, a: seq<T>, b: seq<T>)
    requires multiset(a) == multiset(b) && SortedBy(key, a) && SortedBy(key, b) && Keyed(key, a)
    ensures a == b
  {
    assert |multiset(a)| == |a| && |multiset(b)| == |b|;
    if a != [] {
      LastAgree(key, a, b);
      DropSameLast(a, b);
      SortedDetermined(key, a[..|a| - 1], b[..|b| - 1]);
      assert a == a[..|a| - 1] + [a[|a| - 1]] && b == b[..|b| - 1] + [b[|b| - 1]];
    }
  }

  lemma KeyedShuffle<T>(key: T -> Key, a: seq<T>, b: seq<T>)
    requires multiset(a) == multiset(b) && Keyed(key, a)
    ensures Keyed(key, b)
  {
    forall i, j | 0 <= i < |b| && 0 <= j < |b| && key(b[i]) == key(b[j]) ensures b[i] == b[j] {
      assert b[i] in multiset(a) && b[j] in multiset(a);
    }
  }

  /** Lists with the same elements sort to the same list, and only those do. */
  lemma SortByAgree<T>(key: T -> Key, a: seq<T>, b: seq<T>)
    requires Keyed(key, a)
    ensures SortBy(key, a) == SortBy(key, b) <==> multiset(a) == multiset(b)
  {
    SortByKeeps(key, a);
    SortByKeeps(key, b);
    if multiset(a) == multiset(b) {
      KeyedShuffle(key, a, SortBy(key, a));
      SortedDetermined(key, SortBy(key, a), SortBy(key, b));
    }
  }

  lemma UniqueIsKeyed<T>(key: T -> Key, s: seq<T>)
    requires UniqueBy(key, s)
    ensures Keyed(key, s)
  {
    forall i, j | 0 <= i < |s| && 0 <= j < |s| && key(s[i]) == key(s[j]) ensures s[i] == s[j] {
      assert i == j;
    }
  }

  lemma SortByIdempotent<T>(key: T -> Key, s: seq<T>)
    requires Keyed(key, s)
    ensures SortBy(key, SortBy(key, s)) == SortBy(key, s)
  {
    SortByKeeps(key, s);
    SortByAgree(key, s, SortBy(key, s));
  }

  // ---------------------------------------------------------------------------------------------
  // Lists of transformed elements

  function Map<T, U>(f: T -> U, s: seq<T>): (r: seq<U>)
    ensures |r| == |s| && forall i | 0 <= i < |s| :: r[i] == f(s[i])
  {
    seq(|s|, i requires 0 <= i < |s| => f(s[i]))
  }

  lemma {:induction false} InsertMapped<T>(key: T -> Key, f: T -> T, s: seq<T>, x: T)
    requires forall y | y in s || y == x :: key(f(y)) == key(y)
    ensures Insert(key, Map(f, s), f(x)) == Map(f, Insert(key, s, x))
  {
    if s != [] {
      assert Map(f, s)[..|s| - 1] == Map(f, s[..|s| - 1]);
      if Below(key(s[|s| - 1]), key(x)) {
        assert Map(f, s + [x]) == Map(f, s) + [f(x)];
      } else {
        InsertMapped(key, f, s[..|s| - 1], x);
        var r, last := Insert(key, s[..|s| - 1], x), s[|s| - 1];
        assert Map(f, r + [last]) == Map(f, r) + [f(last)];
      }
    }
  }

  /** Transforming elements without changing their keys commutes with sorting. */
  lemma {:induction false} SortByMapped<T>(key: T -> Key, f: T -> T, s: seq<T>)
    requires forall y | y in s :: key(f(y)) == key(y)
    ensures SortBy(key, Map(f, s)) == Map(f, SortBy(key, s))
  {
    if s != [] {
      var init := s[..|s| - 1];
      SortByMapped(key, f, init);
      assert Map(f, s)[..|s| - 1] == Map(f, init);
      forall y | y in SortBy(key, init) || y == s[|s| - 1] ensures key(f(y)) == key(y) {
        SortByMembers(key, init, y);
      }
      InsertMapped(key, f, SortBy(key, init), s[|s| - 1]);
    }
  }

  // ---------------------------------------------------------------------------------------------
  // Reordering

  function Without<T>(s: seq<T>, j: nat): seq<T>
    requires j < |s|
  {
    s[..j] + s[j + 1..]
  }

  /** Each element of a in turn finds a counterpart in b, which is then used up. */
  ghost predicate Matched<T>(same: (T, T) -> bool, a: seq<T>, b: seq<T>)
    decreases |a|
  {
    if a == [] then b == []
    else exists j | 0 <= j < |b| :: same(a[0], b[j]) && Matched(same, a[1..], Without(b, j))
  }

  lemma MapWithout<T, U>(f: T -> U, s: seq<T>, j: nat)
    requires j < |s|
    ensures multiset(Map(f, s)) == multiset(Map(f, Without(s, j))) + multiset{f(s[j])}
  {
    assert Map(f, s) == Map(f, s[..j]) + [f(s[j])] + Map(f, s[j + 1..]);
    assert Map(f, Without(s, j)) == Map(f, s[..j]) + Map(f, s[j + 1..]);
  }

  /** When counterparts are the elements with the same canonical form, matching means the same canonical forms. */
  lemma {:induction false} MatchedForms<T, U>(same: (T, T) -> bool, f: T -> U, a: seq<T>, b: seq<T>)
    requires forall x, y | x in a && y in b :: same(x, y) <==> f(x) == f(y)
    ensures Matched(same, a, b) <==> multiset(Map(f, a)) == multiset(Map(f, b))
    decreases |a|
  {
    if a == [] {
      assert |multiset(Map(f, b))| == |b|;
    } else {
      MapWithout(f, a, 0);
      assert Without(a, 0) == a[1..];
      forall j | 0 <= j < |b|
        ensures same(a[0], b[j]) && Matched(same, a[1..], Without(b, j)) <==>
                f(a[0]) == f(b[j]) && multiset(Map(f, a)) == multiset(Map(f, b))
      {
        MapWithout(f, b, j);
        forall y | y in Without(b, j) ensures y in b {
        }
        MatchedForms(same, f, a[1..], Without(b, j));
        if f(a[0]) == f(b[j]) {
          SameRest(multiset(Map(f, a[1..])), multiset(Map(f, Without(b, j))), f(a[0]));
        }
      }
      if multiset(Map(f, a)) == multiset(Map(f, b)) {
        assert f(a[0]) in multiset(Map(f, b));
        var j :| 0 <= j < |b| && Map(f, b)[j] == f(a[0]);
        assert same(a[0], b[j]);
      }
    }
  }

  lemma SameRest<T>(a: multiset<T>, b: multiset<T>, x: T)
    ensures a + multiset{x} == b + multiset{x} <==> a == b
  {
    if a + multiset{x} == b + multiset{x} {
      assert a == a + multiset{x} - multiset{x};
      assert b == b + multiset{x} - multiset{x};
    }
  }
}
