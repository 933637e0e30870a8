/** Optional values, and finite sets, as several modules use them.
 */
module Collections {

  datatype Option<+T> = None | Some(value: T)

  function Elements<T>(q: seq<T>): set<T> {
    set x | x in q
  }

  lemma {:induction false} SubsetSize<T>(a: set<T>, b: set<T>)
    requires a <= b
    ensures |a| <= |b|
  {
    if a != {} {
      var x :| x in a;
      SubsetSize(a - {x}, b - {x});
    }
  }

  lemma {:induction false} AtMostLength<T>(xs: seq<T>)
    ensures |set x | x in xs| <= |xs|
  {
    if xs != [] {
      var init, last := xs[..|xs| - 1], xs[|xs| - 1];
      AtMostLength(init);
      assert xs == init + [last];
      assert (set x | x in xs) == (set x | x in init) + {last};
    }
  }

  /** A list with as many different elements as elements repeats none. */
  lemma {:induction false} CountedOnce<T>(xs: seq<T>)
    ensures |set x | x in xs| == |xs| <==> forall i, j | 0 <= i < j < |xs| :: xs[i] != xs[j]
  {
    if xs != [] {
      var init, last := xs[..|xs| - 1], xs[|xs| - 1];
      var some := set x | x in init;
      assert xs == init + [last];
      assert (set x | x in xs) == some + {last};
      AtMostLength(init);
      CountedOnce(init);
      if last in init {
        var i :| 0 <= i < |init| && init[i] == last;
        assert some + {last} == some;
        assert xs[i] == xs[|xs| - 1];
      } else {
        assert forall i | 0 <= i < |init| :: xs[i] == init[i] && xs[i] in init;
      }
    }
  }
}
