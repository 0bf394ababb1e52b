/** Lists without repetition. */
module Lists {
  predicate Unique<T(==)>(list: seq<T>) {
    forall i, j :: 0 <= i < j < |list| ==> list[i] != list[j]
  }

  function Elements<T>(list: seq<T>): set<T> {
    set x | x in list
  }

  lemma UniqueAppend<T>(list: seq<T>, x: T)
    requires Unique(list) && x !in list
    ensures Unique(list + [x])
  {
  }

  lemma {:induction false} UniqueSize<T>(list: seq<T>)
    requires Unique(list)
    ensures |Elements(list)| == |list|
  {
    if list != [] {
      var last := |list| - 1;
      UniqueSize(list[..last]);
      assert list == list[..last] + [list[last]];
      assert Elements(list) == Elements(list[..last]) + {list[last]};
    }
  }

  /** A list of the members of a set, in an arbitrary order: a range over the keys of a map. */
  method ListOf<T(==)>(all: set<T>) returns (list: seq<T>)
    ensures Unique(list) && Elements(list) == all && |list| == |all|
  {
    list := [];
    var left := all;
    while left != {}
      invariant Unique(list) && left <= all && Elements(list) == all - left
      decreases left
    {
      var x :| x in left;
      assert x !in Elements(list);
      assert Elements(list + [x]) == Elements(list) + {x};
      list := list + [x];
      left := left - {x};
    }
    UniqueSize(list);
  }
}
