/** The byte-wise order of Go strings and sorting by it. */
module Strings {
  import opened Lists

  /** Strictly before in lexicographic order. */
  predicate Before(a: string, b: string) {
    b != [] && (a == [] || a[0] < b[0] || (a[0] == b[0] && Before(a[1..], b[1..])))
  }

  /** At the first difference the string with the smaller character comes first, and a prefix before what it begins. */
  lemma {:induction false} BeforeExactly(a: string, b: string)
    ensures Before(a, b) <==> exists i :: 0 <= i <= |a| && Differ(a, b, i)
  {
    if a != [] && b != [] && a[0] == b[0] {
      BeforeExactly(a[1..], b[1..]);
      if i :| 0 <= i <= |a[1..]| && Differ(a[1..], b[1..], i) {
        assert a[..i + 1] == [a[0]] + a[1..][..i] && b[..i + 1] == [b[0]] + b[1..][..i];
        assert Differ(a, b, i + 1);
      }
      if i :| 0 <= i <= |a| && Differ(a, b, i) {
        assert i > 0;
        assert a[1..][..i - 1] == a[..i][1..] && b[1..][..i - 1] == b[..i][1..];
        assert Differ(a[1..], b[1..], i - 1);
      }
    } else {
      assert a == [] && b != [] ==> Differ(a, b, 0);
      assert a != [] && b != [] && a[0] < b[0] ==> Differ(a, b, 0);
    }
  }

  /** The strings are the same up to i, where a ends or has the smaller character. */
  predicate Differ(a: string, b: string, i: nat) {
    i <= |a| && i < |b| && a[..i] == b[..i] && (i == |a| || a[i] < b[i])
  }

  lemma {:induction false} BeforeIsTotal(a: string, b: string)
    ensures a == b || Before(a, b) || Before(b, a)
    ensures !(Before(a, b) && Before(b, a)) && !Before(a, a)
  {
    if a != [] && b != [] && a[0] == b[0] {
      BeforeIsTotal(a[1..], b[1..]);
      assert a == [a[0]] + a[1..] && b == [b[0]] + b[1..];
    }
    if a != [] {
      BeforeIsTotal(a[1..], a[1..]);
    }
  }

  lemma {:induction false} BeforeIsTransitive(a: string, b: string, c: string)
    requires Before(a, b) && Before(b, c)
    ensures Before(a, c)
  {
    if a != [] && a[0] == b[0] == c[0] {
      BeforeIsTransitive(a[1..], b[1..], c[1..]);
    }
  }

  predicate Ascending(s: seq<string>) {
    forall i, j :: 0 <= i < j < |s| ==> Before(s[i], s[j])
  }

  function Inserted(s: seq<string>, x: string): seq<string> {
    if s == [] || Before(s[|s| - 1], x) then s + [x] else Inserted(s[..|s| - 1], x) + [s[|s| - 1]]
  }

  /** sort.Strings */
  function Sort(s: seq<string>): seq<string> {
    if s == [] then [] else Inserted(Sort(s[..|s| - 1]), s[|s| - 1])
  }

  lemma {:induction false} InsertedAscends(s: seq<string>, x: string)
    requires Ascending(s) && x !in s
    ensures Ascending(Inserted(s, x)) && |Inserted(s, x)| == |s| + 1
    ensures forall y :: y in Inserted(s, x) <==> y in s || y == x
  {
    if s != [] {
      var last := |s| - 1;
      assert s == s[..last] + [s[last]];
      if Before(s[last], x) {
        forall i | 0 <= i < last ensures Before(s[i], x) {
          BeforeIsTransitive(s[i], s[last], x);
        }
      } else {
        BeforeIsTotal(s[last], x);
        InsertedAscends(s[..last], x);
        var rest := Inserted(s[..last], x);
        forall i | 0 <= i < |rest| ensures Before(rest[i], s[last]) {
          assert rest[i] in rest;
        }
      }
    }
  }

  /** Distinct strings come out in strictly ascending order. */
  lemma {:induction false} SortAscends(s: seq<string>)
    requires Unique(s)
    ensures Ascending(Sort(s)) && |Sort(s)| == |s|
    ensures forall y :: y in Sort(s) <==> y in s
  {
    if s != [] {
      var last := |s| - 1;
      assert s == s[..last] + [s[last]];
      SortAscends(s[..last]);
      InsertedAscends(Sort(s[..last]), s[last]);
    }
  }

  lemma AscendingHead(s: seq<string>, t: seq<string>)
    requires s != [] && t != [] && Ascending(s) && Ascending(t)
    requires s[0] in t && t[0] in s
    ensures s[0] == t[0]
  {
    BeforeIsTotal(s[0], t[0]);
  }

  lemma TailMembers(s: seq<string>)
    requires Ascending(s) && s != []
    ensures forall x :: x in s[1..] <==> x in s && x != s[0]
  {
    assert s == [s[0]] + s[1..];
    BeforeIsTotal(s[0], s[0]);
    assert s[0] !in s[1..];
  }

  /** A set of strings has only one ascending enumeration. */
  lemma {:induction false} AscendingIsUnique(s: seq<string>, t: seq<string>)
    requires Ascending(s) && Ascending(t) && forall x :: x in s <==> x in t
    ensures s == t
  {
    if s == [] {
      assert forall i :: 0 <= i < |t| ==> t[i] in t;
    } else {
      assert s[0] in t;
      AscendingHead(s, t);
      TailMembers(s);
      TailMembers(t);
      AscendingIsUnique(s[1..], t[1..]);
      assert s == [s[0]] + s[1..] && t == [t[0]] + t[1..];
    }
  }
}
