/** Ordered names: the vectors `sort_unstable` works on, and their independence of the order
    in which a hash map or set is walked. */
module Names {
  import opened Text

  type Name = string

  ghost predicate Distinct<T>(s: seq<T>) {
    forall i, j | 0 <= i < j < |s| :: s[i] != s[j]
  }

  function Elements<T(==)>(s: seq<T>): set<T> {
    set x | x in s
  }

  lemma LastIsNew<T>(s: seq<T>)
    requires Distinct(s) && s != []
    ensures var front, last := s[..|s| - 1], s[|s| - 1];
            Distinct(front) && last !in Elements(front) && Elements(s) == Elements(front) + {last}
  {
    var front, last := s[..|s| - 1], s[|s| - 1];
    assert s == front + [last];
    forall i, j | 0 <= i < j < |front| ensures front[i] != front[j] {
      assert s[i] != s[j];
    }
    forall i | 0 <= i < |front| ensures front[i] != last {
      assert s[i] != s[|s| - 1];
    }
  }

  lemma {:induction false} DistinctSize<T>(s: seq<T>)
    requires Distinct(s)
    ensures |Elements(s)| == |s|
  {
    if s != [] {
      var front := s[..|s| - 1];
      DistinctSize(front);
      LastIsNew(s);
    }
  }

  lemma SomeElement<T>(s: seq<T>)
    ensures s != [] ==> Elements(s) != {}
  {
    if s != [] {
      assert s[0] in Elements(s);
    }
  }

  lemma ConcatElements<T>(a: seq<T>, b: seq<T>)
    ensures Elements(a + b) == Elements(a) + Elements(b)
  {
    forall x | x in b ensures x in a + b {
      var i :| 0 <= i < |b| && b[i] == x;
      assert (a + b)[|a| + i] == x;
    }
    forall x | x in a ensures x in a + b {
      var i :| 0 <= i < |a| && a[i] == x;
      assert (a + b)[i] == x;
    }
  }

  lemma DistinctConcat<T>(a: seq<T>, b: seq<T>)
    requires Distinct(a) && Distinct(b) && forall x | x in b :: x !in a
    ensures Distinct(a + b)
  {
    var c := a + b;
    forall i, j | 0 <= i < j < |c| ensures c[i] != c[j] {
      if j < |a| {
        assert c[i] == a[i] && c[j] == a[j];
      } else if i < |a| {
        assert c[i] == a[i] && c[j] == b[j - |a|];
        assert b[j - |a|] in b && a[i] in a;
      } else {
        assert c[i] == b[i - |a|] && c[j] == b[j - |a|];
      }
    }
  }

  /** A list as long as its set of elements repeats nothing. */
  lemma {:induction false} AllNamedOnce<T>(s: seq<T>)
    requires |Elements(s)| == |s|
    ensures Distinct(s)
  {
    if s != [] {
      var front, last := s[..|s| - 1], s[|s| - 1];
      ElementsAtMost(front);
      assert Elements(s) == Elements(front) + {last};
      assert last in front ==> Elements(front) + {last} == Elements(front);
      AllNamedOnce(front);
    }
  }

  lemma {:induction false} ElementsAtMost<T>(s: seq<T>)
    ensures |Elements(s)| <= |s|
  {
    if s != [] {
      ElementsAtMost(s[..|s| - 1]);
      assert Elements(s) == Elements(s[..|s| - 1]) + {s[|s| - 1]};
    }
  }

  // ---- sort_unstable -------------------------------------------------------------------

  ghost predicate Ascending(s: seq<Name>) {
    forall i, j | 0 <= i < j < |s| :: Less(s[i], s[j])
  }

  function InsertSorted(x: Name, s: seq<Name>): (r: seq<Name>)
    ensures multiset(r) == multiset(s) + multiset{x}
  {
    if s == [] || Less(x, s[0]) then [x] + s else
      assert s == [s[0]] + s[1..];
      [s[0]] + InsertSorted(x, s[1..])
  }

  /** `sort_unstable` of the standard library, on a vector of names. */
  function SortUnstable(s: seq<Name>): (r: seq<Name>)
    ensures multiset(r) == multiset(s)
  {
    if s == [] then [] else
      assert s == [s[0]] + s[1..];
      InsertSorted(s[0], SortUnstable(s[1..]))
  }

  lemma {:induction false} InsertKeepsAscending(x: Name, s: seq<Name>)
    requires Ascending(s) && x !in s
    ensures Ascending(InsertSorted(x, s))
  {
    if s != [] {
      if Less(x, s[0]) {
        forall j | 0 <= j < |s| ensures Less(x, s[j]) {
          if j > 0 { LessIsTransitive(x, s[0], s[j]); }
        }
      } else {
        LessIsTotal(x, s[0]);
        var rest := InsertSorted(x, s[1..]);
        InsertKeepsAscending(x, s[1..]);
        forall j | 0 <= j < |rest| ensures Less(s[0], rest[j]) {
          assert rest[j] in multiset(rest);
          assert rest[j] == x || rest[j] in multiset(s[1..]);
        }
      }
    }
  }

  lemma {:induction false} SortAscends(s: seq<Name>)
    requires Distinct(s)
    ensures Ascending(SortUnstable(s))
    ensures Elements(SortUnstable(s)) == Elements(s)
  {
    var r := SortUnstable(s);
    forall x ensures x in r <==> x in s {
      assert x in multiset(r) <==> x in multiset(s);
    }
    if s != [] {
      SortAscends(s[1..]);
      assert s[0] !in SortUnstable(s[1..]) by {
        assert s[0] !in Elements(s[1..]);
      }
      InsertKeepsAscending(s[0], SortUnstable(s[1..]));
    }
  }

  /** An ascending list is determined by its elements, whatever order they were found in. */
  lemma {:induction false} AscendingIsUnique(a: seq<Name>, b: seq<Name>)
    requires Ascending(a) && Ascending(b) && Elements(a) == Elements(b)
    ensures a == b
  {
    if b != [] {
      assert b[0] in Elements(b);
    }
    if a != [] {
      assert a[0] in Elements(b) && b != [];
      assert b[0] in Elements(a);
      FirstIsLeast(a, b[0]);
      FirstIsLeast(b, a[0]);
      if a[0] != b[0] {
        LessIsTransitive(a[0], b[0], a[0]);
        LessIsIrreflexive(a[0]);
      }
      forall x ensures x in a[1..] <==> x in b[1..] {
        TailElements(a, x);
        TailElements(b, x);
        assert x in Elements(a) <==> x in Elements(b);
      }
      AscendingIsUnique(a[1..], b[1..]);
      assert a == [a[0]] + a[1..] && b == [b[0]] + b[1..];
    }
  }

  lemma FirstIsLeast(a: seq<Name>, x: Name)
    requires Ascending(a) && x in a
    ensures x == a[0] || Less(a[0], x)
  {}

  lemma TailElements(a: seq<Name>, x: Name)
    requires Ascending(a) && a != []
    ensures x in a[1..] <==> x in a && x != a[0]
  {
    LessIsIrreflexive(a[0]);
    if x in a[1..] {
      var i :| 0 <= i < |a[1..]| && a[1..][i] == x;
      assert a[i + 1] == x && Less(a[0], a[i + 1]);
    }
    if x in a && x != a[0] {
      var i :| 0 <= i < |a| && a[i] == x;
      assert a[1..][i - 1] == x;
    }
  }

  ghost function AnyListing<T>(s: set<T>): (r: seq<T>)
    ensures Distinct(r) && Elements(r) == s
  {
    if s == {} then [] else
      var x :| x in s;
      var rest := AnyListing(s - {x});
      assert x !in Elements(rest);
      assert Elements([x] + rest) == {x} + Elements(rest);
      [x] + rest
  }

  /** The names of a set in ascending order. */
  ghost function Sorted(s: set<Name>): (r: seq<Name>)
    ensures Ascending(r) && Elements(r) == s && Distinct(r)
  {
    SortAscends(AnyListing(s));
    var r := SortUnstable(AnyListing(s));
    AscendingIsDistinct(r);
    r
  }

  lemma AscendingIsDistinct(r: seq<Name>)
    requires Ascending(r)
    ensures Distinct(r)
  {
    forall i, j | 0 <= i < j < |r| ensures r[i] != r[j] {
      LessIsIrreflexive(r[i]);
      assert Less(r[i], r[j]);
    }
  }

  lemma SortIsSorted(s: seq<Name>)
    requires Distinct(s)
    ensures SortUnstable(s) == Sorted(Elements(s))
  {
    SortAscends(s);
    AscendingIsUnique(SortUnstable(s), Sorted(Elements(s)));
  }

  function Reverse<T>(s: seq<T>): (r: seq<T>)
    ensures |r| == |s|
    ensures forall i | 0 <= i < |s| :: r[i] == s[|s| - 1 - i]
  {
    if s == [] then [] else Reverse(s[1..]) + [s[0]]
  }

  lemma ReverseKeeps<T>(s: seq<T>)
    ensures Elements(Reverse(s)) == Elements(s)
    ensures Distinct(s) ==> Distinct(Reverse(s))
  {
    var r := Reverse(s);
    forall x | x in s ensures x in r {
      var i :| 0 <= i < |s| && s[i] == x;
      assert r[|s| - 1 - i] == x;
    }
  }
}
