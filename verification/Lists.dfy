/** Python's list comprehension with a condition and its stable sort, on lists of any type. */
module Lists {
  import opened Common

  function Where<T>(s: seq<T>, p: T -> bool): seq<T> {
    if s == [] then []
    else Where(s[..|s| - 1], p) + if p(s[|s| - 1]) then [s[|s| - 1]] else []
  }

  lemma WhereExtends<T>(s: seq<T>, x: T, p: T -> bool)
    ensures Where(s + [x], p) == Where(s, p) + if p(x) then [x] else []
  {
    assert (s + [x])[..|s|] == s;
  }

  lemma {:induction false} WhereKeeps<T>(s: seq<T>, p: T -> bool, e: T)
    ensures e in Where(s, p) <==> e in s && p(e)
  {
    if s != [] {
      WhereKeeps(s[..|s| - 1], p, e);
      assert s == s[..|s| - 1] + [s[|s| - 1]];
    }
  }

  lemma {:induction false} WhereDistinct<T>(s: seq<T>, p: T -> bool)
    requires Distinct(s)
    ensures Distinct(Where(s, p))
  {
    if s != [] {
      var init, last := s[..|s| - 1], s[|s| - 1];
      WhereDistinct(init, p);
      WhereKeeps(init, p, last);
      assert forall i :: 0 <= i < |init| ==> s[i] != last;
    }
  }

  lemma WhereMembers<T>(s: seq<T>, p: T -> bool)
    ensures forall e :: e in Where(s, p) <==> e in s && p(e)
    ensures Distinct(s) ==> Distinct(Where(s, p))
  {
    forall e ensures e in Where(s, p) <==> e in s && p(e) {
      WhereKeeps(s, p, e);
    }
    if Distinct(s) {
      WhereDistinct(s, p);
    }
  }

  lemma {:induction false} WhereAll<T>(s: seq<T>, p: T -> bool)
    requires forall x :: x in s ==> p(x)
    ensures Where(s, p) == s
  {
    if s != [] {
      var init, last := s[..|s| - 1], s[|s| - 1];
      assert last in s;
      forall x | x in init ensures p(x) {
        assert x in s;
      }
      WhereAll(init, p);
      assert s == init + [last];
    }
  }

  /** As many elements are kept as there are positions that satisfy p. */
  lemma {:induction false} WhereCount<T>(s: seq<T>, p: T -> bool, positions: set<int>)
    requires forall i :: i in positions <==> 0 <= i < |s| && p(s[i])
    ensures |Where(s, p)| == |positions|
  {
    if s == [] {
      assert forall i :: i !in positions;
    } else {
      var n := |s| - 1;
      WhereCount(s[..n], p, positions - {n});
    }
  }

  /** The first element that satisfies p. */
  function First<T>(s: seq<T>, p: T -> bool): Option<T> {
    if s == [] then None else if p(s[0]) then Some(s[0]) else First(s[1..], p)
  }

  lemma {:induction false} FirstExists<T>(s: seq<T>, p: T -> bool)
    ensures First(s, p).Some? <==> exists x :: x in s && p(x)
    ensures First(s, p).Some? ==> First(s, p).value in s && p(First(s, p).value)
  {
    if s != [] {
      FirstExists(s[1..], p);
      assert s == [s[0]] + s[1..];
    }
  }

  lemma {:induction false} FirstAppend<T>(s: seq<T>, x: T, p: T -> bool)
    ensures First(s + [x], p) == if First(s, p).Some? then First(s, p) else if p(x) then Some(x) else None
  {
    if s != [] {
      FirstAppend(s[1..], x, p);
      assert (s + [x])[1..] == s[1..] + [x];
    }
  }

  /** The head of a filtered list is the first element that passes. */
  lemma {:induction false} WhereHead<T>(s: seq<T>, p: T -> bool)
    ensures Where(s, p) == [] <==> First(s, p).None?
    ensures Where(s, p) != [] ==> First(s, p) == Some(Where(s, p)[0])
  {
    if s != [] {
      var init, last := s[..|s| - 1], s[|s| - 1];
      WhereHead(init, p);
      FirstAppend(init, last, p);
      assert s == init + [last];
    }
  }

  ghost predicate SortedBy<T>(s: seq<T>, key: T -> real) {
    forall i, j :: 0 <= i < j < |s| ==> key(s[i]) <= key(s[j])
  }

  /** Insert after everything that is not larger, so equal keys keep their order. */
  function Place<T>(s: seq<T>, x: T, key: T -> real): seq<T> {
    if s == [] || key(s[|s| - 1]) <= key(x) then s + [x]
    else Place(s[..|s| - 1], x, key) + [s[|s| - 1]]
  }

  function SortBy<T>(s: seq<T>, key: T -> real): seq<T> {
    if s == [] then [] else Place(SortBy(s[..|s| - 1], key), s[|s| - 1], key)
  }

  lemma {:induction false} PlaceMembers<T>(s: seq<T>, x: T, key: T -> real)
    ensures |Place(s, x, key)| == |s| + 1
    ensures Elems(Place(s, x, key)) == Elems(s) + {x}
  {
    if s == [] || key(s[|s| - 1]) <= key(x) {
      assert Elems(s + [x]) == Elems(s) + {x};
    } else {
      var init, last := s[..|s| - 1], s[|s| - 1];
      PlaceMembers(init, x, key);
      assert s == init + [last];
      assert Elems(s) == Elems(init) + {last};
      assert Elems(Place(init, x, key) + [last]) == Elems(Place(init, x, key)) + {last};
    }
  }

  /** What Place returns: x and members of s only. */
  lemma PlaceMember<T>(s: seq<T>, x: T, key: T -> real, i: nat)
    requires i < |Place(s, x, key)|
    ensures Place(s, x, key)[i] == x || Place(s, x, key)[i] in s
  {
    PlaceMembers(s, x, key);
    assert Place(s, x, key)[i] in Elems(Place(s, x, key));
  }

  lemma {:induction false} PlaceSorted<T>(s: seq<T>, x: T, key: T -> real)
    requires SortedBy(s, key)
    ensures SortedBy(Place(s, x, key), key)
  {
    if s != [] && key(s[|s| - 1]) > key(x) {
      var init, last := s[..|s| - 1], s[|s| - 1];
      PlaceSorted(init, x, key);
      var shorter := Place(init, x, key);
      forall i | 0 <= i < |shorter| ensures key(shorter[i]) <= key(last) {
        PlaceMember(init, x, key, i);
      }
    }
  }

  lemma {:induction false} PlaceDistinct<T>(s: seq<T>, x: T, key: T -> real)
    requires Distinct(s) && x !in s
    ensures Distinct(Place(s, x, key))
  {
    if s != [] && key(s[|s| - 1]) > key(x) {
      var init, last := s[..|s| - 1], s[|s| - 1];
      PlaceDistinct(init, x, key);
      var shorter := Place(init, x, key);
      forall i | 0 <= i < |shorter| ensures shorter[i] != last {
        PlaceMember(init, x, key, i);
      }
    }
  }

  /** Sorting keeps the members, puts them in order, and repeats nothing. */
  lemma {:induction false} SortFacts<T>(s: seq<T>, key: T -> real)
    ensures |SortBy(s, key)| == |s|
    ensures Elems(SortBy(s, key)) == Elems(s)
    ensures SortedBy(SortBy(s, key), key)
    ensures Distinct(s) ==> Distinct(SortBy(s, key))
  {
    if s != [] {
      var init, last := s[..|s| - 1], s[|s| - 1];
      SortFacts(init, key);
      var sorted := SortBy(init, key);
      PlaceMembers(sorted, last, key);
      PlaceSorted(sorted, last, key);
      assert s == init + [last];
      assert Elems(s) == Elems(init) + {last};
      if Distinct(s) {
        assert last !in Elems(init);
        assert last in sorted <==> last in Elems(sorted);
        PlaceDistinct(sorted, last, key);
      }
    }
  }
}
