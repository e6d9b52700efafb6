/** Python's `sorted` on a set of texts: code point order, no repeats. */
module SortedText {
  import opened Common

  predicate Less(a: string, b: string) {
    if b == [] then false
    else if a == [] then true
    else a[0] < b[0] || (a[0] == b[0] && Less(a[1..], b[1..]))
  }

  lemma {:induction false} LessTotal(a: string, b: string)
    ensures a == b || Less(a, b) || Less(b, a)
  {
    if a != [] && b != [] {
      LessTotal(a[1..], b[1..]);
      assert a == [a[0]] + a[1..] && b == [b[0]] + b[1..];
    }
  }

  lemma {:induction false} LessTransitive(a: string, b: string, c: string)
    requires Less(a, b) && Less(b, c)
    ensures Less(a, c)
  {
    if a != [] && a[0] == b[0] && b[0] == c[0] {
      LessTransitive(a[1..], b[1..], c[1..]);
    }
  }

  lemma {:induction false} LessIrreflexive(a: string)
    ensures !Less(a, a)
  {
    if a != [] {
      LessIrreflexive(a[1..]);
    }
  }

  ghost predicate Ascending(s: seq<string>) {
    forall i, j :: 0 <= i < j < |s| ==> Less(s[i], s[j])
  }

  function Insert(s: seq<string>, x: string): (r: seq<string>)
    requires Ascending(s) && x !in s
    ensures Ascending(r) && Elems(r) == Elems(s) + {x}
  {
    if s == [] then [x]
    else if Less(x, s[0]) then
      assert forall j :: 0 < j < |s| ==> Less(x, s[j]) by {
        forall j | 0 < j < |s| ensures Less(x, s[j]) {
          LessTransitive(x, s[0], s[j]);
        }
      }
      [x] + s
    else
      LessTotal(x, s[0]);
      var rest := Insert(s[1..], x);
      assert s == [s[0]] + s[1..];
      assert forall y :: y in rest ==> Less(s[0], y) by {
        forall y | y in rest ensures Less(s[0], y) {
          assert y in Elems(rest);
        }
      }
      [s[0]] + rest
  }

  method Sorted(values: set<string>) returns (out: seq<string>)
    ensures Ascending(out) && Elems(out) == values
  {
    out := [];
    var rest := values;
    while rest != {}
      invariant Ascending(out) && Elems(out) == values - rest && rest <= values
    {
      var x :| x in rest;
      assert x !in out by {
        assert x !in Elems(out);
      }
      out := Insert(out, x);
      rest := rest - {x};
    }
  }

  lemma AscendingSingleton(s: seq<string>, x: string)
    requires Ascending(s) && Elems(s) == {x}
    ensures s == [x]
  {
    assert x in Elems(s);
    assert forall i :: 0 <= i < |s| ==> s[i] in Elems(s);
    if |s| > 1 {
      assert s[0] == s[1];
      LessIrreflexive(s[0]);
    }
  }
}
