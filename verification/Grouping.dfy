/** Python's `groups[key(x)].append(x)` over a list: groups in order of first appearance, for the items with a key. */
module Grouping {
  import opened Common
  import opened Lists

  function KeyedBy<T>(key: T -> string, k: string): T -> bool {
    (x: T) => key(x) == k
  }

  /** The non-empty keys in order of first appearance. */
  function FirstKeys<T>(s: seq<T>, key: T -> string): seq<string> {
    if s == [] then []
    else
      var rest, k := FirstKeys(s[..|s| - 1], key), key(s[|s| - 1]);
      if k != "" && k !in rest then rest + [k] else rest
  }

  ghost predicate Grouped<T(!new)>(s: seq<T>, key: T -> string, order: seq<string>, groups: map<string, seq<T>>) {
    && order == FirstKeys(s, key)
    && groups.Keys == Elems(order)
    && forall k :: k in groups ==> groups[k] == Where(s, KeyedBy(key, k))
  }

  lemma {:induction false} FirstKeysAreKeys<T(!new)>(s: seq<T>, key: T -> string)
    ensures Distinct(FirstKeys(s, key))
    ensures forall k :: k in FirstKeys(s, key) <==> k != "" && exists x :: x in s && key(x) == k
  {
    if s != [] {
      var init, last := s[..|s| - 1], s[|s| - 1];
      FirstKeysAreKeys(init, key);
      assert s == init + [last];
      assert forall x :: x in s <==> x in init || x == last;
    }
  }

  lemma FirstKeysExtend<T(!new)>(s: seq<T>, key: T -> string, x: T)
    ensures FirstKeys(s + [x], key) ==
            FirstKeys(s, key) + if key(x) != "" && key(x) !in FirstKeys(s, key) then [key(x)] else []
  {
    assert (s + [x])[..|s|] == s;
  }

  /** An item without a key joins no group. */
  lemma GroupNone<T(!new)>(s: seq<T>, key: T -> string, order: seq<string>, groups: map<string, seq<T>>, x: T)
    requires Grouped(s, key, order, groups) && key(x) == ""
    ensures Grouped(s + [x], key, order, groups)
  {
    hide Where, FirstKeys;
    FirstKeysExtend(s, key, x);
    FirstKeysAreKeys(s, key);
    forall k | k in groups ensures groups[k] == Where(s + [x], KeyedBy(key, k)) {
      WhereExtends(s, x, KeyedBy(key, k));
      assert k in Elems(order);
    }
  }

  lemma NoneYet<T(!new)>(s: seq<T>, key: T -> string, k: string)
    requires k != "" && k !in FirstKeys(s, key)
    ensures Where(s, KeyedBy(key, k)) == []
  {
    FirstKeysAreKeys(s, key);
    var found := Where(s, KeyedBy(key, k));
    if found != [] {
      WhereKeeps(s, KeyedBy(key, k), found[0]);
    }
  }

  lemma GroupOne<T(!new)>(s: seq<T>, key: T -> string, order: seq<string>, groups: map<string, seq<T>>, x: T)
    requires Grouped(s, key, order, groups) && key(x) != ""
    ensures key(x) in groups <==> key(x) in order
    ensures Grouped(s + [x], key, if key(x) in groups then order else order + [key(x)],
                    groups[key(x) := (if key(x) in groups then groups[key(x)] else []) + [x]])
  {
    hide Where, FirstKeys;
    var own := if key(x) in groups then groups[key(x)] else [];
    assert key(x) in groups <==> key(x) in Elems(order);
    FirstKeysExtend(s, key, x);
    if key(x) !in groups {
      NoneYet(s, key, key(x));
    }
    var grown := groups[key(x) := own + [x]];
    forall k | k in grown ensures grown[k] == Where(s + [x], KeyedBy(key, k)) {
      WhereExtends(s, x, KeyedBy(key, k));
    }
    assert grown.Keys == groups.Keys + {key(x)};
  }

  /** groups[key(x)].append(x) for an item with a key. */
  method AddToGroup<T(!new)>(ghost s: seq<T>, key: T -> string, order0: seq<string>, groups0: map<string, seq<T>>, x: T)
    returns (order: seq<string>, groups: map<string, seq<T>>)
    requires Grouped(s, key, order0, groups0) && key(x) != ""
    ensures Grouped(s + [x], key, order, groups)
  {
    GroupOne(s, key, order0, groups0, x);
    order, groups := order0, groups0;
    if key(x) in groups {
      groups := groups[key(x) := groups[key(x)] + [x]];
    } else {
      order := order + [key(x)];
      groups := groups[key(x) := [] + [x]];
    }
  }
}
