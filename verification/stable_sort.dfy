/** JavaScript text order and the stable sort the finding report relies on. */
module StableSort {
  /** A UTF-16 code unit; JavaScript compares strings unit by unit. */
  newtype Unit = n: int | 0 <= n < 0x1_0000

  type Text = seq<Unit>

  /** A list of texts compared one after the other, as `firstDifference` does. */
  type Key = seq<Text>

  predicate TextLess(a: Text, b: Text) {
    if b == [] then false
    else if a == [] then true
    else if a[0] != b[0] then a[0] < b[0]
    else TextLess(a[1..], b[1..])
  }

  predicate Less(a: Key, b: Key) {
    if b == [] then false
    else if a == [] then true
    else if a[0] != b[0] then TextLess(a[0], b[0])
    else Less(a[1..], b[1..])
  }

  lemma {:induction false} TextTotal(a: Text, b: Text)
    ensures a == b || TextLess(a, b) || TextLess(b, a)
    ensures !(TextLess(a, b) && TextLess(b, a)) && !TextLess(a, a)
    decreases |a|
  {
    if a != [] {
      TextTotal(a[1..], a[1..]);
    }
    if a != [] && b != [] {
      TextTotal(a[1..], b[1..]);
      assert a == [a[0]] + a[1..] && b == [b[0]] + b[1..];
    }
  }

  lemma {:induction false} TextTransitive(a: Text, b: Text, c: Text)
    requires TextLess(a, b) && TextLess(b, c)
    ensures TextLess(a, c)
  {
    if a != [] && a[0] == b[0] == c[0] {
      TextTransitive(a[1..], b[1..], c[1..]);
    }
  }

  lemma {:induction false} Total(a: Key, b: Key)
    ensures a == b || Less(a, b) || Less(b, a)
    ensures !(Less(a, b) && Less(b, a)) && !Less(a, a)
    decreases |a|
  {
    if a != [] {
      Total(a[1..], a[1..]);
    }
    if a != [] && b != [] {
      TextTotal(a[0], b[0]);
      Total(a[1..], b[1..]);
      assert a == [a[0]] + a[1..] && b == [b[0]] + b[1..];
    }
  }

  lemma {:induction false} Transitive(a: Key, b: Key, c: Key)
    requires Less(a, b) && Less(b, c)
    ensures Less(a, c)
  {
    if a != [] {
      TextTotal(a[0], b[0]);
      TextTotal(b[0], c[0]);
      if a[0] == b[0] == c[0] {
        Transitive(a[1..], b[1..], c[1..]);
      } else if a[0] != b[0] && b[0] != c[0] {
        TextTransitive(a[0], b[0], c[0]);
        TextTotal(a[0], c[0]);
      }
    }
  }

  // --- stable insertion sort ---

  /** Behind every element that is not greater. */
  function Insert<T>(s: seq<T>, x: T, key: T -> Key): seq<T> {
    if s == [] || !Less(key(x), key(s[|s| - 1])) then s + [x]
    else Insert(s[..|s| - 1], x, key) + [s[|s| - 1]]
  }

  /** What `sort` makes of a list: in order, and elements with equal keys as they came. */
  function Sort<T>(s: seq<T>, key: T -> Key): seq<T> {
    if s == [] then [] else Insert(Sort(s[..|s| - 1], key), s[|s| - 1], key)
  }

  ghost predicate Ordered<T>(s: seq<T>, key: T -> Key) {
    forall i, j :: 0 <= i < j < |s| ==> !Less(key(s[j]), key(s[i]))
  }

  ghost predicate Strict<T>(s: seq<T>, key: T -> Key) {
    forall i, j :: 0 <= i < j < |s| ==> Less(key(s[i]), key(s[j]))
  }

  function Filter<T>(s: seq<T>, p: T -> bool): seq<T> {
    if s == [] then []
    else Filter(s[..|s| - 1], p) + if p(s[|s| - 1]) then [s[|s| - 1]] else []
  }

  function WithKey<T>(key: T -> Key, k: Key): T -> bool {
    x => key(x) == k
  }

  function Times<T>(s: seq<T>, key: T -> Key, k: Key): nat {
    |Filter(s, WithKey(key, k))|
  }

  lemma FilterAppend<T>(s: seq<T>, x: T, p: T -> bool)
    ensures Filter(s + [x], p) == Filter(s, p) + if p(x) then [x] else []
  {
    assert (s + [x])[..|s|] == s;
  }

  lemma {:induction false} FilterIs<T>(s: seq<T>, p: T -> bool)
    ensures forall x :: x in Filter(s, p) <==> x in s && p(x)
  {
    if s != [] {
      var n := |s| - 1;
      FilterIs(s[..n], p);
      assert s == s[..n] + [s[n]];
    }
  }

  lemma {:induction false} FilterNone<T>(s: seq<T>, p: T -> bool)
    requires forall i :: 0 <= i < |s| ==> !p(s[i])
    ensures Filter(s, p) == []
  {
    if s != [] {
      FilterNone(s[..|s| - 1], p);
    }
  }

  lemma {:induction false} FilterMultiset<T>(s: seq<T>, p: T -> bool)
    ensures forall x :: multiset(Filter(s, p))[x] == if p(x) then multiset(s)[x] else 0
  {
    if s != [] {
      var n := |s| - 1;
      FilterMultiset(s[..n], p);
      assert s == s[..n] + [s[n]];
    }
  }

  lemma {:induction false} InsertBelow<T>(s: seq<T>, x: T, key: T -> Key, last: T)
    requires Less(key(x), key(last)) && forall i :: 0 <= i < |s| ==> !Less(key(last), key(s[i]))
    ensures forall i :: 0 <= i < |Insert(s, x, key)| ==> !Less(key(last), key(Insert(s, x, key)[i]))
  {
    Total(key(x), key(last));
    if s != [] {
      InsertBelow(s[..|s| - 1], x, key, last);
    }
  }

  lemma {:induction false} InsertAdds<T>(s: seq<T>, x: T, key: T -> Key)
    ensures multiset(Insert(s, x, key)) == multiset(s) + multiset{x}
  {
    hide Less;
    if s != [] && Less(key(x), key(s[|s| - 1])) {
      var n := |s| - 1;
      assert s == s[..n] + [s[n]];
      InsertAdds(s[..n], x, key);
    }
  }

  /** Nothing in an ordered list is above what its last element is not above. */
  lemma AboveAll<T>(s: seq<T>, x: T, key: T -> Key)
    requires Ordered(s, key) && s != [] && !Less(key(x), key(s[|s| - 1]))
    ensures forall i :: 0 <= i < |s| ==> !Less(key(x), key(s[i]))
  {
    hide Less;
    var last := s[|s| - 1];
    forall i | 0 <= i < |s| ensures !Less(key(x), key(s[i])) {
      Total(key(s[i]), key(last));
      if Less(key(x), key(s[i])) && key(s[i]) != key(last) {
        Transitive(key(x), key(s[i]), key(last));
      }
    }
  }

  lemma AppendOrdered<T>(s: seq<T>, x: T, key: T -> Key)
    requires Ordered(s, key) && forall i :: 0 <= i < |s| ==> !Less(key(x), key(s[i]))
    ensures Ordered(s + [x], key)
  {
    hide Less;
  }

  lemma {:induction false} InsertOrders<T>(s: seq<T>, x: T, key: T -> Key)
    requires Ordered(s, key)
    ensures Ordered(Insert(s, x, key), key)
  {
    hide Less;
    if s == [] {
      AppendOrdered(s, x, key);
    } else if Less(key(x), key(s[|s| - 1])) {
      var n := |s| - 1;
      InsertOrders(s[..n], x, key);
      InsertBelow(s[..n], x, key, s[n]);
      AppendOrdered(Insert(s[..n], x, key), s[n], key);
    } else {
      AboveAll(s, x, key);
      AppendOrdered(s, x, key);
    }
  }

  lemma {:induction false} SortIs<T>(s: seq<T>, key: T -> Key)
    ensures multiset(Sort(s, key)) == multiset(s) && Ordered(Sort(s, key), key)
  {
    hide Less, Insert, Ordered;
    if s == [] {
      EmptyIsOrdered(key);
    } else {
      var n := |s| - 1;
      SortIs(s[..n], key);
      InsertAdds(Sort(s[..n], key), s[n], key);
      InsertOrders(Sort(s[..n], key), s[n], key);
      assert s == s[..n] + [s[n]];
    }
  }

  lemma EmptyIsOrdered<T>(key: T -> Key)
    ensures Ordered([], key)
  {
  }

  lemma SortHas<T>(s: seq<T>, key: T -> Key)
    ensures forall x :: x in Sort(s, key) <==> x in s
    ensures |Sort(s, key)| == |s|
  {
    SortIs(s, key);
    forall x ensures x in Sort(s, key) <==> x in s {
      assert x in s <==> x in multiset(s);
    }
    assert |multiset(s)| == |s|;
  }

  /** Elements with one key keep their order. */
  lemma {:induction false} InsertStable<T>(s: seq<T>, x: T, key: T -> Key, k: Key)
    requires Ordered(s, key)
    ensures Filter(Insert(s, x, key), WithKey(key, k)) == Filter(s, WithKey(key, k)) + if key(x) == k then [x] else []
  {
    var p := WithKey(key, k);
    if s == [] || !Less(key(x), key(s[|s| - 1])) {
      FilterAppend(s, x, p);
    } else {
      var n := |s| - 1;
      var last := s[n];
      assert s == s[..n] + [last];
      InsertStable(s[..n], x, key, k);
      FilterAppend(Insert(s[..n], x, key), last, p);
      FilterAppend(s[..n], last, p);
      Total(key(x), key(last));
    }
  }

  lemma {:induction false} SortStable<T>(s: seq<T>, key: T -> Key, k: Key)
    ensures Filter(Sort(s, key), WithKey(key, k)) == Filter(s, WithKey(key, k))
  {
    hide Insert, Less;
    var p := WithKey(key, k);
    if s != [] {
      var n := |s| - 1;
      SortIs(s[..n], key);
      InsertStable(Sort(s[..n], key), s[n], key, k);
      SortStable(s[..n], key, k);
      assert s == s[..n] + [s[n]];
      FilterAppend(s[..n], s[n], p);
    }
  }

  lemma {:induction false} SortOfOrdered<T>(s: seq<T>, key: T -> Key)
    requires Ordered(s, key)
    ensures Sort(s, key) == s
  {
    if s != [] {
      var n := |s| - 1;
      SortOfOrdered(s[..n], key);
      assert s == s[..n] + [s[n]];
    }
  }

  // --- what determines a sorted list ---

  /** Two strictly ordered lists with the same elements are the same list. */
  lemma {:induction false} StrictUnique<T>(a: seq<T>, b: seq<T>, key: T -> Key)
    requires Strict(a, key) && Strict(b, key) && forall x :: x in a <==> x in b
    ensures a == b
  {
    SameEmptiness(a, b);
    if a != [] {
      var n, m := |a| - 1, |b| - 1;
      assert a[n] in b && b[m] in a;
      Total(key(a[n]), key(b[m]));
      assert a[n] == b[m];
      assert a == a[..n] + [a[n]] && b == b[..m] + [b[m]];
      forall x ensures x in a[..n] <==> x in b[..m] {
        StrictlyOnce(a, n, key);
        StrictlyOnce(b, m, key);
        assert x in a <==> x in a[..n] || x == a[n];
        assert x in b <==> x in b[..m] || x == b[m];
      }
      StrictUnique(a[..n], b[..m], key);
    }
  }

  lemma SameEmptiness<T>(a: seq<T>, b: seq<T>)
    requires forall x :: x in a <==> x in b
    ensures a == [] <==> b == []
  {
    if a != [] { assert a[0] in b; }
    if b != [] { assert b[0] in a; }
  }

  lemma StrictlyOnce<T>(a: seq<T>, n: nat, key: T -> Key)
    requires Strict(a, key) && n < |a|
    ensures a[n] !in a[..n]
  {
    Total(key(a[n]), key(a[n]));
  }

  lemma BothEmpty<T(!new)>(a: seq<T>, b: seq<T>, key: T -> Key)
    requires KeysAlike(a, b, key)
    ensures a == [] <==> b == []
  {
    if a != [] { KeyOccurs(a, b, a[0], key); }
    if b != [] { KeyOccurs(b, a, b[0], key); }
  }

  /** Two ordered lists with the same elements, as often, have the same keys in the same places. */
  lemma {:induction false} OrderedKeys<T(!new)>(a: seq<T>, b: seq<T>, key: T -> Key)
    requires Ordered(a, key) && Ordered(b, key) && KeysAlike(a, b, key)
    ensures |a| == |b| && forall i :: 0 <= i < |a| ==> key(a[i]) == key(b[i])
  {
    hide Times, Less;
    BothEmpty(a, b, key);
    if a != [] {
      LastKeysEqual(a, b, key);
      WithoutLast(a, b, key);
      OrderedKeys(a[..|a| - 1], b[..|b| - 1], key);
    }
  }

  lemma LastKeysEqual<T(!new)>(a: seq<T>, b: seq<T>, key: T -> Key)
    requires Ordered(a, key) && Ordered(b, key) && KeysAlike(a, b, key) && a != [] && b != []
    ensures key(a[|a| - 1]) == key(b[|b| - 1])
  {
    hide KeysAlike, Less;
    var x, y := a[|a| - 1], b[|b| - 1];
    KeyOccurs(a, b, x, key);
    KeysAlikeBack(a, b, key);
    KeyOccurs(b, a, y, key);
    var i :| 0 <= i < |b| && key(b[i]) == key(x);
    var j :| 0 <= j < |a| && key(a[j]) == key(y);
    Total(key(x), key(y));
  }

  lemma KeysAlikeBack<T(!new)>(a: seq<T>, b: seq<T>, key: T -> Key)
    requires KeysAlike(a, b, key)
    ensures KeysAlike(b, a, key)
  {
  }

  lemma WithoutLast<T(!new)>(a: seq<T>, b: seq<T>, key: T -> Key)
    requires KeysAlike(a, b, key) && a != [] && b != [] && key(a[|a| - 1]) == key(b[|b| - 1])
    ensures KeysAlike(a[..|a| - 1], b[..|b| - 1], key)
  {
    hide Filter;
    var n, m := |a| - 1, |b| - 1;
    assert a == a[..n] + [a[n]] && b == b[..m] + [b[m]];
    forall k ensures Times(a[..n], key, k) == Times(b[..m], key, k) {
      FilterAppend(a[..n], a[n], WithKey(key, k));
      FilterAppend(b[..m], b[m], WithKey(key, k));
      assert Times(a, key, k) == Times(b, key, k);
    }
  }

  /** Every key occurs equally often. */
  ghost predicate KeysAlike<T(!new)>(a: seq<T>, b: seq<T>, key: T -> Key) {
    forall k :: Times(a, key, k) == Times(b, key, k)
  }

  lemma KeyOccurs<T(!new)>(a: seq<T>, b: seq<T>, x: T, key: T -> Key)
    requires KeysAlike(a, b, key) && x in a
    ensures exists i :: 0 <= i < |b| && key(b[i]) == key(x)
  {
    var p := WithKey(key, key(x));
    FilterIs(a, p);
    FilterIs(b, p);
    assert x in Filter(a, p);
    assert Times(a, key, key(x)) == Times(b, key, key(x));
    var y := Filter(b, p)[0];
    assert y in Filter(b, p);
  }

  lemma PermutationKeys<T(!new)>(a: seq<T>, b: seq<T>, key: T -> Key)
    requires multiset(a) == multiset(b)
    ensures KeysAlike(a, b, key)
  {
    forall k ensures Times(a, key, k) == Times(b, key, k) {
      PermutationFilter(a, b, WithKey(key, k));
    }
  }

  lemma PermutationFilter<T>(a: seq<T>, b: seq<T>, p: T -> bool)
    requires multiset(a) == multiset(b)
    ensures multiset(Filter(a, p)) == multiset(Filter(b, p)) && |Filter(a, p)| == |Filter(b, p)|
  {
    hide Filter;
    FilterMultiset(a, p);
    FilterMultiset(b, p);
    EqualMultisets(multiset(Filter(a, p)), multiset(Filter(b, p)));
    SameSize(Filter(a, p), Filter(b, p));
  }

  lemma EqualMultisets<T>(a: multiset<T>, b: multiset<T>)
    requires forall x :: a[x] == b[x]
    ensures a == b
  {
  }

  lemma SameSize<T>(a: seq<T>, b: seq<T>)
    requires multiset(a) == multiset(b)
    ensures |a| == |b|
  {
    assert |multiset(a)| == |a| && |multiset(b)| == |b|;
  }
}
