/** Exactly when the merged findings and the canonical report do not depend on the order of the input. */
module FindingsOrder {
  import opened Wrappers
  import opened StableSort
  import opened FindingsModel
  import opened Findings

  ghost predicate Permuted(fs: seq<Finding>, gs: seq<Finding>) {
    multiset(gs) == multiset(fs)
  }

  // --- merging ---

  /** No finding it is merged with comes before it. */
  ghost predicate Leads(fs: seq<Finding>, f: Finding) {
    f in fs && forall h: Finding :: h in fs && DedupKey(h) == DedupKey(f) ==> !Less(SortKey(h), SortKey(f))
  }

  /** Findings that lead their group together name the same location. */
  ghost predicate LocationsDecided(fs: seq<Finding>) {
    forall f: Finding, g: Finding :: Leads(fs, f) && Leads(fs, g) && DedupKey(f) == DedupKey(g) ==> f.location == g.location
  }

  lemma HeadLeads(s: seq<Finding>, k: Text)
    requires Ordered(s, SortKey) && Group(s, k) != []
    ensures Leads(s, Group(s, k)[0]) && DedupKey(Group(s, k)[0]) == k
  {
    hide SortKey, DedupKey, Less, Filter;
    var head := Group(s, k)[0];
    HeadIsIn(s, InGroup(k));
    forall h: Finding | h in s && DedupKey(h) == k ensures !Less(SortKey(h), SortKey(head)) {
      var i: nat :| i < |s| && s[i] == h;
      var j := HeadComesFirst(s, InGroup(k), i);
      Total(SortKey(h), SortKey(h));
    }
  }

  lemma HeadIsIn<T>(s: seq<T>, p: T -> bool)
    requires Filter(s, p) != []
    ensures Filter(s, p)[0] in s && p(Filter(s, p)[0])
  {
    FilterIs(s, p);
    var head := Filter(s, p)[0];
    assert head in Filter(s, p);
  }

  lemma NothingPasses<T>(s: seq<T>, p: T -> bool, i: nat)
    requires Filter(s, p) == [] && i < |s|
    ensures !p(s[i])
  {
    FilterIs(s, p);
    var x := s[i];
    assert x in s;
  }

  /** The head of what is filtered comes no later than anything that passes. */
  lemma {:induction false} HeadComesFirst<T>(s: seq<T>, p: T -> bool, i: nat) returns (j: nat)
    requires i < |s| && p(s[i])
    ensures Filter(s, p) != [] && j <= i && s[j] == Filter(s, p)[0]
  {
    var n := |s| - 1;
    if i < n {
      j := HeadComesFirst(s[..n], p, i);
    } else if Filter(s[..n], p) == [] {
      j := n;
    } else {
      HeadIsIn(s[..n], p);
      j :| 0 <= j < n && s[..n][j] == Filter(s[..n], p)[0];
    }
  }

  lemma SortedLeads(fs: seq<Finding>, f: Finding)
    ensures Leads(SortFindings(fs), f) <==> Leads(fs, f)
  {
    hide SortKey, DedupKey, Sort;
    SortFindingsIs(fs);
    SortHas(fs, SortKey);
  }

  lemma SortedIsOrdered(fs: seq<Finding>)
    ensures multiset(SortFindings(fs)) == multiset(fs) && Ordered(SortFindings(fs), SortKey)
  {
    SortFindingsIs(fs);
    SortIs(fs, SortKey);
  }

  lemma LeadersAgree(fs: seq<Finding>, f: Finding, g: Finding)
    requires Leads(fs, f) && Leads(fs, g) && DedupKey(f) == DedupKey(g)
    ensures SortKey(f) == SortKey(g)
  {
    Total(SortKey(f), SortKey(g));
  }

  lemma PermutedLeads(fs: seq<Finding>, gs: seq<Finding>, f: Finding)
    requires Permuted(fs, gs) && Leads(gs, f)
    ensures Leads(fs, f)
  {
    hide SortKey, DedupKey;
    SameMembers(fs, gs);
  }

  lemma SameMembers(fs: seq<Finding>, gs: seq<Finding>)
    requires Permuted(fs, gs)
    ensures forall f: Finding :: f in fs <==> f in gs
  {
    forall f: Finding ensures f in fs <==> f in gs {
      assert f in fs <==> f in multiset(fs);
      assert f in gs <==> f in multiset(gs);
    }
  }

  /** A group is merged into the same finding whichever order it came in. */
  lemma GroupsMergeAlike(fs: seq<Finding>, gs: seq<Finding>, k: Text)
    requires Permuted(fs, gs) && LocationsDecided(fs) && Group(SortFindings(fs), k) != []
    ensures Group(SortFindings(gs), k) != [] && MergeAll(Group(SortFindings(fs), k)) == MergeAll(Group(SortFindings(gs), k))
  {
    hide SortKey, DedupKey, SortFindings, SortedIds, MergeAll, Leads, Group;
    SortedIsOrdered(fs);
    SortedIsOrdered(gs);
    var a, b := Group(SortFindings(fs), k), Group(SortFindings(gs), k);
    GroupsPermuted(SortFindings(fs), SortFindings(gs), k);
    HeadLeads(SortFindings(fs), k);
    HeadLeads(SortFindings(gs), k);
    SortedLeads(fs, a[0]);
    SortedLeads(gs, b[0]);
    PermutedLeads(fs, gs, b[0]);
    LeadersAgree(fs, a[0], b[0]);
    EqualSortKeys(a[0], b[0]);
    MergeAllIs(a);
    MergeAllIs(b);
    AllIdsAre(a);
    AllIdsAre(b);
    SameMembers(a, b);
    SortedIdsDepends(AllIds(a), AllIds(b));
  }

  lemma GroupsPermuted(a: seq<Finding>, b: seq<Finding>, k: Text)
    requires multiset(a) == multiset(b)
    ensures Permuted(Group(a, k), Group(b, k)) && |Group(a, k)| == |Group(b, k)|
  {
    PermutationFilter(a, b, InGroup(k));
  }

  lemma DecidedIsEnough(fs: seq<Finding>, gs: seq<Finding>)
    requires Permuted(fs, gs) && LocationsDecided(fs)
    ensures Deduplicate(gs) == Deduplicate(fs)
  {
    hide SortKey, DedupKey, Deduplicate, MergeAll, SortFindings, Group, LocationsDecided;
    DeduplicateIs(fs);
    DeduplicateIs(gs);
    SortedIsOrdered(fs);
    SortedIsOrdered(gs);
    forall g: Finding ensures g in Deduplicate(fs) <==> g in Deduplicate(gs) {
      var k := DedupKey(g);
      GroupsPermuted(SortFindings(fs), SortFindings(gs), k);
      if Group(SortFindings(fs), k) != [] {
        GroupsMergeAlike(fs, gs, k);
      }
    }
    StrictUnique(Deduplicate(gs), Deduplicate(fs), SortKey);
  }

  lemma {:induction false} FirstOfBoth<T>(s: seq<T>, p: T -> bool, q: T -> bool)
    requires (forall x :: x in s && q(x) ==> p(x)) && Filter(s, p) != [] && q(Filter(s, p)[0])
    ensures Filter(s, q) != [] && Filter(s, q)[0] == Filter(s, p)[0]
  {
    var n := |s| - 1;
    assert s == s[..n] + [s[n]];
    if Filter(s[..n], p) != [] {
      FirstOfBoth(s[..n], p, q);
    } else {
      forall i | 0 <= i < n ensures !q(s[..n][i]) {
        NothingPasses(s[..n], p, i);
        assert s[..n][i] in s;
      }
      FilterNone(s[..n], q);
    }
  }

  lemma {:induction false} FrontPasses<T>(x: T, s: seq<T>, p: T -> bool)
    requires p(x)
    ensures Filter([x] + s, p) != [] && Filter([x] + s, p)[0] == x
  {
    if s == [] {
      assert [x] + s == [x] && [x][..0] == [];
    } else {
      var n := |s| - 1;
      FrontPasses(x, s[..n], p);
      assert ([x] + s)[..|[x] + s| - 1] == [x] + s[..n];
    }
  }

  /** A leader that comes first in the input gives its group its location. */
  lemma FrontWins(f: Finding, rest: seq<Finding>)
    requires Leads([f] + rest, f)
    ensures
      var group := Group(SortFindings([f] + rest), DedupKey(f));
      group != [] && group[0] == f && MergeAll(group) in Deduplicate([f] + rest)
      && MergeAll(group).location == f.location && DedupKey(MergeAll(group)) == DedupKey(f)
  {
    hide SortKey, DedupKey, Deduplicate, MergeAll, SortFindings, SortedIds, Less;
    var fs := [f] + rest;
    var s := SortFindings(fs);
    var k := DedupKey(f);
    SortedIsOrdered(fs);
    SortFindingsIs(fs);
    SortHas(fs, SortKey);
    assert f in fs;
    FilterIs(s, InGroup(k));
    var group := Group(s, k);
    assert f in group;
    HeadLeads(s, k);
    SortedLeads(fs, group[0]);
    LeadersAgree(fs, f, group[0]);
    forall x: Finding | x in s && WithKey(SortKey, SortKey(f))(x) ensures InGroup(k)(x) { EqualSortKeys(x, f); }
    FirstOfBoth(s, InGroup(k), WithKey(SortKey, SortKey(f)));
    SortStable(fs, SortKey, SortKey(f));
    FrontPasses(f, rest, WithKey(SortKey, SortKey(f)));
    DeduplicateIs(fs);
    MergeAllIs(group);
  }

  lemma MoveToFront(fs: seq<Finding>, f: Finding) returns (rest: seq<Finding>)
    requires f in fs
    ensures Permuted(fs, [f] + rest)
  {
    var i :| 0 <= i < |fs| && fs[i] == f;
    rest := fs[..i] + fs[i + 1..];
    assert fs == fs[..i] + [f] + fs[i + 1..];
  }

  /**
    Merging gives the same list for every order of its input exactly if, in every group of findings that
    are merged, those that compare least name one location.
   */
  lemma DeduplicateIgnoresOrderIff(fs: seq<Finding>)
    ensures (forall gs :: Permuted(fs, gs) ==> Deduplicate(gs) == Deduplicate(fs)) <==> LocationsDecided(fs)
  {
    hide SortKey, DedupKey, Deduplicate, MergeAll, SortFindings, Group, Less, Leads, Permuted;
    if LocationsDecided(fs) {
      forall gs | Permuted(fs, gs) ensures Deduplicate(gs) == Deduplicate(fs) {
        DecidedIsEnough(fs, gs);
      }
    } else {
      var f: Finding, g: Finding :| Leads(fs, f) && Leads(fs, g) && DedupKey(f) == DedupKey(g) && f.location != g.location;
      assert f in fs && g in fs by { LeadsIsIn(fs, f); LeadsIsIn(fs, g); }
      var a := MoveToFront(fs, f);
      var b := MoveToFront(fs, g);
      Back(fs, [f] + a);
      Back(fs, [g] + b);
      PermutedLeads([f] + a, fs, f);
      PermutedLeads([g] + b, fs, g);
      FrontWins(f, a);
      FrontWins(g, b);
      DeduplicateIs(fs);
    }
  }

  lemma LeadsIsIn(fs: seq<Finding>, f: Finding)
    requires Leads(fs, f)
    ensures f in fs
  {
  }

  lemma Back(fs: seq<Finding>, gs: seq<Finding>)
    requires Permuted(fs, gs)
    ensures Permuted(gs, fs)
  {
  }

  // --- the canonical report ---

  /** Findings that compare equal are written the same. */
  ghost predicate KeysDecide(fs: seq<Finding>) {
    forall f: Finding, g: Finding :: f in fs && g in fs && SortKey(f) == SortKey(g) ==> OrderedFinding(f) == OrderedFinding(g)
  }

  lemma SortedKeysAgree(fs: seq<Finding>, gs: seq<Finding>)
    requires Permuted(fs, gs)
    ensures |SortFindings(fs)| == |SortFindings(gs)|
    ensures forall i :: 0 <= i < |SortFindings(fs)| ==> SortKey(SortFindings(fs)[i]) == SortKey(SortFindings(gs)[i])
  {
    hide SortKey, SortFindings;
    SortedIsOrdered(fs);
    SortedIsOrdered(gs);
    PermutationKeys(SortFindings(fs), SortFindings(gs), SortKey);
    OrderedKeys(SortFindings(fs), SortFindings(gs), SortKey);
  }

  lemma KeysAreEnough(fs: seq<Finding>, gs: seq<Finding>)
    requires Permuted(fs, gs) && KeysDecide(fs)
    ensures Canonical(gs) == Canonical(fs)
  {
    hide SortKey, SortFindings, OrderedFinding;
    SortedKeysAgree(fs, gs);
    SortedIsOrdered(fs);
    SortedIsOrdered(gs);
    var a, b := SortFindings(fs), SortFindings(gs);
    forall i | 0 <= i < |a| ensures OrderedFinding(a[i]) == OrderedFinding(b[i]) {
      assert a[i] in multiset(fs) && b[i] in multiset(gs);
      assert a[i] in fs && b[i] in fs;
    }
    assert |Canonical(gs)| == |Canonical(fs)| && forall i :: 0 <= i < |a| ==> Canonical(fs)[i] == Canonical(gs)[i];
  }

  /** Lists with the same keys and the same canonical forms show the same canonical forms of one key. */
  lemma {:induction false} FilterPointwise(a: seq<Finding>, b: seq<Finding>, k: Key)
    requires |a| == |b|
    requires forall i :: 0 <= i < |a| ==> SortKey(a[i]) == SortKey(b[i]) && OrderedFinding(a[i]) == OrderedFinding(b[i])
    ensures
      var fa, fb := Filter(a, WithKey(SortKey, k)), Filter(b, WithKey(SortKey, k));
      |fa| == |fb| && forall i :: 0 <= i < |fa| ==> OrderedFinding(fa[i]) == OrderedFinding(fb[i])
  {
    hide SortKey, OrderedFinding;
    if a != [] {
      var n := |a| - 1;
      FilterPointwise(a[..n], b[..n], k);
    }
  }

  /** The canonical report is the same for every order exactly if findings that compare equal are written the same. */
  lemma CanonicalIgnoresOrderIff(fs: seq<Finding>)
    ensures (forall gs :: Permuted(fs, gs) ==> Canonical(gs) == Canonical(fs)) <==> KeysDecide(fs)
  {
    hide SortKey, SortFindings, OrderedFinding, Permuted, Canonical, Filter;
    if KeysDecide(fs) {
      forall gs | Permuted(fs, gs) ensures Canonical(gs) == Canonical(fs) {
        KeysAreEnough(fs, gs);
      }
    } else {
      var f: Finding, g: Finding :| f in fs && g in fs && SortKey(f) == SortKey(g) && OrderedFinding(f) != OrderedFinding(g);
      var a := MoveToFront(fs, f);
      var b := MoveToFront(fs, g);
      if Canonical([f] + a) == Canonical(fs) && Canonical([g] + b) == Canonical(fs) {
        FrontsDiffer(fs, f, a, g, b);
      }
    }
  }

  lemma FrontsDiffer(fs: seq<Finding>, f: Finding, a: seq<Finding>, g: Finding, b: seq<Finding>)
    requires Permuted(fs, [f] + a) && Permuted(fs, [g] + b) && SortKey(f) == SortKey(g)
    requires Canonical([f] + a) == Canonical([g] + b)
    ensures OrderedFinding(f) == OrderedFinding(g)
  {
    hide SortKey, SortFindings, OrderedFinding, Filter;
    SortedKeysAgree(fs, [f] + a);
    SortedKeysAgree(fs, [g] + b);
    var sa, sb := SortFindings([f] + a), SortFindings([g] + b);
    forall i | 0 <= i < |sa| ensures OrderedFinding(sa[i]) == OrderedFinding(sb[i]) {
      assert Canonical([f] + a)[i] == OrderedFinding(sa[i]) && Canonical([g] + b)[i] == OrderedFinding(sb[i]);
    }
    var k := SortKey(f);
    FilterPointwise(sa, sb, k);
    SortFindingsIs([f] + a);
    SortFindingsIs([g] + b);
    SortStable([f] + a, SortKey, k);
    SortStable([g] + b, SortKey, k);
    FrontPasses(f, a, WithKey(SortKey, k));
    FrontPasses(g, b, WithKey(SortKey, k));
  }
}
