/** Merging findings: what it keeps, that it settles, and when it does not depend on the order of its input. */
module Findings {
  import opened Wrappers
  import opened StableSort
  import opened FindingsModel

  // --- the loops of the source ---

  method DeduplicateFindings(findings: seq<Finding>) returns (r: seq<Finding>)
    ensures r == Deduplicate(findings)
  {
    hide SortFindings, SortedIds, DedupKey, Values;
    var sorted := SortFindings(findings);
    var merged := Merged([], map[]);
    for i := 0 to |sorted|
      invariant merged == Collect(sorted[..i])
    {
      assert sorted[..i + 1][..i] == sorted[..i];
      var finding := sorted[i];
      var key := DedupKey(finding);
      if key !in merged.entries {
        merged := Put(merged, key, finding.(sourceRuleIds := Some(SortedIds(Ids(finding)))));
      } else {
        var current := merged.entries[key];
        var known := if current.sourceRuleIds.Some? then current.sourceRuleIds.value else [current.ruleId];
        var sourceRuleIds := SortedIds(known + Ids(finding));
        merged := Put(merged, key,
          current.(ruleId := if sourceRuleIds != [] then sourceRuleIds[0] else current.ruleId, sourceRuleIds := Some(sourceRuleIds)));
      }
    }
    assert sorted[..|sorted|] == sorted;
    CollectKeys(sorted);
    r := SortFindings(Values(merged.order, merged.entries));
  }

  method SummarizeFindings(findings: seq<Finding>) returns (summary: Summary)
    ensures summary == Summarize(findings)
  {
    summary := Summary(0, 0, 0);
    for i := 0 to |findings|
      invariant summary == Summarize(findings[..i])
    {
      assert findings[..i + 1][..i] == findings[..i];
      match findings[i].severity {
        case Error => summary := summary.(errorCount := summary.errorCount + 1);
        case Warning => summary := summary.(warningCount := summary.warningCount + 1);
        case Info => summary := summary.(infoCount := summary.infoCount + 1);
      }
    }
    assert findings[..|findings|] == findings;
  }

  // --- sets of rule ids ---

  lemma {:induction false} UniqueIs(s: seq<Text>)
    ensures forall x: Text :: x in Unique(s) <==> x in s
    ensures forall i, j :: 0 <= i < j < |Unique(s)| ==> Unique(s)[i] != Unique(s)[j]
  {
    if s != [] {
      UniqueIs(s[..|s| - 1]);
      assert s == s[..|s| - 1] + [s[|s| - 1]];
    }
  }

  lemma {:induction false} AtMostOnce<T>(s: seq<T>, key: T -> Key, k: Key)
    requires forall i, j :: 0 <= i < j < |s| ==> key(s[i]) != key(s[j])
    ensures Times(s, key, k) <= 1
  {
    if s != [] {
      var n := |s| - 1;
      AtMostOnce(s[..n], key, k);
      assert s == s[..n] + [s[n]];
      if key(s[n]) == k {
        FilterNone(s[..n], WithKey(key, k));
      }
    }
  }

  lemma {:induction false} Twice<T>(s: seq<T>, key: T -> Key, i: nat, j: nat)
    requires i < j < |s| && key(s[i]) == key(s[j])
    ensures Times(s, key, key(s[i])) >= 2
  {
    var n := |s| - 1;
    var p := WithKey(key, key(s[i]));
    assert s == s[..n] + [s[n]];
    FilterAppend(s[..n], s[n], p);
    if j < n {
      Twice(s[..n], key, i, j);
    } else {
      FilterIs(s[..n], p);
      assert s[i] in s[..n];
    }
  }

  /** A list without equal keys is sorted strictly. */
  lemma SortIsStrict<T>(s: seq<T>, key: T -> Key)
    requires forall i, j :: 0 <= i < j < |s| ==> key(s[i]) != key(s[j])
    ensures Strict(Sort(s, key), key)
  {
    SortIs(s, key);
    var r := Sort(s, key);
    forall i, j | 0 <= i < j < |r| ensures Less(key(r[i]), key(r[j])) {
      Total(key(r[i]), key(r[j]));
      if key(r[i]) == key(r[j]) {
        Twice(r, key, i, j);
        SortStable(s, key, key(r[i]));
        AtMostOnce(s, key, key(r[i]));
      }
    }
  }

  /** The ids of a finding as the report shows them: ascending, none twice. */
  lemma SortedIdsIs(ids: seq<Text>)
    ensures Strict(SortedIds(ids), TextKey)
    ensures forall x: Text :: x in SortedIds(ids) <==> x in ids
    ensures ids != [] ==> SortedIds(ids) != []
  {
    UniqueIs(ids);
    SortIsStrict(Unique(ids), TextKey);
    SortHas(Unique(ids), TextKey);
    if ids != [] {
      assert ids[0] in SortedIds(ids);
    }
  }

  /** Only which ids there are matters. */
  lemma SortedIdsDepends(a: seq<Text>, b: seq<Text>)
    requires forall x: Text :: x in a <==> x in b
    ensures SortedIds(a) == SortedIds(b)
  {
    SortedIdsIs(a);
    SortedIdsIs(b);
    StrictUnique(SortedIds(a), SortedIds(b), TextKey);
  }

  // --- what a group of findings is merged into ---

  function InGroup(k: Text): Finding -> bool {
    f => DedupKey(f) == k
  }

  function Group(s: seq<Finding>, k: Text): seq<Finding> {
    Filter(s, InGroup(k))
  }

  function MergeAll(group: seq<Finding>): Finding
    requires group != []
  {
    if |group| == 1 then First(group[0]) else Merge(MergeAll(group[..|group| - 1]), group[|group| - 1])
  }

  function AllIds(group: seq<Finding>): seq<Text> {
    if group == [] then [] else AllIds(group[..|group| - 1]) + Ids(group[|group| - 1])
  }

  /** The first finding of a group with all its rule ids; alone it keeps its own id, else it gets the least. */
  function EntryOf(first: Finding, ids: seq<Text>, alone: bool): Finding
    requires ids != []
  {
    SortedIdsIs(ids);
    first.(ruleId := if alone then first.ruleId else SortedIds(ids)[0], sourceRuleIds := Some(SortedIds(ids)))
  }

  lemma {:induction false} AllIdsAre(group: seq<Finding>)
    ensures forall x: Text :: x in AllIds(group) <==> exists f: Finding :: f in group && x in Ids(f)
    ensures group != [] ==> AllIds(group) != []
  {
    forall x: Text ensures x in AllIds(group) <==> exists f: Finding :: f in group && x in Ids(f) {
      IdFrom(group, x);
    }
  }

  lemma {:induction false} IdFrom(group: seq<Finding>, x: Text)
    ensures x in AllIds(group) <==> exists f: Finding :: f in group && x in Ids(f)
  {
    hide Ids;
    if group != [] {
      var n := |group| - 1;
      IdFrom(group[..n], x);
      assert group == group[..n] + [group[n]];
      if x in Ids(group[n]) {
        assert group[n] in group;
      } else if f: Finding :| f in group && x in Ids(f) {
        assert f in group[..n];
      }
    }
  }

  lemma {:induction false} MergeAllIs(group: seq<Finding>)
    requires group != []
    ensures AllIds(group) != [] && MergeAll(group) == EntryOf(group[0], AllIds(group), |group| == 1)
  {
    hide SortedIds;
    AllIdsAre(group);
    if |group| == 1 {
      assert group[..0] == [];
      assert AllIds(group) == [] + Ids(group[0]) == Ids(group[0]);
    } else {
      var n := |group| - 1;
      MergeAllIs(group[..n]);
      var known := SortedIds(AllIds(group[..n]));
      SortedIdsIs(AllIds(group[..n]));
      SortedIdsIs(AllIds(group));
      SortedIdsDepends(known + Ids(group[n]), AllIds(group));
      assert MergeAll(group[..n]).sourceRuleIds == Some(known) && group[..n][0] == group[0];
    }
  }

  lemma {:induction false} CollectIs(s: seq<Finding>, k: Text)
    ensures k in Collect(s).entries <==> Group(s, k) != []
    ensures k in Collect(s).entries ==> Collect(s).entries[k] == MergeAll(Group(s, k))
  {
    hide DedupKey, Merge, First, MergeAll;
    if s != [] {
      var n := |s| - 1;
      CollectIs(s[..n], k);
      assert s == s[..n] + [s[n]];
      FilterAppend(s[..n], s[n], InGroup(k));
      var group := Group(s[..n], k);
      if DedupKey(s[n]) == k {
        MergeOneMore(group, s[n]);
        assert Group(s, k) == group + [s[n]];
        assert Collect(s) == Add(Collect(s[..n]), s[n]);
        assert Collect(s).entries[k] == if group == [] then First(s[n]) else Merge(MergeAll(group), s[n]);
      } else {
        assert Group(s, k) == group;
      }
    }
  }

  lemma MergeOneMore(group: seq<Finding>, f: Finding)
    ensures MergeAll(group + [f]) == if group == [] then First(f) else Merge(MergeAll(group), f)
  {
    assert (group + [f])[..|group|] == group && (group + [f])[|group|] == f;
  }

  // --- keys ---

  /** Findings that compare equal agree in all but the location and the source ids, and are merged. */
  lemma EqualSortKeys(f: Finding, g: Finding)
    requires SortKey(f) == SortKey(g)
    ensures DedupKey(f) == DedupKey(g)
    ensures f.severity == g.severity && f.ruleId == g.ruleId && f.message == g.message && f.help == g.help
    ensures f.specReference == g.specReference && LocationKey(f.location) == LocationKey(g.location)
    ensures SourceIdsKey(f.sourceRuleIds) == SourceIdsKey(g.sourceRuleIds)
  {
    hide LocationKey, SourceIdsKey, OptionalTextKey;
    var a, b := SortKey(f), SortKey(g);
    assert a[0] == b[0] && a[1] == b[1] && a[2] == b[2] && a[3] == b[3] && a[4] == b[4] && a[5] == b[5] && a[6] == b[6];
    OptionalTextInjective(f.help, g.help);
    OptionalTextInjective(f.specReference, g.specReference);
  }

  lemma OptionalTextInjective(a: Option<Text>, b: Option<Text>)
    ensures OptionalTextKey(a) == OptionalTextKey(b) <==> a == b
  {
    assert OptionalTextKey(a)[0] == (if a.None? then 0 else 1) && OptionalTextKey(b)[0] == (if b.None? then 0 else 1);
    if OptionalTextKey(a) == OptionalTextKey(b) && a.Some? && b.Some? {
      assert OptionalTextKey(a)[1..] == a.value && OptionalTextKey(b)[1..] == b.value;
    }
  }

  /** Findings that are merged have one severity. */
  lemma OneSeverity(f: Finding, g: Finding)
    requires DedupKey(f) == DedupKey(g)
    ensures f.severity == g.severity
  {
    assert DedupKey(f)[0] == SeverityName(f.severity)[0] && DedupKey(g)[0] == SeverityName(g.severity)[0];
  }

  // --- the merged list ---

  /** One entry for every key, and nothing else, strictly in order. */
  lemma DeduplicateIs(fs: seq<Finding>)
    ensures Strict(Deduplicate(fs), SortKey)
    ensures forall g: Finding :: g in Deduplicate(fs) <==>
              Group(SortFindings(fs), DedupKey(g)) != [] && g == MergeAll(Group(SortFindings(fs), DedupKey(g)))
    ensures forall g: Finding, h: Finding :: g in Deduplicate(fs) && h in Deduplicate(fs) && DedupKey(g) == DedupKey(h) ==> g == h
    ensures forall k: Text :: Group(SortFindings(fs), k) != [] ==> MergeAll(Group(SortFindings(fs), k)) in Deduplicate(fs)
    ensures forall k: Text :: Group(SortFindings(fs), k) != [] ==> DedupKey(MergeAll(Group(SortFindings(fs), k))) == k
  {
    hide DedupKey, SortKey, Merge, First, SortFindings, MergeAll, Group;
    var s := SortFindings(fs);
    CollectKeys(s);
    var order, entries := Collect(s).order, Collect(s).entries;
    forall k: Text
      ensures k in entries <==> Group(s, k) != []
      ensures k in entries ==> entries[k] == MergeAll(Group(s, k)) && DedupKey(entries[k]) == k
    {
      CollectIs(s, k);
      if Group(s, k) != [] { GroupKey(s, k); }
    }
    var v := Values(order, entries);
    assert forall i :: 0 <= i < |v| ==> v[i] == entries[order[i]] && DedupKey(v[i]) == order[i];
    forall i, j | 0 <= i < j < |v| ensures SortKey(v[i]) != SortKey(v[j]) {
      if SortKey(v[i]) == SortKey(v[j]) { EqualSortKeys(v[i], v[j]); }
    }
    SortIsStrict(v, SortKey);
    SortHas(v, SortKey);
    SortFindingsIs(v);
    forall g: Finding ensures g in v <==> DedupKey(g) in entries && g == entries[DedupKey(g)] {
      if DedupKey(g) in entries && g == entries[DedupKey(g)] {
        var i :| 0 <= i < |order| && order[i] == DedupKey(g);
        assert v[i] == g;
      }
    }
  }

  lemma SortFindingsIs(fs: seq<Finding>)
    ensures SortFindings(fs) == Sort(fs, SortKey)
  {
  }

  lemma GroupKey(s: seq<Finding>, k: Text)
    requires Group(s, k) != []
    ensures DedupKey(MergeAll(Group(s, k))) == k
  {
    hide SortedIds, MergeAll, LocationKey;
    var group := Group(s, k);
    MergeAllIs(group);
    FilterIs(s, InGroup(k));
    assert group[0] in group;
  }

  /** No two findings of the merged list have the same severity, message, location, help and reference. */
  lemma OutputIsStrict(fs: seq<Finding>)
    ensures Strict(Deduplicate(fs), SortKey)
    ensures forall i, j :: 0 <= i < j < |Deduplicate(fs)| ==> DedupKey(Deduplicate(fs)[i]) != DedupKey(Deduplicate(fs)[j])
  {
    hide DedupKey, SortKey, Deduplicate;
    DeduplicateIs(fs);
    var d := Deduplicate(fs);
    forall i, j | 0 <= i < j < |d| ensures DedupKey(d[i]) != DedupKey(d[j]) {
      assert d[i] in d && d[j] in d;
      Total(SortKey(d[i]), SortKey(d[i]));
    }
  }

  /** Merging a second time changes nothing. */
  lemma Idempotent(fs: seq<Finding>)
    ensures Deduplicate(Deduplicate(fs)) == Deduplicate(fs)
  {
    hide DedupKey, SortKey, Deduplicate, MergeAll, First, SortFindings;
    var d := Deduplicate(fs);
    DeduplicateIs(fs);
    OutputIsStrict(fs);
    DeduplicateIs(d);
    StrictIsOrdered(d);
    SortFindingsIs(d);
    SortOfOrdered(d, SortKey);
    forall g: Finding ensures g in Deduplicate(d) <==> g in d {
      if g in d {
        Settled(fs, g);
        AloneInGroup(d, g);
      }
      if g in Deduplicate(d) {
        var group := Group(d, DedupKey(g));
        FilterIs(d, InGroup(DedupKey(g)));
        assert group[0] in group;
        Settled(fs, group[0]);
        AloneInGroup(d, group[0]);
      }
    }
    StrictUnique(Deduplicate(d), d, SortKey);
  }

  lemma StrictIsOrdered(s: seq<Finding>)
    requires Strict(s, SortKey)
    ensures Ordered(s, SortKey)
  {
    hide SortKey;
    forall i, j | 0 <= i < j < |s| ensures !Less(SortKey(s[j]), SortKey(s[i])) {
      Total(SortKey(s[i]), SortKey(s[j]));
    }
  }

  /** What is in the merged list stays as it is when merged alone. */
  lemma Settled(fs: seq<Finding>, g: Finding)
    requires g in Deduplicate(fs)
    ensures MergeAll([g]) == g && g.sourceRuleIds.Some? && g.ruleId in g.sourceRuleIds.value
  {
    hide DedupKey, SortKey, Deduplicate, SortedIds, MergeAll;
    DeduplicateIs(fs);
    var group := Group(SortFindings(fs), DedupKey(g));
    MergeAllIs(group);
    AllIdsAre(group);
    SortedIdsIs(AllIds(group));
    assert group[0] in group && group[0].ruleId in Ids(group[0]);
    assert g.ruleId in AllIds(group);
    FirstOfSettled(g, AllIds(group));
  }

  lemma FirstOfSettled(g: Finding, ids: seq<Text>)
    requires g.sourceRuleIds == Some(SortedIds(ids)) && g.ruleId in ids
    ensures MergeAll([g]) == g
  {
    hide SortedIds;
    SortedIdsIs(ids);
    SortedIdsDepends(Ids(g), ids);
  }

  lemma AloneInGroup(d: seq<Finding>, g: Finding)
    requires g in d && forall i, j :: 0 <= i < j < |d| ==> DedupKey(d[i]) != DedupKey(d[j])
    ensures Group(d, DedupKey(g)) == [g]
  {
    hide DedupKey;
    FilterIs(d, InGroup(DedupKey(g)));
    OneOfAKind(d, DedupKey(g));
    assert g in Group(d, DedupKey(g));
  }

  lemma {:induction false} OneOfAKind(d: seq<Finding>, k: Text)
    requires forall i, j :: 0 <= i < j < |d| ==> DedupKey(d[i]) != DedupKey(d[j])
    ensures |Group(d, k)| <= 1
  {
    hide DedupKey;
    if d != [] {
      var n := |d| - 1;
      OneOfAKind(d[..n], k);
      assert d == d[..n] + [d[n]];
      if DedupKey(d[n]) == k {
        FilterNone(d[..n], InGroup(k));
      }
    }
  }

  // --- conservation ---

  /** Every rule id of the input is a source id of some merged finding, and no other is. */
  lemma RuleIdsConserved(fs: seq<Finding>, id: Text)
    ensures (exists f: Finding :: f in fs && id in Ids(f)) <==>
            (exists g: Finding :: g in Deduplicate(fs) && g.sourceRuleIds.Some? && id in g.sourceRuleIds.value)
  {
    hide DedupKey, SortKey, Deduplicate, SortedIds, MergeAll, SortFindings, Ids;
    DeduplicateIs(fs);
    SortFindingsIs(fs);
    SortHas(fs, SortKey);
    var s := SortFindings(fs);
    if f: Finding :| f in fs && id in Ids(f) {
      FilterIs(s, InGroup(DedupKey(f)));
      var group := Group(s, DedupKey(f));
      assert f in group;
      MergeAllIs(group);
      AllIdsAre(group);
      SortedIdsIs(AllIds(group));
      assert MergeAll(group) in Deduplicate(fs);
    }
    if g: Finding :| g in Deduplicate(fs) && g.sourceRuleIds.Some? && id in g.sourceRuleIds.value {
      var group := Group(s, DedupKey(g));
      FilterIs(s, InGroup(DedupKey(g)));
      MergeAllIs(group);
      AllIdsAre(group);
      SortedIdsIs(AllIds(group));
      var f: Finding :| f in group && id in Ids(f);
      assert f in fs;
    }
  }

  /** Merging neither hides nor invents an error or a warning. */
  lemma SeveritiesKept(fs: seq<Finding>, severity: Severity)
    ensures (exists f: Finding :: f in fs && f.severity == severity) <==>
            (exists g: Finding :: g in Deduplicate(fs) && g.severity == severity)
  {
    hide Deduplicate;
    if f: Finding :| f in fs && f.severity == severity {
      var g := MergedInto(fs, f);
    }
    if g: Finding :| g in Deduplicate(fs) && g.severity == severity {
      var f := MergedFrom(fs, g);
    }
  }

  lemma MergedInto(fs: seq<Finding>, f: Finding) returns (g: Finding)
    requires f in fs
    ensures g in Deduplicate(fs) && g.severity == f.severity
  {
    hide DedupKey, SortKey, Deduplicate, SortedIds, MergeAll, SortFindings, Ids, Sort, Filter;
    DeduplicateIs(fs);
    SortFindingsIs(fs);
    SortHas(fs, SortKey);
    var group := Group(SortFindings(fs), DedupKey(f));
    FilterIs(SortFindings(fs), InGroup(DedupKey(f)));
    assert f in group;
    MergeAllIs(group);
    var first := group[0];
    assert first in group;
    OneSeverity(f, first);
    g := MergeAll(group);
  }

  lemma MergedFrom(fs: seq<Finding>, g: Finding) returns (f: Finding)
    requires g in Deduplicate(fs)
    ensures f in fs && f.severity == g.severity
  {
    hide DedupKey, SortKey, Deduplicate, SortedIds, MergeAll, SortFindings, Ids, Sort, Filter;
    DeduplicateIs(fs);
    SortFindingsIs(fs);
    SortHas(fs, SortKey);
    var group := Group(SortFindings(fs), DedupKey(g));
    FilterIs(SortFindings(fs), InGroup(DedupKey(g)));
    MergeAllIs(group);
    f := group[0];
    assert f in group;
  }

  lemma CountIs(fs: seq<Finding>, severity: Severity)
    ensures CountOf(fs, severity) > 0 <==> exists f: Finding :: f in fs && f.severity == severity
  {
    hide Filter;
    var found := Filter(fs, HasSeverity(severity));
    FilterIs(fs, HasSeverity(severity));
    if found != [] {
      assert found[0] in found;
    }
    if f: Finding :| f in fs && f.severity == severity {
      assert f in found;
    }
  }

  /** So the summary of the merged list has errors exactly if there were any, and likewise for the others. */
  lemma SummaryAgrees(fs: seq<Finding>)
    ensures Summarize(Deduplicate(fs)).errorCount > 0 <==> Summarize(fs).errorCount > 0
    ensures Summarize(Deduplicate(fs)).warningCount > 0 <==> Summarize(fs).warningCount > 0
    ensures Summarize(Deduplicate(fs)).infoCount > 0 <==> Summarize(fs).infoCount > 0
  {
    hide Deduplicate, CountOf;
    forall severity: Severity ensures CountOf(Deduplicate(fs), severity) > 0 <==> CountOf(fs, severity) > 0 {
      SeveritiesKept(fs, severity);
      CountIs(Deduplicate(fs), severity);
      CountIs(fs, severity);
    }
  }
}
