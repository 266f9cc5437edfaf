/**
  The order and the content of a report said without its keys: errors first, then rule ids and the rest by
  UTF-16 unit, and nothing of a finding lost or confused (packages/cli/src/model.ts:46-172,
  packages/cli/src/reporter.ts:83-133).
 */
module FindingsLaws {
  import opened Wrappers
  import opened StableSort
  import opened FindingsModel
  import opened Findings
  import opened FindingsOrder
  import opened FindingsKeys

  // --- which finding comes first ---

  /** JavaScript's `<`: at the first unit that differs the smaller one, or a proper beginning. */
  ghost predicate Precedes(a: Text, b: Text) {
    exists k :: PrecedesAt(a, b, k)
  }

  predicate PrecedesAt(a: Text, b: Text, k: int) {
    0 <= k <= |a| && k < |b| && a[..k] == b[..k] && (k == |a| || a[k] < b[k])
  }

  predicate MoreSevere(a: Severity, b: Severity) {
    (a.Error? && !b.Error?) || (a.Warning? && b.Info?)
  }

  /** What is absent comes first. */
  ghost predicate OptionPrecedes(a: Option<Text>, b: Option<Text>) {
    b.Some? && (a.None? || Precedes(a.value, b.value))
  }

  /** By severity, rule id, location, message, help, reference and source ids, the first that differs deciding. */
  ghost predicate Before(f: Finding, g: Finding) {
    || MoreSevere(f.severity, g.severity)
    || (f.severity == g.severity && (
        || Precedes(f.ruleId, g.ruleId)
        || (f.ruleId == g.ruleId && (
            || Precedes(LocationKey(f.location), LocationKey(g.location))
            || (LocationKey(f.location) == LocationKey(g.location) && (
                || Precedes(f.message, g.message)
                || (f.message == g.message && (
                    || OptionPrecedes(f.help, g.help)
                    || (f.help == g.help && (
                        || OptionPrecedes(f.specReference, g.specReference)
                        || (f.specReference == g.specReference &&
                            Precedes(SourceIdsKey(f.sourceRuleIds), SourceIdsKey(g.sourceRuleIds)))))))))))))
  }

  lemma {:induction false} TextLessIs(a: Text, b: Text)
    ensures TextLess(a, b) <==> Precedes(a, b)
  {
    if b == [] {
    } else if a == [] {
      assert PrecedesAt(a, b, 0);
    } else if a[0] != b[0] {
      if a[0] < b[0] {
        assert PrecedesAt(a, b, 0);
      }
      if k :| PrecedesAt(a, b, k) {
        assert k > 0 ==> a[..k][0] == a[0] && b[..k][0] == b[0];
      }
    } else {
      TextLessIs(a[1..], b[1..]);
      TailPrecedes(a, b);
    }
  }

  lemma TailPrecedes(a: Text, b: Text)
    requires a != [] && b != [] && a[0] == b[0]
    ensures Precedes(a[1..], b[1..]) <==> Precedes(a, b)
  {
    if k :| PrecedesAt(a[1..], b[1..], k) {
      assert a[..k + 1] == [a[0]] + a[1..][..k] && b[..k + 1] == [b[0]] + b[1..][..k];
      assert PrecedesAt(a, b, k + 1);
    }
    if k :| PrecedesAt(a, b, k) {
      assert k > 0;
      assert a[1..][..k - 1] == a[..k][1..] && b[1..][..k - 1] == b[..k][1..];
      assert PrecedesAt(a[1..], b[1..], k - 1);
    }
  }

  lemma OptionalKeyPrecedes(a: Option<Text>, b: Option<Text>)
    ensures TextLess(OptionalTextKey(a), OptionalTextKey(b)) <==> OptionPrecedes(a, b)
  {
    if a.Some? && b.Some? {
      TextLessIs(a.value, b.value);
      assert OptionalTextKey(a)[1..] == a.value && OptionalTextKey(b)[1..] == b.value;
    }
  }

  lemma RankPrecedes(a: Severity, b: Severity)
    ensures TextLess(RankKey(a), RankKey(b)) <==> MoreSevere(a, b)
    ensures RankKey(a) == RankKey(b) <==> a == b
  {
  }

  /** One step of a comparison of keys. */
  lemma LessStep(a: Text, x: Key, b: Text, y: Key)
    ensures Less([a] + x, [b] + y) <==> TextLess(a, b) || (a == b && Less(x, y))
  {
    TextTotal(a, b);
    assert ([a] + x)[1..] == x && ([b] + y)[1..] == y;
  }

  lemma LessOne(a: Text, b: Text)
    ensures Less([a], [b]) <==> TextLess(a, b)
  {
    assert [a] == [a] + [] && [b] == [b] + [];
    LessStep(a, [], b, []);
  }

  /** The comparison of sort keys is the one above. */
  lemma SortKeyIsBefore(f: Finding, g: Finding)
    ensures Less(SortKey(f), SortKey(g)) <==> Before(f, g)
  {
    hide Less, TextLess, Precedes, RankKey, OptionalTextKey, LocationKey, SourceIdsKey, MoreSevere, OptionPrecedes;
    var f7, g7 := [SourceIdsKey(f.sourceRuleIds)], [SourceIdsKey(g.sourceRuleIds)];
    var f6, g6 := [OptionalTextKey(f.specReference)] + f7, [OptionalTextKey(g.specReference)] + g7;
    var f5, g5 := [OptionalTextKey(f.help)] + f6, [OptionalTextKey(g.help)] + g6;
    var f4, g4 := [f.message] + f5, [g.message] + g5;
    var f3, g3 := [LocationKey(f.location)] + f4, [LocationKey(g.location)] + g4;
    var f2, g2 := [f.ruleId] + f3, [g.ruleId] + g3;
    assert SortKey(f) == [RankKey(f.severity)] + f2 && SortKey(g) == [RankKey(g.severity)] + g2;
    LessStep(RankKey(f.severity), f2, RankKey(g.severity), g2);
    LessStep(f.ruleId, f3, g.ruleId, g3);
    LessStep(LocationKey(f.location), f4, LocationKey(g.location), g4);
    LessStep(f.message, f5, g.message, g5);
    LessStep(OptionalTextKey(f.help), f6, OptionalTextKey(g.help), g6);
    LessStep(OptionalTextKey(f.specReference), f7, OptionalTextKey(g.specReference), g7);
    LessOne(SourceIdsKey(f.sourceRuleIds), SourceIdsKey(g.sourceRuleIds));
    RankPrecedes(f.severity, g.severity);
    TextLessIs(f.ruleId, g.ruleId);
    TextLessIs(LocationKey(f.location), LocationKey(g.location));
    TextLessIs(f.message, g.message);
    OptionalKeyPrecedes(f.help, g.help);
    OptionalKeyPrecedes(f.specReference, g.specReference);
    OptionalTextInjective(f.help, g.help);
    OptionalTextInjective(f.specReference, g.specReference);
    TextLessIs(SourceIdsKey(f.sourceRuleIds), SourceIdsKey(g.sourceRuleIds));
  }

  // --- the lists ---

  /** Sorting permutes, and nothing later in the list should have come first. */
  lemma SortedByImportance(fs: seq<Finding>)
    ensures multiset(SortFindings(fs)) == multiset(fs)
    ensures forall i, j :: 0 <= i < j < |SortFindings(fs)| ==> !Before(SortFindings(fs)[j], SortFindings(fs)[i])
  {
    hide SortKey, Before, Less;
    SortIs(fs, SortKey);
    var s := SortFindings(fs);
    forall i, j | 0 <= i < j < |s| ensures !Before(s[j], s[i]) {
      SortKeyIsBefore(s[j], s[i]);
    }
  }

  /** In the merged list everything strictly precedes what follows it. */
  lemma MergedByImportance(fs: seq<Finding>)
    ensures forall i, j :: 0 <= i < j < |Deduplicate(fs)| ==>
              Before(Deduplicate(fs)[i], Deduplicate(fs)[j]) && !Before(Deduplicate(fs)[j], Deduplicate(fs)[i])
  {
    hide SortKey, Before, Less, Deduplicate;
    OutputIsStrict(fs);
    var d := Deduplicate(fs);
    forall i, j | 0 <= i < j < |d| ensures Before(d[i], d[j]) && !Before(d[j], d[i]) {
      SortKeyIsBefore(d[i], d[j]);
      SortKeyIsBefore(d[j], d[i]);
      Total(SortKey(d[i]), SortKey(d[j]));
    }
  }

  lemma WrittenComparesAlike(f: Finding)
    ensures SortKey(OrderedFinding(f)) == SortKey(f)
  {
    hide LocationKey, SortedIds;
    if f.sourceRuleIds.Some? {
      var ids := f.sourceRuleIds.value;
      SortedIdsIs(ids);
      SortedIdsDepends(SortedIds(ids), ids);
    }
  }

  /** So it is in the canonical report. */
  lemma CanonicalByImportance(fs: seq<Finding>)
    ensures |Canonical(fs)| == |fs|
    ensures forall i, j :: 0 <= i < j < |Canonical(fs)| ==> !Before(Canonical(fs)[j], Canonical(fs)[i])
  {
    hide SortKey, Before, Less, SortFindings, OrderedFinding;
    SortedByImportance(fs);
    var s, c := SortFindings(fs), Canonical(fs);
    assert |s| == |multiset(s)| == |multiset(fs)| == |fs|;
    forall i, j | 0 <= i < j < |c| ensures !Before(c[j], c[i]) {
      WrittenComparesAlike(s[i]);
      WrittenComparesAlike(s[j]);
      SortKeyIsBefore(s[j], s[i]);
      SortKeyIsBefore(c[j], c[i]);
    }
  }

  /** In each of the lists errors come before warnings and those before infos. */
  lemma ErrorsComeFirst(fs: seq<Finding>)
    ensures forall i, j :: 0 <= i < j < |SortFindings(fs)| ==>
              !MoreSevere(SortFindings(fs)[j].severity, SortFindings(fs)[i].severity)
    ensures forall i, j :: 0 <= i < j < |Deduplicate(fs)| ==>
              !MoreSevere(Deduplicate(fs)[j].severity, Deduplicate(fs)[i].severity)
    ensures forall i, j :: 0 <= i < j < |Canonical(fs)| ==>
              !MoreSevere(Canonical(fs)[j].severity, Canonical(fs)[i].severity)
  {
    hide SortFindings, Deduplicate, Canonical;
    SortedByImportance(fs);
    MergedByImportance(fs);
    CanonicalByImportance(fs);
    forall i, j | 0 <= i < j < |SortFindings(fs)|
      ensures !MoreSevere(SortFindings(fs)[j].severity, SortFindings(fs)[i].severity)
    {
      assert !Before(SortFindings(fs)[j], SortFindings(fs)[i]);
    }
    forall i, j | 0 <= i < j < |Deduplicate(fs)|
      ensures !MoreSevere(Deduplicate(fs)[j].severity, Deduplicate(fs)[i].severity)
    {
      assert !Before(Deduplicate(fs)[j], Deduplicate(fs)[i]);
    }
    forall i, j | 0 <= i < j < |Canonical(fs)|
      ensures !MoreSevere(Canonical(fs)[j].severity, Canonical(fs)[i].severity)
    {
      assert !Before(Canonical(fs)[j], Canonical(fs)[i]);
    }
  }

  // --- locations and source ids, compared part by part ---

  /** Texts up to a separator decide ahead of what follows, for a separator is below every other unit. */
  lemma SeparatedPrecedes(a: Text, x: Text, b: Text, y: Text)
    requires Free(a) && Free(b)
    ensures Precedes(a + SEPARATOR + x, b + SEPARATOR + y) <==> Precedes(a, b) || (a == b && Precedes(x, y))
    decreases |a|
  {
    var l, r := a + SEPARATOR + x, b + SEPARATOR + y;
    if a == [] && b == [] {
      assert l[1..] == x && r[1..] == y;
      TailPrecedes(l, r);
      NeverPrecedesItself(a);
    } else if a == [] {
      assert r[0] == b[0] && l[0] == 0;
      assert PrecedesAt(l, r, 0) && PrecedesAt(a, b, 0);
    } else if b == [] {
      HeadDecides(l, r);
      NothingPrecedesEmpty(a);
    } else if a[0] == b[0] {
      assert l[1..] == a[1..] + SEPARATOR + x && r[1..] == b[1..] + SEPARATOR + y;
      TailPrecedes(l, r);
      TailPrecedes(a, b);
      SeparatedPrecedes(a[1..], x, b[1..], y);
      assert a == [a[0]] + a[1..] && b == [b[0]] + b[1..];
    } else {
      assert l[0] == a[0] && r[0] == b[0];
      HeadDecides(l, r);
      HeadDecides(a, b);
    }
  }

  lemma NeverPrecedesItself(a: Text)
    ensures !Precedes(a, a)
  {
    TextLessIs(a, a);
    TextTotal(a, a);
  }

  lemma NothingPrecedesEmpty(a: Text)
    ensures !Precedes(a, [])
  {
  }

  lemma HeadDecides(a: Text, b: Text)
    requires a != [] && b != [] && a[0] != b[0]
    ensures Precedes(a, b) <==> a[0] < b[0]
  {
    TextLessIs(a, b);
  }

  lemma SeparatedOption(a: Option<Text>, x: Text, b: Option<Text>, y: Text)
    requires FreeOption(a) && FreeOption(b)
    ensures Precedes(OptionalTextKey(a) + SEPARATOR + x, OptionalTextKey(b) + SEPARATOR + y)
            <==> OptionPrecedes(a, b) || (a == b && Precedes(x, y))
  {
    var l, r := OptionalTextKey(a) + SEPARATOR + x, OptionalTextKey(b) + SEPARATOR + y;
    if a.None? && b.None? {
      assert l[1..][1..] == x && r[1..][1..] == y;
      TailPrecedes(l, r);
      TailPrecedes(l[1..], r[1..]);
    } else if a.None? || b.None? {
      HeadDecides(l, r);
    } else {
      assert l[1..] == a.value + SEPARATOR + x && r[1..] == b.value + SEPARATOR + y;
      TailPrecedes(l, r);
      SeparatedPrecedes(a.value, x, b.value, y);
    }
  }

  lemma LastOption(a: Option<Text>, b: Option<Text>)
    ensures Precedes(OptionalTextKey(a), OptionalTextKey(b)) <==> OptionPrecedes(a, b)
  {
    OptionalKeyPrecedes(a, b);
    TextLessIs(OptionalTextKey(a), OptionalTextKey(b));
  }

  /** No location before any, then by document, section, line as it is written, and path. */
  ghost predicate LocationPrecedes(a: Option<Location>, b: Option<Location>) {
    && b.Some?
    && (a.None? ||
        (var l, m := a.value, b.value;
         || OptionPrecedes(l.document, m.document)
         || (l.document == m.document && (
             || OptionPrecedes(l.section, m.section)
             || (l.section == m.section && (
                 || OptionPrecedes(LineText(l.line), LineText(m.line))
                 || (l.line == m.line && OptionPrecedes(l.jsonPath, m.jsonPath))))))))
  }

  /** Two optional parts behind one separator, the last with nothing behind it. */
  lemma LastTwoParts(a: Option<Text>, x: Option<Text>, b: Option<Text>, y: Option<Text>)
    requires FreeOption(a) && FreeOption(b)
    ensures Precedes(OptionalTextKey(a) + SEPARATOR + OptionalTextKey(x), OptionalTextKey(b) + SEPARATOR + OptionalTextKey(y))
            <==> OptionPrecedes(a, b) || (a == b && OptionPrecedes(x, y))
  {
    hide OptionalTextKey, FreeOption, Precedes, OptionPrecedes;
    SeparatedOption(a, OptionalTextKey(x), b, OptionalTextKey(y));
    LastOption(x, y);
  }

  /** The key of a location without the mark that there is one. */
  function PartsKey(l: Location): Text {
    OptionalTextKey(l.document) + SEPARATOR + (OptionalTextKey(l.section) + SEPARATOR
    + (OptionalTextKey(LineText(l.line)) + SEPARATOR + OptionalTextKey(l.jsonPath)))
  }

  lemma LocationKeyParts(l: Location)
    ensures LocationKey(Some(l)) == [1] + SEPARATOR + PartsKey(l)
  {
    hide OptionalTextKey, OptionalNumberKey, LineText;
    LineTextInjective(l.line, l.line);
    var d, s, n, j := OptionalTextKey(l.document), OptionalTextKey(l.section), OptionalNumberKey(l.line), OptionalTextKey(l.jsonPath);
    assert [1] + SEPARATOR + d + SEPARATOR + s + SEPARATOR + n + SEPARATOR + j
        == [1] + SEPARATOR + (d + SEPARATOR + (s + SEPARATOR + (n + SEPARATOR + j)));
  }

  lemma PartsOrder(l: Location, m: Location)
    requires FreeLocation(Some(l)) && FreeLocation(Some(m))
    ensures Precedes(PartsKey(l), PartsKey(m)) <==> LocationPrecedes(Some(l), Some(m))
  {
    hide OptionalTextKey, FreeOption, LineText, Precedes, OptionPrecedes;
    LineTextInjective(l.line, m.line);
    LineTextInjective(m.line, l.line);
    var l3 := OptionalTextKey(LineText(l.line)) + SEPARATOR + OptionalTextKey(l.jsonPath);
    var m3 := OptionalTextKey(LineText(m.line)) + SEPARATOR + OptionalTextKey(m.jsonPath);
    LastTwoParts(LineText(l.line), l.jsonPath, LineText(m.line), m.jsonPath);
    SeparatedOption(l.section, l3, m.section, m3);
    SeparatedOption(l.document, OptionalTextKey(l.section) + SEPARATOR + l3, m.document, OptionalTextKey(m.section) + SEPARATOR + m3);
  }

  /** The joined key of a location compares its parts one after the other, where no text has the separator. */
  lemma LocationKeyOrder(a: Option<Location>, b: Option<Location>)
    requires FreeLocation(a) && FreeLocation(b)
    ensures Precedes(LocationKey(a), LocationKey(b)) <==> LocationPrecedes(a, b)
  {
    hide Precedes, PartsKey, FreeLocation;
    if a.Some? && b.Some? {
      hide LocationKey, LocationPrecedes;
      LocationKeyParts(a.value);
      LocationKeyParts(b.value);
      SeparatedPrecedes([1], PartsKey(a.value), [1], PartsKey(b.value));
      NeverPrecedesItself([1]);
      PartsOrder(a.value, b.value);
    } else if a.None? && b.None? {
      NeverPrecedesItself(LocationKey(a));
    } else {
      HeadDecides(LocationKey(a), LocationKey(b));
    }
  }

  /** The first id that differs decides, and a proper beginning comes first. */
  ghost predicate IdsPrecede(a: seq<Text>, b: seq<Text>)
    decreases |a|
  {
    b != [] && (a == [] || Precedes(a[0], b[0]) || (a[0] == b[0] && IdsPrecede(a[1..], b[1..])))
  }

  lemma {:induction false} JoinFront(ids: seq<Text>)
    requires |ids| > 1
    ensures Join(ids) == ids[0] + SEPARATOR + Join(ids[1..])
  {
    var n := |ids| - 1;
    assert ids[1..][..n - 1] == ids[..n][1..];
    if n > 1 {
      JoinFront(ids[..n]);
      assert ids[..n][0] == ids[0] && ids[1..][n - 1] == ids[n];
      assert Join(ids) == ids[0] + SEPARATOR + Join(ids[..n][1..]) + SEPARATOR + ids[n];
    } else {
      assert ids[..1] == [ids[0]] && ids[1..] == [ids[1]];
    }
  }

  /** What a separator follows comes after it alone. */
  lemma AloneOrFollowed(a: Text, b: Text, y: Text)
    requires Free(a) && Free(b)
    ensures Precedes(a, b + SEPARATOR + y) <==> Precedes(a, b) || a == b
    ensures Precedes(b + SEPARATOR + y, a) <==> Precedes(b, a)
    decreases |a|
  {
    var r := b + SEPARATOR + y;
    if a == [] {
      assert PrecedesAt(a, r, 0);
      NothingPrecedesEmpty(r);
      NothingPrecedesEmpty(b);
      assert b != [] ==> PrecedesAt(a, b, 0);
    } else if b == [] {
      HeadDecides(a, r);
      HeadDecides(r, a);
      NothingPrecedesEmpty(a);
      assert PrecedesAt(b, a, 0);
    } else if a[0] == b[0] {
      assert r[1..] == b[1..] + SEPARATOR + y;
      TailPrecedes(a, r);
      TailPrecedes(r, a);
      TailPrecedes(a, b);
      TailPrecedes(b, a);
      AloneOrFollowed(a[1..], b[1..], y);
      assert a == [a[0]] + a[1..] && b == [b[0]] + b[1..];
    } else {
      assert r[0] == b[0];
      HeadDecides(a, r);
      HeadDecides(r, a);
      HeadDecides(a, b);
      HeadDecides(b, a);
    }
  }

  lemma {:induction false} JoinOrder(a: seq<Text>, b: seq<Text>)
    requires FreeIds(a) && FreeIds(b)
    ensures Precedes(Join(a), Join(b)) <==> IdsPrecede(a, b)
    decreases |a|
  {
    hide Precedes, Join;
    JoinShape(a);
    JoinShape(b);
    if b == [] {
      NothingPrecedesEmpty(Join(a));
    } else if a == [] {
      EmptyPrecedes(Join(b));
    } else {
      if |a| > 1 { JoinFront(a); } else { JoinOne(a); }
      if |b| > 1 { JoinFront(b); } else { JoinOne(b); }
      JoinOrder(a[1..], b[1..]);
      if |a| > 1 && |b| > 1 {
        SeparatedPrecedes(a[0], Join(a[1..]), b[0], Join(b[1..]));
      } else if |b| > 1 {
        AloneOrFollowed(a[0], b[0], Join(b[1..]));
      } else if |a| > 1 {
        AloneOrFollowed(b[0], a[0], Join(a[1..]));
      }
    }
  }

  lemma EmptyPrecedes(b: Text)
    requires b != []
    ensures Precedes([], b)
  {
    assert PrecedesAt([], b, 0);
  }

  lemma JoinOne(ids: seq<Text>)
    requires |ids| == 1
    ensures Join(ids) == ids[0] && ids[1..] == []
  {
  }

  /** Absent source ids come before present ones, and those compare as the ascending lists they are written as. */
  lemma SourceIdsOrder(a: Option<seq<Text>>, b: Option<seq<Text>>)
    requires (a.Some? ==> FreeIds(a.value)) && (b.Some? ==> FreeIds(b.value))
    ensures Precedes(SourceIdsKey(a), SourceIdsKey(b)) <==>
              b.Some? && (a.None? || IdsPrecede(SortedIds(a.value), SortedIds(b.value)))
  {
    hide Precedes, SortedIds, Join;
    if a.Some? && b.Some? {
      SortedStayFree(a.value);
      SortedStayFree(b.value);
      assert SourceIdsKey(a)[1..] == Join(SortedIds(a.value)) && SourceIdsKey(b)[1..] == Join(SortedIds(b.value));
      TailPrecedes(SourceIdsKey(a), SourceIdsKey(b));
      JoinOrder(SortedIds(a.value), SortedIds(b.value));
    } else if a.None? && b.None? {
      NeverPrecedesItself(SourceIdsKey(a));
    } else {
      HeadDecides(SourceIdsKey(a), SourceIdsKey(b));
    }
  }

  // --- what is merged and what is written ---

  /** The rule id of a finding and its source ids, however often each is named. */
  lemma IdsAre(f: Finding, id: Text)
    ensures id in Ids(f) <==> id == f.ruleId || (f.sourceRuleIds.Some? && id in f.sourceRuleIds.value)
  {
  }

  predicate FreeTexts(f: Finding) {
    Free(f.message) && FreeLocation(f.location) && FreeOption(f.help) && FreeOption(f.specReference)
  }

  lemma NameIsFree(s: Severity)
    ensures Free(SeverityName(s))
  {
  }

  lemma NamesDiffer(s: Severity, t: Severity)
    ensures SeverityName(s) == SeverityName(t) <==> s == t
  {
    assert SeverityName(s)[0] == SeverityName(t)[0] ==> s == t;
  }

  /** The key of a location ends where the next separator would let it, for locations without separators. */
  lemma CutLocation(a: Option<Location>, x: Text, b: Option<Location>, y: Text)
    requires FreeLocation(a) && FreeLocation(b)
    requires LocationKey(a) + SEPARATOR + x == LocationKey(b) + SEPARATOR + y
    ensures a == b && x == y
  {
    hide OptionalTextKey, OptionalNumberKey, FreeOption, LineText;
    var p, q := LocationKey(a) + SEPARATOR + x, LocationKey(b) + SEPARATOR + y;
    assert p[0] == LocationKey(a)[0] && q[0] == LocationKey(b)[0];
    assert LocationKey(a)[0] == (if a.None? then 0 else 1) && LocationKey(b)[0] == (if b.None? then 0 else 1);
    if a.None? {
      assert p[2..] == x && q[2..] == y;
    } else {
      var l, m := a.value, b.value;
      var l4, m4 := OptionalTextKey(l.jsonPath) + SEPARATOR + x, OptionalTextKey(m.jsonPath) + SEPARATOR + y;
      var l3, m3 := OptionalNumberKey(l.line) + SEPARATOR + l4, OptionalNumberKey(m.line) + SEPARATOR + m4;
      var l2, m2 := OptionalTextKey(l.section) + SEPARATOR + l3, OptionalTextKey(m.section) + SEPARATOR + m3;
      var l1, m1 := OptionalTextKey(l.document) + SEPARATOR + l2, OptionalTextKey(m.document) + SEPARATOR + m2;
      LocationAndMore(l, x);
      LocationAndMore(m, y);
      CutAt([1], l1, [1], m1);
      CutOptional(l.document, l2, m.document, m2);
      CutOptional(l.section, l3, m.section, m3);
      LineTextInjective(l.line, m.line);
      LineTextInjective(m.line, l.line);
      CutOptional(LineText(l.line), l4, LineText(m.line), m4);
      CutOptional(l.jsonPath, x, m.jsonPath, y);
    }
  }

  lemma LocationAndMore(l: Location, x: Text)
    ensures LocationKey(Some(l)) + SEPARATOR + x ==
            [1] + SEPARATOR + (OptionalTextKey(l.document) + SEPARATOR + (OptionalTextKey(l.section) + SEPARATOR
            + (OptionalNumberKey(l.line) + SEPARATOR + (OptionalTextKey(l.jsonPath) + SEPARATOR + x))))
  {
    hide OptionalTextKey, OptionalNumberKey;
    var d, s, n, j := OptionalTextKey(l.document), OptionalTextKey(l.section), OptionalNumberKey(l.line), OptionalTextKey(l.jsonPath);
    assert ([1] + SEPARATOR + d + SEPARATOR + s + SEPARATOR + n + SEPARATOR + j) + SEPARATOR + x
        == [1] + SEPARATOR + (d + SEPARATOR + (s + SEPARATOR + (n + SEPARATOR + (j + SEPARATOR + x))));
  }

  /** Findings are merged exactly if they agree in severity, message, location, help and reference. */
  lemma MergedIff(f: Finding, g: Finding)
    requires FreeTexts(f) && FreeTexts(g)
    ensures DedupKey(f) == DedupKey(g) <==>
              && f.severity == g.severity && f.message == g.message && f.location == g.location
              && OrEmpty(f.help) == OrEmpty(g.help) && OrEmpty(f.specReference) == OrEmpty(g.specReference)
  {
    hide LocationKey, SeverityName, FreeLocation;
    NameIsFree(f.severity);
    NameIsFree(g.severity);
    NamesDiffer(f.severity, g.severity);
    var f3, g3 := OrEmpty(f.help) + SEPARATOR + OrEmpty(f.specReference), OrEmpty(g.help) + SEPARATOR + OrEmpty(g.specReference);
    var f2, g2 := LocationKey(f.location) + SEPARATOR + f3, LocationKey(g.location) + SEPARATOR + g3;
    var f1, g1 := f.message + SEPARATOR + f2, g.message + SEPARATOR + g2;
    assert DedupKey(f) == SeverityName(f.severity) + SEPARATOR + f1 && DedupKey(g) == SeverityName(g.severity) + SEPARATOR + g1;
    if DedupKey(f) == DedupKey(g) {
      CutAt(SeverityName(f.severity), f1, SeverityName(g.severity), g1);
      CutAt(f.message, f2, g.message, g2);
      CutLocation(f.location, f3, g.location, g3);
      CutAt(OrEmpty(f.help), OrEmpty(f.specReference), OrEmpty(g.help), OrEmpty(g.specReference));
    }
  }

  /** A finding is written with everything it says, its source ids each once and ascending. */
  lemma WrittenSays(f: Finding)
    ensures
      var w := OrderedFinding(f);
      && w.ruleId == f.ruleId && w.severity == f.severity && w.message == f.message && w.location == f.location
      && w.help == f.help && w.specReference == f.specReference && (w.sourceRuleIds.Some? <==> f.sourceRuleIds.Some?)
      && (f.sourceRuleIds.Some? ==>
            && (forall id: Text :: id in w.sourceRuleIds.value <==> id in f.sourceRuleIds.value)
            && (forall i, j :: 0 <= i < j < |w.sourceRuleIds.value| ==> Precedes(w.sourceRuleIds.value[i], w.sourceRuleIds.value[j])))
  {
    hide SortedIds, Precedes, Less;
    if f.sourceRuleIds.Some? {
      var ids := SortedIds(f.sourceRuleIds.value);
      SortedIdsIs(f.sourceRuleIds.value);
      forall i, j | 0 <= i < j < |ids| ensures Precedes(ids[i], ids[j]) {
        LessOne(ids[i], ids[j]);
        TextLessIs(ids[i], ids[j]);
      }
    }
  }

  /** The canonical report writes every finding and nothing else. */
  lemma CanonicalSays(fs: seq<Finding>)
    ensures |Canonical(fs)| == |fs|
    ensures forall w: Finding :: w in Canonical(fs) <==> exists f: Finding :: f in fs && OrderedFinding(f) == w
  {
    hide OrderedFinding, SortFindings;
    SortedByImportance(fs);
    var s, c := SortFindings(fs), Canonical(fs);
    assert |s| == |multiset(s)| == |multiset(fs)| == |fs|;
    forall f: Finding ensures f in s <==> f in fs { assert f in multiset(s) <==> f in multiset(fs); }
    forall w: Finding ensures w in c <==> exists f: Finding :: f in fs && OrderedFinding(f) == w {
      if w in c {
        var i :| 0 <= i < |c| && c[i] == w;
        assert s[i] in fs && OrderedFinding(s[i]) == w;
      }
      if f: Finding :| f in fs && OrderedFinding(f) == w {
        var i :| 0 <= i < |s| && s[i] == f;
        assert c[i] == w;
      }
    }
  }
}
