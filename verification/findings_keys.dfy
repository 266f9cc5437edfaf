/** Texts without the separator make the joined keys say everything; one with it can be mistaken for another. */
module FindingsKeys {
  import opened Wrappers
  import opened StableSort
  import opened FindingsModel
  import opened Findings
  import opened FindingsOrder

  predicate Free(t: Text) {
    forall i :: 0 <= i < |t| ==> t[i] != 0
  }

  predicate FreeOption(t: Option<Text>) {
    t.Some? ==> Free(t.value)
  }

  predicate FreeLocation(l: Option<Location>) {
    l.Some? ==> FreeOption(l.value.document) && FreeOption(l.value.section) && FreeOption(l.value.jsonPath)
  }

  predicate FreeIds(ids: seq<Text>) {
    forall i :: 0 <= i < |ids| ==> ids[i] != [] && Free(ids[i])
  }

  predicate SeparatorFree(f: Finding) {
    FreeLocation(f.location) && (f.sourceRuleIds.Some? ==> FreeIds(f.sourceRuleIds.value))
  }

  // --- numbers ---

  lemma {:induction false} DigitsAre(n: nat)
    ensures Digits(n) != [] && Free(Digits(n)) && Digits(n)[0] != 45
  {
    if n >= 10 {
      DigitsAre(n / 10);
    }
  }

  lemma {:induction false} DigitsInjective(m: nat, n: nat)
    requires Digits(m) == Digits(n)
    ensures m == n
  {
    DigitsAre(m);
    DigitsAre(n);
    var a, b := Digits(m), Digits(n);
    assert a[|a| - 1] == Digit(m % 10) && b[|b| - 1] == Digit(n % 10);
    if m >= 10 {
      DigitsAre(m / 10);
    }
    if n >= 10 {
      DigitsAre(n / 10);
    }
    if m >= 10 && n >= 10 {
      assert a[..|a| - 1] == Digits(m / 10) && b[..|b| - 1] == Digits(n / 10);
      DigitsInjective(m / 10, n / 10);
    }
  }

  lemma DecimalInjective(m: int, n: int)
    requires Decimal(m) == Decimal(n)
    ensures m == n
  {
    if m >= 0 { DigitsAre(m); }
    if n >= 0 { DigitsAre(n); }
    if m < 0 && n < 0 {
      assert Decimal(m)[1..] == Digits(-m) && Decimal(n)[1..] == Digits(-n);
      DigitsInjective(-m, -n);
    } else if m >= 0 && n >= 0 {
      DigitsInjective(m, n);
    }
  }

  lemma DecimalIsFree(n: int)
    ensures Free(Decimal(n))
  {
    if n >= 0 { DigitsAre(n); } else { DigitsAre(-n); }
  }

  // --- reading a joined key back ---

  /** The part up to a separator is determined if it has none itself. */
  lemma CutAt(a: Text, x: Text, b: Text, y: Text)
    requires Free(a) && Free(b) && a + SEPARATOR + x == b + SEPARATOR + y
    ensures a == b && x == y
  {
    var l, r := a + SEPARATOR + x, b + SEPARATOR + y;
    assert l[|a|] == 0 && r[|b|] == 0;
    assert (forall i :: 0 <= i < |a| ==> l[i] == a[i] != 0) && forall i :: 0 <= i < |b| ==> r[i] == b[i] != 0;
    assert |a| == |b|;
    assert l[..|a|] == a && r[..|b|] == b;
    assert l[|a| + 1..] == x && r[|b| + 1..] == y;
  }

  /** The key of an optional text, which is one separator if there is none, followed by a separator. */
  lemma CutOptional(a: Option<Text>, x: Text, b: Option<Text>, y: Text)
    requires FreeOption(a) && FreeOption(b)
    requires OptionalTextKey(a) + SEPARATOR + x == OptionalTextKey(b) + SEPARATOR + y
    ensures a == b && x == y
  {
    var l, r := OptionalTextKey(a) + SEPARATOR + x, OptionalTextKey(b) + SEPARATOR + y;
    assert l[0] == OptionalTextKey(a)[0] && r[0] == OptionalTextKey(b)[0];
    if a.None? {
      assert l[2..] == x && r[2..] == y;
    } else {
      CutAt(OptionalTextKey(a), x, OptionalTextKey(b), y);
      OptionalTextInjective(a, b);
    }
  }

  function LineText(line: Option<int>): Option<Text> {
    if line.None? then None else Some(Decimal(line.value))
  }

  lemma LineTextInjective(a: Option<int>, b: Option<int>)
    ensures FreeOption(LineText(a)) && OptionalNumberKey(a) == OptionalTextKey(LineText(a))
    ensures LineText(a) == LineText(b) ==> a == b
  {
    if a.Some? {
      DecimalIsFree(a.value);
      if LineText(a) == LineText(b) { DecimalInjective(a.value, b.value); }
    }
  }

  lemma LocationKeyInjective(a: Option<Location>, b: Option<Location>)
    requires FreeLocation(a) && FreeLocation(b) && LocationKey(a) == LocationKey(b)
    ensures a == b
  {
    hide OptionalTextKey, OptionalNumberKey, FreeOption, LineText;
    assert LocationKey(a)[0] == (if a.None? then 0 else 1) && LocationKey(b)[0] == (if b.None? then 0 else 1);
    if a.Some? {
      var l, m := a.value, b.value;
      var l4, m4 := OptionalTextKey(l.jsonPath), OptionalTextKey(m.jsonPath);
      var l3, m3 := OptionalNumberKey(l.line) + SEPARATOR + l4, OptionalNumberKey(m.line) + SEPARATOR + m4;
      var l2, m2 := OptionalTextKey(l.section) + SEPARATOR + l3, OptionalTextKey(m.section) + SEPARATOR + m3;
      var l1, m1 := OptionalTextKey(l.document) + SEPARATOR + l2, OptionalTextKey(m.document) + SEPARATOR + m2;
      assert LocationKey(a) == [1] + SEPARATOR + l1 && LocationKey(b) == [1] + SEPARATOR + m1;
      CutAt([1], l1, [1], m1);
      CutOptional(l.document, l2, m.document, m2);
      CutOptional(l.section, l3, m.section, m3);
      LineTextInjective(l.line, m.line);
      LineTextInjective(m.line, l.line);
      CutOptional(LineText(l.line), l4, LineText(m.line), m4);
      OptionalTextInjective(l.jsonPath, m.jsonPath);
    }
  }

  lemma JoinShape(ids: seq<Text>)
    requires FreeIds(ids)
    ensures Free(Join(ids)) <==> |ids| <= 1
    ensures Join(ids) == [] <==> ids == []
  {
    if |ids| > 1 {
      assert Join(ids)[|Join(ids[..|ids| - 1])|] == 0;
    }
  }

  /** A list of non-empty texts without the separator is determined by its joined form. */
  lemma {:induction false} JoinInjective(a: seq<Text>, b: seq<Text>)
    requires FreeIds(a) && FreeIds(b) && Join(a) == Join(b)
    ensures a == b
  {
    JoinShape(a);
    JoinShape(b);
    if |a| > 1 {
      var n, m := |a| - 1, |b| - 1;
      assert a == a[..n] + [a[n]] && b == b[..m] + [b[m]];
      CutLast(Join(a[..n]), a[n], Join(b[..m]), b[m]);
      JoinInjective(a[..n], b[..m]);
    }
  }

  /** The part behind the last separator. */
  lemma CutLast(x: Text, a: Text, y: Text, b: Text)
    requires Free(a) && Free(b) && x + SEPARATOR + a == y + SEPARATOR + b
    ensures x == y && a == b
  {
    var l, r := x + SEPARATOR + a, y + SEPARATOR + b;
    assert l[|x|] == 0 && r[|y|] == 0;
    assert forall i :: |x| < i < |l| ==> l[i] == a[i - |x| - 1] && l[i] != 0;
    assert forall i :: |y| < i < |r| ==> r[i] == b[i - |y| - 1] && r[i] != 0;
    assert |x| == |y|;
    assert l[..|x|] == x && r[..|y|] == y;
    assert l[|x| + 1..] == a && r[|y| + 1..] == b;
  }

  lemma SourceIdsKeyInjective(a: seq<Text>, b: seq<Text>)
    requires FreeIds(a) && FreeIds(b) && SourceIdsKey(Some(a)) == SourceIdsKey(Some(b))
    ensures SortedIds(a) == SortedIds(b)
  {
    hide SortedIds;
    assert SourceIdsKey(Some(a))[1..] == Join(SortedIds(a)) && SourceIdsKey(Some(b))[1..] == Join(SortedIds(b));
    SortedStayFree(a);
    SortedStayFree(b);
    JoinInjective(SortedIds(a), SortedIds(b));
  }

  lemma SortedStayFree(ids: seq<Text>)
    requires FreeIds(ids)
    ensures FreeIds(SortedIds(ids))
  {
    hide SortedIds;
    SortedIdsIs(ids);
    forall i | 0 <= i < |SortedIds(ids)| ensures SortedIds(ids)[i] != [] && Free(SortedIds(ids)[i]) {
      assert SortedIds(ids)[i] in ids;
    }
  }

  /** Findings that compare equal are the same up to the order and repetition of their source ids. */
  lemma EqualKeysEqualFindings(f: Finding, g: Finding)
    requires SeparatorFree(f) && SeparatorFree(g) && SortKey(f) == SortKey(g)
    ensures f.location == g.location && OrderedFinding(f) == OrderedFinding(g)
  {
    hide SortKey, LocationKey, SortedIds, FreeLocation, Join;
    EqualSortKeys(f, g);
    LocationKeyInjective(f.location, g.location);
    var a, b := f.sourceRuleIds, g.sourceRuleIds;
    assert SourceIdsKey(a)[0] == (if a.None? then 0 else 1) && SourceIdsKey(b)[0] == (if b.None? then 0 else 1);
    if a.Some? {
      SourceIdsKeyInjective(a.value, b.value);
    }
  }

  /** Over texts without the separator neither result depends on the order of the findings. */
  lemma OrderDoesNotMatter(fs: seq<Finding>, gs: seq<Finding>)
    requires multiset(fs) == multiset(gs) && forall f: Finding :: f in fs ==> SeparatorFree(f)
    ensures Deduplicate(gs) == Deduplicate(fs) && Canonical(gs) == Canonical(fs)
  {
    hide SortKey, DedupKey, SeparatorFree, OrderedFinding, Deduplicate, Canonical, Less;
    forall f: Finding, g: Finding | f in fs && g in fs && SortKey(f) == SortKey(g)
      ensures f.location == g.location && OrderedFinding(f) == OrderedFinding(g)
    {
      EqualKeysEqualFindings(f, g);
    }
    forall f: Finding, g: Finding | Leads(fs, f) && Leads(fs, g) && DedupKey(f) == DedupKey(g) ensures f.location == g.location {
      LeadersAgree(fs, f, g);
    }
    DecidedIsEnough(fs, gs);
    KeysAreEnough(fs, gs);
  }

  /** No source id and one empty source id compare equal and are written differently. */
  lemma EmptySourceIdConfuses(f: Finding)
    ensures
      var none, empty := f.(sourceRuleIds := Some([])), f.(sourceRuleIds := Some([[]]));
      SortKey(none) == SortKey(empty) && OrderedFinding(none) != OrderedFinding(empty)
  {
    hide LocationKey;
    SortedIdsIs([]);
    SortedIdsIs([[]]);
    var one: seq<Text> := [[]];
    assert one[0] in SortedIds(one) && SortedIds([]) == [];
    assert SortedIds(one) == one;
  }

  // --- a separator inside a text ---

  function At(location: Location): Finding {
    Finding([114], Warning, [109], Some(location), None, None, None)
  }

  const SPLIT_LATE := Location(Some([97]), Some([98]), None, Some([49, 0, 0]))
  const SPLIT_EARLY := Location(Some([97, 0, 1, 98]), None, Some(1), None)

  /** Of two findings that compare equal at different locations the one that comes first is kept. */
  lemma FirstComeFirstKept(f: Finding, g: Finding)
    requires SortKey(f) == SortKey(g) && f.location != g.location
    ensures Deduplicate([f, g]) != Deduplicate([g, f])
  {
    hide SortKey, DedupKey, Deduplicate, MergeAll, SortFindings, Group;
    EqualSortKeys(f, g);
    BothLead(f, g);
    BothLead(g, f);
    FrontWins(f, [g]);
    FrontWins(g, [f]);
    assert [f] + [g] == [f, g] && [g] + [f] == [g, f];
    DeduplicateIs([f, g]);
  }

  lemma FirstComeFirstWritten(f: Finding, g: Finding)
    requires SortKey(f) == SortKey(g) && f.location != g.location
    ensures Canonical([f, g]) != Canonical([g, f])
  {
    hide SortKey, Canonical;
    assert [f] + [g] == [f, g] && [g] + [f] == [g, f];
    assert multiset([f, g]) == multiset([g, f]);
    assert OrderedFinding(f).location == f.location && OrderedFinding(g).location == g.location;
    if Canonical([f, g]) == Canonical([g, f]) {
      FrontsDiffer([f, g], f, [g], g, [f]);
    }
  }

  /**
    Two locations with one key: the document `a` with the section `b`, and the document `a`, separator,
    one, `b` with no section.  Merging their findings keeps whichever came first.
   */
  lemma SeparatorsConfuse()
    ensures LocationKey(Some(SPLIT_LATE)) == LocationKey(Some(SPLIT_EARLY)) && SPLIT_LATE != SPLIT_EARLY
    ensures Deduplicate([At(SPLIT_LATE), At(SPLIT_EARLY)]) != Deduplicate([At(SPLIT_EARLY), At(SPLIT_LATE)])
    ensures Canonical([At(SPLIT_LATE), At(SPLIT_EARLY)]) != Canonical([At(SPLIT_EARLY), At(SPLIT_LATE)])
  {
    hide LocationKey, Deduplicate, Canonical, DedupKey;
    SameKey();
    FirstComeFirstKept(At(SPLIT_LATE), At(SPLIT_EARLY));
    FirstComeFirstWritten(At(SPLIT_LATE), At(SPLIT_EARLY));
  }

  lemma BothLead(f: Finding, g: Finding)
    requires SortKey(f) == SortKey(g)
    ensures Leads([f] + [g], f)
  {
    Total(SortKey(f), SortKey(f));
  }

  lemma SameKey()
    ensures LocationKey(Some(SPLIT_LATE)) == LocationKey(Some(SPLIT_EARLY))
  {
    assert OptionalNumberKey(Some(1)) == [1, 49] by { assert Decimal(1) == [49]; }
    var late, early := SPLIT_LATE, SPLIT_EARLY;
    assert OptionalTextKey(late.document) == [1, 97] && OptionalTextKey(late.section) == [1, 98];
    assert OptionalTextKey(late.jsonPath) == [1, 49, 0, 0] && OptionalTextKey(early.document) == [1, 97, 0, 1, 98];
    hide OptionalTextKey, OptionalNumberKey;
    var first: Text := [1] + SEPARATOR + [1, 97] + SEPARATOR + [1, 98];
    assert first == [1] + SEPARATOR + [1, 97, 0, 1, 98];
    var second: Text := first + SEPARATOR + [0] + SEPARATOR;
    assert second + [1, 49, 0, 0] == second + [1, 49] + SEPARATOR + [0];
    assert LocationKey(Some(late)) == second + [1, 49, 0, 0];
    assert LocationKey(Some(early)) == second + [1, 49] + SEPARATOR + [0];
  }
}
