/**
  Findings of a conformance report: their keys, order and merging (packages/cli/src/model.ts:38-172),
  and the canonical report (packages/cli/src/reporter.ts:83-133).
 */
module FindingsModel {
  import opened Wrappers
  import opened StableSort

  datatype Severity = Error | Warning | Info

  datatype Location = Location(document: Option<Text>, section: Option<Text>, line: Option<int>, jsonPath: Option<Text>)

  datatype Finding = Finding(
    ruleId: Text,
    severity: Severity,
    message: Text,
    location: Option<Location>,
    help: Option<Text>,
    specReference: Option<Text>,
    sourceRuleIds: Option<seq<Text>>)

  const SEPARATOR: Text := [0]

  // --- keys ---

  /** The rank that is compared first, as a text of one unit. */
  function RankKey(s: Severity): Text {
    match s
    case Error => [0]
    case Warning => [1]
    case Info => [2]
  }

  /** The name of a severity; only its first unit and that it has no separator matter. */
  function SeverityName(s: Severity): Text {
    match s
    case Error => [101, 114, 114, 111, 114]
    case Warning => [119, 97, 114, 110, 105, 110, 103]
    case Info => [105, 110, 102, 111]
  }

  function OptionalTextKey(t: Option<Text>): Text {
    if t.None? then [0] else [1] + t.value
  }

  function Digit(n: nat): Unit
    requires n < 10
  {
    48 + n as Unit
  }

  function Digits(n: nat): Text {
    if n < 10 then [Digit(n)] else Digits(n / 10) + [Digit(n % 10)]
  }

  function Decimal(n: int): Text {
    if n < 0 then [45] + Digits(-n) else Digits(n)
  }

  function OptionalNumberKey(n: Option<int>): Text {
    if n.None? then [0] else [1] + Decimal(n.value)
  }

  /** `join(separator)`. */
  function Join(parts: seq<Text>): Text {
    if parts == [] then []
    else if |parts| == 1 then parts[0]
    else Join(parts[..|parts| - 1]) + SEPARATOR + parts[|parts| - 1]
  }

  function LocationKey(location: Option<Location>): Text {
    if location.None? then [0]
    else
      var l := location.value;
      [1] + SEPARATOR + OptionalTextKey(l.document) + SEPARATOR + OptionalTextKey(l.section) + SEPARATOR
      + OptionalNumberKey(l.line) + SEPARATOR + OptionalTextKey(l.jsonPath)
  }

  function TextKey(t: Text): Key { [t] }

  /** The elements of a `Set` filled from the list. */
  function Unique(s: seq<Text>): seq<Text> {
    if s == [] then []
    else
      var rest := Unique(s[..|s| - 1]);
      if s[|s| - 1] in rest then rest else rest + [s[|s| - 1]]
  }

  function SortedIds(ids: seq<Text>): seq<Text> {
    Sort(Unique(ids), TextKey)
  }

  function SourceIdsKey(ids: Option<seq<Text>>): Text {
    if ids.None? then [0] else [1] + Join(SortedIds(ids.value))
  }

  function SortKey(f: Finding): Key {
    [RankKey(f.severity), f.ruleId, LocationKey(f.location), f.message, OptionalTextKey(f.help),
     OptionalTextKey(f.specReference), SourceIdsKey(f.sourceRuleIds)]
  }

  function OrEmpty(t: Option<Text>): Text {
    if t.None? then [] else t.value
  }

  function DedupKey(f: Finding): Text {
    SeverityName(f.severity) + SEPARATOR + f.message + SEPARATOR + LocationKey(f.location) + SEPARATOR + OrEmpty(f.help)
    + SEPARATOR + OrEmpty(f.specReference)
  }

  // --- sorting and merging ---

  function SortFindings(fs: seq<Finding>): seq<Finding> {
    Sort(fs, SortKey)
  }

  function Ids(f: Finding): seq<Text> {
    [f.ruleId] + if f.sourceRuleIds.Some? then f.sourceRuleIds.value else []
  }

  function First(f: Finding): Finding {
    f.(sourceRuleIds := Some(SortedIds(Ids(f))))
  }

  function Merge(current: Finding, f: Finding): Finding {
    var known := if current.sourceRuleIds.Some? then current.sourceRuleIds.value else [current.ruleId];
    var ids := SortedIds(known + Ids(f));
    current.(ruleId := if ids != [] then ids[0] else current.ruleId, sourceRuleIds := Some(ids))
  }

  /** A `Map`, which remembers in which order its keys came. */
  datatype Merged = Merged(order: seq<Text>, entries: map<Text, Finding>)

  function Put(m: Merged, key: Text, f: Finding): Merged {
    Merged(if key in m.entries then m.order else m.order + [key], m.entries[key := f])
  }

  function Add(m: Merged, f: Finding): Merged {
    var key := DedupKey(f);
    Put(m, key, if key in m.entries then Merge(m.entries[key], f) else First(f))
  }

  function Collect(sorted: seq<Finding>): Merged {
    if sorted == [] then Merged([], map[]) else Add(Collect(sorted[..|sorted| - 1]), sorted[|sorted| - 1])
  }

  function Values(order: seq<Text>, entries: map<Text, Finding>): seq<Finding>
    requires forall k: Text :: k in order ==> k in entries
  {
    seq(|order|, i requires 0 <= i < |order| => entries[order[i]])
  }

  lemma {:induction false} CollectKeys(sorted: seq<Finding>)
    ensures forall k: Text :: k in Collect(sorted).order <==> k in Collect(sorted).entries
    ensures forall i, j :: 0 <= i < j < |Collect(sorted).order| ==> Collect(sorted).order[i] != Collect(sorted).order[j]
    ensures forall k: Text :: k in Collect(sorted).entries <==> exists f: Finding :: f in sorted && DedupKey(f) == k
  {
    hide DedupKey, Merge, First;
    if sorted != [] {
      var n := |sorted| - 1;
      CollectKeys(sorted[..n]);
      assert sorted == sorted[..n] + [sorted[n]];
    }
  }

  function Deduplicate(fs: seq<Finding>): seq<Finding> {
    CollectKeys(SortFindings(fs));
    var m := Collect(SortFindings(fs));
    SortFindings(Values(m.order, m.entries))
  }

  // --- the canonical report ---

  function OrderedFinding(f: Finding): Finding {
    f.(sourceRuleIds := if f.sourceRuleIds.None? then None else Some(SortedIds(f.sourceRuleIds.value)))
  }

  function Map<A, B>(s: seq<A>, f: A -> B): seq<B> {
    seq(|s|, i requires 0 <= i < |s| => f(s[i]))
  }

  /** The findings of the canonical report. */
  function Canonical(fs: seq<Finding>): seq<Finding> {
    Map(SortFindings(fs), OrderedFinding)
  }

  datatype Summary = Summary(errorCount: nat, warningCount: nat, infoCount: nat)

  function HasSeverity(severity: Severity): Finding -> bool {
    (f: Finding) => f.severity == severity
  }

  function CountOf(fs: seq<Finding>, severity: Severity): nat {
    |Filter(fs, HasSeverity(severity))|
  }

  function Summarize(fs: seq<Finding>): Summary {
    Summary(CountOf(fs, Error), CountOf(fs, Warning), CountOf(fs, Info))
  }
}
