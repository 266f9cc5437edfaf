/**
  Scope lists and scope strings (packages/service/src/encoding.ts:45-50 and the scope helpers of
  packages/service/src/service.ts:81-96).
 */
module Scopes {
  import opened Wrappers

  /** The characters `\s` matches. */
  predicate IsSpace(c: char) {
    || c == ' ' || '\t' <= c <= '\r' || c == '\U{00A0}' || c == '\U{1680}' || '\U{2000}' <= c <= '\U{200A}'
    || c == '\U{2028}' || c == '\U{2029}' || c == '\U{202F}' || c == '\U{205F}' || c == '\U{3000}' || c == '\U{FEFF}'
  }

  /** `split(/\s+/)`: cut at every maximal run of spaces, so a leading or trailing run leaves an empty piece. */
  function Pieces(s: string): (r: seq<string>)
    ensures r != []
  {
    if s == "" then [""]
    else
      var n := |s| - 1;
      var rest := Pieces(s[..n]);
      var k := |rest| - 1;
      if !IsSpace(s[n]) then rest[..k] + [rest[k] + [s[n]]]
      else if n > 0 && IsSpace(s[n - 1]) then rest
      else rest + [""]
  }

  function NonEmpty(pieces: seq<string>): seq<string> {
    if pieces == [] then []
    else
      var n := |pieces| - 1;
      NonEmpty(pieces[..n]) + if pieces[n] == "" then [] else [pieces[n]]
  }

  /** The elements of a `Set` filled from the list, in insertion order. */
  function Unique(s: seq<string>): seq<string> {
    if s == [] then []
    else
      var rest := Unique(s[..|s| - 1]);
      if s[|s| - 1] in rest then rest else rest + [s[|s| - 1]]
  }

  function SplitScope(scope: Option<string>): seq<string> {
    if scope.None? || scope.value == "" then [] else Unique(NonEmpty(Pieces(scope.value)))
  }

  /** `join(" ")`. */
  function Join(scopes: seq<string>): string {
    if scopes == [] then ""
    else if |scopes| == 1 then scopes[0]
    else Join(scopes[..|scopes| - 1]) + " " + scopes[|scopes| - 1]
  }

  predicate Within(requested: seq<string>, allowed: seq<string>) {
    forall i :: 0 <= i < |requested| ==> requested[i] in allowed
  }

  predicate SameScopes(left: seq<string>, right: seq<string>) {
    |left| == |right| && forall i :: 0 <= i < |left| ==> left[i] in right
  }

  function RequestedScopes(scope: Option<string>, fallback: seq<string>): seq<string> {
    var parsed := SplitScope(scope);
    if |parsed| > 0 then parsed else fallback
  }

  // --- which lists survive being written as a string ---

  predicate Word(s: string) {
    s != "" && forall i :: 0 <= i < |s| ==> !IsSpace(s[i])
  }

  predicate Words(s: seq<string>) {
    forall i :: 0 <= i < |s| ==> Word(s[i])
  }

  predicate Distinct(s: seq<string>) {
    forall i, j :: 0 <= i < j < |s| ==> s[i] != s[j]
  }

  /** Distinct words. */
  predicate Clean(scopes: seq<string>) {
    Words(scopes) && Distinct(scopes)
  }

  lemma {:induction false} UniqueIs(s: seq<string>)
    ensures Distinct(Unique(s)) && |Unique(s)| <= |s|
    ensures forall x :: x in Unique(s) <==> x in s
    ensures |Unique(s)| == |s| ==> Distinct(s)
    ensures Distinct(s) ==> Unique(s) == s
  {
    if s != [] {
      var n := |s| - 1;
      UniqueIs(s[..n]);
      assert s == s[..n] + [s[n]];
      assert Distinct(s) ==> s[n] !in s[..n];
    }
  }

  /** Only pieces without spaces come out of a cut. */
  lemma {:induction false} PiecesAreSpaceless(s: string)
    ensures forall i :: 0 <= i < |Pieces(s)| ==> Pieces(s)[i] == "" || Word(Pieces(s)[i])
  {
    if s != "" {
      PiecesAreSpaceless(s[..|s| - 1]);
    }
  }

  lemma {:induction false} NonEmptyIs(pieces: seq<string>)
    requires forall i :: 0 <= i < |pieces| ==> pieces[i] == "" || Word(pieces[i])
    ensures Words(NonEmpty(pieces))
    ensures Words(pieces) ==> NonEmpty(pieces) == pieces
  {
    if pieces != [] {
      var n := |pieces| - 1;
      NonEmptyIs(pieces[..n]);
      assert pieces == pieces[..n] + [pieces[n]];
    }
  }

  /** Whatever the string, what is read from it is a list of distinct words. */
  lemma SplitIsClean(scope: Option<string>)
    ensures Clean(SplitScope(scope))
  {
    if scope.Some? {
      PiecesAreSpaceless(scope.value);
      NonEmptyIs(Pieces(scope.value));
      UniqueIs(NonEmpty(Pieces(scope.value)));
      var words, unique := NonEmpty(Pieces(scope.value)), Unique(NonEmpty(Pieces(scope.value)));
      forall i | 0 <= i < |unique| ensures Word(unique[i]) {
        assert unique[i] in words;
      }
    }
  }

  lemma AppendLetter(s: string, c: char)
    requires !IsSpace(c)
    ensures
      var k := |Pieces(s)| - 1;
      Pieces(s + [c]) == Pieces(s)[..k] + [Pieces(s)[k] + [c]]
  {
    assert (s + [c])[..|s|] == s;
  }

  /** A word behind a string goes onto its last piece. */
  lemma {:induction false} AppendWord(s: string, w: string)
    requires forall i :: 0 <= i < |w| ==> !IsSpace(w[i])
    ensures
      var k := |Pieces(s)| - 1;
      Pieces(s + w) == Pieces(s)[..k] + [Pieces(s)[k] + w]
  {
    hide Pieces, IsSpace;
    if w == "" {
      assert s + w == s && Pieces(s)[|Pieces(s)| - 1] + w == Pieces(s)[|Pieces(s)| - 1];
    } else {
      var n := |w| - 1;
      AppendWord(s, w[..n]);
      AppendLetter(s + w[..n], w[n]);
      assert s + w == s + w[..n] + [w[n]];
      var k := |Pieces(s)| - 1;
      var rest := Pieces(s + w[..n]);
      assert rest[..k] == Pieces(s)[..k] && rest[k] + [w[n]] == Pieces(s)[k] + w;
    }
  }

  lemma AppendSpace(s: string)
    requires s != "" && !IsSpace(s[|s| - 1])
    ensures Pieces(s + " ") == Pieces(s) + [""]
  {
    assert (s + " ")[..|s|] == s;
  }

  lemma WordAlone(w: string)
    requires Word(w)
    ensures Pieces(w) == [w]
  {
    AppendWord("", w);
    assert "" + w == w && Pieces("") == [""] && [""][..0] + [w] == [w];
  }

  lemma {:induction false} PiecesOfJoin(scopes: seq<string>)
    requires scopes != [] && Words(scopes)
    ensures Pieces(Join(scopes)) == scopes
    ensures Join(scopes) != "" && !IsSpace(Join(scopes)[|Join(scopes)| - 1])
  {
    hide Pieces, IsSpace;
    var n := |scopes| - 1;
    var w := scopes[n];
    if n == 0 {
      WordAlone(w);
    } else {
      var before := Join(scopes[..n]);
      PiecesOfJoin(scopes[..n]);
      AppendSpace(before);
      AppendWord(before + " ", w);
      assert "" + w == w && (scopes[..n] + [""])[..n] == scopes[..n] && scopes[..n] + [w] == scopes;
      assert Join(scopes) == (before + " ") + w;
    }
  }

  /** A list of words that is joined and split again loses its repetitions only. */
  lemma SplitOfJoin(scopes: seq<string>)
    requires Words(scopes)
    ensures SplitScope(Some(Join(scopes))) == Unique(scopes)
  {
    if scopes != [] {
      PiecesOfJoin(scopes);
      NonEmptyIs(scopes);
    }
  }

  /** A list survives being written as a string and read back exactly when it holds distinct words. */
  lemma RoundTripIffClean(scopes: seq<string>)
    ensures SplitScope(Some(Join(scopes))) == scopes <==> Clean(scopes)
  {
    SplitIsClean(Some(Join(scopes)));
    if Clean(scopes) {
      SplitOfJoin(scopes);
      UniqueIs(scopes);
    }
  }

  /**
    The comparison made when a token is validated passes for its own scopes exactly when they are
    distinct words; a repeated scope, or one with a space in it, makes the token useless.
   */
  lemma OwnScopesPassIffClean(scopes: seq<string>)
    ensures SameScopes(scopes, SplitScope(Some(Join(scopes)))) <==> Clean(scopes)
  {
    var back := SplitScope(Some(Join(scopes)));
    RoundTripIffClean(scopes);
    SplitIsClean(Some(Join(scopes)));
    if SameScopes(scopes, back) {
      forall i | 0 <= i < |scopes| ensures Word(scopes[i]) {
        assert scopes[i] in back;
      }
      SplitOfJoin(scopes);
      UniqueIs(scopes);
    }
  }

  // --- the counting argument behind the comparison ---

  lemma {:induction false} FitsInto(left: seq<string>, right: seq<string>)
    requires Distinct(left) && Within(left, right)
    ensures multiset(left) <= multiset(right)
  {
    forall x | x in multiset(left) ensures multiset(left)[x] <= multiset(right)[x] {
      OnceIn(left, x);
      var i :| 0 <= i < |left| && left[i] == x;
      assert x in right;
    }
  }

  lemma {:induction false} OnceIn(s: seq<string>, x: string)
    requires Distinct(s)
    ensures multiset(s)[x] <= 1
  {
    if s != [] {
      var n := |s| - 1;
      assert s == s[..n] + [s[n]];
      OnceIn(s[..n], x);
      assert s[n] !in s[..n];
    }
  }

  /** Equal lengths and containment one way are equality up to order, if the left list has no repetition. */
  lemma SameScopesIsEquality(left: seq<string>, right: seq<string>)
    requires Distinct(left)
    ensures SameScopes(left, right) <==> multiset(left) == multiset(right)
  {
    if SameScopes(left, right) {
      FitsInto(left, right);
      assert |multiset(right) - multiset(left)| == 0;
      assert multiset(right) == multiset(left) + (multiset(right) - multiset(left));
    }
    if multiset(left) == multiset(right) {
      assert |left| == |multiset(left)| == |multiset(right)| == |right|;
      forall i | 0 <= i < |left| ensures left[i] in right {
        assert left[i] in multiset(left);
      }
    }
  }

  /** With a repetition on the left the comparison accepts lists that differ. */
  lemma SameScopesIsOneSided()
    ensures SameScopes(["a", "a"], ["a", "b"]) && !SameScopes(["a", "b"], ["a", "a"])
  {
    assert ["a", "b"][1] !in ["a", "a"];
  }

  /** A text longer than every scope of the list, hence none of them. */
  lemma {:induction false} NewScope(scopes: seq<string>) returns (other: string)
    ensures forall i :: 0 <= i < |scopes| ==> |scopes[i]| < |other|
  {
    if scopes == [] {
      other := "a";
    } else {
      var n := |scopes| - 1;
      other := NewScope(scopes[..n]);
      if |other| <= |scopes[n]| {
        other := scopes[n] + "a";
      }
    }
  }

  /** A repeated scope leaves room on the right for one that is not on the left. */
  lemma RepetitionIsFooled(left: seq<string>, i: nat, j: nat) returns (right: seq<string>)
    requires i < j < |left| && left[i] == left[j]
    ensures SameScopes(left, right) && multiset(left) != multiset(right)
  {
    var other := NewScope(left);
    right := left[j := other];
    forall k | 0 <= k < |left| ensures left[k] in right {
      assert k != j ==> right[k] == left[k];
      assert right[i] == left[j];
    }
    assert other !in multiset(left) && right[j] in multiset(right);
  }

  /** The comparison is equality up to order with every list on the right exactly if the left one repeats nothing. */
  lemma SameScopesIsEqualityIff(left: seq<string>)
    ensures Distinct(left) <==> forall right :: SameScopes(left, right) <==> multiset(left) == multiset(right)
  {
    if Distinct(left) {
      forall right ensures SameScopes(left, right) <==> multiset(left) == multiset(right) {
        SameScopesIsEquality(left, right);
      }
    } else {
      var i, j :| 0 <= i < j < |left| && left[i] == left[j];
      var right := RepetitionIsFooled(left, i, j);
      assert SameScopes(left, right) && multiset(left) != multiset(right);
    }
  }

  // --- narrowing ---

  lemma WithinSelf(a: seq<string>)
    ensures Within(a, a)
  {
  }

  /** Scopes taken from a request are distinct words unless they are the fallback. */
  lemma RequestedAreClean(scope: Option<string>, fallback: seq<string>)
    ensures RequestedScopes(scope, fallback) == fallback || Clean(RequestedScopes(scope, fallback))
  {
    SplitIsClean(scope);
  }
}
