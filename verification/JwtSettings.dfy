/** Normalising submitted JWT settings, and when two submissions mean the same. */
module JwtSettings {
  import opened Options
  import opened Sorting
  import opened Text
  import opened JwtVerifying

  datatype Input = Input(
    enabled: bool,
    algorithm: string,
    secret: string,
    issuer: Option<string>,
    audiences: seq<string>,
    subjectClaim: string,
    roleClaim: string,
    scopesClaim: string,
    clockSkewSeconds: Option<int>)

  const DEFAULT_CLOCK_SKEW := 30
  const MAX_SECRET_BYTES := 4096
  const MAX_AUDIENCES := 20

  // ---------------------------------------------------------------- audiences

  /** The audiences a list names: trimmed, blanks dropped. */
  ghost function AudienceSet(values: seq<string>): set<string> {
    set v | v in values && TrimSpace(v) != "" :: TrimSpace(v)
  }

  ghost predicate Distinct(s: seq<string>) {
    forall i, j :: 0 <= i < j < |s| ==> s[i] != s[j]
  }

  ghost function Members(s: seq<string>): set<string> {
    set x | x in s
  }

  predicate AudienceTooLong(value: string) {
    ByteLen(TrimSpace(value)) > 512
  }

  method NormalizeAudiences(values: seq<string>) returns (result: Option<seq<string>>)
    ensures result.None? <==> |values| > MAX_AUDIENCES || exists v :: v in values && AudienceTooLong(v)
    ensures result.Some? ==>
      && Sorted(result.value) && Distinct(result.value)
      && Members(result.value) == AudienceSet(values)
    ensures result == Audiences(values)
  {
    if |values| > MAX_AUDIENCES {
      return None;
    }
    var seen: set<string> := {};
    var kept: seq<string> := [];
    var i := 0;
    while i < |values|
      invariant 0 <= i <= |values|
      invariant forall k :: 0 <= k < i ==> !AudienceTooLong(values[k])
      invariant kept == Kept(values[..i]) && seen == Members(kept)
    {
      assert values[..i + 1][..i] == values[..i];
      var value := TrimSpace(values[i]);
      if value != "" {
        if ByteLen(value) > 512 {
          assert AudienceTooLong(values[i]) && values[i] in values;
          return None;
        }
        if value !in seen {
          seen := seen + {value};
          kept := kept + [value];
        }
      } else {
        assert ByteLen(value) == 0;
      }
      i := i + 1;
    }
    assert values[..i] == values;
    AudiencesAreCanonical(values);
    hide Kept, AudienceSet;
    return Some(Sort(kept));
  }

  /** The first occurrences of the trimmed, non-blank values. */
  function Kept(values: seq<string>): seq<string> {
    if values == [] then []
    else
      var before, v := Kept(values[..|values| - 1]), TrimSpace(values[|values| - 1]);
      if v == "" || v in before then before else before + [v]
  }

  function Audiences(values: seq<string>): Option<seq<string>> {
    if |values| > MAX_AUDIENCES || exists v :: v in values && AudienceTooLong(v) then None
    else Some(Sort(Kept(values)))
  }

  lemma {:induction false} KeptMeaning(values: seq<string>)
    ensures Distinct(Kept(values)) && Members(Kept(values)) == AudienceSet(values)
  {
    hide TrimSpace;
    if values != [] {
      var init, last := values[..|values| - 1], values[|values| - 1];
      KeptMeaning(init);
      assert values == init + [last];
      var v := TrimSpace(last);
      assert AudienceSet(values) == AudienceSet(init) + if v == "" then {} else {v};
      var before := Kept(init);
      if v != "" && v !in before {
        assert Members(before + [v]) == Members(before) + {v};
      }
    }
  }

  /** A list without repetitions holds each member once. */
  lemma {:induction false} DistinctCounts(s: seq<string>)
    requires Distinct(s)
    ensures forall x :: multiset(s)[x] == if x in s then 1 else 0
  {
    if s != [] {
      var init, last := s[..|s| - 1], s[|s| - 1];
      assert s == init + [last];
      DistinctCounts(init);
    }
  }

  lemma DistinctSetsArePermutations(a: seq<string>, b: seq<string>)
    requires Distinct(a) && Distinct(b) && Members(a) == Members(b)
    ensures multiset(a) == multiset(b)
  {
    DistinctCounts(a);
    DistinctCounts(b);
    forall x
      ensures multiset(a)[x] == multiset(b)[x]
    {
      assert x in a <==> x in Members(a);
      assert x in b <==> x in Members(b);
    }
  }

  lemma SortKeepsDistinct(s: seq<string>)
    requires Distinct(s)
    ensures Distinct(Sort(s)) && Members(Sort(s)) == Members(s)
  {
    SortKeepsMembers(s);
    DistinctCounts(s);
    var r := Sort(s);
    forall i, j | 0 <= i < j < |r|
      ensures r[i] != r[j]
    {
      if r[i] == r[j] {
        TwiceCounts(r, i, j);
        assert false;
      }
    }
  }

  lemma TwiceCounts(r: seq<string>, i: nat, j: nat)
    requires i < j < |r| && r[i] == r[j]
    ensures multiset(r)[r[i]] >= 2
  {
    assert r == r[..j] + [r[j]] + r[j + 1..];
    assert r[i] in r[..j];
    assert multiset(r) == multiset(r[..j]) + multiset{r[j]} + multiset(r[j + 1..]);
  }

  lemma AudiencesAreCanonical(values: seq<string>)
    ensures Sorted(Sort(Kept(values))) && Distinct(Sort(Kept(values)))
    ensures Members(Sort(Kept(values))) == AudienceSet(values)
  {
    KeptMeaning(values);
    SortKeepsDistinct(Kept(values));
  }

  /** Two accepted lists normalise alike exactly when they name the same audiences. */
  lemma AudiencesAgreeIff(a: seq<string>, b: seq<string>)
    requires Audiences(a).Some? && Audiences(b).Some?
    ensures Audiences(a) == Audiences(b) <==> AudienceSet(a) == AudienceSet(b)
  {
    hide Kept, AudienceSet;
    AudiencesAreCanonical(a);
    AudiencesAreCanonical(b);
    if AudienceSet(a) == AudienceSet(b) {
      DistinctSetsArePermutations(Sort(Kept(a)), Sort(Kept(b)));
      SortedPermutationsAgree(Sort(Kept(a)), Sort(Kept(b)));
    }
  }

  // ---------------------------------------------------------------- the other fields

  function DefaultClaimName(value: string, fallback: string): string {
    var v := TrimSpace(value);
    if v == "" then fallback else v
  }

  predicate ValidClaimName(value: string) {
    value != "" && ByteLen(value) <= 128 && forall c :: c in value ==> !(c < ' ') && c != '\U{7F}'
  }

  function NormalAlgorithm(algorithm: string): string {
    var a := ToUpper(TrimSpace(algorithm));
    if a == "" then "HS256" else a
  }

  function NormalIssuer(issuer: Option<string>): Option<string> {
    if issuer.None? || TrimSpace(issuer.value) == "" then None else Some(TrimSpace(issuer.value))
  }

  predicate AcceptableSecret(secret: string) {
    secret != "" ==>
      TrimSpace(secret) != "" && MIN_SECRET_BYTES <= ByteLen(secret) <= MAX_SECRET_BYTES
  }

  function Normalize(input: Input): Option<Input> {
    var claims := (DefaultClaimName(input.subjectClaim, "sub"), DefaultClaimName(input.roleClaim, "role"),
                   DefaultClaimName(input.scopesClaim, "scope"));
    var issuer, audiences := NormalIssuer(input.issuer), Audiences(input.audiences);
    if NormalAlgorithm(input.algorithm) != "HS256" then None
    else if !AcceptableSecret(input.secret) then None
    else if !ValidClaimName(claims.0) || !ValidClaimName(claims.1) || !ValidClaimName(claims.2) then None
    else if issuer.Some? && ByteLen(issuer.value) > 512 then None
    else if audiences.None? then None
    else if input.clockSkewSeconds.Some? && !(0 <= input.clockSkewSeconds.value <= 300) then None
    else
      Some(Input(input.enabled, "HS256", input.secret, issuer, audiences.value,
                 claims.0, claims.1, claims.2, input.clockSkewSeconds))
  }

  lemma DefaultClaimsAreValid()
    ensures ValidClaimName("sub") && ValidClaimName("role") && ValidClaimName("scope")
  {
    assert ByteLen("sub") <= 128 && ByteLen("role") <= 128 && ByteLen("scope") <= 128;
  }

  /** A claim name that, once trimmed, is short and free of control characters; a blank one stands for a default. */
  predicate GoodClaim(value: string) {
    ByteLen(TrimSpace(value)) <= 128 && forall c :: c in TrimSpace(value) ==> c >= ' ' && c != '\U{7F}'
  }

  lemma ClaimIsValidIff(value: string, fallback: string)
    requires ValidClaimName(fallback)
    ensures ValidClaimName(DefaultClaimName(value, fallback)) <==> GoodClaim(value)
  {
    hide TrimSpace;
  }

  /** Which submissions are accepted. */
  lemma AcceptedIff(input: Input)
    ensures Normalize(input).Some? <==>
      && (TrimSpace(input.algorithm) == "" || ToUpper(TrimSpace(input.algorithm)) == "HS256")
      && (input.secret == "" || (TrimSpace(input.secret) != "" && 32 <= ByteLen(input.secret) <= 4096))
      && GoodClaim(input.subjectClaim) && GoodClaim(input.roleClaim) && GoodClaim(input.scopesClaim)
      && (input.issuer.Some? ==> ByteLen(TrimSpace(input.issuer.value)) <= 512)
      && |input.audiences| <= 20 && (forall v :: v in input.audiences ==> ByteLen(TrimSpace(v)) <= 512)
      && (input.clockSkewSeconds.Some? ==> 0 <= input.clockSkewSeconds.value <= 300)
  {
    DefaultClaimsAreValid();
    ClaimIsValidIff(input.subjectClaim, "sub");
    ClaimIsValidIff(input.roleClaim, "role");
    ClaimIsValidIff(input.scopesClaim, "scope");
    hide TrimSpace, GoodClaim, ValidClaimName, DefaultClaimName, Kept;
    assert forall v :: v in input.audiences ==> (AudienceTooLong(v) <==> ByteLen(TrimSpace(v)) > 512);
  }

  /** What an accepted submission is stored as: trimmed, with defaults for what was left blank. */
  lemma StoredFields(input: Input)
    requires Normalize(input).Some?
    ensures var s := SettingsOf(Normalize(input).value);
      && s.algorithm == "HS256"
      && s.issuer == (if input.issuer.Some? && TrimSpace(input.issuer.value) != ""
                      then Some(TrimSpace(input.issuer.value)) else None)
      && Sorted(s.audiences) && Distinct(s.audiences) && Members(s.audiences) == AudienceSet(input.audiences)
      && s.subjectClaim == (if TrimSpace(input.subjectClaim) != "" then TrimSpace(input.subjectClaim) else "sub")
      && s.roleClaim == (if TrimSpace(input.roleClaim) != "" then TrimSpace(input.roleClaim) else "role")
      && s.scopesClaim == (if TrimSpace(input.scopesClaim) != "" then TrimSpace(input.scopesClaim) else "scope")
      && s.clockSkewSeconds == (if input.clockSkewSeconds.Some? then input.clockSkewSeconds.value else 30)
    ensures Normalize(input).value.secret == input.secret && Normalize(input).value.enabled == input.enabled
  {
    AudiencesAreCanonical(input.audiences);
    hide TrimSpace, Kept, AudienceSet, ValidClaimName, AcceptableSecret, ByteLen, Sort;
  }

  /** configFromInput, without the secret's coordinates. */
  function SettingsOf(normalized: Input): Settings {
    Settings(normalized.algorithm, normalized.issuer, normalized.audiences,
             normalized.subjectClaim, normalized.roleClaim, normalized.scopesClaim,
             normalized.clockSkewSeconds.GetOr(DEFAULT_CLOCK_SKEW))
  }

  /** jwtConfigEquivalent. */
  predicate Equivalent(enabled: bool, current: Settings, enabled': bool, next: Settings) {
    enabled == enabled' && current == next
  }

  // ---------------------------------------------------------------- what a submission means

  /** A submission up to order, repetition, padding, letter case of the algorithm, and defaults. */
  datatype Meaning = Meaning(
    enabled: bool,
    algorithm: string,
    issuer: Option<string>,
    audiences: set<string>,
    subjectClaim: string,
    roleClaim: string,
    scopesClaim: string,
    clockSkewSeconds: int)

  ghost function MeaningOf(input: Input): Meaning {
    Meaning(input.enabled, NormalAlgorithm(input.algorithm), NormalIssuer(input.issuer), AudienceSet(input.audiences),
            DefaultClaimName(input.subjectClaim, "sub"), DefaultClaimName(input.roleClaim, "role"),
            DefaultClaimName(input.scopesClaim, "scope"), input.clockSkewSeconds.GetOr(DEFAULT_CLOCK_SKEW))
  }

  /** Accepted submissions yield equivalent configurations exactly when they mean the same. */
  lemma EquivalentIff(a: Input, b: Input)
    requires Normalize(a).Some? && Normalize(b).Some?
    ensures Equivalent(a.enabled, SettingsOf(Normalize(a).value), b.enabled, SettingsOf(Normalize(b).value))
      <==> MeaningOf(a) == MeaningOf(b)
  {
    hide Audiences, AudienceSet, ValidClaimName, AcceptableSecret, TrimSpace, ByteLen, NormalAlgorithm;
    AudiencesAgreeIff(a.audiences, b.audiences);
  }

  // ---------------------------------------------------------------- variants of one submission

  /** Padding on either side disappears. */
  lemma PaddingIsTrimmed(before: string, s: string, after: string)
    requires Blank(before) && Blank(after)
    ensures TrimSpace(before + s + after) == TrimSpace(s)
  {
    var core := TrimSpace(s);
    TrimMeaning(s, core);
    var b, a :| Blank(b) && Blank(a) && s == b + core + a;
    assert Blank(before + b) && Blank(a + after);
    assert before + s + after == (before + b) + core + (a + after);
    TrimMeaning(before + s + after, core);
  }

  /** A list that names the same audiences: permuted, repeated or padded. */
  ghost predicate SameAudiences(a: seq<string>, b: seq<string>) {
    && (forall x :: x in a ==> NamedIn(x, b))
    && (forall x :: x in b ==> NamedIn(x, a))
  }

  ghost predicate NamedIn(x: string, values: seq<string>) {
    exists y :: y in values && TrimSpace(y) == TrimSpace(x)
  }

  /** b differs from a only in ways that carry no meaning. */
  ghost predicate Variant(a: Input, b: Input) {
    && a.enabled == b.enabled
    && EqualUpToCase(TrimSpace(a.algorithm), TrimSpace(b.algorithm))
    && (a.issuer.None? <==> b.issuer.None?)
    && (a.issuer.Some? ==> TrimSpace(a.issuer.value) == TrimSpace(b.issuer.value))
    && SameAudiences(a.audiences, b.audiences)
    && TrimSpace(a.subjectClaim) == TrimSpace(b.subjectClaim)
    && TrimSpace(a.roleClaim) == TrimSpace(b.roleClaim)
    && TrimSpace(a.scopesClaim) == TrimSpace(b.scopesClaim)
    && a.clockSkewSeconds.GetOr(DEFAULT_CLOCK_SKEW) == b.clockSkewSeconds.GetOr(DEFAULT_CLOCK_SKEW)
  }

  ghost predicate EqualUpToCase(a: string, b: string) {
    |a| == |b| && forall i :: 0 <= i < |a| ==> UpperChar(a[i]) == UpperChar(b[i])
  }

  lemma NamedAudiences(a: seq<string>, b: seq<string>)
    requires forall x :: x in a ==> NamedIn(x, b)
    ensures AudienceSet(a) <= AudienceSet(b)
  {
    hide TrimSpace, NamedIn;
    forall x | x in AudienceSet(a)
      ensures x in AudienceSet(b)
    {
      var u :| u in a && TrimSpace(u) != "" && TrimSpace(u) == x;
      NameOf(u, b);
    }
  }

  lemma NameOf(x: string, values: seq<string>)
    requires NamedIn(x, values)
    ensures TrimSpace(x) == "" || TrimSpace(x) in AudienceSet(values)
    ensures (forall y :: y in values ==> !AudienceTooLong(y)) ==> !AudienceTooLong(x)
  {
    hide TrimSpace, ByteLen;
    var y :| y in values && TrimSpace(y) == TrimSpace(x);
  }

  lemma VariantsMeanTheSame(a: Input, b: Input)
    requires Variant(a, b)
    ensures MeaningOf(a) == MeaningOf(b)
  {
    hide TrimSpace, AudienceSet, NamedIn;
    assert ToUpper(TrimSpace(a.algorithm)) == ToUpper(TrimSpace(b.algorithm));
    NamedAudiences(a.audiences, b.audiences);
    NamedAudiences(b.audiences, a.audiences);
  }

  /** A variant without a secret and with at most 20 audiences is accepted when the original is. */
  lemma VariantsAreAccepted(a: Input, b: Input)
    requires Variant(a, b) && Normalize(a).Some?
    requires b.secret == "" && |b.audiences| <= MAX_AUDIENCES
    ensures Normalize(b).Some?
  {
    hide TrimSpace, ByteLen, Kept, ValidClaimName, NamedIn, AudienceTooLong;
    assert ToUpper(TrimSpace(a.algorithm)) == ToUpper(TrimSpace(b.algorithm));
    forall v | v in b.audiences
      ensures !AudienceTooLong(v)
    {
      NameOf(v, a.audiences);
    }
    assert Audiences(b.audiences).Some?;
    hide Audiences, ToUpper, AcceptableSecret, SameAudiences;
  }
}
