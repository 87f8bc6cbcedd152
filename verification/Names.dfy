/** Provider names, as groups of letters and digits joined by hyphens, and what the constructors of entries accept. */
module Names {
  import opened Domain
  import Text

  // ------------------------------------------------------------------ provider names

  predicate IsGroup(g: string) {
    g != "" && forall c <- g :: 'a' <= c <= 'z' || '0' <= c <= '9'
  }

  function Join(groups: seq<string>): string {
    if groups == [] then ""
    else if |groups| == 1 then groups[0]
    else groups[0] + "-" + Join(groups[1..])
  }

  ghost predicate AreGroups(groups: seq<string>, s: string) {
    groups != [] && (forall g <- groups :: IsGroup(g)) && Join(groups) == s
  }

  /** The pattern of provider names. */
  lemma SlugIff(s: string)
    ensures IsSlug(s) <==> exists groups :: AreGroups(groups, s)
  {
    if IsSlug(s) {
      var groups := Split(s);
      assert AreGroups(groups, s);
    }
    if groups :| AreGroups(groups, s) {
      JoinIsSlug(groups);
    }
  }

  lemma {:induction false} Split(s: string) returns (groups: seq<string>)
    requires IsSlug(s)
    ensures AreGroups(groups, s)
    decreases |s|
  {
    var k := 1;
    while k < |s| && s[k] != '-'
      invariant 1 <= k <= |s| && forall i :: 0 <= i < k ==> IsSlugChar(s[i])
    {
      k := k + 1;
    }
    if k == |s| {
      groups := [s];
    } else {
      var rest := s[k + 1..];
      RestIsSlug(s, k);
      var more := Split(rest);
      groups := [s[..k]] + more;
      assert s == s[..k] + "-" + rest;
    }
  }

  lemma RestIsSlug(s: string, k: nat)
    requires IsSlug(s) && 0 < k < |s| && s[k] == '-'
    ensures k + 1 < |s| && IsSlug(s[k + 1..])
  {
    assert s[k + 1] != '-';
    var rest := s[k + 1..];
    assert forall c <- rest :: c in s;
    assert forall i :: 0 <= i < |rest| ==> rest[i] == s[k + 1 + i];
  }

  lemma {:induction false} JoinIsSlug(groups: seq<string>)
    requires groups != [] && forall g <- groups :: IsGroup(g)
    ensures IsSlug(Join(groups))
  {
    var g := groups[0];
    assert IsGroup(g);
    assert forall i :: 0 <= i < |g| ==> g[i] in g;
    if |groups| > 1 {
      JoinIsSlug(groups[1..]);
      Joined(g, Join(groups[1..]));
    }
  }

  lemma Joined(g: string, rest: string)
    requires IsGroup(g) && IsSlug(rest)
    ensures IsSlug(g + "-" + rest)
  {
    var s := g + "-" + rest;
    assert forall i :: 0 <= i < |g| ==> s[i] == g[i] && g[i] in g;
    assert forall i :: |g| < i < |s| ==> s[i] == rest[i - |g| - 1] && rest[i - |g| - 1] in rest;
    forall c <- s
      ensures IsSlugChar(c) || c == '-'
    {
      var i :| 0 <= i < |s| && s[i] == c;
    }
  }

  const UPPER := "ABCDEFGHIJKLMNOPQRSTUVWXYZ"
  const LOWER := "abcdefghijklmnopqrstuvwxyz"

  /** Each capital letter has its small letter, and nothing else is changed. */
  lemma LowerPairs(c: char)
    ensures forall i :: 0 <= i < 26 ==> LowerChar(UPPER[i]) == LOWER[i]
    ensures c !in UPPER ==> LowerChar(c) == c
  {
    Letters();
    if 'A' <= c <= 'Z' {
      assert UPPER[c as int - 'A' as int] == c;
    }
  }

  lemma Letters()
    ensures |UPPER| == |LOWER| == 26
    ensures forall i :: 0 <= i < 26 ==> UPPER[i] as int == 65 + i && LOWER[i] as int == 97 + i
  {
  }

  /** A provider name is accepted when, trimmed and in lower case, it is such groups, and is stored like that. */
  lemma AcceptedNameIff(raw: string)
    ensures NewProviderName(raw).Ok? <==> exists groups :: AreGroups(groups, Lower(Text.Trim(raw)))
    ensures NewProviderName(raw).Ok? ==> NewProviderName(raw).value == Lower(Text.Trim(raw))
  {
    hide IsSlug, Lower, Text.Trim, AreGroups;
    SlugIff(Lower(Text.Trim(raw)));
    assert IsSlug(Lower(Text.Trim(raw))) ==> Lower(Text.Trim(raw)) != "" by {
      SlugIsSome(Lower(Text.Trim(raw)));
    }
  }

  lemma SlugIsSome(s: string)
    ensures IsSlug(s) ==> s != ""
  {
  }

  // ------------------------------------------------------------------ entries

  /** The pairs of source and billing mode that an entry may have. */
  lemma SourceAndMode(source: Source, mode: BillingMode)
    ensures source.IsValid() && mode.IsValid() && ModeFitsSource(source, mode) <==>
      || (source == SubscriptionSource && mode == SubscriptionMode)
      || (source == ManualApi && mode == DirectApi)
      || (source == OpenRouterSource && mode == OpenRouterMode)
      || (source == CliSession && mode in {UnknownMode, SubscriptionMode, Byok, DirectApi, OpenRouterMode})
  {
  }

  /** Exactly these entries are accepted, and nothing of them is changed but the provider's spelling. */
  lemma EntryAcceptedIff(e: UsageEntry)
    ensures NewUsageEntry(e).Ok? <==>
      && Text.Trim(e.entryId) != "" && e.occurredAt != ZERO_TIME
      && (exists groups :: AreGroups(groups, Lower(Text.Trim(e.provider))))
      && (|| (e.source == SubscriptionSource && e.mode == SubscriptionMode)
          || (e.source == ManualApi && e.mode == DirectApi)
          || (e.source == OpenRouterSource && e.mode == OpenRouterMode)
          || (e.source == CliSession && e.mode in {UnknownMode, SubscriptionMode, Byok, DirectApi, OpenRouterMode}))
      && (forall k <- e.metadata.Keys :: Text.Trim(k) != "" && Text.Trim(e.metadata[k]) != "")
    ensures NewUsageEntry(e).Ok? ==> NewUsageEntry(e).value == e.(provider := Lower(Text.Trim(e.provider)))
  {
    hide NewProviderName, Lower, Text.Trim, AreGroups, ModeFitsSource, Source.IsValid, BillingMode.IsValid;
    AcceptedNameIff(e.provider);
    SourceAndMode(e.source, e.mode);
  }
}
