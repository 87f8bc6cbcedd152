/** Values shared by the parsers, the services and the repositories. */
module Domain {
  import Sums
  import Text

  datatype Option<+T> = None | Some(value: T)

  datatype Result<+T> = Ok(value: T) | Err(error: Error)

  datatype Error =
    | Required(field: string)
    | InvalidProviderName
    | InvalidUsageSource
    | InvalidBillingMode
    | InvalidMetadata
    | InvalidTimestamp(field: string)
    | InvalidTimeRange(field: string)
    | InvalidThreshold(field: string)
    | InvalidSeverity
    | NegativeTokens
    | NegativeCost(field: string)
    | RepositoryFailure

  /** Nanoseconds since the zero time, 1 January of year 1, UTC. */
  type Time = int

  const ZERO_TIME: Time := 0
  const SECOND: int := 1_000_000_000
  const DAY: int := 86_400 * SECOND

  /** Midnight before a time. */
  function Day(t: Time): Time {
    t / DAY * DAY
  }

  // ------------------------------------------------------------------ tokens and costs

  datatype Tokens = Tokens(input: int, output: int, cacheRead: int, cacheWrite: int, total: int)
  {
    predicate NonNegative() {
      input >= 0 && output >= 0 && cacheRead >= 0 && cacheWrite >= 0
    }
    predicate Balanced() {
      total == input + output + cacheRead + cacheWrite
    }
    /** What NewTokenUsage accepts and returns. */
    predicate Valid() {
      NonNegative() && Balanced()
    }
  }

  const NO_TOKENS := Tokens(0, 0, 0, 0, 0)

  function AddTokens(a: Tokens, b: Tokens): Tokens {
    Tokens(a.input + b.input, a.output + b.output, a.cacheRead + b.cacheRead, a.cacheWrite + b.cacheWrite,
           a.total + b.total)
  }

  const TOKENS := Sums.Adder(NO_TOKENS, AddTokens)

  lemma TokensAdd()
    ensures Sums.Lawful(TOKENS)
  {
  }

  function NewTokens(input: int, output: int, cacheRead: int, cacheWrite: int): (r: Result<Tokens>)
    ensures r.Ok? <==> input >= 0 && output >= 0 && cacheRead >= 0 && cacheWrite >= 0
    ensures r.Ok? ==> r.value.Valid()
  {
    if input < 0 || output < 0 || cacheRead < 0 || cacheWrite < 0 then Err(NegativeTokens)
    else Ok(Tokens(input, output, cacheRead, cacheWrite, input + output + cacheRead + cacheWrite))
  }

  datatype Costs = Costs(input: real, output: real, cacheRead: real, cacheWrite: real, tool: real, flat: real,
                         total: real)
  {
    predicate NonNegative() {
      input >= 0.0 && output >= 0.0 && cacheRead >= 0.0 && cacheWrite >= 0.0 && tool >= 0.0 && flat >= 0.0
    }
    predicate Balanced() {
      total == input + output + cacheRead + cacheWrite + tool + flat
    }
    predicate Valid() {
      NonNegative() && Balanced()
    }
  }

  const NO_COSTS := Costs(0.0, 0.0, 0.0, 0.0, 0.0, 0.0, 0.0)

  function AddCosts(a: Costs, b: Costs): Costs {
    Costs(a.input + b.input, a.output + b.output, a.cacheRead + b.cacheRead, a.cacheWrite + b.cacheWrite,
          a.tool + b.tool, a.flat + b.flat, a.total + b.total)
  }

  const COSTS := Sums.Adder(NO_COSTS, AddCosts)

  lemma CostsAdd()
    ensures Sums.Lawful(COSTS)
  {
  }

  function NewCosts(input: real, output: real, cacheRead: real, cacheWrite: real, tool: real, flat: real)
    : (r: Result<Costs>)
    ensures r.Ok? <==> input >= 0.0 && output >= 0.0 && cacheRead >= 0.0 && cacheWrite >= 0.0 && tool >= 0.0
                       && flat >= 0.0
    ensures r.Ok? ==> r.value.Valid()
  {
    if input < 0.0 || output < 0.0 || cacheRead < 0.0 || cacheWrite < 0.0 || tool < 0.0 || flat < 0.0
    then Err(NegativeCost("cost"))
    else Ok(Costs(input, output, cacheRead, cacheWrite, tool, flat,
                  input + output + cacheRead + cacheWrite + tool + flat))
  }

  // ------------------------------------------------------------------ providers, sources, billing modes

  predicate IsSlugChar(c: char) {
    'a' <= c <= 'z' || '0' <= c <= '9'
  }

  /** Groups of lower-case letters and digits, joined by single hyphens. */
  predicate IsSlug(s: string) {
    && s != "" && s[0] != '-' && s[|s| - 1] != '-'
    && (forall c <- s :: IsSlugChar(c) || c == '-')
    && forall i, j :: 0 <= i < |s| && j == i + 1 < |s| && s[i] == '-' ==> s[j] != '-'
  }

  function LowerChar(c: char): char {
    if 'A' <= c <= 'Z' then (c as int + 32) as char else c
  }

  function Lower(s: string): (r: string)
    ensures |r| == |s|
  {
    seq(|s|, i requires 0 <= i < |s| => LowerChar(s[i]))
  }

  function NewProviderName(raw: string): Result<string> {
    var name := Lower(Text.Trim(raw));
    if name == "" then Err(Required("provider"))
    else if IsSlug(name) then Ok(name)
    else Err(InvalidProviderName)
  }

  /** A provider name that was accepted once is accepted again, unchanged. */
  lemma SlugIsStable(raw: string)
    requires NewProviderName(raw).Ok?
    ensures NewProviderName(NewProviderName(raw).value) == NewProviderName(raw)
  {
    var name := Lower(Text.Trim(raw));
    assert !Text.IsSpace(name[0]) && !Text.IsSpace(name[|name| - 1]);
    assert Text.Trim(name) == name;
    assert Lower(name) == name;
  }

  datatype Source = UnsetSource | SubscriptionSource | ManualApi | OpenRouterSource | CliSession | UnknownSource
  {
    predicate IsValid() {
      SubscriptionSource? || ManualApi? || OpenRouterSource? || CliSession?
    }
  }

  datatype BillingMode = UnknownMode | SubscriptionMode | Byok | DirectApi | OpenRouterMode | UnsupportedMode
  {
    predicate IsValid() {
      !UnsupportedMode?
    }
  }

  /** validateUsageSourceBillingMode. */
  predicate ModeFitsSource(source: Source, mode: BillingMode) {
    match source
    case SubscriptionSource => mode == SubscriptionMode
    case ManualApi => mode == DirectApi
    case OpenRouterSource => mode == OpenRouterMode
    case CliSession => true
    case _ => false
  }

  // ------------------------------------------------------------------ entries and events

  datatype PricingRef = PricingRef(provider: string, modelId: string, lookupKey: string)

  datatype UsageEntry = UsageEntry(
    entryId: string,
    source: Source,
    provider: string,
    mode: BillingMode,
    occurredAt: Time,
    sessionId: string,
    externalId: string,
    project: string,
    agent: string,
    metadata: map<string, string>,
    pricing: Option<PricingRef>,
    tokens: Tokens,
    costs: Costs)

  /** normalizeUsageMetadata refuses a blank key or value. */
  predicate AcceptableMetadata(m: map<string, string>) {
    forall k <- m.Keys :: Text.Trim(k) != "" && Text.Trim(m[k]) != ""
  }

  /** NewUsageEntry; the trimming of metadata keys and values is left out. */
  function NewUsageEntry(e: UsageEntry): (r: Result<UsageEntry>) {
    if Text.Trim(e.entryId) == "" then Err(Required("entry_id"))
    else if !e.source.IsValid() then Err(InvalidUsageSource)
    else match NewProviderName(e.provider)
      case Err(x) => Err(x)
      case Ok(provider) =>
        if !e.mode.IsValid() then Err(InvalidBillingMode)
        else if e.occurredAt == ZERO_TIME then Err(InvalidTimestamp("occurred_at"))
        else if !ModeFitsSource(e.source, e.mode) then Err(InvalidBillingMode)
        else if !AcceptableMetadata(e.metadata) then Err(InvalidMetadata)
        else Ok(e.(provider := provider))
  }

  /** What a session parser hands to the normalizer; metadata stands for usageEntryMetadata of its tags. */
  datatype SessionEvent = SessionEvent(
    entryId: string,
    externalId: string,
    sessionId: string,
    occurredAt: Time,
    source: Source,
    provider: string,
    modeHint: BillingMode,
    project: string,
    agent: string,
    pricing: Option<PricingRef>,
    tokens: Tokens,
    costs: Costs,
    metadata: map<string, string>)
}
