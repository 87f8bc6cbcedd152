/** The session normalizer: a batch of parser events becomes usage entries and one summary a session. */
module Normalizer {
  import opened Domain
  import Sums
  import Text

  // ------------------------------------------------------------------ one event

  function SourceOrDefault(s: Source): Source {
    if s == UnsetSource then CliSession else s
  }

  function EntryOf(e: SessionEvent, mode: BillingMode): UsageEntry {
    UsageEntry(Text.Trim(e.entryId), SourceOrDefault(e.source), e.provider, mode, e.occurredAt,
               Text.Trim(e.sessionId), Text.Trim(e.externalId), Text.Trim(e.project), Text.Trim(e.agent),
               e.metadata, e.pricing, e.tokens, e.costs)
  }

  function NormalizeIncoming(e: SessionEvent): Result<SessionEvent> {
    if Text.Trim(e.sessionId) == "" then Err(Required("session_id"))
    else if Text.Trim(e.entryId) == "" then Err(Required("entry_id"))
    else match NewUsageEntry(EntryOf(e, UnknownMode))
      case Err(x) => Err(x)
      case Ok(_) => Ok(Trimmed(e))
  }

  function Trimmed(e: SessionEvent): SessionEvent {
    e.(entryId := Text.Trim(e.entryId), sessionId := Text.Trim(e.sessionId), externalId := Text.Trim(e.externalId),
       project := Text.Trim(e.project), agent := Text.Trim(e.agent), source := SourceOrDefault(e.source))
  }

  function Canonical(mode: BillingMode): BillingMode {
    match mode
    case SubscriptionMode => SubscriptionMode
    case Byok | DirectApi | OpenRouterMode => Byok
    case _ => UnknownMode
  }

  function NormalizeEvent(e: SessionEvent, sessionMode: BillingMode): Result<UsageEntry> {
    NewUsageEntry(EntryOf(e, Canonical(sessionMode)))
  }

  // ------------------------------------------------------------------ one session

  datatype Aggregate = Aggregate(
    source: Source, provider: string, startedAt: Time, endedAt: Time, project: string, agent: string,
    pricing: Option<PricingRef>, tokens: Tokens, costs: Costs, events: seq<SessionEvent>, modes: set<BillingMode>)

  function HintOf(e: SessionEvent): set<BillingMode> {
    if Canonical(e.modeHint) == UnknownMode then {} else {Canonical(e.modeHint)}
  }

  function FirstAggregate(e: SessionEvent): Aggregate {
    Aggregate(e.source, e.provider, e.occurredAt, e.occurredAt, e.project, e.agent, e.pricing, e.tokens, e.costs,
              [e], HintOf(e))
  }

  function MergeTokens(a: Tokens, b: Tokens): Result<Tokens> {
    NewTokens(a.input + b.input, a.output + b.output, a.cacheRead + b.cacheRead, a.cacheWrite + b.cacheWrite)
  }

  function MergeCosts(a: Costs, b: Costs): Result<Costs> {
    NewCosts(a.input + b.input, a.output + b.output, a.cacheRead + b.cacheRead, a.cacheWrite + b.cacheWrite,
             a.tool + b.tool, a.flat + b.flat)
  }

  /** The fields a later event of the session changes before its tokens and costs are merged. */
  function Extended(a: Aggregate, e: SessionEvent): Aggregate {
    a.(startedAt := if e.occurredAt < a.startedAt then e.occurredAt else a.startedAt,
       endedAt := if e.occurredAt > a.endedAt then e.occurredAt else a.endedAt,
       project := if Text.Trim(e.project) != "" then Text.Trim(e.project) else a.project,
       agent := if Text.Trim(e.agent) != "" then Text.Trim(e.agent) else a.agent,
       pricing := if e.pricing.Some? then e.pricing else a.pricing,
       provider := e.provider,
       events := a.events + [e],
       modes := a.modes + HintOf(e))
  }

  datatype SessionSummary = SessionSummary(
    sessionId: string, source: Source, provider: string, mode: BillingMode, startedAt: Time, endedAt: Time,
    project: string, agent: string, pricing: Option<PricingRef>, tokens: Tokens, costs: Costs)

  function NewSessionSummary(s: SessionSummary): Result<SessionSummary> {
    if Text.Trim(s.sessionId) == "" then Err(Required("session_id"))
    else if !s.source.IsValid() then Err(InvalidUsageSource)
    else match NewProviderName(s.provider)
      case Err(x) => Err(x)
      case Ok(provider) =>
        if !s.mode.IsValid() then Err(InvalidBillingMode)
        else if s.startedAt == ZERO_TIME then Err(InvalidTimestamp("started_at"))
        else if s.endedAt == ZERO_TIME then Err(InvalidTimestamp("ended_at"))
        else if s.endedAt < s.startedAt then Err(InvalidTimeRange("ended_at"))
        else if !ModeFitsSource(s.source, s.mode) then Err(InvalidBillingMode)
        else Ok(s.(provider := provider))
  }

  /** Exactly these summaries are accepted. */
  lemma SummaryAcceptedIff(s: SessionSummary)
    ensures NewSessionSummary(s).Ok? <==>
      && Text.Trim(s.sessionId) != "" && NewProviderName(s.provider).Ok?
      && s.startedAt != 0 && s.endedAt != 0 && s.startedAt <= s.endedAt
      && (|| (s.source == SubscriptionSource && s.mode == SubscriptionMode)
          || (s.source == ManualApi && s.mode == DirectApi)
          || (s.source == OpenRouterSource && s.mode == OpenRouterMode)
          || (s.source == CliSession && s.mode in {UnknownMode, SubscriptionMode, Byok, DirectApi, OpenRouterMode}))
    ensures NewSessionSummary(s).Ok? ==>
      NewSessionSummary(s).value == s.(provider := NewProviderName(s.provider).value)
  {
    hide Text.Trim, NewProviderName;
  }

  /** The only canonical mode the session hinted at; none or two leave it unknown. */
  function ResolveMode(modes: set<BillingMode>): BillingMode {
    if modes == {SubscriptionMode} then SubscriptionMode
    else if modes == {Byok} then Byok
    else UnknownMode
  }

  // ------------------------------------------------------------------ what a session's summary is

  function SessionIdOf(e: SessionEvent): string { e.sessionId }

  function TokensOf(e: SessionEvent): Tokens { e.tokens }

  function CostsOf(e: SessionEvent): Costs { e.costs }

  /** The events of one session, in order; sessions are told apart by the untrimmed id. */
  function Session(events: seq<SessionEvent>, id: string): seq<SessionEvent> {
    Sums.Group(events, SessionIdOf, id)
  }

  function SessionIds(events: seq<SessionEvent>): set<string> {
    set e <- events :: e.sessionId
  }

  function SumTokens(es: seq<SessionEvent>): Tokens {
    Sums.Sum(TOKENS, es, TokensOf)
  }

  function SumCosts(es: seq<SessionEvent>): Costs {
    Sums.Sum(COSTS, es, CostsOf)
  }

  function TrimAll(es: seq<SessionEvent>): (r: seq<SessionEvent>)
    ensures |r| == |es|
  {
    seq(|es|, i requires 0 <= i < |es| => Trimmed(es[i]))
  }

  function Hints(es: seq<SessionEvent>): set<BillingMode> {
    set e, m | e in es && m in HintOf(e) :: m
  }

  ghost predicate IsRange(lo: Time, hi: Time, es: seq<SessionEvent>) {
    && (forall e <- es :: lo <= e.occurredAt <= hi)
    && (exists e <- es :: e.occurredAt == lo)
    && (exists e <- es :: e.occurredAt == hi)
  }

  /** The last name that is not blank. */
  function LastName(names: seq<string>): string {
    if names == [] then ""
    else
      var name := Text.Trim(names[|names| - 1]);
      if name != "" then name else LastName(names[..|names| - 1])
  }

  function Projects(es: seq<SessionEvent>): seq<string> {
    seq(|es|, i requires 0 <= i < |es| => es[i].project)
  }

  function Agents(es: seq<SessionEvent>): seq<string> {
    seq(|es|, i requires 0 <= i < |es| => es[i].agent)
  }

  function LastPricing(es: seq<SessionEvent>): Option<PricingRef> {
    if es == [] then None
    else if es[|es| - 1].pricing.Some? then es[|es| - 1].pricing
    else LastPricing(es[..|es| - 1])
  }

  /** The sums agree dimension by dimension; the totals do when the events' own totals are right. */
  predicate SameTokens(a: Tokens, sum: Tokens) {
    a.(total := 0) == sum.(total := 0) && (sum.Balanced() ==> a == sum)
  }

  predicate SameCosts(a: Costs, sum: Costs) {
    a.(total := 0.0) == sum.(total := 0.0) && (sum.Balanced() ==> a == sum)
  }

  ghost predicate Summarizes(a: Aggregate, es: seq<SessionEvent>) {
    && es != []
    && a.events == TrimAll(es)
    && IsRange(a.startedAt, a.endedAt, es)
    && SameTokens(a.tokens, SumTokens(es)) && SameCosts(a.costs, SumCosts(es))
    && a.modes == Hints(es)
    && a.source == SourceOrDefault(es[0].source)
    && a.provider == es[|es| - 1].provider
    && a.project == LastName(Projects(es)) && a.agent == LastName(Agents(es))
    && a.pricing == LastPricing(es)
  }

  /** No merge meets a negative running sum. */
  predicate MergesFit(es: seq<SessionEvent>) {
    forall n :: 2 <= n <= |es| ==> SumTokens(es[..n]).NonNegative() && SumCosts(es[..n]).NonNegative()
  }

  /** The batches Normalize accepts: every event is, and every session's sums stay non-negative. */
  predicate Acceptable(events: seq<SessionEvent>) {
    && (forall e <- events :: NormalizeIncoming(e).Ok?)
    && (forall id <- SessionIds(events) :: MergesFit(Session(events, id)))
  }

  // ------------------------------------------------------------------ what a batch becomes

  function Mode(events: seq<SessionEvent>, id: string): BillingMode {
    ResolveMode(Hints(Session(events, id)))
  }

  /** The entry of one event; blank names are taken from the session. */
  function EntryIn(events: seq<SessionEvent>, e: SessionEvent): UsageEntry {
    var es := Session(events, e.sessionId);
    var entry := EntryOf(e, Mode(events, e.sessionId));
    entry.(provider := Lower(Text.Trim(e.provider)),
           project := if entry.project == "" then LastName(Projects(es)) else entry.project,
           agent := if entry.agent == "" then LastName(Agents(es)) else entry.agent)
  }

  /** The entries of the events of some sessions, in event order. */
  function EntriesIn(events: seq<SessionEvent>, part: seq<SessionEvent>, ids: set<string>): seq<UsageEntry> {
    if part == [] then []
    else
      var e := part[|part| - 1];
      EntriesIn(events, part[..|part| - 1], ids) + if e.sessionId in ids then [EntryIn(events, e)] else []
  }

  ghost predicate SummaryIn(events: seq<SessionEvent>, s: SessionSummary) {
    var es := Session(events, s.sessionId);
    && es != []
    && s.source == CliSession
    && s.mode == Mode(events, s.sessionId)
    && IsRange(s.startedAt, s.endedAt, es)
    && SameTokens(s.tokens, SumTokens(es)) && SameCosts(s.costs, SumCosts(es))
    && s.provider == Lower(Text.Trim(es[|es| - 1].provider))
    && s.project == LastName(Projects(es)) && s.agent == LastName(Agents(es))
    && s.pricing == LastPricing(es)
  }

  datatype Batch = Batch(entries: seq<UsageEntry>, sessions: seq<SessionSummary>)

  /** One entry an event and one summary a session, each in any order. */
  ghost predicate IsBatch(events: seq<SessionEvent>, b: Batch) {
    && multiset(b.entries) == multiset(EntriesIn(events, events, SessionIds(events)))
    && SummariesOf(events, b.sessions, SessionIds(events))
  }

  ghost predicate SummariesOf(events: seq<SessionEvent>, sessions: seq<SessionSummary>, ids: set<string>) {
    && (set s <- sessions :: s.sessionId) == ids
    && (forall i, j :: 0 <= i < j < |sessions| ==> sessions[i].sessionId != sessions[j].sessionId)
    && (forall s <- sessions :: SummaryIn(events, s))
  }

  /** The usage table after an upsert keyed by entry id. */
  function Upsert(table: map<string, UsageEntry>, entries: seq<UsageEntry>): map<string, UsageEntry>
    decreases |entries|
  {
    if entries == [] then table else Upsert(table[entries[0].entryId := entries[0]], entries[1..])
  }

  function UpsertSessions(table: map<string, SessionSummary>, sessions: seq<SessionSummary>)
    : map<string, SessionSummary>
    decreases |sessions|
  {
    if sessions == [] then table else UpsertSessions(table[sessions[0].sessionId := sessions[0]], sessions[1..])
  }

  // ------------------------------------------------------------------ collecting the sessions of a batch

  ghost predicate Aggregated(events: seq<SessionEvent>, aggs: map<string, Aggregate>) {
    && aggs.Keys == SessionIds(events)
    && (forall e <- events :: NormalizeIncoming(e).Ok?)
    && (forall id <- aggs.Keys :: Summarizes(aggs[id], Session(events, id)) && MergesFit(Session(events, id)))
  }

  method CollectSessions(events: seq<SessionEvent>) returns (r: Result<map<string, Aggregate>>)
    ensures r.Ok? <==> Acceptable(events)
    ensures r.Ok? ==> Aggregated(events, r.value) && r.value.Keys == SessionIds(events)
  {
    hide *;
    var aggs: map<string, Aggregate> := map[];
    NothingAggregated(events);
    for i := 0 to |events|
      invariant Aggregated(events[..i], aggs)
    {
      var e := events[i];
      assert events[..i + 1] == events[..i] + [e];
      match NormalizeIncoming(e) {
        case Err(x) =>
          EventRefused(events, i);
          return Err(x);
        case Ok(validated) =>
          IncomingIsTrimmed(e);
          AggregatedMembers(events[..i], aggs, e.sessionId);
          if e.sessionId !in aggs {
            AggregatedFirst(events[..i], e, aggs);
            aggs := aggs[e.sessionId := FirstAggregate(validated)];
          } else {
            var agg := aggs[e.sessionId];
            var tokens := MergeTokens(agg.tokens, validated.tokens);
            var costs := MergeCosts(agg.costs, validated.costs);
            MergesAgree(Session(events[..i], e.sessionId), agg, e);
            if tokens.Err? {
              MergeRefused(events, i);
              return Err(tokens.error);
            }
            if costs.Err? {
              MergeRefused(events, i);
              return Err(costs.error);
            }
            AggregatedNext(events[..i], e, aggs, tokens.value, costs.value);
            aggs := aggs[e.sessionId := Extended(agg, validated).(tokens := tokens.value, costs := costs.value)];
          }
      }
    }
    assert events[..|events|] == events;
    AggregatedIsAcceptable(events, aggs);
    return Ok(aggs);
  }

  lemma NothingAggregated(events: seq<SessionEvent>)
    ensures Aggregated(events[..0], map[])
  {
  }

  lemma AggregatedIsAcceptable(events: seq<SessionEvent>, aggs: map<string, Aggregate>)
    requires Aggregated(events, aggs)
    ensures Acceptable(events) && aggs.Keys == SessionIds(events)
  {
    hide MergesFit, NormalizeIncoming, Session, Summarizes;
  }

  lemma AggregatedMembers(events: seq<SessionEvent>, aggs: map<string, Aggregate>, id: string)
    requires Aggregated(events, aggs)
    ensures id in aggs ==> Summarizes(aggs[id], Session(events, id)) && Session(events, id) != []
    ensures id !in aggs ==> Session(events, id) == []
  {
    hide MergesFit, NormalizeIncoming, Session;
    NoSession(events, id);
  }

  lemma IncomingIsTrimmed(e: SessionEvent)
    ensures NormalizeIncoming(e).Ok? ==> NormalizeIncoming(e) == Ok(Trimmed(e))
    ensures Trimmed(e).tokens == e.tokens && Trimmed(e).costs == e.costs
  {
    hide NewUsageEntry, Text.Trim, EntryOf;
  }

  lemma EventRefused(events: seq<SessionEvent>, i: nat)
    requires i < |events| && NormalizeIncoming(events[i]).Err?
    ensures !Acceptable(events)
  {
    hide NormalizeIncoming, MergesFit, Session;
    assert events[i] in events;
  }

  lemma SessionStep(events: seq<SessionEvent>, e: SessionEvent, id: string)
    ensures Session(events + [e], id) == Session(events, id) + if e.sessionId == id then [e] else []
    ensures SessionIds(events + [e]) == SessionIds(events) + {e.sessionId}
  {
    assert (events + [e])[..|events|] == events;
  }

  lemma {:induction false} NoSession(events: seq<SessionEvent>, id: string)
    ensures Session(events, id) == [] <==> id !in SessionIds(events)
    ensures forall e <- Session(events, id) :: e in events && e.sessionId == id
  {
    if events != [] {
      var n := |events| - 1;
      NoSession(events[..n], id);
      SessionStep(events[..n], events[n], id);
      assert events == events[..n] + [events[n]];
    }
  }

  /** The sums and names of a session after one more event. */
  lemma SumsStep(es: seq<SessionEvent>, e: SessionEvent)
    ensures SumTokens(es + [e]) == AddTokens(SumTokens(es), e.tokens)
    ensures SumCosts(es + [e]) == AddCosts(SumCosts(es), e.costs)
    ensures Hints(es + [e]) == Hints(es) + HintOf(e)
    ensures LastName(Projects(es + [e]))
         == if Text.Trim(e.project) != "" then Text.Trim(e.project) else LastName(Projects(es))
    ensures LastName(Agents(es + [e]))
         == if Text.Trim(e.agent) != "" then Text.Trim(e.agent) else LastName(Agents(es))
    ensures LastPricing(es + [e]) == if e.pricing.Some? then e.pricing else LastPricing(es)
    ensures TrimAll(es + [e]) == TrimAll(es) + [Trimmed(e)]
  {
    hide Text.Trim, Hints, LastName, HintOf;
    assert (es + [e])[..|es|] == es;
    assert Projects(es + [e]) == Projects(es) + [e.project];
    assert Agents(es + [e]) == Agents(es) + [e.agent];
    LastNameStep(Projects(es), e.project);
    LastNameStep(Agents(es), e.agent);
    HintsStep(es, e);
  }

  lemma LastNameStep(names: seq<string>, name: string)
    ensures LastName(names + [name]) == if Text.Trim(name) != "" then Text.Trim(name) else LastName(names)
  {
    hide Text.Trim;
    assert (names + [name])[..|names|] == names;
  }

  lemma HintsStep(es: seq<SessionEvent>, e: SessionEvent)
    ensures Hints(es + [e]) == Hints(es) + HintOf(e)
  {
    var all := es + [e];
    assert forall x <- es :: x in all;
    assert e in all;
  }

  lemma MergesFitStep(es: seq<SessionEvent>, e: SessionEvent)
    requires MergesFit(es)
    ensures MergesFit(es + [e]) <==>
      es == [] || (SumTokens(es + [e]).NonNegative() && SumCosts(es + [e]).NonNegative())
  {
    var all := es + [e];
    assert forall n :: 0 <= n <= |es| ==> all[..n] == es[..n];
    assert all[..|all|] == all;
  }

  /** The merge of a session's sums with a further event is accepted exactly when the new sums are non-negative. */
  lemma MergesAgree(es: seq<SessionEvent>, a: Aggregate, e: SessionEvent)
    requires Summarizes(a, es)
    ensures MergeTokens(a.tokens, e.tokens).Ok? <==> SumTokens(es + [e]).NonNegative()
    ensures MergeCosts(a.costs, e.costs).Ok? <==> SumCosts(es + [e]).NonNegative()
  {
    hide *;
    SumsStep(es, e);
    SameSums(a, es);
    TokensAgree(a.tokens, SumTokens(es), e.tokens);
    CostsAgree(a.costs, SumCosts(es), e.costs);
  }

  lemma SameSums(a: Aggregate, es: seq<SessionEvent>)
    requires Summarizes(a, es)
    ensures SameTokens(a.tokens, SumTokens(es)) && SameCosts(a.costs, SumCosts(es))
  {
    hide SumTokens, SumCosts, SameTokens, SameCosts, IsRange, TrimAll, Hints, LastName, LastPricing;
  }

  lemma TokensAgree(a: Tokens, sum: Tokens, b: Tokens)
    requires SameTokens(a, sum)
    ensures MergeTokens(a, b).Ok? <==> AddTokens(sum, b).NonNegative()
  {
  }

  lemma CostsAgree(a: Costs, sum: Costs, b: Costs)
    requires SameCosts(a, sum)
    ensures MergeCosts(a, b).Ok? <==> AddCosts(sum, b).NonNegative()
  {
  }

  lemma FirstSummarizes(e: SessionEvent)
    ensures Summarizes(FirstAggregate(Trimmed(e)), [e])
  {
    hide SumTokens, SumCosts, Hints, LastName, LastPricing, TrimAll, IsRange, Projects, Agents, Text.Trim, HintOf,
         SameTokens, SameCosts;
    SumsOfOne(e);
    RangeOfOne(e);
    Text.TrimIdempotent(e.project);
    Text.TrimIdempotent(e.agent);
    SameHint(e);
    SameTokensRefl(e.tokens);
    SameCostsRefl(e.costs);
  }

  lemma RangeOfOne(e: SessionEvent)
    ensures IsRange(e.occurredAt, e.occurredAt, [e])
  {
    assert e in [e];
  }

  lemma SumsOfOne(e: SessionEvent)
    ensures SumTokens([e]) == e.tokens && SumCosts([e]) == e.costs && Hints([e]) == HintOf(e)
    ensures LastName(Projects([e])) == Text.Trim(e.project) && LastName(Agents([e])) == Text.Trim(e.agent)
    ensures LastPricing([e]) == e.pricing && TrimAll([e]) == [Trimmed(e)]
  {
    hide Text.Trim, HintOf;
    SumsStep([], e);
    assert [] + [e] == [e];
    assert Hints([]) == {};
  }

  lemma SameTokensRefl(t: Tokens)
    ensures SameTokens(t, t)
  {
  }

  lemma SameCostsRefl(c: Costs)
    ensures SameCosts(c, c)
  {
  }

  lemma NextSummarizes(es: seq<SessionEvent>, a: Aggregate, e: SessionEvent, tokens: Tokens, costs: Costs)
    requires Summarizes(a, es)
    requires MergeTokens(a.tokens, e.tokens) == Ok(tokens) && MergeCosts(a.costs, e.costs) == Ok(costs)
    ensures Summarizes(Extended(a, Trimmed(e)).(tokens := tokens, costs := costs), es + [e])
  {
    hide SumTokens, SumCosts, Hints, LastName, LastPricing, TrimAll, IsRange, Projects, Agents, Text.Trim, HintOf,
         SameTokens, SameCosts, MergeTokens, MergeCosts;
    SumsStep(es, e);
    Text.TrimIdempotent(e.project);
    Text.TrimIdempotent(e.agent);
    RangeStep(a.startedAt, a.endedAt, es, e);
    TokensStep(a.tokens, SumTokens(es), e.tokens);
    CostsStep(a.costs, SumCosts(es), e.costs);
    SameHint(e);
  }

  lemma SameHint(e: SessionEvent)
    ensures HintOf(Trimmed(e)) == HintOf(e)
  {
  }

  lemma TokensStep(a: Tokens, sum: Tokens, b: Tokens)
    requires SameTokens(a, sum) && MergeTokens(a, b).Ok?
    ensures SameTokens(MergeTokens(a, b).value, AddTokens(sum, b))
  {
  }

  lemma CostsStep(a: Costs, sum: Costs, b: Costs)
    requires SameCosts(a, sum) && MergeCosts(a, b).Ok?
    ensures SameCosts(MergeCosts(a, b).value, AddCosts(sum, b))
  {
  }

  lemma RangeStep(lo: Time, hi: Time, es: seq<SessionEvent>, e: SessionEvent)
    requires IsRange(lo, hi, es)
    ensures var t := e.occurredAt;
      IsRange(if t < lo then t else lo, if t > hi then t else hi, es + [e])
  {
    var all := es + [e];
    var x :| x in es && x.occurredAt == lo;
    var y :| y in es && y.occurredAt == hi;
    assert x in all && y in all && e in all;
  }

  lemma AggregatedStep(events: seq<SessionEvent>, e: SessionEvent, aggs: map<string, Aggregate>, agg: Aggregate)
    requires Aggregated(events, aggs) && NormalizeIncoming(e).Ok?
    requires Summarizes(agg, Session(events, e.sessionId) + [e]) && MergesFit(Session(events, e.sessionId) + [e])
    ensures Aggregated(events + [e], aggs[e.sessionId := agg])
  {
    hide Session, SessionIds, Summarizes, MergesFit, NormalizeIncoming;
    var aggs' := aggs[e.sessionId := agg];
    SessionStep(events, e, e.sessionId);
    forall id <- aggs'.Keys
      ensures Summarizes(aggs'[id], Session(events + [e], id)) && MergesFit(Session(events + [e], id))
    {
      SessionStep(events, e, id);
      assert Session(events, id) + [] == Session(events, id);
    }
    forall x <- events + [e]
      ensures NormalizeIncoming(x).Ok?
    {
    }
  }

  lemma AggregatedFirst(events: seq<SessionEvent>, e: SessionEvent, aggs: map<string, Aggregate>)
    requires Aggregated(events, aggs) && NormalizeIncoming(e).Ok? && e.sessionId !in aggs
    ensures Aggregated(events + [e], aggs[e.sessionId := FirstAggregate(Trimmed(e))])
  {
    hide *;
    AggregatedMembers(events, aggs, e.sessionId);
    assert [] + [e] == [e];
    FirstSummarizes(e);
    MergesFitOne(e);
    AggregatedStep(events, e, aggs, FirstAggregate(Trimmed(e)));
  }

  lemma MergesFitOne(e: SessionEvent)
    ensures MergesFit([e])
  {
  }

  lemma AggregatedNext(events: seq<SessionEvent>, e: SessionEvent, aggs: map<string, Aggregate>, tokens: Tokens,
                       costs: Costs)
    requires Aggregated(events, aggs) && NormalizeIncoming(e).Ok? && e.sessionId in aggs
    requires MergeTokens(aggs[e.sessionId].tokens, e.tokens) == Ok(tokens)
    requires MergeCosts(aggs[e.sessionId].costs, e.costs) == Ok(costs)
    ensures Aggregated(events + [e], aggs[e.sessionId := Extended(aggs[e.sessionId], Trimmed(e))
                                                         .(tokens := tokens, costs := costs)])
  {
    hide *;
    var a, es := aggs[e.sessionId], Session(events, e.sessionId);
    AggregatedMembers(events, aggs, e.sessionId);
    MergesFitNow(events, aggs, e.sessionId);
    NextSummarizes(es, a, e, tokens, costs);
    MergesFitStep(es, e);
    MergesAgree(es, a, e);
    AggregatedStep(events, e, aggs, Extended(a, Trimmed(e)).(tokens := tokens, costs := costs));
  }

  lemma MergesFitNow(events: seq<SessionEvent>, aggs: map<string, Aggregate>, id: string)
    requires Aggregated(events, aggs) && id in aggs
    ensures MergesFit(Session(events, id))
  {
    hide MergesFit, Session, Summarizes, NormalizeIncoming;
  }

  /** A prefix of the batch has a prefix of each session. */
  lemma {:induction false} SessionPrefix(events: seq<SessionEvent>, i: nat, id: string)
    requires i <= |events|
    ensures Session(events[..i], id) <= Session(events, id)
    decreases |events| - i
  {
    if i == |events| {
      assert events[..i] == events;
    } else {
      SessionPrefix(events, i + 1, id);
      assert events[..i + 1] == events[..i] + [events[i]];
      SessionStep(events[..i], events[i], id);
    }
  }

  /** A refused merge makes the whole batch unacceptable. */
  lemma MergeRefused(events: seq<SessionEvent>, i: nat)
    requires i < |events|
    requires var id := events[i].sessionId;
      && var es := Session(events[..i], id);
      && es != []
      && !(SumTokens(es + [events[i]]).NonNegative() && SumCosts(es + [events[i]]).NonNegative())
    ensures !Acceptable(events)
  {
    hide *;
    var id := events[i].sessionId;
    var es, all := Session(events[..i], id), Session(events, id);
    assert events[..i + 1] == events[..i] + [events[i]];
    SessionStep(events[..i], events[i], id);
    SessionPrefix(events, i + 1, id);
    MergeDoesNotFit(all, es, events[i]);
    SessionDoesNotFit(events, events[i]);
  }

  lemma MergeDoesNotFit(all: seq<SessionEvent>, es: seq<SessionEvent>, e: SessionEvent)
    requires es != [] && es + [e] <= all
    requires !(SumTokens(es + [e]).NonNegative() && SumCosts(es + [e]).NonNegative())
    ensures !MergesFit(all)
  {
    hide SumTokens, SumCosts;
    assert all[..|es| + 1] == es + [e];
  }

  lemma SessionDoesNotFit(events: seq<SessionEvent>, e: SessionEvent)
    requires e in events && !MergesFit(Session(events, e.sessionId))
    ensures !Acceptable(events)
  {
    hide MergesFit, Session;
    assert e.sessionId in SessionIds(events);
  }

  // ------------------------------------------------------------------ building one session

  /** The entries of some events of the batch. */
  function EntriesOf(events: seq<SessionEvent>, es: seq<SessionEvent>): (r: seq<UsageEntry>)
    ensures |r| == |es|
  {
    seq(|es|, i requires 0 <= i < |es| => EntryIn(events, es[i]))
  }

  method BuildSession(ghost events: seq<SessionEvent>, id: string, agg: Aggregate)
    returns (entries: seq<UsageEntry>, summary: SessionSummary)
    requires Acceptable(events) && id in SessionIds(events) && Summarizes(agg, Session(events, id))
    ensures entries == EntriesOf(events, Session(events, id))
    ensures summary.sessionId == id && SummaryIn(events, summary)
  {
    hide *;
    ghost var es := Session(events, id);
    SessionIsAccepted(events, id, agg);
    var mode := ResolveMode(agg.modes);
    var projectName, agentName := Text.Trim(agg.project), Text.Trim(agg.agent);
    var provider := NewProviderName(Text.Trim(agg.provider));
    entries := [];
    assert EntriesOf(events, es[..0]) == [];
    for k := 0 to |agg.events|
      invariant entries == EntriesOf(events, es[..k])
    {
      EntriesOfStep(events, es, k);
      BuiltEntry(events, id, agg, k);
      match NormalizeEvent(agg.events[k], mode) {
        case Err(x) =>
          assert false;
        case Ok(built) =>
          var entry := built;
          if Text.Trim(entry.project) == "" {
            entry := entry.(project := projectName);
          }
          if Text.Trim(entry.agent) == "" {
            entry := entry.(agent := agentName);
          }
          entries := entries + [entry];
      }
    }
    assert es[..|es|] == es;
    var built := NewSessionSummary(SessionSummary(id, agg.source, provider.value, mode, agg.startedAt, agg.endedAt,
                                                  projectName, agentName, agg.pricing, agg.tokens, agg.costs));
    BuiltSummary(events, id, agg);
    summary := built.value;
  }

  lemma EntriesOfStep(events: seq<SessionEvent>, es: seq<SessionEvent>, k: nat)
    requires k < |es|
    ensures EntriesOf(events, es[..k + 1]) == EntriesOf(events, es[..k]) + [EntryIn(events, es[k])]
  {
    hide EntryIn;
  }

  lemma SessionIsAccepted(events: seq<SessionEvent>, id: string, agg: Aggregate)
    requires Acceptable(events) && id in SessionIds(events) && Summarizes(agg, Session(events, id))
    ensures forall e <- Session(events, id) :: NormalizeIncoming(e).Ok? && e.sessionId == id
    ensures |agg.events| == |Session(events, id)| > 0
    ensures NewProviderName(Text.Trim(agg.provider)).Ok?
  {
    hide NormalizeIncoming, Session, MergesFit, Text.Trim, NewProviderName;
    NoSession(events, id);
    var es := Session(events, id);
    EventIsAccepted(es[|es| - 1], UnknownMode);
  }

  /** Filling the blank names of a normalized event from the session gives the entry the batch calls for. */
  lemma BuiltEntry(events: seq<SessionEvent>, id: string, agg: Aggregate, k: nat)
    requires Acceptable(events) && id in SessionIds(events) && Summarizes(agg, Session(events, id))
    requires k < |agg.events|
    ensures var r := NormalizeEvent(agg.events[k], ResolveMode(agg.modes));
      && r.Ok?
      && var named := if Text.Trim(r.value.project) == "" then r.value.(project := Text.Trim(agg.project))
                      else r.value;
         EntryIn(events, Session(events, id)[k])
         == if Text.Trim(named.agent) == "" then named.(agent := Text.Trim(agg.agent)) else named
  {
    hide NormalizeIncoming, MergesFit, Text.Trim, NormalizeEvent, Lower, Session, Hints, LastName, Projects, Agents,
         ResolveMode, SumTokens, SumCosts, LastPricing, IsRange;
    SessionIsAccepted(events, id, agg);
    var es := Session(events, id);
    var e, mode := es[k], ResolveMode(agg.modes);
    assert e in es;
    EventIsAccepted(e, mode);
    ResolvedIsCanonical(agg.modes);
    NameIsTrimmed(Projects(es));
    NameIsTrimmed(Agents(es));
    Text.TrimIdempotent(e.project);
    Text.TrimIdempotent(e.agent);
  }

  lemma ResolvedIsCanonical(modes: set<BillingMode>)
    ensures Canonical(ResolveMode(modes)) == ResolveMode(modes) && ResolveMode(modes).IsValid()
  {
  }

  /** The session's summary is never refused. */
  lemma BuiltSummary(events: seq<SessionEvent>, id: string, agg: Aggregate)
    requires Acceptable(events) && id in SessionIds(events) && Summarizes(agg, Session(events, id))
    ensures NewProviderName(Text.Trim(agg.provider)).Ok?
    ensures var r := NewSessionSummary(SessionSummary(
        id, agg.source, NewProviderName(Text.Trim(agg.provider)).value, ResolveMode(agg.modes), agg.startedAt,
        agg.endedAt, Text.Trim(agg.project), Text.Trim(agg.agent), agg.pricing, agg.tokens, agg.costs));
      r.Ok? && r.value.sessionId == id && SummaryIn(events, r.value)
  {
    hide NormalizeIncoming, MergesFit, Text.Trim, NormalizeEvent, Lower, Session, Hints, LastName, Projects, Agents,
         ResolveMode, SumTokens, SumCosts, LastPricing, NewProviderName, SameTokens, SameCosts;
    SessionIsAccepted(events, id, agg);
    var es := Session(events, id);
    forall e <- es
      ensures e.occurredAt != ZERO_TIME && SourceOrDefault(e.source) == CliSession && Text.Trim(id) != ""
    {
      EventIsAccepted(e, UnknownMode);
    }
    var last := es[|es| - 1];
    assert es[0] in es && last in es;
    EventIsAccepted(last, UnknownMode);
    SlugIsStable(Text.Trim(agg.provider));
    ResolvedIsCanonical(agg.modes);
    NameIsTrimmed(Projects(es));
    NameIsTrimmed(Agents(es));
  }

  lemma {:induction false} NameIsTrimmed(names: seq<string>)
    ensures Text.Trim(LastName(names)) == LastName(names)
  {
    if names != [] {
      Text.TrimIdempotent(names[|names| - 1]);
      NameIsTrimmed(names[..|names| - 1]);
    }
  }

  /** An accepted event becomes an entry under any session mode. */
  lemma EventIsAccepted(e: SessionEvent, mode: BillingMode)
    requires NormalizeIncoming(e).Ok?
    ensures NewProviderName(Text.Trim(e.provider)) == Ok(Lower(Text.Trim(e.provider)))
    ensures SourceOrDefault(e.source) == CliSession && e.occurredAt != ZERO_TIME && Text.Trim(e.sessionId) != ""
    ensures NormalizeEvent(Trimmed(e), mode)
         == Ok(EntryOf(e, Canonical(mode)).(provider := Lower(Text.Trim(e.provider))))
  {
    hide Text.Trim, Lower, IsSlug, AcceptableMetadata;
    Text.TrimIdempotent(e.provider);
    TrimmedEntry(e, Canonical(mode));
  }

  lemma TrimmedEntry(e: SessionEvent, mode: BillingMode)
    ensures EntryOf(Trimmed(e), mode) == EntryOf(e, mode)
  {
    hide Text.Trim;
    Text.TrimIdempotent(e.entryId);
    Text.TrimIdempotent(e.sessionId);
    Text.TrimIdempotent(e.externalId);
    Text.TrimIdempotent(e.project);
    Text.TrimIdempotent(e.agent);
  }

  // ------------------------------------------------------------------ the service

  class SessionNormalizer {
    var usage: map<string, UsageEntry>
    var sessions: map<string, SessionSummary>

    constructor ()
      ensures usage == map[] && sessions == map[]
    {
      usage, sessions := map[], map[];
    }

    /** The two flags are the failures of the two repository writes. */
    method Normalize(events: seq<SessionEvent>, sessionsFail: bool, usageFail: bool) returns (r: Result<Batch>)
      modifies this
      ensures events == [] ==> r == Ok(Batch([], [])) && usage == old(usage) && sessions == old(sessions)
      ensures events != [] ==> (r.Ok? <==> Acceptable(events) && !sessionsFail && !usageFail)
      ensures r.Ok? && events != [] ==>
        && IsBatch(events, r.value)
        && usage == Upsert(old(usage), r.value.entries)
        && sessions == UpsertSessions(old(sessions), r.value.sessions)
      ensures r.Err? ==> usage == old(usage)
      ensures !Acceptable(events) || sessionsFail ==> sessions == old(sessions)
      ensures Acceptable(events) && events != [] && !sessionsFail ==>
        exists ss :: SummariesOf(events, ss, SessionIds(events)) && sessions == UpsertSessions(old(sessions), ss)
    {
      hide Acceptable, Aggregated, EntriesIn, SummariesOf, EntriesOf, Session, SessionIds, Upsert, SummaryIn;
      if |events| == 0 {
        return Ok(Batch([], []));
      }
      var collected := CollectSessions(events);
      if collected.Err? {
        return Err(collected.error);
      }
      var aggs := collected.value;
      var entries: seq<UsageEntry> := [];
      var summaries: seq<SessionSummary> := [];
      var remaining := aggs.Keys;
      NoEntries(events, events);
      NoSummaries(events);
      assert SessionIds(events) - remaining == {};
      while remaining != {}
        invariant usage == old(usage) && sessions == old(sessions)
        invariant remaining <= SessionIds(events)
        invariant multiset(entries) == multiset(EntriesIn(events, events, SessionIds(events) - remaining))
        invariant SummariesOf(events, summaries, SessionIds(events) - remaining)
        decreases remaining
      {
        var id :| id in remaining;   // map iteration order
        AggregatedMembers(events, aggs, id);
        var built, summary := BuildSession(events, id, aggs[id]);
        ghost var done := SessionIds(events) - remaining;
        MoreEntries(events, events, done, id);
        MoreSummaries(events, summaries, done, summary);
        assert SessionIds(events) - (remaining - {id}) == done + {id};
        entries := entries + built;
        summaries := summaries + [summary];
        remaining := remaining - {id};
      }
      assert SessionIds(events) - {} == SessionIds(events);

      if sessionsFail {
        return Err(RepositoryFailure);
      }
      sessions := UpsertSessions(sessions, summaries);
      if usageFail {
        return Err(RepositoryFailure);
      }
      usage := Upsert(usage, entries);
      return Ok(Batch(entries, summaries));
    }
  }

  lemma NoSummaries(events: seq<SessionEvent>)
    ensures SummariesOf(events, [], {})
  {
  }

  lemma {:induction false} NoEntries(events: seq<SessionEvent>, part: seq<SessionEvent>)
    ensures EntriesIn(events, part, {}) == []
  {
    if part != [] {
      NoEntries(events, part[..|part| - 1]);
    }
  }

  /** Taking in one more session adds exactly its entries. */
  lemma {:induction false} MoreEntries(events: seq<SessionEvent>, part: seq<SessionEvent>, ids: set<string>, id: string)
    requires id !in ids
    ensures multiset(EntriesIn(events, part, ids + {id}))
         == multiset(EntriesIn(events, part, ids)) + multiset(EntriesOf(events, Session(part, id)))
  {
    hide EntryIn;
    if part != [] {
      var n := |part| - 1;
      MoreEntries(events, part[..n], ids, id);
      var es := Session(part[..n], id);
      assert EntriesOf(events, es + [part[n]]) == EntriesOf(events, es) + [EntryIn(events, part[n])];
      assert es + [] == es;
    }
  }

  lemma MoreSummaries(events: seq<SessionEvent>, ss: seq<SessionSummary>, ids: set<string>, s: SessionSummary)
    requires SummariesOf(events, ss, ids) && SummaryIn(events, s) && s.sessionId !in ids
    ensures SummariesOf(events, ss + [s], ids + {s.sessionId})
  {
    hide SummaryIn;
    var all := ss + [s];
    assert forall x <- ss :: x in all && x.sessionId in ids;
    assert s in all;
  }
}
