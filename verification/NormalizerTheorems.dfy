/** What a normalized batch conserves, and what it does not depend on. */
module NormalizerTheorems {
  import opened Domain
  import opened Normalizer
  import Sums
  import Text

  // ------------------------------------------------------------------ conservation

  function EntryTokens(e: UsageEntry): Tokens { e.tokens }

  function EntryCosts(e: UsageEntry): Costs { e.costs }

  function SummaryTokens(s: SessionSummary): Tokens { s.tokens }

  function SummaryCosts(s: SessionSummary): Costs { s.costs }

  ghost predicate ValidAmounts(events: seq<SessionEvent>) {
    forall e <- events :: e.tokens.Valid() && e.costs.Valid()
  }

  /**
   * Nothing is lost or counted twice: the entries and the session summaries of a batch each add up to the
   * events, in every token and cost dimension, and there is one entry an event.
   */
  lemma BatchConserves(events: seq<SessionEvent>, b: Batch)
    requires IsBatch(events, b) && ValidAmounts(events)
    ensures |b.entries| == |events|
    ensures Sums.Sum(TOKENS, b.entries, EntryTokens) == SumTokens(events)
    ensures Sums.Sum(COSTS, b.entries, EntryCosts) == SumCosts(events)
    ensures Sums.Sum(TOKENS, b.sessions, SummaryTokens) == SumTokens(events)
    ensures Sums.Sum(COSTS, b.sessions, SummaryCosts) == SumCosts(events)
  {
    EntriesConserve(events, b);
    SessionsConserve(events, b);
  }

  lemma EntriesConserve(events: seq<SessionEvent>, b: Batch)
    requires IsBatch(events, b)
    ensures |b.entries| == |events|
    ensures Sums.Sum(TOKENS, b.entries, EntryTokens) == SumTokens(events)
    ensures Sums.Sum(COSTS, b.entries, EntryCosts) == SumCosts(events)
  {
    hide SummariesOf, EntriesIn, SumTokens, SumCosts, Sums.Sum, Sums.Lawful;
    TokensAdd();
    CostsAdd();
    var entries := EntriesIn(events, events, SessionIds(events));
    EveryEntry(events, events);
    assert |multiset(b.entries)| == |b.entries| && |multiset(entries)| == |entries|;
    Sums.SumPermuted(TOKENS, b.entries, entries, EntryTokens);
    Sums.SumPermuted(COSTS, b.entries, entries, EntryCosts);
  }

  lemma SessionsConserve(events: seq<SessionEvent>, b: Batch)
    requires IsBatch(events, b) && ValidAmounts(events)
    ensures Sums.Sum(TOKENS, b.sessions, SummaryTokens) == SumTokens(events)
    ensures Sums.Sum(COSTS, b.sessions, SummaryCosts) == SumCosts(events)
  {
    hide SummaryIn, EntriesIn, ValidAmounts, Sums.GroupSums, Sums.Lawful, Sums.Sum;
    TokensAdd();
    CostsAdd();
    IdsCover(events, b.sessions);
    Sums.GroupsConserve(TOKENS, events, TokensOf, SessionIdOf, Ids(b.sessions));
    Sums.GroupsConserve(COSTS, events, CostsOf, SessionIdOf, Ids(b.sessions));
    SummariesAreGroups(events, b.sessions);
  }

  lemma IdsCover(events: seq<SessionEvent>, ss: seq<SessionSummary>)
    requires SummariesOf(events, ss, SessionIds(events))
    ensures forall e <- events :: SessionIdOf(e) in Ids(ss)
    ensures Sums.Distinct(Ids(ss))
  {
    hide SummaryIn;
    forall e <- events
      ensures e.sessionId in Ids(ss)
    {
      assert e.sessionId in SessionIds(events);
      var s :| s in ss && s.sessionId == e.sessionId;
      var i :| 0 <= i < |ss| && ss[i] == s;
      assert Ids(ss)[i] == e.sessionId;
    }
  }

  function Ids(ss: seq<SessionSummary>): (ids: seq<string>)
    ensures |ids| == |ss|
    ensures forall i :: 0 <= i < |ss| ==> ids[i] == ss[i].sessionId
  {
    seq(|ss|, i requires 0 <= i < |ss| => ss[i].sessionId)
  }

  lemma {:induction false} EveryEntry(events: seq<SessionEvent>, part: seq<SessionEvent>)
    requires forall e <- part :: e in events
    ensures var entries := EntriesIn(events, part, SessionIds(events));
      && |entries| == |part|
      && Sums.Sum(TOKENS, entries, EntryTokens) == SumTokens(part)
      && Sums.Sum(COSTS, entries, EntryCosts) == SumCosts(part)
  {
    if part != [] {
      var n := |part| - 1;
      EveryEntry(events, part[..n]);
      var before, entry := EntriesIn(events, part[..n], SessionIds(events)), EntryIn(events, part[n]);
      assert part[n].sessionId in SessionIds(events);
      Sums.SumOne(TOKENS, before, entry, EntryTokens);
      Sums.SumOne(COSTS, before, entry, EntryCosts);
      EntryAmounts(events, part[n]);
    }
  }

  lemma EntryAmounts(events: seq<SessionEvent>, e: SessionEvent)
    ensures EntryIn(events, e).tokens == e.tokens && EntryIn(events, e).costs == e.costs
    ensures EntryIn(events, e).entryId == Text.Trim(e.entryId)
  {
  }

  lemma {:induction false} SummariesAreGroups(events: seq<SessionEvent>, ss: seq<SessionSummary>)
    requires ValidAmounts(events)
    requires forall s <- ss :: SummaryIn(events, s)
    ensures Sums.Sum(TOKENS, ss, SummaryTokens) == Sums.GroupSums(TOKENS, events, TokensOf, SessionIdOf, Ids(ss))
    ensures Sums.Sum(COSTS, ss, SummaryCosts) == Sums.GroupSums(COSTS, events, CostsOf, SessionIdOf, Ids(ss))
  {
    hide SummaryIn, ValidAmounts, Sums.Group, AddTokens, AddCosts;
    if ss == [] {
      assert Ids(ss) == [];
    } else {
      hide *;
      var n := |ss| - 1;
      SummariesAreGroups(events, ss[..n]);
      OneMoreSummary(events, ss[..n], ss[n]);
      assert ss == ss[..n] + [ss[n]];
    }
  }

  lemma OneMoreSummary(events: seq<SessionEvent>, ss: seq<SessionSummary>, s: SessionSummary)
    requires ValidAmounts(events) && SummaryIn(events, s)
    ensures Sums.Sum(TOKENS, ss + [s], SummaryTokens)
         == AddTokens(Sums.Sum(TOKENS, ss, SummaryTokens),
                      Sums.GroupSum(TOKENS, events, TokensOf, SessionIdOf, s.sessionId))
    ensures Sums.Sum(COSTS, ss + [s], SummaryCosts)
         == AddCosts(Sums.Sum(COSTS, ss, SummaryCosts), Sums.GroupSum(COSTS, events, CostsOf, SessionIdOf, s.sessionId))
    ensures Sums.GroupSums(TOKENS, events, TokensOf, SessionIdOf, Ids(ss + [s]))
         == AddTokens(Sums.GroupSums(TOKENS, events, TokensOf, SessionIdOf, Ids(ss)),
                      Sums.GroupSum(TOKENS, events, TokensOf, SessionIdOf, s.sessionId))
    ensures Sums.GroupSums(COSTS, events, CostsOf, SessionIdOf, Ids(ss + [s]))
         == AddCosts(Sums.GroupSums(COSTS, events, CostsOf, SessionIdOf, Ids(ss)),
                     Sums.GroupSum(COSTS, events, CostsOf, SessionIdOf, s.sessionId))
  {
    hide SummaryIn, ValidAmounts, Session, SumTokens, SumCosts, Sums.Sum, Sums.GroupSum, Sums.GroupSums, AddTokens,
         AddCosts;
    Sums.SumOne(TOKENS, ss, s, SummaryTokens);
    Sums.SumOne(COSTS, ss, s, SummaryCosts);
    SummaryAmounts(events, s);
    SessionSum(events, s.sessionId);
    assert Ids(ss + [s]) == Ids(ss) + [s.sessionId];
    Sums.GroupSumsStep(TOKENS, events, TokensOf, SessionIdOf, Ids(ss), s.sessionId);
    Sums.GroupSumsStep(COSTS, events, CostsOf, SessionIdOf, Ids(ss), s.sessionId);
  }

  lemma SessionSum(events: seq<SessionEvent>, id: string)
    ensures SumTokens(Session(events, id)) == Sums.GroupSum(TOKENS, events, TokensOf, SessionIdOf, id)
    ensures SumCosts(Session(events, id)) == Sums.GroupSum(COSTS, events, CostsOf, SessionIdOf, id)
  {
  }

  lemma SummaryAmounts(events: seq<SessionEvent>, s: SessionSummary)
    requires ValidAmounts(events) && SummaryIn(events, s)
    ensures s.tokens == SumTokens(Session(events, s.sessionId))
    ensures s.costs == SumCosts(Session(events, s.sessionId))
  {
    hide SumTokens, SumCosts, Session;
    NoSession(events, s.sessionId);
    ValidSums(Session(events, s.sessionId));
  }

  lemma {:induction false} ValidSums(es: seq<SessionEvent>)
    requires ValidAmounts(es)
    ensures SumTokens(es).Valid() && SumCosts(es).Valid()
  {
    if es != [] {
      ValidSums(es[..|es| - 1]);
    }
  }

  // ------------------------------------------------------------------ the order of events

  /**
   * The order in which a session's events arrive decides neither its sums, nor its time range, nor its billing
   * mode.
   */
  lemma SummaryIgnoresOrder(events: seq<SessionEvent>, events': seq<SessionEvent>, s: SessionSummary,
                            s': SessionSummary)
    requires s.sessionId == s'.sessionId
    requires multiset(Session(events, s.sessionId)) == multiset(Session(events', s.sessionId))
    requires ValidAmounts(Session(events, s.sessionId))
    requires SummaryIn(events, s) && SummaryIn(events', s')
    ensures s.tokens == s'.tokens && s.costs == s'.costs
    ensures s.startedAt == s'.startedAt && s.endedAt == s'.endedAt
    ensures s.mode == s'.mode
  {
    hide Session, Sums.Sum, IsRange, Hints, LastName, LastPricing, Sums.Lawful, ValidAmounts;
    TokensAdd();
    CostsAdd();
    var es, es' := Session(events, s.sessionId), Session(events', s.sessionId);
    SameMembers(es, es');
    Sums.SumPermuted(TOKENS, es, es', TokensOf);
    Sums.SumPermuted(COSTS, es, es', CostsOf);
    ValidSums(es);
    SameRange(s.startedAt, s.endedAt, s'.startedAt, s'.endedAt, es, es');
    SameHints(es, es');
  }

  lemma SameHints(es: seq<SessionEvent>, es': seq<SessionEvent>)
    requires forall e :: e in es <==> e in es'
    ensures Hints(es) == Hints(es')
  {
    hide HintOf;
  }

  lemma SameMembers(es: seq<SessionEvent>, es': seq<SessionEvent>)
    requires multiset(es) == multiset(es')
    ensures forall e :: e in es <==> e in es'
  {
    assert forall e :: e in es <==> e in multiset(es);
    assert forall e :: e in es' <==> e in multiset(es');
  }

  lemma SameRange(lo: Time, hi: Time, lo': Time, hi': Time, es: seq<SessionEvent>, es': seq<SessionEvent>)
    requires forall e :: e in es <==> e in es'
    requires IsRange(lo, hi, es) && IsRange(lo', hi', es')
    ensures lo == lo' && hi == hi'
  {
  }

  // ------------------------------------------------------------------ acceptance

  /** With valid amounts a batch is accepted exactly when each of its events is: sessions are never refused. */
  lemma AcceptableIff(events: seq<SessionEvent>)
    requires ValidAmounts(events)
    ensures Acceptable(events) <==> forall e <- events :: NormalizeIncoming(e).Ok?
  {
    hide NormalizeIncoming, MergesFit, Session;
    forall id <- SessionIds(events)
      ensures MergesFit(Session(events, id))
    {
      ValidMergesFit(events, id);
    }
  }

  lemma ValidMergesFit(events: seq<SessionEvent>, id: string)
    requires ValidAmounts(events)
    ensures MergesFit(Session(events, id))
  {
    hide Session, SumTokens, SumCosts;
    NoSession(events, id);
    var es := Session(events, id);
    forall n | 2 <= n <= |es|
      ensures SumTokens(es[..n]).NonNegative() && SumCosts(es[..n]).NonNegative()
    {
      ValidSums(es[..n]);
    }
  }

  /** What makes an event acceptable: ids, a CLI source, a provider slug, a set time, metadata without blanks. */
  lemma AcceptedEvents(e: SessionEvent)
    ensures NormalizeIncoming(e).Ok? <==>
      && Text.Trim(e.sessionId) != "" && Text.Trim(e.entryId) != ""
      && (e.source == CliSession || e.source == UnsetSource)
      && NewProviderName(e.provider).Ok?
      && e.occurredAt != ZERO_TIME
      && AcceptableMetadata(e.metadata)
  {
    hide NewProviderName, AcceptableMetadata, NewUsageEntry, Text.Trim, ModeFitsSource, Source.IsValid,
         BillingMode.IsValid;
    Text.TrimIdempotent(e.entryId);
    FitsUnknownMode(SourceOrDefault(e.source));
    AcceptedEntry(EntryOf(e, UnknownMode));
  }

  lemma AcceptedEntry(u: UsageEntry)
    requires u.mode.IsValid()
    ensures NewUsageEntry(u).Ok? <==>
      && Text.Trim(u.entryId) != "" && u.source.IsValid() && ModeFitsSource(u.source, u.mode)
      && NewProviderName(u.provider).Ok? && u.occurredAt != ZERO_TIME && AcceptableMetadata(u.metadata)
  {
    hide NewProviderName, AcceptableMetadata, Text.Trim, ModeFitsSource, Source.IsValid, BillingMode.IsValid;
  }

  lemma FitsUnknownMode(s: Source)
    ensures UnknownMode.IsValid()
    ensures s.IsValid() && ModeFitsSource(s, UnknownMode) <==> s == CliSession
  {
  }

  // ------------------------------------------------------------------ events that bring their own names

  /** Carries no billing hint and names its project and agent, as every Claude Code event does. */
  predicate SelfContained(e: SessionEvent) {
    Canonical(e.modeHint) == UnknownMode && Text.Trim(e.project) != "" && Text.Trim(e.agent) != ""
  }

  /** The entry of such an event, whatever batch it comes in. */
  function OwnEntry(e: SessionEvent): UsageEntry {
    EntryOf(e, UnknownMode).(provider := Lower(Text.Trim(e.provider)))
  }

  /** The entries of a batch are those of its events. */
  lemma EntriesAre(events: seq<SessionEvent>, b: Batch)
    requires IsBatch(events, b)
    ensures forall x :: x in b.entries <==> exists e <- events :: x == EntryIn(events, e)
  {
    hide EntryIn, SummariesOf, EntriesIn;
    EntriesOfPart(events, events);
    var entries := EntriesIn(events, events, SessionIds(events));
    assert forall x :: x in b.entries <==> x in multiset(b.entries);
    assert forall x :: x in entries <==> x in multiset(entries);
  }

  lemma {:induction false} EntriesOfPart(events: seq<SessionEvent>, part: seq<SessionEvent>)
    requires forall e <- part :: e in events
    ensures forall x ::
      x in EntriesIn(events, part, SessionIds(events)) <==> exists e <- part :: x == EntryIn(events, e)
  {
    hide EntryIn;
    if part != [] {
      var n := |part| - 1;
      EntriesOfPart(events, part[..n]);
      assert part[n].sessionId in SessionIds(events);
      assert part == part[..n] + [part[n]];
      assert forall e :: e in part <==> e in part[..n] || e == part[n];
    }
  }

  /** In a batch of self-contained events every entry depends on its event alone. */
  lemma EntriesAreOwn(events: seq<SessionEvent>, b: Batch)
    requires IsBatch(events, b)
    requires forall e <- events :: SelfContained(e)
    ensures forall entry :: entry in b.entries <==> exists e <- events :: entry == OwnEntry(e)
  {
    hide IsBatch, EntryIn, OwnEntry, SelfContained;
    EntriesAre(events, b);
    forall e <- events
      ensures EntryIn(events, e) == OwnEntry(e)
    {
      EntryIsOwn(events, e);
    }
  }

  lemma EntryIsOwn(events: seq<SessionEvent>, e: SessionEvent)
    requires e in events && forall x <- events :: SelfContained(x)
    ensures EntryIn(events, e) == OwnEntry(e)
  {
    hide Session, Text.Trim, LastName;
    NoSession(events, e.sessionId);
    var es := Session(events, e.sessionId);
    assert Hints(es) == {};
  }

  // ------------------------------------------------------------------ sessions that do not change

  /** The events of a session hint at one mode, and either all or none of them name the project, and the agent. */
  ghost predicate Steady(events: seq<SessionEvent>) {
    forall e, f | e in events && f in events :: e.sessionId == f.sessionId ==> Alike(e, f)
  }

  predicate Alike(e: SessionEvent, f: SessionEvent) {
    && HintOf(e) == HintOf(f)
    && (Text.Trim(e.project) == "" <==> Text.Trim(f.project) == "")
    && (Text.Trim(e.agent) == "" <==> Text.Trim(f.agent) == "")
  }

  /** The entry of an event of such a session, whatever batch it comes in. */
  function SteadyEntry(e: SessionEvent): UsageEntry {
    EntryOf(e, ResolveMode(HintOf(e))).(provider := Lower(Text.Trim(e.provider)))
  }

  lemma EntriesAreSteady(all: seq<SessionEvent>, events: seq<SessionEvent>, b: Batch)
    requires Steady(all) && (forall e <- events :: e in all) && IsBatch(events, b)
    ensures forall entry :: entry in b.entries <==> exists e <- events :: entry == SteadyEntry(e)
  {
    hide IsBatch, EntryIn, SteadyEntry, Steady;
    EntriesAre(events, b);
    forall e <- events
      ensures EntryIn(events, e) == SteadyEntry(e)
    {
      EntryIsSteady(all, events, e);
    }
  }

  lemma EntryIsSteady(all: seq<SessionEvent>, events: seq<SessionEvent>, e: SessionEvent)
    requires Steady(all) && (forall x <- events :: x in all) && e in events
    ensures EntryIn(events, e) == SteadyEntry(e)
  {
    hide Text.Trim, LastName, Lower, HintOf;
    var es := Session(events, e.sessionId);
    SessionMembers(events, e.sessionId);
    forall x <- es
      ensures Alike(e, x)
    {
      assert e in all && x in all;
    }
    hide Session;
    HintsOfSession(es, e);
    NamesOfSession(es, e);
  }

  lemma SessionMembers(events: seq<SessionEvent>, id: string)
    ensures forall x :: x in Session(events, id) <==> x in events && x.sessionId == id
  {
    forall x: SessionEvent
      ensures x in Session(events, id) <==> x in events && x.sessionId == id
    {
      Sums.GroupCounts(events, SessionIdOf, id, x);
      assert x in multiset(events) <==> x in events;
      assert x in multiset(Session(events, id)) <==> x in Session(events, id);
    }
  }

  lemma HintsOfSession(es: seq<SessionEvent>, e: SessionEvent)
    requires e in es && forall x <- es :: Alike(e, x)
    ensures Hints(es) == HintOf(e)
  {
    hide HintOf, Text.Trim;
  }

  lemma NamesOfSession(es: seq<SessionEvent>, e: SessionEvent)
    requires forall x <- es :: Alike(e, x)
    ensures Text.Trim(e.project) == "" ==> LastName(Projects(es)) == ""
    ensures Text.Trim(e.agent) == "" ==> LastName(Agents(es)) == ""
  {
    hide Text.Trim, HintOf;
    assert forall i :: 0 <= i < |es| ==>
      es[i] in es && Projects(es)[i] == es[i].project && Agents(es)[i] == es[i].agent;
    if Text.Trim(e.project) == "" {
      NoNames(Projects(es));
    }
    if Text.Trim(e.agent) == "" {
      NoNames(Agents(es));
    }
  }

  lemma {:induction false} NoNames(names: seq<string>)
    requires forall i :: 0 <= i < |names| ==> Text.Trim(names[i]) == ""
    ensures LastName(names) == ""
  {
    hide Text.Trim;
    if names != [] {
      NoNames(names[..|names| - 1]);
    }
  }

  /** A session whose hints differ: alone, the first event has its mode; with the second, the mode is unknown. */
  lemma SplitSession(e: SessionEvent, f: SessionEvent, a: BillingMode, b: BillingMode)
    requires e.sessionId == f.sessionId && HintOf(e) == {a} && HintOf(f) == {b} && a != b
    ensures EntryIn([e], e).mode == a && EntryIn([e, f], e).mode == UnknownMode
  {
    hide *;
    var es, both := Session([e], e.sessionId), Session([e, f], e.sessionId);
    SessionMembers([e], e.sessionId);
    SessionMembers([e, f], e.sessionId);
    HintsAre(es, {e}, {a});
    HintsAre(both, {e, f}, {a, b});
    EntryMode([e], e);
    EntryMode([e, f], e);
    HintsResolve(e, f, a, b);
  }

  lemma HintsAre(es: seq<SessionEvent>, members: set<SessionEvent>, modes: set<BillingMode>)
    requires forall x :: x in es <==> x in members
    requires forall m :: m in modes <==> exists x <- members :: m in HintOf(x)
    ensures Hints(es) == modes
  {
    hide HintOf;
  }

  lemma EntryMode(events: seq<SessionEvent>, e: SessionEvent)
    ensures EntryIn(events, e).mode == ResolveMode(Hints(Session(events, e.sessionId)))
  {
    hide Text.Trim, LastName, Lower, Session, Hints, ResolveMode, Projects, Agents;
  }

  lemma HintsResolve(e: SessionEvent, f: SessionEvent, a: BillingMode, b: BillingMode)
    requires HintOf(e) == {a} && HintOf(f) == {b} && a != b
    ensures ResolveMode({a}) == a && ResolveMode({a, b}) == UnknownMode
  {
    assert a in HintOf(e) && a in {a, b} && b in {a, b};
  }

  /**
   * The entry of each event is the one it has in a batch of its own, exactly when the events of every session agree in
   * their hint and in whether they name the project and the agent.
   */
  lemma SteadyIff(events: seq<SessionEvent>)
    ensures Steady(events) <==> forall e <- events :: EntryIn(events, e) == EntryIn([e], e)
  {
    hide EntryIn, SteadyEntry, Alike;
    if Steady(events) {
      forall e <- events
        ensures EntryIn(events, e) == EntryIn([e], e)
      {
        EntryIsSteady(events, events, e);
        EntryIsSteady(events, [e], e);
      }
    } else {
      var e, f :| e in events && f in events && e.sessionId == f.sessionId && !Alike(e, f);
      UnlikeEvents(events, e, f);
    }
  }

  /** Of two events of a session that are not alike, one has another entry than in a batch of its own. */
  lemma UnlikeEvents(events: seq<SessionEvent>, e: SessionEvent, f: SessionEvent)
    requires e in events && f in events && e.sessionId == f.sessionId && !Alike(e, f)
    ensures EntryIn(events, e) != EntryIn([e], e) || EntryIn(events, f) != EntryIn([f], f)
  {
    hide EntryIn, HintOf, Text.Trim;
    if HintOf(e) != HintOf(f) {
      UnlikeHints(events, e, f);
    } else if (Text.Trim(e.project) == "" && Text.Trim(f.project) != "")
           || (Text.Trim(e.agent) == "" && Text.Trim(f.agent) != "") {
      TakesName(events, e, f);
    } else {
      TakesName(events, f, e);
    }
  }

  lemma UnlikeHints(events: seq<SessionEvent>, e: SessionEvent, f: SessionEvent)
    requires e.sessionId == f.sessionId && HintOf(e) != HintOf(f)
    ensures EntryIn(events, e).mode != EntryIn([e], e).mode || EntryIn(events, f).mode != EntryIn([f], f).mode
  {
    hide *;
    EntryMode(events, e);
    EntryMode(events, f);
    OwnMode(e);
    OwnMode(f);
    HintsTold(e, f);
  }

  lemma OwnMode(e: SessionEvent)
    ensures EntryIn([e], e).mode == ResolveMode(HintOf(e))
  {
    hide *;
    SessionMembers([e], e.sessionId);
    HintsAre(Session([e], e.sessionId), {e}, HintOf(e));
    EntryMode([e], e);
  }

  lemma HintsTold(e: SessionEvent, f: SessionEvent)
    ensures ResolveMode(HintOf(e)) == ResolveMode(HintOf(f)) ==> HintOf(e) == HintOf(f)
  {
    ModeOfHint(Canonical(e.modeHint));
    ModeOfHint(Canonical(f.modeHint));
    hide ResolveMode;
  }

  lemma ModeOfHint(m: BillingMode)
    ensures ResolveMode({}) == UnknownMode
    ensures m in {SubscriptionMode, Byok} ==> ResolveMode({m}) == m
  {
    assert m in {m} && {m} != {};
  }

  /** An event that does not name its project, or agent, takes it from one of its session that does. */
  lemma TakesName(events: seq<SessionEvent>, e: SessionEvent, f: SessionEvent)
    requires f in events && e.sessionId == f.sessionId
    requires || (Text.Trim(e.project) == "" && Text.Trim(f.project) != "")
             || (Text.Trim(e.agent) == "" && Text.Trim(f.agent) != "")
    ensures EntryIn(events, e) != EntryIn([e], e)
  {
    hide *;
    var es, alone := Session(events, e.sessionId), Session([e], e.sessionId);
    SessionMembers(events, e.sessionId);
    SessionMembers([e], e.sessionId);
    EntryNames(events, e);
    EntryNames([e], e);
    NamesOf(es, f);
    NoNamesOf(alone, e);
  }

  lemma EntryNames(events: seq<SessionEvent>, e: SessionEvent)
    ensures var es := Session(events, e.sessionId);
      && (Text.Trim(e.project) == "" ==> EntryIn(events, e).project == LastName(Projects(es)))
      && (Text.Trim(e.agent) == "" ==> EntryIn(events, e).agent == LastName(Agents(es)))
  {
    hide Text.Trim, LastName, Lower, Session, Mode, Projects, Agents;
  }

  lemma NamesOf(es: seq<SessionEvent>, f: SessionEvent)
    requires f in es
    ensures Text.Trim(f.project) != "" ==> LastName(Projects(es)) != ""
    ensures Text.Trim(f.agent) != "" ==> LastName(Agents(es)) != ""
  {
    hide Text.Trim;
    var i :| 0 <= i < |es| && es[i] == f;
    SomeName(Projects(es), i);
    SomeName(Agents(es), i);
  }

  lemma {:induction false} SomeName(names: seq<string>, i: nat)
    requires i < |names|
    ensures Text.Trim(names[i]) != "" ==> LastName(names) != ""
  {
    hide Text.Trim;
    if i < |names| - 1 {
      SomeName(names[..|names| - 1], i);
    }
  }

  lemma NoNamesOf(es: seq<SessionEvent>, e: SessionEvent)
    requires forall x <- es :: x == e
    ensures Text.Trim(e.project) == "" ==> LastName(Projects(es)) == ""
    ensures Text.Trim(e.agent) == "" ==> LastName(Agents(es)) == ""
  {
    hide Text.Trim, LastName, HintOf;
    NamesOfSession(es, e);
  }

  // ------------------------------------------------------------------ session rows across batches

  /**
   * Storing a later batch replaces the row of a session: it holds the totals of that batch alone, which are the
   * session's totals exactly when the earlier events of the session carry no tokens, or cost nothing.
   */
  lemma SessionRowIff(earlier: seq<SessionEvent>, later: seq<SessionEvent>, ss: seq<SessionSummary>,
                      table: map<string, SessionSummary>, id: string)
    requires ValidAmounts(later) && SummariesOf(later, ss, SessionIds(later)) && id in SessionIds(later)
    ensures id in UpsertSessions(table, ss)
    ensures var row := UpsertSessions(table, ss)[id];
      && row.tokens == SumTokens(Session(later, id))
      && (row.tokens == SumTokens(Session(earlier + later, id)) <==> SumTokens(Session(earlier, id)) == NO_TOKENS)
      && row.costs == SumCosts(Session(later, id))
      && (row.costs == SumCosts(Session(earlier + later, id)) <==> SumCosts(Session(earlier, id)) == NO_COSTS)
  {
    hide SummaryIn, ValidAmounts, Session, SumTokens, SumCosts, UpsertSessions, AddTokens, AddCosts;
    assert id in (set s <- ss :: s.sessionId);
    var s :| s in ss && s.sessionId == id;
    RowIsStored(table, ss, s);
    SummaryAmounts(later, s);
    SessionTokensAppend(earlier, later, id);
    SessionCostsAppend(earlier, later, id);
    NothingAdded(SumTokens(Session(earlier, id)), s.tokens);
    NoCostAdded(SumCosts(Session(earlier, id)), s.costs);
  }

  lemma NothingAdded(a: Tokens, b: Tokens)
    ensures AddTokens(a, b) == b <==> a == NO_TOKENS
  {
  }

  lemma NoCostAdded(a: Costs, b: Costs)
    ensures AddCosts(a, b) == b <==> a == NO_COSTS
  {
  }

  lemma SessionTokensAppend(a: seq<SessionEvent>, b: seq<SessionEvent>, id: string)
    ensures SumTokens(Session(a + b, id)) == AddTokens(SumTokens(Session(a, id)), SumTokens(Session(b, id)))
  {
    hide Sums.Group, Sums.Sum, Sums.Lawful, AddTokens;
    TokensAdd();
    Sums.GroupAppend(a, b, SessionIdOf, id);
    Sums.SumAppend(TOKENS, Session(a, id), Session(b, id), TokensOf);
  }

  lemma SessionCostsAppend(a: seq<SessionEvent>, b: seq<SessionEvent>, id: string)
    ensures SumCosts(Session(a + b, id)) == AddCosts(SumCosts(Session(a, id)), SumCosts(Session(b, id)))
  {
    hide Sums.Group, Sums.Sum, Sums.Lawful, AddCosts;
    CostsAdd();
    Sums.GroupAppend(a, b, SessionIdOf, id);
    Sums.SumAppend(COSTS, Session(a, id), Session(b, id), CostsOf);
  }

  lemma {:induction false} RowIsStored(table: map<string, SessionSummary>, ss: seq<SessionSummary>, s: SessionSummary)
    requires s in ss && forall i, j :: 0 <= i < j < |ss| ==> ss[i].sessionId != ss[j].sessionId
    ensures s.sessionId in UpsertSessions(table, ss) && UpsertSessions(table, ss)[s.sessionId] == s
    decreases |ss|
  {
    var rest, table' := ss[1..], table[ss[0].sessionId := ss[0]];
    assert forall x <- rest :: x.sessionId != ss[0].sessionId;
    if s in rest {
      RowIsStored(table', rest, s);
    } else {
      assert s == ss[0];
      OthersStay(table', rest, s.sessionId);
    }
  }

  lemma {:induction false} OthersStay(table: map<string, SessionSummary>, ss: seq<SessionSummary>, id: string)
    requires id in table && forall s <- ss :: s.sessionId != id
    ensures id in UpsertSessions(table, ss) && UpsertSessions(table, ss)[id] == table[id]
    decreases |ss|
  {
    if ss != [] {
      OthersStay(table[ss[0].sessionId := ss[0]], ss[1..], id);
    }
  }

  // ------------------------------------------------------------------ every batch can be built

  function Earliest(es: seq<SessionEvent>): Time
    requires es != []
  {
    if |es| == 1 || es[|es| - 1].occurredAt < Earliest(es[..|es| - 1]) then es[|es| - 1].occurredAt
    else Earliest(es[..|es| - 1])
  }

  function Latest(es: seq<SessionEvent>): Time
    requires es != []
  {
    if |es| == 1 || es[|es| - 1].occurredAt > Latest(es[..|es| - 1]) then es[|es| - 1].occurredAt
    else Latest(es[..|es| - 1])
  }

  lemma {:induction false} RangeOf(es: seq<SessionEvent>)
    requires es != []
    ensures IsRange(Earliest(es), Latest(es), es)
  {
    var n := |es| - 1;
    assert es == es[..n] + [es[n]];
    if n > 0 {
      RangeOf(es[..n]);
      assert forall e :: e in es <==> e in es[..n] || e == es[n];
    }
  }

  function SummaryOf(events: seq<SessionEvent>, id: string): SessionSummary
    requires Session(events, id) != []
  {
    var es := Session(events, id);
    SessionSummary(id, CliSession, Lower(Text.Trim(es[|es| - 1].provider)), Mode(events, id), Earliest(es), Latest(es),
                   LastName(Projects(es)), LastName(Agents(es)), LastPricing(es), SumTokens(es), SumCosts(es))
  }

  lemma SummaryOfIs(events: seq<SessionEvent>, id: string)
    requires Session(events, id) != []
    ensures SummaryIn(events, SummaryOf(events, id)) && SummaryOf(events, id).sessionId == id
  {
    hide Session, Mode, SumTokens, SumCosts, LastName, Text.Trim, Earliest, Latest, IsRange;
    RangeOf(Session(events, id));
  }

  /** For any events there is a batch: an entry an event, and a summary a session. */
  lemma SomeBatch(events: seq<SessionEvent>) returns (b: Batch)
    ensures IsBatch(events, b)
  {
    hide SummaryIn, EntriesIn, Session;
    var ids := SessionIds(events);
    var sessions: seq<SessionSummary> := [];
    var remaining := ids;
    while remaining != {}
      invariant remaining <= ids && SummariesOf(events, sessions, ids - remaining)
      decreases remaining
    {
      var id :| id in remaining;
      SessionOfId(events, id);
      SummaryOfIs(events, id);
      OneSummaryMore(events, sessions, SummaryOf(events, id), ids - remaining);
      assert ids - (remaining - {id}) == ids - remaining + {id};
      sessions := sessions + [SummaryOf(events, id)];
      remaining := remaining - {id};
    }
    assert ids - {} == ids;
    b := Batch(EntriesIn(events, events, ids), sessions);
  }

  lemma SessionOfId(events: seq<SessionEvent>, id: string)
    requires id in SessionIds(events)
    ensures Session(events, id) != []
  {
    var e :| e in events && e.sessionId == id;
    Sums.GroupCounts(events, SessionIdOf, id, e);
    assert e in multiset(events);
    assert e in multiset(Session(events, id));
  }

  lemma OneSummaryMore(events: seq<SessionEvent>, ss: seq<SessionSummary>, s: SessionSummary, ids: set<string>)
    requires SummariesOf(events, ss, ids) && SummaryIn(events, s) && s.sessionId !in ids
    ensures SummariesOf(events, ss + [s], ids + {s.sessionId})
  {
    hide SummaryIn;
    SameIds(ss, s);
    forall i, j | 0 <= i < j < |ss + [s]|
      ensures (ss + [s])[i].sessionId != (ss + [s])[j].sessionId
    {
      assert ss[i].sessionId in (set x <- ss :: x.sessionId);
    }
  }

  lemma SameIds(ss: seq<SessionSummary>, s: SessionSummary)
    ensures (set x <- ss + [s] :: x.sessionId) == (set x <- ss :: x.sessionId) + {s.sessionId}
  {
    assert forall x :: x in ss + [s] <==> x in ss || x == s;
  }
}
