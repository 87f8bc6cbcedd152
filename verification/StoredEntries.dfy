/** What the entries and summaries of a batch say, in terms of the events alone. */
module StoredEntries {
  import opened Domain
  import opened Normalizer
  import NT = NormalizerTheorems
  import Sums
  import Text

  // ------------------------------------------------------------------ the billing mode

  /** Some event of the session carries the hint. */
  ghost predicate HintedBy(events: seq<SessionEvent>, id: string, hint: BillingMode) {
    exists e <- events :: e.sessionId == id && e.modeHint == hint
  }

  /** A key of the user's own, directly or through OpenRouter. */
  ghost predicate OwnKeyHinted(events: seq<SessionEvent>, id: string) {
    HintedBy(events, id, Byok) || HintedBy(events, id, DirectApi) || HintedBy(events, id, OpenRouterMode)
  }

  /** Subscription or own key are told by hints of one kind alone; no hints, or hints of both kinds, tell nothing. */
  ghost predicate IsMode(events: seq<SessionEvent>, id: string, mode: BillingMode) {
    var subscription, own := HintedBy(events, id, SubscriptionMode), OwnKeyHinted(events, id);
    && (mode == SubscriptionMode <==> subscription && !own)
    && (mode == Byok <==> own && !subscription)
    && (mode == UnknownMode <==> subscription == own)
  }

  lemma ModeIs(events: seq<SessionEvent>, id: string)
    ensures IsMode(events, id, Mode(events, id))
  {
    hide Session, Hints, HintOf, ResolveMode;
    NT.SessionMembers(events, id);
    var es := Session(events, id);
    HintsSay(es);
    ModeOfHints(Hints(es));
    forall hint: BillingMode
      ensures HintedBy(events, id, hint) <==> exists e <- es :: e.modeHint == hint
    {
    }
  }

  lemma HintsSay(es: seq<SessionEvent>)
    ensures SubscriptionMode in Hints(es) <==> exists e <- es :: e.modeHint == SubscriptionMode
    ensures Byok in Hints(es) <==> exists e <- es :: e.modeHint in {Byok, DirectApi, OpenRouterMode}
    ensures forall m <- Hints(es) :: m in {SubscriptionMode, Byok}
  {
    forall e <- es
      ensures SubscriptionMode in HintOf(e) <==> e.modeHint == SubscriptionMode
      ensures Byok in HintOf(e) <==> e.modeHint in {Byok, DirectApi, OpenRouterMode}
      ensures forall m <- HintOf(e) :: m in {SubscriptionMode, Byok}
    {
      HintIs(e);
    }
    hide HintOf;
  }

  lemma HintIs(e: SessionEvent)
    ensures SubscriptionMode in HintOf(e) <==> e.modeHint == SubscriptionMode
    ensures Byok in HintOf(e) <==> e.modeHint in {Byok, DirectApi, OpenRouterMode}
    ensures forall m <- HintOf(e) :: m in {SubscriptionMode, Byok}
  {
  }

  lemma ModeOfHints(modes: set<BillingMode>)
    requires forall m <- modes :: m in {SubscriptionMode, Byok}
    ensures ResolveMode(modes)
         == if SubscriptionMode in modes && Byok !in modes then SubscriptionMode
            else if Byok in modes && SubscriptionMode !in modes then Byok else UnknownMode
  {
    assert SubscriptionMode in {SubscriptionMode} && Byok in {Byok};
    if SubscriptionMode in modes && Byok !in modes {
      assert modes == {SubscriptionMode};
    } else if Byok in modes && SubscriptionMode !in modes {
      assert modes == {Byok};
    }
  }

  // ------------------------------------------------------------------ names taken from the session

  /** The last of the session's events that gives the name gives it; it is blank when none does. */
  ghost predicate IsLastGiven(events: seq<SessionEvent>, id: string, of: SessionEvent -> string, name: string) {
    if name == "" then forall e <- events :: e.sessionId == id ==> Text.Trim(of(e)) == ""
    else exists k :: 0 <= k < |events| && GivenLast(events, id, of, name, k)
  }

  ghost predicate GivenLast(events: seq<SessionEvent>, id: string, of: SessionEvent -> string, name: string, k: nat) {
    && k < |events| && events[k].sessionId == id && Text.Trim(of(events[k])) == name
    && forall j :: k < j < |events| && events[j].sessionId == id ==> Text.Trim(of(events[j])) == ""
  }

  lemma {:induction false} SessionNames(events: seq<SessionEvent>, id: string)
    ensures IsLastGiven(events, id, (e: SessionEvent) => e.project, LastName(Projects(Session(events, id))))
    ensures IsLastGiven(events, id, (e: SessionEvent) => e.agent, LastName(Agents(Session(events, id))))
  {
    hide *;
    if events == [] {
      NoNames(id);
    } else {
      var n := |events| - 1;
      var front, last := events[..n], events[n];
      assert events == front + [last];
      SessionNames(front, id);
      NamesOfOne(front, last, id);
      GivenStep(front, last, id, (e: SessionEvent) => e.project, LastName(Projects(Session(front, id))));
      GivenStep(front, last, id, (e: SessionEvent) => e.agent, LastName(Agents(Session(front, id))));
    }
  }

  lemma NoNames(id: string)
    ensures IsLastGiven([], id, (e: SessionEvent) => e.project, LastName(Projects(Session([], id))))
    ensures IsLastGiven([], id, (e: SessionEvent) => e.agent, LastName(Agents(Session([], id))))
  {
  }

  lemma NamesOfOne(front: seq<SessionEvent>, last: SessionEvent, id: string)
    ensures LastName(Projects(Session(front + [last], id)))
         == if last.sessionId == id && Text.Trim(last.project) != "" then Text.Trim(last.project)
            else LastName(Projects(Session(front, id)))
    ensures LastName(Agents(Session(front + [last], id)))
         == if last.sessionId == id && Text.Trim(last.agent) != "" then Text.Trim(last.agent)
            else LastName(Agents(Session(front, id)))
  {
    hide *;
    SessionStep(front, last, id);
    if last.sessionId == id {
      SumsStep(Session(front, id), last);
    } else {
      assert Session(front, id) + [] == Session(front, id);
    }
  }

  lemma GivenStep(front: seq<SessionEvent>, last: SessionEvent, id: string, of: SessionEvent -> string, name: string)
    requires IsLastGiven(front, id, of, name)
    ensures IsLastGiven(front + [last], id, of,
                        if last.sessionId == id && Text.Trim(of(last)) != "" then Text.Trim(of(last)) else name)
  {
    hide Text.Trim;
    var all := front + [last];
    if last.sessionId == id && Text.Trim(of(last)) != "" {
      assert GivenLast(all, id, of, Text.Trim(of(last)), |front|);
    } else if name != "" {
      var k :| 0 <= k < |front| && GivenLast(front, id, of, name, k);
      assert GivenLast(all, id, of, name, k);
    }
  }

  // ------------------------------------------------------------------ the entries

  /** Every field of the entry of an event. */
  ghost predicate StoredAs(events: seq<SessionEvent>, e: SessionEvent, u: UsageEntry) {
    && u.entryId == Text.Trim(e.entryId)
    && u.sessionId == Text.Trim(e.sessionId)
    && u.externalId == Text.Trim(e.externalId)
    && u.source == (if e.source == UnsetSource then CliSession else e.source)
    && u.provider == Lower(Text.Trim(e.provider))
    && u.occurredAt == e.occurredAt
    && u.metadata == e.metadata && u.pricing == e.pricing && u.tokens == e.tokens && u.costs == e.costs
    && IsMode(events, e.sessionId, u.mode)
    && (if Text.Trim(e.project) != "" then u.project == Text.Trim(e.project)
        else IsLastGiven(events, e.sessionId, (x: SessionEvent) => x.project, u.project))
    && (if Text.Trim(e.agent) != "" then u.agent == Text.Trim(e.agent)
        else IsLastGiven(events, e.sessionId, (x: SessionEvent) => x.agent, u.agent))
  }

  lemma EntrySays(events: seq<SessionEvent>, e: SessionEvent)
    ensures StoredAs(events, e, EntryIn(events, e))
  {
    hide IsMode, IsLastGiven, Session, Mode, LastName, Projects, Agents, Text.Trim, Lower;
    ModeIs(events, e.sessionId);
    SessionNames(events, e.sessionId);
  }

  /** In every batch each event has its entry, and each entry is that of an event. */
  lemma EntriesSay(events: seq<SessionEvent>, b: Batch)
    requires IsBatch(events, b)
    ensures forall e <- events :: exists u <- b.entries :: StoredAs(events, e, u)
    ensures forall u <- b.entries :: exists e <- events :: StoredAs(events, e, u)
  {
    hide IsBatch, EntryIn, StoredAs;
    NT.EntriesAre(events, b);
    forall e <- events
      ensures StoredAs(events, e, EntryIn(events, e)) && EntryIn(events, e) in b.entries
    {
      EntrySays(events, e);
    }
  }

  /** And the mode of a session's summary is told by the hints, too. */
  lemma SummariesSay(events: seq<SessionEvent>, b: Batch)
    requires IsBatch(events, b)
    ensures forall s <- b.sessions :: IsMode(events, s.sessionId, s.mode)
  {
    hide IsMode, Session, Mode, Sums.Sum, LastName, LastPricing, IsRange, EntriesIn;
    forall s <- b.sessions
      ensures IsMode(events, s.sessionId, s.mode)
    {
      ModeIs(events, s.sessionId);
    }
  }
}
