/** The zombie-loop detector: the longest stalled run of one session. */
module ZombieLoop {
  import opened Domain
  import Sorting
  import Sums
  import Text

  const MINIMUM_RUN_LENGTH := 5

  // ------------------------------------------------------------------ what an entry tells

  /** The first of the keys with a value that is not blank. */
  function FirstValue(m: map<string, string>, keys: seq<string>): string {
    if keys == [] then ""
    else if keys[0] in m && Text.Trim(m[keys[0]]) != "" then Text.Trim(m[keys[0]])
    else FirstValue(m, keys[1..])
  }

  function RetrySignature(e: UsageEntry): string {
    var signature := FirstValue(e.metadata, ["retry_key", "operation_hash", "tool_call_signature", "action_signature"]);
    if signature != "" then signature
    else
      var tool := FirstValue(e.metadata, ["tool_name", "operation", "action"]);
      var target := FirstValue(e.metadata, ["target_hash", "file_target_hash", "path_hash", "resource_hash"]);
      if tool == "" && target == "" then "" else Text.Trim(tool + ":" + target)
  }

  function Signature(e: UsageEntry): string {
    var signature := FirstValue(e.metadata, ["loop_signature", "action_signature", "operation_hash",
                                             "tool_call_signature", "retry_key"]);
    if signature != "" then signature else RetrySignature(e)
  }

  function Progress(e: UsageEntry): string {
    FirstValue(e.metadata, ["progress_marker", "progress_hash", "checkpoint_hash", "step_hash", "state_hash"])
  }

  predicate StandsAt(value: string, needle: string, i: int) {
    0 <= i && i + |needle| <= |value| && value[i..i + |needle|] == needle
  }

  predicate Contains(value: string, needle: string) {
    exists i: nat | i <= |value| :: StandsAt(value, needle, i)
  }

  predicate ContainsAny(value: string, needles: seq<string>) {
    exists n <- needles :: Contains(value, n)
  }

  predicate Succeeded(e: UsageEntry) {
    var status := Lower(FirstValue(e.metadata, ["status", "result", "outcome", "tool_result"]));
    status != "" && ContainsAny(status, ["success", "ok", "completed", "resolved"])
  }

  /** The value under a key, trimmed; blank when there is none. */
  function Given(m: map<string, string>, key: string): string {
    if key in m then Text.Trim(m[key]) else ""
  }

  /** The first value among the keys that is not blank, and blank when all are. */
  ghost predicate IsFirst(m: map<string, string>, keys: seq<string>, value: string) {
    if value == "" then forall k <- keys :: Given(m, k) == ""
    else exists i :: 0 <= i < |keys| && Given(m, keys[i]) == value && forall j :: 0 <= j < i ==> Given(m, keys[j]) == ""
  }

  lemma {:induction false} FirstValueIs(m: map<string, string>, keys: seq<string>)
    ensures IsFirst(m, keys, FirstValue(m, keys))
  {
    hide Text.Trim;
    if keys != [] && Given(m, keys[0]) == "" {
      var v := FirstValue(m, keys[1..]);
      FirstValueIs(m, keys[1..]);
      assert forall i :: 0 < i < |keys| ==> keys[i] == keys[1..][i - 1];
      if v != "" {
        var i :| 0 <= i < |keys[1..]| && Given(m, keys[1..][i]) == v
                 && forall j :: 0 <= j < i ==> Given(m, keys[1..][j]) == "";
        assert Given(m, keys[i + 1]) == v;
      }
    }
  }

  /**
    * The signature is the first value under these keys; without one it is tool and target, unless both are missing. The
    * keys of retries are among them, so they add nothing.
    */
  lemma SignatureIs(e: UsageEntry) returns (own: string, tool: string, target: string)
    ensures IsFirst(e.metadata, ["loop_signature", "action_signature", "operation_hash", "tool_call_signature",
                                 "retry_key"], own)
    ensures IsFirst(e.metadata, ["tool_name", "operation", "action"], tool)
    ensures IsFirst(e.metadata, ["target_hash", "file_target_hash", "path_hash", "resource_hash"], target)
    ensures Signature(e) == if own != "" then own
                            else if tool == "" && target == "" then "" else Text.Trim(tool + ":" + target)
  {
    hide FirstValue, Text.Trim, Given;
    var m := e.metadata;
    var keys := ["loop_signature", "action_signature", "operation_hash", "tool_call_signature", "retry_key"];
    var retries := ["retry_key", "operation_hash", "tool_call_signature", "action_signature"];
    own := FirstValue(m, keys);
    tool := FirstValue(m, ["tool_name", "operation", "action"]);
    target := FirstValue(m, ["target_hash", "file_target_hash", "path_hash", "resource_hash"]);
    FirstValueIs(m, keys);
    FirstValueIs(m, retries);
    FirstValueIs(m, ["tool_name", "operation", "action"]);
    FirstValueIs(m, ["target_hash", "file_target_hash", "path_hash", "resource_hash"]);
    assert forall k <- retries :: k in keys by {
      assert retries[0] == keys[4] && retries[1] == keys[2] && retries[2] == keys[3] && retries[3] == keys[1];
    }
  }

  lemma ProgressIs(e: UsageEntry)
    ensures IsFirst(e.metadata, ["progress_marker", "progress_hash", "checkpoint_hash", "step_hash", "state_hash"],
                    Progress(e))
  {
    hide FirstValue, IsFirst;
    FirstValueIs(e.metadata, ["progress_marker", "progress_hash", "checkpoint_hash", "step_hash", "state_hash"]);
  }

  /** One of the words of success stands somewhere in the status. */
  ghost predicate SaysSuccess(status: string) {
    exists front: string, word: string, back: string ::
      word in ["success", "ok", "completed", "resolved"] && status == front + word + back
  }

  lemma ContainsIff(value: string, word: string)
    ensures Contains(value, word) <==> exists front: string, back: string :: value == front + word + back
  {
    if Contains(value, word) {
      var i: nat :| i <= |value| && StandsAt(value, word, i);
      assert value == value[..i] + word + value[i + |word|..];
    }
    if front: string, back: string :| value == front + word + back {
      assert StandsAt(value, word, |front|);
    }
  }

  /** An entry succeeded when its status, in lower case, holds one of these words. */
  lemma SucceededIff(e: UsageEntry) returns (status: string)
    ensures IsFirst(e.metadata, ["status", "result", "outcome", "tool_result"], status)
    ensures Succeeded(e) <==> SaysSuccess(Lower(status))
  {
    hide FirstValue, IsFirst, Contains, Lower;
    status := FirstValue(e.metadata, ["status", "result", "outcome", "tool_result"]);
    FirstValueIs(e.metadata, ["status", "result", "outcome", "tool_result"]);
    LowerKeeps(status);
    var s, words := Lower(status), ["success", "ok", "completed", "resolved"];
    forall word <- words
      ensures word != ""
      ensures Contains(s, word) <==> exists front: string, back: string :: s == front + word + back
    {
      ContainsIff(s, word);
    }
    if front: string, word: string, back: string :| word in words && s == front + word + back {
      assert Contains(s, word);
    }
  }

  lemma LowerKeeps(s: string)
    ensures Lower(s) == "" <==> s == ""
  {
  }

  // ------------------------------------------------------------------ specification

  /** A maximal stretch of entries with one signature. */
  ghost predicate IsRun(es: seq<UsageEntry>, s: int, e: int) {
    && 0 <= s < e <= |es|
    && Signature(es[s]) != ""
    && (forall i :: s <= i < e ==> Signature(es[i]) == Signature(es[s]))
    && (s > 0 ==> Signature(es[s - 1]) != Signature(es[s]))
    && (e < |es| ==> Signature(es[e]) != Signature(es[s]))
  }

  function Markers(es: seq<UsageEntry>): set<string> {
    set e <- es | Progress(e) != "" :: Progress(e)
  }

  /** A run of at least five entries without a success and with at most one progress marker. */
  ghost predicate IsStalled(es: seq<UsageEntry>, s: int, e: int) {
    && IsRun(es, s, e)
    && e - s >= MINIMUM_RUN_LENGTH
    && (forall i :: s <= i < e ==> !Succeeded(es[i]))
    && |Markers(es[s..e])| <= 1
  }

  datatype ZombieRun = ZombieRun(signature: string, length: nat, progressMarkers: nat, entries: seq<UsageEntry>)

  const NO_RUN := ZombieRun("", 0, 0, [])

  /** The wasted entries are all but the run's first three. */
  ghost predicate Reports(es: seq<UsageEntry>, s: int, e: int, r: ZombieRun) {
    && IsStalled(es, s, e)
    && r == ZombieRun(Signature(es[s]), e - s, |Markers(es[s..e])|, es[s + 3..e])
  }

  /** Of the stalled runs that end by `upTo`, the longest, and of those the first. */
  ghost predicate IsBest(es: seq<UsageEntry>, upTo: int, r: ZombieRun) {
    if r == NO_RUN then forall s, e :: e <= upTo ==> !IsStalled(es, s, e)
    else exists s, e :: Reports(es, s, e, r) && e <= upTo && Leads(es, upTo, s, e)
  }

  ghost predicate Leads(es: seq<UsageEntry>, upTo: int, s: int, e: int) {
    forall s', e' :: IsStalled(es, s', e') && e' <= upTo ==> e' - s' < e - s || (e' - s' == e - s && s <= s')
  }

  // ------------------------------------------------------------------ the scan

  /** evals counts the entries the scan looks at: at most three times as many as there are. */
  method DetectZombieLoopRun(es: seq<UsageEntry>) returns (best: ZombieRun, ghost evals: nat)
    ensures IsBest(es, |es|, best)
    ensures evals <= 3 * |es|
  {
    hide Signature, Progress, Succeeded, IsBest, Markers;
    best := NO_RUN;
    evals := 0;
    NothingYet(es);
    var start := 0;
    while start < |es|
      invariant 0 <= start <= |es|
      invariant 0 < start < |es| && Signature(es[start]) != "" ==> Signature(es[start - 1]) != Signature(es[start])
      invariant IsBest(es, start, best)
      invariant evals <= 3 * start
    {
      var signature := Signature(es[start]);
      evals := evals + 1;
      if signature == "" {
        NoRunEnds(es, start, best);
        start := start + 1;
        continue;
      }
      var progressSet: set<string> := {};
      var hasSuccess := false;
      var end := start;
      NoMarkers(es, start);
      while end < |es| && Signature(es[end]) == signature
        invariant start <= end <= |es|
        invariant forall i :: start <= i < end ==> Signature(es[i]) == signature
        invariant progressSet == Markers(es[start..end])
        invariant hasSuccess <==> exists i :: start <= i < end && Succeeded(es[i])
        invariant evals <= 3 * start + 1 + (end - start)
        decreases |es| - end
      {
        evals := evals + 1;
        MarkersStep(es, start, end);
        if Progress(es[end]) != "" {
          progressSet := progressSet + {Progress(es[end])};
        }
        if Succeeded(es[end]) {
          hasSuccess := true;
        }
        end := end + 1;
      }
      evals := evals + if end < |es| then 1 else 0;
      var runLength := end - start;
      assert IsRun(es, start, end);
      if runLength < MINIMUM_RUN_LENGTH || hasSuccess || |progressSet| > 1 {
        OneRunEnds(es, start, end, best);
        start := end;
        continue;
      }
      var wasteEntries := es[start + 3..end];
      if |wasteEntries| < 2 {
        assert false;
      }
      var candidate := ZombieRun(signature, runLength, |progressSet|, wasteEntries);
      CandidateCompared(es, start, end, best, candidate);
      if |candidate.entries| > |best.entries| {
        best := candidate;
      }
      start := end;
    }
  }

  lemma NothingYet(es: seq<UsageEntry>)
    ensures IsBest(es, 0, NO_RUN)
  {
    hide Signature, Progress, Succeeded;
  }

  lemma NoMarkers(es: seq<UsageEntry>, start: int)
    requires 0 <= start <= |es|
    ensures Markers(es[start..start]) == {}
  {
  }

  lemma MarkersStep(es: seq<UsageEntry>, start: int, end: int)
    requires 0 <= start <= end < |es|
    ensures Markers(es[start..end + 1])
         == Markers(es[start..end]) + if Progress(es[end]) != "" then {Progress(es[end])} else {}
  {
    hide Progress;
    assert es[start..end + 1] == es[start..end] + [es[end]];
    assert forall e :: e in es[start..end + 1] <==> e in es[start..end] || e == es[end];
  }

  /** Maximal runs do not overlap. */
  lemma RunsApart(es: seq<UsageEntry>, s: int, e: int, s': int, e': int)
    requires IsRun(es, s, e) && IsRun(es, s', e') && s < e' && s' < e
    ensures s == s' && e == e'
  {
    hide Signature;
    var m := if s < s' then s' else s;
    assert Signature(es[s]) == Signature(es[m]) == Signature(es[s']);
    assert s' <= s - 1 < e' || s' >= s;
    assert s <= s' - 1 < e || s >= s';
    assert s' <= e < e' || e >= e';
    assert s <= e' < e || e' >= e;
  }

  /** A blank signature ends no run. */
  lemma NoRunEnds(es: seq<UsageEntry>, start: int, best: ZombieRun)
    requires 0 <= start < |es| && Signature(es[start]) == "" && IsBest(es, start, best)
    ensures IsBest(es, start + 1, best)
  {
    hide Signature, Progress, Succeeded;
    var end := start + 1;
    forall s, e | start < e <= end
      ensures !IsStalled(es, s, e)
    {
      assert !IsRun(es, s, e);
    }
    SameLeader(es, start, end, best);
  }

  /** When no further stalled run ends, the best one stays. */
  lemma SameLeader(es: seq<UsageEntry>, upTo: int, upTo': int, best: ZombieRun)
    requires IsBest(es, upTo, best) && upTo <= upTo'
    requires forall s, e :: upTo < e <= upTo' ==> !IsStalled(es, s, e)
    ensures IsBest(es, upTo', best)
  {
    hide Signature, Progress, Succeeded, IsStalled;
    if best != NO_RUN {
      var s, e :| Reports(es, s, e, best) && e <= upTo && Leads(es, upTo, s, e);
      assert Leads(es, upTo', s, e);
    }
  }

  /** The only run that ends behind the start of a run, up to its end, is that run. */
  lemma OnlyThisRun(es: seq<UsageEntry>, start: int, end: int)
    requires IsRun(es, start, end)
    ensures forall s, e :: start < e <= end && IsStalled(es, s, e) ==> s == start && e == end
  {
    hide Signature, Progress, Succeeded;
    forall s, e | start < e <= end && IsStalled(es, s, e)
      ensures s == start && e == end
    {
      RunsApart(es, start, end, s, e);
    }
  }

  lemma OneRunEnds(es: seq<UsageEntry>, start: int, end: int, best: ZombieRun)
    requires IsRun(es, start, end) && !IsStalled(es, start, end) && IsBest(es, start, best)
    ensures IsBest(es, end, best)
  {
    hide Signature, Progress, Succeeded, IsStalled, IsBest;
    OnlyThisRun(es, start, end);
    SameLeader(es, start, end, best);
  }

  lemma CandidateCompared(es: seq<UsageEntry>, start: int, end: int, best: ZombieRun, candidate: ZombieRun)
    requires IsBest(es, start, best) && Reports(es, start, end, candidate)
    ensures IsBest(es, end, if |candidate.entries| > |best.entries| then candidate else best)
  {
    hide Signature, Progress, Succeeded, Markers;
    assert IsRun(es, start, end);
    OnlyThisRun(es, start, end);
    if best == NO_RUN {
      assert Leads(es, end, start, end);
    } else {
      var s, e :| Reports(es, s, e, best) && e <= start && Leads(es, start, s, e);
      if |candidate.entries| > |best.entries| {
        assert Leads(es, end, start, end);
      } else {
        assert Leads(es, end, s, e);
      }
    }
  }

  /** The specification leaves one result. */
  lemma BestIsUnique(es: seq<UsageEntry>, r: ZombieRun, r': ZombieRun)
    requires IsBest(es, |es|, r) && IsBest(es, |es|, r')
    ensures r == r'
  {
    hide Signature, Progress, Succeeded, Markers, IsStalled;
    BestIsSome(es, r);
    BestIsSome(es, r');
    if r != NO_RUN {
      var s, e :| Reports(es, s, e, r) && Leads(es, |es|, s, e) && e <= |es|;
      var s', e' :| Reports(es, s', e', r') && Leads(es, |es|, s', e') && e' <= |es|;
      assert IsStalled(es, s, e) && IsStalled(es, s', e');
    }
  }

  lemma BestIsSome(es: seq<UsageEntry>, r: ZombieRun)
    requires IsBest(es, |es|, r)
    ensures r != NO_RUN <==> exists s, e :: e <= |es| && IsStalled(es, s, e)
  {
    hide Signature, Progress, Succeeded, Markers, IsStalled;
  }

  // ------------------------------------------------------------------ the entries of a session

  function SessionOf(e: UsageEntry): string { e.sessionId }

  predicate Earlier(a: UsageEntry, b: UsageEntry) {
    if a.occurredAt == b.occurredAt then Text.Less(a.entryId, b.entryId) else a.occurredAt < b.occurredAt
  }

  method GroupedInOrder(es: seq<UsageEntry>) returns (grouped: map<string, seq<UsageEntry>>)
    ensures grouped.Keys == set e <- es :: e.sessionId
    ensures forall id <- grouped.Keys :: grouped[id] == Sums.Group(es, SessionOf, id)
  {
    hide Sums.Group;
    grouped := map[];
    NoGroups();
    for i := 0 to |es|
      invariant grouped.Keys == set e <- es[..i] :: e.sessionId
      invariant forall id: string :: Sums.Group(es[..i], SessionOf, id) == if id in grouped then grouped[id] else []
    {
      var e := es[i];
      assert es[..i + 1] == es[..i] + [e];
      forall id: string
        ensures Sums.Group(es[..i + 1], SessionOf, id)
             == Sums.Group(es[..i], SessionOf, id) + if e.sessionId == id then [e] else []
      {
        Sums.GroupOne(es[..i], e, SessionOf, id);
      }
      grouped := grouped[e.sessionId := (if e.sessionId in grouped then grouped[e.sessionId] else []) + [e]];
    }
    assert es[..|es|] == es;
  }

  lemma NoGroups()
    ensures forall id: string :: Sums.Group([], SessionOf, id) == []
  {
  }

  /** Groups the entries by session, each group ordered by time and entry id. */
  method GroupedUsageEntriesBySession(es: seq<UsageEntry>) returns (grouped: map<string, seq<UsageEntry>>)
    ensures grouped.Keys == set e <- es :: e.sessionId
    ensures forall id <- grouped.Keys :: grouped[id] == Sorting.Sort(Earlier, Sums.Group(es, SessionOf, id))
  {
    hide Sorting.Sort, Sums.Group;
    grouped := GroupedInOrder(es);
    ghost var unsorted := grouped;
    var remaining := grouped.Keys;
    while remaining != {}
      invariant grouped.Keys == unsorted.Keys && remaining <= grouped.Keys
      invariant forall id <- remaining :: grouped[id] == unsorted[id]
      invariant forall id <- grouped.Keys - remaining :: grouped[id] == Sorting.Sort(Earlier, unsorted[id])
      decreases remaining
    {
      var id :| id in remaining;   // map iteration order
      grouped := grouped[id := Sorting.Sort(Earlier, grouped[id])];
      remaining := remaining - {id};
    }
  }

  lemma EarlierIsOrder()
    ensures Sorting.StrictOrder(Earlier)
  {
    hide Text.Less;
    forall a: UsageEntry
      ensures !Earlier(a, a)
    {
      Text.LessTotal(a.entryId, a.entryId);
    }
    forall a: UsageEntry, b: UsageEntry, c: UsageEntry | Earlier(a, b) && Earlier(b, c)
      ensures Earlier(a, c)
    {
      if a.occurredAt == b.occurredAt == c.occurredAt {
        Text.LessTransitive(a.entryId, b.entryId, c.entryId);
      }
    }
  }

  /**
   * The order in which a session's entries are listed does not change what is detected, as entry ids tell
   * entries apart.
   */
  lemma DetectionIgnoresOrder(es: seq<UsageEntry>, es': seq<UsageEntry>, id: string, r: ZombieRun, r': ZombieRun)
    requires multiset(es) == multiset(es')
    requires forall a, b | a in es && b in es :: a.entryId == b.entryId ==> a == b
    requires var g := Sorting.Sort(Earlier, Sums.Group(es, SessionOf, id));
      var g' := Sorting.Sort(Earlier, Sums.Group(es', SessionOf, id));
      IsBest(g, |g|, r) && IsBest(g', |g'|, r')
    ensures r == r'
  {
    hide Text.Less, Sorting.Sort, IsBest, Sorting.StrictOrder;
    var g, g' := Sums.Group(es, SessionOf, id), Sums.Group(es', SessionOf, id);
    Sums.GroupIgnoresOrder(es, es', SessionOf, id);
    GroupIsComparable(es, id);
    EarlierIsOrder();
    Sorting.SortIgnoresOrder(Earlier, g, g');
    BestIsUnique(Sorting.Sort(Earlier, g), r, r');
  }

  lemma GroupIsComparable(es: seq<UsageEntry>, id: string)
    requires forall a, b | a in es && b in es :: a.entryId == b.entryId ==> a == b
    ensures Sorting.Comparable(Earlier, Sums.Group(es, SessionOf, id))
  {
    hide Text.Less;
    GroupMembers(es, id);
    var g := Sums.Group(es, SessionOf, id);
    forall a, b | a in g && b in g
      ensures a == b || Earlier(a, b) || Earlier(b, a)
    {
      Text.LessTotal(a.entryId, b.entryId);
    }
  }

  /** A session's entries are those with its id, the earliest first, and of those at one time the smallest id first. */
  lemma SessionInOrder(es: seq<UsageEntry>, id: string)
    requires forall a, b | a in es && b in es :: a.entryId == b.entryId ==> a == b
    ensures var g := Sorting.Sort(Earlier, Sums.Group(es, SessionOf, id));
      && (forall e :: multiset(g)[e] == if e.sessionId == id then multiset(es)[e] else 0)
      && forall i, j :: 0 <= i < j < |g| ==>
           || g[i].occurredAt < g[j].occurredAt
           || (g[i].occurredAt == g[j].occurredAt && !Text.Less(g[j].entryId, g[i].entryId))
  {
    hide Text.Less, Sorting.Sort, Sorting.StrictOrder;
    EarlierIsOrder();
    GroupIsComparable(es, id);
    Sorting.SortSorts(Earlier, Sums.Group(es, SessionOf, id));
    forall e: UsageEntry
      ensures multiset(Sums.Group(es, SessionOf, id))[e] == if e.sessionId == id then multiset(es)[e] else 0
    {
      Sums.GroupCounts(es, SessionOf, id, e);
    }
  }

  /** A run is stalled exactly when it has five entries at least, no success, and no two progress markers. */
  lemma StalledIff(es: seq<UsageEntry>, s: int, e: int)
    requires IsRun(es, s, e)
    ensures IsStalled(es, s, e) <==>
      && e - s >= 5
      && (forall i :: s <= i < e ==> !Succeeded(es[i]))
      && forall i, j :: s <= i < j < e && Progress(es[i]) != "" && Progress(es[j]) != "" ==>
           Progress(es[i]) == Progress(es[j])
  {
    hide Succeeded, Progress, Signature, Markers;
    MarkersAgree(es[s..e]);
    assert forall i :: s <= i < e ==> es[i] == es[s..e][i - s];
    assert forall i :: 0 <= i < e - s ==> es[s..e][i] == es[s + i];
  }

  lemma MarkersAgree(part: seq<UsageEntry>)
    ensures |Markers(part)| <= 1 <==>
      forall i, j :: 0 <= i < j < |part| && Progress(part[i]) != "" && Progress(part[j]) != "" ==>
        Progress(part[i]) == Progress(part[j])
  {
    hide Progress;
    if |Markers(part)| <= 1 {
      forall i, j | 0 <= i < j < |part| && Progress(part[i]) != "" && Progress(part[j]) != ""
        ensures Progress(part[i]) == Progress(part[j])
      {
        OneAtMost(Markers(part), Progress(part[i]), Progress(part[j]));
      }
    } else {
      var x, y := TwoOf(Markers(part));
      var i :| 0 <= i < |part| && Progress(part[i]) == x;
      var j :| 0 <= j < |part| && Progress(part[j]) == y;
    }
  }

  lemma OneAtMost(s: set<string>, x: string, y: string)
    requires |s| <= 1 && x in s && y in s
    ensures x == y
  {
    var rest := s - {x};
    assert |rest| == 0 && y !in rest;
  }

  lemma TwoOf(s: set<string>) returns (x: string, y: string)
    requires |s| > 1
    ensures x in s && y in s && x != y
  {
    x :| x in s;
    var rest := s - {x};
    assert |rest| > 0;
    y :| y in rest;
  }

  lemma GroupMembers(es: seq<UsageEntry>, id: string)
    ensures forall e <- Sums.Group(es, SessionOf, id) :: e in es
  {
    forall e <- Sums.Group(es, SessionOf, id)
      ensures e in es
    {
      Sums.GroupCounts(es, SessionOf, id, e);
      assert e in multiset(Sums.Group(es, SessionOf, id));
      assert e in multiset(es);
    }
  }
}
