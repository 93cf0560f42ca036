/** Idempotent ingestion of conversation turns (InMemoryStore in store.ts). */
module Ingestion {
  import opened Wrappers

  datatype Result<+T> = Ok(value: T) | Err(problem: Problem)

  datatype Problem = NotFound | HistoryInvalid | LimitExceeded | RetentionExpired

  datatype Status = Active | Completed | Aborted | Failed

  datatype TurnState = TurnCompleted | TurnAborted | TurnFailed

  /** Times are instants in milliseconds. */
  datatype Turn = Turn(
    assistantId: string, turnId: string, sequence: int, state: TurnState, startedAt: int, endedAt: int,
    finishReason: string, transcript: seq<string>, toolCalls: seq<string>, timings: map<string, int>,
    conversationEndedAt: Option<int>, conversationStatus: Option<Status>)

  datatype StoredTurn = StoredTurn(
    turnId: string, sequence: int, state: TurnState, startedAt: int, endedAt: int,
    finishReason: string, transcript: seq<string>, toolCalls: seq<string>, timings: map<string, int>)

  datatype Policy = Policy(captureTranscript: bool, transcriptDays: Option<int>)

  datatype Summary = Summary(
    assistantId: string, endedAt: Option<int>, status: Status, turnCount: nat, lastTurnAt: Option<int>,
    aggregateTimings: map<string, int>, retentionUntil: Option<int>)

  datatype Record = Record(ownerId: string, summary: Summary, turns: seq<StoredTurn>)

  const DAY_MS := 86_400_000

  predicate ValidTurn(v: Turn) {
    v.turnId != "" && v.sequence >= 1 && v.assistantId != ""
  }

  predicate WithinLimits(v: Turn) {
    |v.transcript| <= 128 && |v.toolCalls| <= 64
  }

  /** What of a turn is stored: the transcript only when the policy captures it. */
  function Keep(p: Policy, v: Turn): StoredTurn {
    StoredTurn(v.turnId, v.sequence, v.state, v.startedAt, v.endedAt, v.finishReason,
               if p.captureTranscript then v.transcript else [], v.toolCalls, v.timings)
  }

  function StatusOf(v: Turn): Status {
    match v.conversationStatus
    case Some(status) => status
    case None => match v.state
      case TurnCompleted => Completed
      case TurnAborted => Aborted
      case TurnFailed => Failed
  }

  function RetentionOf(p: Policy, v: Turn): Option<int> {
    if p.captureTranscript && p.transcriptDays.Some? && StatusOf(v) != Active then
      Some((if v.conversationEndedAt.Some? then v.conversationEndedAt.value else v.endedAt)
           + p.transcriptDays.value * DAY_MS)
    else None
  }

  /** The later of two instants, where none is earliest. */
  function Later(a: Option<int>, b: Option<int>): Option<int> {
    if b == None then a else if a == None || b.value > a.value then b else a
  }

  predicate HasTurn(r: Record, turnId: string) {
    exists i :: 0 <= i < |r.turns| && r.turns[i].turnId == turnId
  }

  predicate HasSequence(r: Record, sequence: int) {
    exists i :: 0 <= i < |r.turns| && r.turns[i].sequence == sequence
  }

  predicate HasTurnAt(r: Record, turnId: string, sequence: int) {
    exists i :: 0 <= i < |r.turns| && r.turns[i].turnId == turnId && r.turns[i].sequence == sequence
  }

  function NewSummary(p: Policy, v: Turn): Summary {
    Summary(v.assistantId, v.conversationEndedAt, StatusOf(v), 0, None, map[], RetentionOf(p, v))
  }

  function Extend(p: Policy, s: Summary, v: Turn): Summary {
    s.(turnCount := s.turnCount + 1,
       lastTurnAt := Later(s.lastTurnAt, Some(v.endedAt)),
       endedAt := Later(s.endedAt, v.conversationEndedAt),
       status := StatusOf(v),
       retentionUntil := Later(s.retentionUntil, RetentionOf(p, v)),
       aggregateTimings := s.aggregateTimings + v.timings)
  }

  function Append(p: Policy, r: Record, v: Turn): Record {
    r.(summary := Extend(p, r.summary, v), turns := r.turns + [Keep(p, v)])
  }

  /** ingestConversationTurn on the conversation's record, if it has one; `owner` owns the turn's assistant. */
  function Ingest(p: Policy, owner: string, existing: Option<Record>, v: Turn): Result<Record> {
    if !ValidTurn(v) then Err(HistoryInvalid)
    else if !WithinLimits(v) then Err(LimitExceeded)
    else match existing
      case None => Ok(Append(p, Record(owner, NewSummary(p, v), []), v))
      case Some(r) =>
        if r.ownerId != owner || r.summary.assistantId != v.assistantId then Err(NotFound)
        else if HasTurn(r, v.turnId) then
          if HasTurnAt(r, v.turnId, v.sequence) then Ok(r) else Err(HistoryInvalid)
        else if HasSequence(r, v.sequence) then Err(HistoryInvalid)
        else Ok(Append(p, r, v))
  }

  // ----------------------------------------------- what a set of turns amounts to

  /** `m` is the greatest of the values the turns in `turns` give. */
  ghost predicate IsLatest(m: Option<int>, turns: set<Turn>, f: Turn -> Option<int>) {
    && (m.Some? ==> exists v :: v in turns && f(v) == m)
    && forall v :: v in turns && f(v).Some? ==> m.Some? && f(v).value <= m.value
  }

  lemma LatestIsUnique(m: Option<int>, n: Option<int>, turns: set<Turn>, f: Turn -> Option<int>)
    requires IsLatest(m, turns, f) && IsLatest(n, turns, f)
    ensures m == n
  {
  }

  lemma LaterIsLatest(m: Option<int>, turns: set<Turn>, v: Turn, f: Turn -> Option<int>)
    requires IsLatest(m, turns, f)
    ensures IsLatest(Later(m, f(v)), turns + {v}, f)
  {
    var r := Later(m, f(v));
    if r.Some? {
      if r == f(v) {
        assert v in turns + {v};
      } else {
        var u :| u in turns && f(u) == m;
        assert u in turns + {v};
      }
    }
  }

  ghost predicate DistinctSequences(turns: seq<StoredTurn>) {
    forall i, j :: 0 <= i < j < |turns| ==> turns[i].sequence != turns[j].sequence
  }

  /** The stored turns are exactly those of the set, once each. */
  ghost predicate Stores(p: Policy, turns: seq<StoredTurn>, delivered: set<Turn>) {
    && DistinctSequences(turns) && |turns| == |delivered|
    && (forall v :: v in delivered ==> Keep(p, v) in turns)
    && (forall t :: t in turns ==> exists v :: v in delivered && Keep(p, v) == t)
  }

  /** The record depends on the delivered set only, not on the order of delivery. */
  ghost predicate Reflects(p: Policy, r: Record, delivered: set<Turn>) {
    && Stores(p, r.turns, delivered)
    && r.summary.turnCount == |delivered|
    && IsLatest(r.summary.lastTurnAt, delivered, (v: Turn) => Some(v.endedAt))
    && IsLatest(r.summary.endedAt, delivered, (v: Turn) => v.conversationEndedAt)
    && IsLatest(r.summary.retentionUntil, delivered, (v: Turn) => RetentionOf(p, v))
  }

  /** Distinct turns have distinct ids and distinct sequence numbers. */
  ghost predicate Consistent(turns: set<Turn>, assistantId: string) {
    && (forall v :: v in turns ==> ValidTurn(v) && WithinLimits(v) && v.assistantId == assistantId)
    && (forall a, b :: a in turns && b in turns && (a.turnId == b.turnId || a.sequence == b.sequence) ==> a == b)
  }

  lemma AppendStores(p: Policy, turns: seq<StoredTurn>, delivered: set<Turn>, v: Turn)
    requires Stores(p, turns, delivered) && v !in delivered
    requires forall t :: t in turns ==> t.sequence != v.sequence
    ensures Stores(p, turns + [Keep(p, v)], delivered + {v})
  {
    var longer := turns + [Keep(p, v)];
    assert longer[|turns|] == Keep(p, v);
    forall t | t in longer
      ensures exists u :: u in delivered + {v} && Keep(p, u) == t
    {
      if t in turns {
        var u :| u in delivered && Keep(p, u) == t;
        assert u in delivered + {v};
      } else {
        assert v in delivered + {v};
      }
    }
  }

  lemma AppendReflects(p: Policy, r: Record, delivered: set<Turn>, v: Turn)
    requires Reflects(p, r, delivered) && v !in delivered
    requires forall t :: t in r.turns ==> t.sequence != v.sequence
    ensures Reflects(p, Append(p, r, v), delivered + {v})
  {
    AppendStores(p, r.turns, delivered, v);
    LaterIsLatest(r.summary.lastTurnAt, delivered, v, (u: Turn) => Some(u.endedAt));
    LaterIsLatest(r.summary.endedAt, delivered, v, (u: Turn) => u.conversationEndedAt);
    LaterIsLatest(r.summary.retentionUntil, delivered, v, (u: Turn) => RetentionOf(p, u));
  }

  lemma FirstReflects(p: Policy, owner: string, v: Turn)
    ensures Reflects(p, Append(p, Record(owner, NewSummary(p, v), []), v), {v})
  {
    var r := Append(p, Record(owner, NewSummary(p, v), []), v);
    assert r.turns == [Keep(p, v)];
    FirstStores(p, v);
    OnlyLatest(v, (u: Turn) => Some(u.endedAt));
    OnlyLatest(v, (u: Turn) => u.conversationEndedAt);
    OnlyLatest(v, (u: Turn) => RetentionOf(p, u));
  }

  lemma FirstStores(p: Policy, v: Turn)
    ensures Stores(p, [Keep(p, v)], {v})
  {
    assert v in {v};
  }

  lemma OnlyLatest(v: Turn, f: Turn -> Option<int>)
    ensures IsLatest(f(v), {v}, f)
  {
    assert v in {v};
  }

  /** A delivery of a new turn is stored, a redelivery changes nothing. */
  lemma IngestReflects(p: Policy, r: Record, delivered: set<Turn>, v: Turn)
    requires Reflects(p, r, delivered) && Consistent(delivered + {v}, v.assistantId)
    requires r.summary.assistantId == v.assistantId
    ensures var next := Ingest(p, r.ownerId, Some(r), v);
      && next.Ok? && Reflects(p, next.value, delivered + {v})
      && next.value.ownerId == r.ownerId && next.value.summary.assistantId == v.assistantId
      && (v in delivered ==> next.value == r)
  {
    assert v in delivered + {v};
    if v in delivered {
      assert delivered + {v} == delivered;
      RedeliveryIsKnown(p, r, delivered, v);
    } else {
      NewTurnIsUnknown(p, r, delivered, v);
      AppendReflects(p, r, delivered, v);
    }
  }

  /** Two turns that agree on neither id nor sequence number, or on both. */
  predicate Fits(u: Turn, v: Turn) {
    u.turnId == v.turnId <==> u.sequence == v.sequence
  }

  lemma DeliveredAs(p: Policy, turns: seq<StoredTurn>, delivered: set<Turn>, i: nat) returns (u: Turn)
    requires Stores(p, turns, delivered) && i < |turns|
    ensures u in delivered && u.turnId == turns[i].turnId && u.sequence == turns[i].sequence
  {
    assert turns[i] in turns;
    u :| u in delivered && Keep(p, u) == turns[i];
  }

  lemma StoredAs(p: Policy, turns: seq<StoredTurn>, delivered: set<Turn>, u: Turn) returns (i: nat)
    requires Stores(p, turns, delivered) && u in delivered
    ensures i < |turns| && turns[i].turnId == u.turnId && turns[i].sequence == u.sequence
  {
    assert Keep(p, u) in turns;
    i :| 0 <= i < |turns| && turns[i] == Keep(p, u);
  }

  /** A stored turn clashes with `v`: one of id and sequence number agrees, the other does not. */
  predicate Clashes(r: Record, v: Turn) {
    if HasTurn(r, v.turnId) then !HasTurnAt(r, v.turnId, v.sequence) else HasSequence(r, v.sequence)
  }

  lemma NoClashMeansFits(p: Policy, r: Record, delivered: set<Turn>, v: Turn, u: Turn)
    requires Stores(p, r.turns, delivered) && Consistent(delivered, r.summary.assistantId)
    requires u in delivered && !Clashes(r, v)
    ensures Fits(u, v)
  {
    var i := StoredAs(p, r.turns, delivered, u);
    if HasTurn(r, v.turnId) {
      var k :| 0 <= k < |r.turns| && r.turns[k].turnId == v.turnId && r.turns[k].sequence == v.sequence;
      var w := DeliveredAs(p, r.turns, delivered, k);
    }
  }

  lemma ClashMeansMisfit(p: Policy, r: Record, delivered: set<Turn>, v: Turn) returns (u: Turn)
    requires Stores(p, r.turns, delivered) && Clashes(r, v)
    ensures u in delivered && !Fits(u, v)
  {
    var k :| 0 <= k < |r.turns| && if HasTurn(r, v.turnId) then r.turns[k].turnId == v.turnId
                                   else r.turns[k].sequence == v.sequence;
    u := DeliveredAs(p, r.turns, delivered, k);
  }

  /** A delivery is refused exactly for these reasons, an earlier one before a later one. */
  lemma RefusedExactly(p: Policy, owner: string, r: Record, delivered: set<Turn>, v: Turn)
    requires Stores(p, r.turns, delivered) && Consistent(delivered, r.summary.assistantId)
    ensures var result := Ingest(p, owner, Some(r), v);
      if v.turnId == "" || v.assistantId == "" || v.sequence < 1 then result == Err(HistoryInvalid)
      else if |v.transcript| > 128 || |v.toolCalls| > 64 then result == Err(LimitExceeded)
      else if owner != r.ownerId || v.assistantId != r.summary.assistantId then result == Err(NotFound)
      else if exists u :: u in delivered && !Fits(u, v) then result == Err(HistoryInvalid)
      else result.Ok?
  {
    if Clashes(r, v) {
      var u := ClashMeansMisfit(p, r, delivered, v);
    } else {
      forall u | u in delivered
        ensures Fits(u, v)
      {
        NoClashMeansFits(p, r, delivered, v, u);
      }
    }
  }

  /** A turn that is stored gives the conversation its status: its own word, or else how the turn ended. */
  lemma NewTurnSetsStatus(p: Policy, owner: string, existing: Option<Record>, v: Turn)
    requires Ingest(p, owner, existing, v).Ok? && Some(Ingest(p, owner, existing, v).value) != existing
    ensures var status := Ingest(p, owner, existing, v).value.summary.status;
      if v.conversationStatus.Some? then status == v.conversationStatus.value
      else
        && (status == Completed <==> v.state == TurnCompleted)
        && (status == Aborted <==> v.state == TurnAborted)
        && (status == Failed <==> v.state == TurnFailed)
  {
  }

  lemma RedeliveryIsKnown(p: Policy, r: Record, delivered: set<Turn>, v: Turn)
    requires Stores(p, r.turns, delivered) && v in delivered
    ensures HasTurn(r, v.turnId) && HasTurnAt(r, v.turnId, v.sequence)
  {
    var i :| 0 <= i < |r.turns| && r.turns[i] == Keep(p, v);
  }

  lemma NewTurnIsUnknown(p: Policy, r: Record, delivered: set<Turn>, v: Turn)
    requires Stores(p, r.turns, delivered) && v !in delivered && Consistent(delivered + {v}, v.assistantId)
    ensures forall t :: t in r.turns ==> t.turnId != v.turnId && t.sequence != v.sequence
    ensures !HasTurn(r, v.turnId) && !HasSequence(r, v.sequence)
  {
    forall t | t in r.turns
      ensures t.turnId != v.turnId && t.sequence != v.sequence
    {
      var u :| u in delivered && Keep(p, u) == t;
      assert u in delivered + {v} && v in delivered + {v};
    }
  }

  // ------------------------------------------------------------------- deliveries

  /** All deliveries of one conversation, in order; a refused one leaves the record as it was. */
  function IngestAll(p: Policy, owner: string, deliveries: seq<Turn>): Option<Record> {
    if deliveries == [] then None
    else
      var before := IngestAll(p, owner, deliveries[..|deliveries| - 1]);
      match Ingest(p, owner, before, deliveries[|deliveries| - 1])
      case Ok(r) => Some(r)
      case Err(_) => before
  }

  function SetOf(deliveries: seq<Turn>): set<Turn> {
    set v | v in deliveries
  }

  lemma {:induction false} DeliveriesReflect(p: Policy, owner: string, assistantId: string, deliveries: seq<Turn>)
    requires deliveries != [] && Consistent(SetOf(deliveries), assistantId)
    ensures var r := IngestAll(p, owner, deliveries);
      && r.Some? && r.value.ownerId == owner && r.value.summary.assistantId == assistantId
      && Reflects(p, r.value, SetOf(deliveries))
  {
    var init, last := deliveries[..|deliveries| - 1], deliveries[|deliveries| - 1];
    assert SetOf(deliveries) == SetOf(init) + {last};
    assert last in SetOf(deliveries);
    if init == [] {
      FirstReflects(p, owner, last);
      assert SetOf(deliveries) == {last};
    } else {
      DeliveriesReflect(p, owner, assistantId, init);
      IngestReflects(p, IngestAll(p, owner, init).value, SetOf(init), last);
    }
  }

  // --------------------------------------------------------------- the sorted view

  function Insert(t: StoredTurn, sorted: seq<StoredTurn>): seq<StoredTurn> {
    if sorted == [] || t.sequence < sorted[0].sequence then [t] + sorted
    else [sorted[0]] + Insert(t, sorted[1..])
  }

  /** The turns as conversationDetail returns them: stably sorted by sequence. */
  function SortTurns(turns: seq<StoredTurn>): seq<StoredTurn> {
    if turns == [] then [] else Insert(turns[|turns| - 1], SortTurns(turns[..|turns| - 1]))
  }

  ghost predicate Increasing(turns: seq<StoredTurn>) {
    forall i, j :: 0 <= i < j < |turns| ==> turns[i].sequence < turns[j].sequence
  }

  lemma {:induction false} InsertSorts(t: StoredTurn, sorted: seq<StoredTurn>)
    requires Increasing(sorted) && forall u :: u in sorted ==> u.sequence != t.sequence
    ensures Increasing(Insert(t, sorted))
    ensures forall u :: u in Insert(t, sorted) <==> u == t || u in sorted
  {
    if sorted != [] && t.sequence >= sorted[0].sequence {
      InsertSorts(t, sorted[1..]);
      var rest := Insert(t, sorted[1..]);
      forall i | 0 <= i < |rest|
        ensures sorted[0].sequence < rest[i].sequence
      {
        assert rest[i] in rest;
      }
    }
  }

  lemma {:induction false} SortTurnsSorts(turns: seq<StoredTurn>)
    requires DistinctSequences(turns)
    ensures Increasing(SortTurns(turns))
    ensures forall u :: u in SortTurns(turns) <==> u in turns
  {
    if turns != [] {
      var n := |turns| - 1;
      SortTurnsSorts(turns[..n]);
      assert forall u :: u in turns <==> u in turns[..n] || u == turns[n];
      InsertSorts(turns[n], SortTurns(turns[..n]));
    }
  }

  lemma {:induction false} IncreasingIsUnique(a: seq<StoredTurn>, b: seq<StoredTurn>)
    requires Increasing(a) && Increasing(b) && forall u :: u in a <==> u in b
    ensures a == b
  {
    assert |b| > 0 ==> b[0] in b;
    if a != [] {
      assert a[0] in a && a[0] == b[0];
      forall u
        ensures u in a[1..] <==> u in b[1..]
      {
        SplitMember(a, u);
        SplitMember(b, u);
      }
      IncreasingIsUnique(a[1..], b[1..]);
    }
  }

  lemma SplitMember(a: seq<StoredTurn>, u: StoredTurn)
    requires Increasing(a) && a != []
    ensures u in a[1..] <==> u in a && u != a[0]
  {
  }

  lemma {:induction false} InsertLength(t: StoredTurn, sorted: seq<StoredTurn>)
    ensures |Insert(t, sorted)| == |sorted| + 1
  {
    if sorted != [] && t.sequence >= sorted[0].sequence {
      InsertLength(t, sorted[1..]);
    }
  }

  lemma {:induction false} SortTurnsLength(turns: seq<StoredTurn>)
    ensures |SortTurns(turns)| == |turns|
  {
    if turns != [] {
      SortTurnsLength(turns[..|turns| - 1]);
      InsertLength(turns[|turns| - 1], SortTurns(turns[..|turns| - 1]));
    }
  }

  /** The stored turn tells all about the delivered one, but of its transcript only what the policy lets it. */
  predicate Shows(p: Policy, t: StoredTurn, v: Turn) {
    && t.turnId == v.turnId && t.sequence == v.sequence && t.state == v.state
    && t.startedAt == v.startedAt && t.endedAt == v.endedAt && t.finishReason == v.finishReason
    && t.toolCalls == v.toolCalls && t.timings == v.timings
    && t.transcript == if p.captureTranscript then v.transcript else []
  }

  /** After any deliveries the detail view shows each distinct turn once, in order, and nothing else. */
  lemma ViewShowsTurns(p: Policy, owner: string, assistantId: string, deliveries: seq<Turn>, r: Record)
    requires deliveries != [] && Consistent(SetOf(deliveries), assistantId)
    requires IngestAll(p, owner, deliveries) == Some(r)
    ensures |SortTurns(r.turns)| == |SetOf(deliveries)| && Increasing(SortTurns(r.turns))
    ensures forall v :: v in deliveries ==> exists t :: t in SortTurns(r.turns) && Shows(p, t, v)
    ensures forall t :: t in SortTurns(r.turns) ==> exists v :: v in deliveries && Shows(p, t, v)
  {
    DeliveriesReflect(p, owner, assistantId, deliveries);
    SortTurnsSorts(r.turns);
    SortTurnsLength(r.turns);
    forall v | v in deliveries
      ensures exists t :: t in SortTurns(r.turns) && Shows(p, t, v)
    {
      assert v in SetOf(deliveries) && Keep(p, v) in r.turns && Shows(p, Keep(p, v), v);
    }
    forall t | t in SortTurns(r.turns)
      ensures exists v :: v in deliveries && Shows(p, t, v)
    {
      var v :| v in SetOf(deliveries) && Keep(p, v) == t;
      assert v in deliveries && Shows(p, t, v);
    }
  }

  /** Any two orders of delivery, with any redeliveries, end with the same conversation. */
  lemma OrderDoesNotMatter(p: Policy, owner: string, assistantId: string, a: seq<Turn>, b: seq<Turn>)
    requires a != [] && SetOf(a) == SetOf(b) && Consistent(SetOf(a), assistantId)
    ensures var r, s := IngestAll(p, owner, a), IngestAll(p, owner, b);
      && r.Some? && s.Some?
      && SortTurns(r.value.turns) == SortTurns(s.value.turns)
      && r.value.summary.turnCount == s.value.summary.turnCount == |SetOf(a)|
      && r.value.summary.lastTurnAt == s.value.summary.lastTurnAt
      && r.value.summary.endedAt == s.value.summary.endedAt
      && r.value.summary.retentionUntil == s.value.summary.retentionUntil
  {
    assert a[0] in SetOf(a);
    DeliveriesReflect(p, owner, assistantId, a);
    DeliveriesReflect(p, owner, assistantId, b);
    var r, s := IngestAll(p, owner, a).value, IngestAll(p, owner, b).value;
    LatestIsUnique(r.summary.lastTurnAt, s.summary.lastTurnAt, SetOf(a), (v: Turn) => Some(v.endedAt));
    LatestIsUnique(r.summary.endedAt, s.summary.endedAt, SetOf(a), (v: Turn) => v.conversationEndedAt);
    LatestIsUnique(r.summary.retentionUntil, s.summary.retentionUntil, SetOf(a), (v: Turn) => RetentionOf(p, v));
    SameSortedTurns(p, r.turns, s.turns, SetOf(a));
  }

  lemma SameSortedTurns(p: Policy, a: seq<StoredTurn>, b: seq<StoredTurn>, delivered: set<Turn>)
    requires Stores(p, a, delivered) && Stores(p, b, delivered)
    ensures SortTurns(a) == SortTurns(b)
  {
    SortTurnsSorts(a);
    SortTurnsSorts(b);
    IncreasingIsUnique(SortTurns(a), SortTurns(b));
  }
}
