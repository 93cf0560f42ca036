/** Retention, tombstones and delete jobs of the conversation store (InMemoryStore in store.ts). */
module Retention {
  import opened Ingestion
  import opened Wrappers

  datatype Tombstone = Tombstone(ownerId: string, deletedAt: int, expiresAt: int)

  datatype JobStatus = Queued | Done | JobFailed(errorCode: string)

  /** `Done` is the source's "completed"; a job is never seen "running", since its run is one step. */
  datatype Job = Job(ownerId: string, conversationId: string, attempts: nat, status: JobStatus)

  datatype Store = Store(
    conversations: map<string, Record>, tombstones: map<string, Tombstone>, jobs: map<string, Job>)

  const EMPTY := Store(map[], map[], map[])

  const MAX_ATTEMPTS := 3

  /** The constructor never lets the lifetime of a tombstone drop below a minute. */
  predicate ValidTtl(ttl: int) {
    ttl >= 60_000
  }

  // ----------------------------------------------------------------------- purging

  predicate IsExpired(r: Record, now: int) {
    r.summary.retentionUntil.Some? && r.summary.retentionUntil.value <= now
  }

  function ExpiredIds(s: Store, now: int): set<string> {
    set id | id in s.conversations && IsExpired(s.conversations[id], now)
  }

  /** The tombstones of the conversations `ids`. */
  function Graves(living: map<string, Record>, ids: set<string>, deletedAt: int, expiresAt: int)
    : map<string, Tombstone>
  {
    map id | id in ids && id in living :: Tombstone(living[id].ownerId, deletedAt, expiresAt)
  }

  /** The store after the conversations `done` of `living` have been turned into tombstones. */
  ghost predicate Marked(
    conversations: map<string, Record>, tombstones: map<string, Tombstone>,
    living: map<string, Record>, stones: map<string, Tombstone>, done: set<string>, at: int, until: int)
  {
    conversations == living - done && tombstones == stones + Graves(living, done, at, until)
  }

  lemma NoGraves(living: map<string, Record>, stones: map<string, Tombstone>, at: int, until: int)
    ensures Marked(living, stones, living, stones, {}, at, until)
  {
  }

  /** A sweep has handled `done`, everything to be buried is there or still ahead. */
  ghost predicate Sweeping(todo: set<string>, done: set<string>, gone: set<string>, all: set<string>) {
    done <= gone && gone <= todo + done && todo <= all && todo !! done
  }

  lemma SweepStep(todo: set<string>, done: set<string>, gone: set<string>, all: set<string>, id: string)
    requires Sweeping(todo, done, gone, all) && id in todo
    ensures id in all && id !in done && |done + {id}| == |done| + 1
    ensures id in gone ==> Sweeping(todo - {id}, done + {id}, gone, all)
    ensures id !in gone ==> Sweeping(todo - {id}, done, gone, all)
  {
  }

  lemma SweepDone(done: set<string>, gone: set<string>, all: set<string>)
    requires Sweeping({}, done, gone, all)
    ensures done == gone
  {
  }

  lemma OneMoreGrave(living: map<string, Record>, stones: map<string, Tombstone>, done: set<string>, id: string,
                     at: int, until: int)
    requires id in living && id !in done
    ensures (stones + Graves(living, done, at, until))[id := Tombstone(living[id].ownerId, at, until)]
         == stones + Graves(living, done + {id}, at, until)
    ensures (living - done) - {id} == living - (done + {id})
    ensures id in living - done && (living - done)[id] == living[id]
  {
  }

  /** Every expired conversation becomes a tombstone, then outlived tombstones go. */
  function Purge(s: Store, ttl: int, now: int): Store {
    var gone := ExpiredIds(s, now);
    var marked := s.tombstones + Graves(s.conversations, gone, now, now + ttl);
    Store(s.conversations - gone, map id | id in marked && marked[id].expiresAt > now :: marked[id], s.jobs)
  }

  // -------------------------------------------------------------------- operations

  datatype Read = Found(record: Record) | Expired | Missing

  function Get(s: Store, owner: string, id: string, now: int): Read {
    if id in s.conversations && s.conversations[id].ownerId == owner then Found(s.conversations[id])
    else if id in s.tombstones && s.tombstones[id].ownerId == owner && s.tombstones[id].expiresAt > now then Expired
    else Missing
  }

  predicate IsJobFor(job: Job, owner: string, id: string) {
    job.ownerId == owner && job.conversationId == id
  }

  predicate HasJob(s: Store, owner: string, id: string) {
    exists j :: j in s.jobs && IsJobFor(s.jobs[j], owner, id)
  }

  /** A failed job with attempts left is queued again by a repeated request. */
  function Requeue(job: Job): Job {
    if job.status.JobFailed? && job.attempts < MAX_ATTEMPTS then job.(status := Queued) else job
  }

  function RequeueFor(s: Store, owner: string, id: string): Store {
    s.(jobs := map j | j in s.jobs :: if IsJobFor(s.jobs[j], owner, id) then Requeue(s.jobs[j]) else s.jobs[j])
  }

  /** requestConversationDelete after its purge; `newId` is the new job's random id. */
  function Request(s: Store, owner: string, id: string, newId: string): Store {
    if HasJob(s, owner, id) then RequeueFor(s, owner, id)
    else if id in s.conversations && s.conversations[id].ownerId == owner then
      s.(jobs := s.jobs[newId := Job(owner, id, 0, Queued)])
    else s
  }

  /** runConversationDeleteJob. */
  function RunJob(s: Store, ttl: int, j: string, now: int): Store {
    if j !in s.jobs || s.jobs[j].status == Done then s
    else
      var job := s.jobs[j];
      if job.attempts >= MAX_ATTEMPTS then
        s.(jobs := s.jobs[j := job.(status := JobFailed("DELETE_RETRY_LIMIT"))])
      else
        var tried := job.(attempts := job.attempts + 1);
        var id := job.conversationId;
        if id in s.conversations then
          if s.conversations[id].ownerId != job.ownerId then
            s.(jobs := s.jobs[j := tried.(status := JobFailed("NOT_FOUND"))])
          else
            Store(s.conversations - {id}, s.tombstones[id := Tombstone(job.ownerId, now, now + ttl)],
                  s.jobs[j := tried.(status := Done)])
        else if id in s.tombstones && s.tombstones[id].ownerId == job.ownerId then
          s.(jobs := s.jobs[j := tried.(status := Done)])
        else s.(jobs := s.jobs[j := tried.(status := JobFailed("NOT_FOUND"))])
  }

  /** ingestConversationTurn into this conversation. */
  function IngestInto(s: Store, p: Policy, owner: string, id: string, v: Turn): Store {
    match Ingest(p, owner, if id in s.conversations then Some(s.conversations[id]) else None, v)
    case Ok(r) => s.(conversations := s.conversations[id := r])
    case Err(_) => s
  }

  datatype Op =
    | Ingests(policy: Policy, owner: string, id: string, turn: Turn)
    | Purges
    | Requests(owner: string, id: string, newId: string)
    | Runs(job: string)
    | Reads(owner: string, id: string)

  /** Every call happens at one instant; reads and requests purge first. */
  function Do(s: Store, ttl: int, op: Op, now: int): Store {
    match op
    case Ingests(p, owner, id, v) => IngestInto(s, p, owner, id, v)
    case Purges => Purge(s, ttl, now)
    case Requests(owner, id, newId) => Request(Purge(s, ttl, now), owner, id, newId)
    case Runs(j) => RunJob(s, ttl, j, now)
    case Reads(_, _) => Purge(s, ttl, now)
  }

  // ------------------------------------------------------------------------- jobs

  ghost predicate JobsSound(s: Store) {
    && (forall j :: j in s.jobs ==> JobOk(s.jobs[j]))
    && (forall j, k :: j in s.jobs && k in s.jobs && IsJobFor(s.jobs[j], s.jobs[k].ownerId, s.jobs[k].conversationId)
          ==> j == k)
  }

  /** Random ids do not repeat. */
  predicate FreshFor(s: Store, op: Op) {
    op.Requests? ==> op.newId !in s.jobs
  }

  lemma RequestKeepsJobs(s: Store, owner: string, id: string, newId: string)
    requires JobsSound(s) && newId !in s.jobs
    ensures JobsSound(Request(s, owner, id, newId))
  {
    var t := Request(s, owner, id, newId);
    forall j, k | j in t.jobs && k in t.jobs && IsJobFor(t.jobs[j], t.jobs[k].ownerId, t.jobs[k].conversationId)
      ensures j == k
    {
      if !HasJob(s, owner, id) {
        assert j in s.jobs ==> !IsJobFor(s.jobs[j], owner, id);
        assert k in s.jobs ==> !IsJobFor(s.jobs[k], owner, id);
      }
    }
  }

  predicate JobOk(job: Job) {
    job.attempts <= MAX_ATTEMPTS && (job.status == Queued ==> job.attempts < 3)
  }

  lemma RunChangesOneJob(s: Store, ttl: int, j: string, now: int)
    requires j in s.jobs && JobOk(s.jobs[j])
    ensures var t := RunJob(s, ttl, j, now);
      && j in t.jobs && t.jobs == s.jobs[j := t.jobs[j]] && JobOk(t.jobs[j])
      && IsJobFor(t.jobs[j], s.jobs[j].ownerId, s.jobs[j].conversationId)
  {
  }

  lemma ReplacedJob(s: Store, t: Store, j: string)
    requires JobsSound(s) && j in s.jobs && j in t.jobs && t.jobs == s.jobs[j := t.jobs[j]] && JobOk(t.jobs[j])
    requires IsJobFor(t.jobs[j], s.jobs[j].ownerId, s.jobs[j].conversationId)
    ensures JobsSound(t)
  {
  }

  lemma RunKeepsJob(s: Store, ttl: int, j: string, now: int)
    requires JobsSound(s)
    ensures JobsSound(RunJob(s, ttl, j, now))
  {
    if j in s.jobs {
      RunChangesOneJob(s, ttl, j, now);
      ReplacedJob(s, RunJob(s, ttl, j, now), j);
    }
  }

  /** At most one job per owner and conversation, and at most three attempts each. */
  lemma StepKeepsJobs(s: Store, ttl: int, op: Op, now: int)
    requires JobsSound(s) && FreshFor(s, op)
    ensures JobsSound(Do(s, ttl, op, now))
  {
    match op
    case Requests(owner, id, newId) => RequestKeepsJobs(Purge(s, ttl, now), owner, id, newId);
    case Runs(j) => RunKeepsJob(s, ttl, j, now);
    case _ =>
  }

  /** A job keeps its owner and conversation, its attempts never go back, and completed is for ever. */
  lemma JobsOnlyAdvance(s: Store, ttl: int, op: Op, now: int, j: string)
    requires FreshFor(s, op) && j in s.jobs
    ensures var t := Do(s, ttl, op, now);
      && j in t.jobs && IsJobFor(t.jobs[j], s.jobs[j].ownerId, s.jobs[j].conversationId)
      && s.jobs[j].attempts <= t.jobs[j].attempts
      && (s.jobs[j].status == Done ==> t.jobs[j] == s.jobs[j])
  {
  }

  // ------------------------------------------------------------------------- runs

  datatype Event = Event(op: Op, now: int)

  predicate IsRun(s: Store, ttl: int, events: seq<Event>, start: int)
    decreases events
  {
    events == [] ||
    (start <= events[0].now && FreshFor(s, events[0].op)
     && IsRun(Do(s, ttl, events[0].op, events[0].now), ttl, events[1..], events[0].now))
  }

  function Final(s: Store, ttl: int, events: seq<Event>): Store
    decreases events
  {
    if events == [] then s else Final(Do(s, ttl, events[0].op, events[0].now), ttl, events[1..])
  }

  function EndOf(events: seq<Event>, start: int): int {
    if events == [] then start else events[|events| - 1].now
  }

  lemma {:induction false} RunKeepsJobs(s: Store, ttl: int, events: seq<Event>, start: int)
    requires JobsSound(s) && IsRun(s, ttl, events, start)
    ensures JobsSound(Final(s, ttl, events))
    decreases events
  {
    if events != [] {
      StepKeepsJobs(s, ttl, events[0].op, events[0].now);
      RunKeepsJobs(Do(s, ttl, events[0].op, events[0].now), ttl, events[1..], events[0].now);
    }
  }

  lemma {:induction false} CompletedIsAbsorbing(s: Store, ttl: int, events: seq<Event>, start: int, j: string)
    requires IsRun(s, ttl, events, start) && j in s.jobs && s.jobs[j].status == Done
    ensures j in Final(s, ttl, events).jobs && Final(s, ttl, events).jobs[j] == s.jobs[j]
    decreases events
  {
    if events != [] {
      JobsOnlyAdvance(s, ttl, events[0].op, events[0].now, j);
      CompletedIsAbsorbing(Do(s, ttl, events[0].op, events[0].now), ttl, events[1..], events[0].now, j);
    }
  }

  // -------------------------------------------------------------------- tombstones

  predicate Removes(s: Store, t: Store, id: string) {
    id in s.conversations && id !in t.conversations
  }

  /** Whatever removes a conversation leaves a tombstone of its owner lasting exactly the lifetime. */
  lemma RemovalLeavesTombstone(s: Store, ttl: int, op: Op, now: int, id: string)
    requires ValidTtl(ttl) && Removes(s, Do(s, ttl, op, now), id)
    ensures var t := Do(s, ttl, op, now);
      id in t.tombstones && t.tombstones[id] == Tombstone(s.conversations[id].ownerId, now, now + ttl)
  {
  }

  predicate Ingested(op: Op, id: string) {
    op.Ingests? && op.id == id
  }

  /** The conversation is gone and its tombstone stands, or has run out. */
  predicate Buried(s: Store, id: string, stone: Tombstone, now: int) {
    && id !in s.conversations
    && (id in s.tombstones ==> s.tombstones[id] == stone)
    && (id !in s.tombstones ==> stone.expiresAt <= now)
  }

  lemma StepKeepsBuried(s: Store, ttl: int, op: Op, before: int, now: int, id: string, stone: Tombstone)
    requires Buried(s, id, stone, before) && before <= now && !Ingested(op, id)
    ensures Buried(Do(s, ttl, op, now), id, stone, now)
  {
  }

  lemma {:induction false} RunKeepsBuried(s: Store, ttl: int, events: seq<Event>, start: int, id: string,
                                          stone: Tombstone)
    requires IsRun(s, ttl, events, start) && Buried(s, id, stone, start)
    requires forall i :: 0 <= i < |events| ==> !Ingested(events[i].op, id)
    ensures Buried(Final(s, ttl, events), id, stone, EndOf(events, start))
    decreases events
  {
    if events != [] {
      StepKeepsBuried(s, ttl, events[0].op, start, events[0].now, id, stone);
      RunKeepsBuried(Do(s, ttl, events[0].op, events[0].now), ttl, events[1..], events[0].now, id, stone);
    }
  }

  /**
   * After a removal, and until the id is ingested again, the owner's read says expired exactly while the
   * tombstone lasts, and missing from then on; anybody else's read says missing throughout.
   */
  lemma ReadAfterRemoval(s: Store, ttl: int, op: Op, removedAt: int, events: seq<Event>, id: string, reader: string,
                         now: int)
    requires ValidTtl(ttl) && Removes(s, Do(s, ttl, op, removedAt), id)
    requires IsRun(Do(s, ttl, op, removedAt), ttl, events, removedAt)
    requires forall i :: 0 <= i < |events| ==> !Ingested(events[i].op, id)
    requires EndOf(events, removedAt) <= now
    ensures var t := Purge(Final(Do(s, ttl, op, removedAt), ttl, events), ttl, now);
      Get(t, reader, id, now) ==
        if reader == s.conversations[id].ownerId && now < removedAt + ttl then Expired else Missing
  {
    var stone := Tombstone(s.conversations[id].ownerId, removedAt, removedAt + ttl);
    RemovalLeavesTombstone(s, ttl, op, removedAt, id);
    RunKeepsBuried(Do(s, ttl, op, removedAt), ttl, events, removedAt, id, stone);
    var last := Final(Do(s, ttl, op, removedAt), ttl, events);
    StepKeepsBuried(last, ttl, Purges, EndOf(events, removedAt), now, id, stone);
  }

  // ------------------------------------------------------------- retention over time

  /** A purge at `now` keeps exactly the conversations with no end of retention or a later one, as they are. */
  lemma PurgeKeepsExactly(s: Store, ttl: int, now: int, id: string)
    ensures id in Purge(s, ttl, now).conversations <==>
      id in s.conversations
      && (s.conversations[id].summary.retentionUntil == None || s.conversations[id].summary.retentionUntil.value > now)
    ensures id in Purge(s, ttl, now).conversations ==> Purge(s, ttl, now).conversations[id] == s.conversations[id]
  {
  }

  predicate Sweeps(op: Op) {
    op.Purges? || op.Requests? || op.Reads?
  }

  /** When the first sweep at or after `due` comes, if none before then the one of a read at `now`. */
  function FirstSweep(events: seq<Event>, due: int, now: int): int {
    if events == [] then now
    else if Sweeps(events[0].op) && events[0].now >= due then events[0].now
    else FirstSweep(events[1..], due, now)
  }

  /** Neither adds to the owner's conversation nor asks for its deletion. */
  predicate LeavesAlone(op: Op, owner: string, id: string) {
    && !Ingested(op, id)
    && (op.Requests? ==> op.owner != owner || op.id != id)
  }

  /** The conversation is stored for its owner and nobody is deleting it. */
  predicate Kept(s: Store, owner: string, id: string, r: Record) {
    && id in s.conversations && s.conversations[id] == r && r.ownerId == owner && !HasJob(s, owner, id)
  }

  lemma NoNewJob(s: Store, ttl: int, op: Op, now: int, owner: string, id: string)
    requires FreshFor(s, op) && !HasJob(s, owner, id) && LeavesAlone(op, owner, id)
    ensures !HasJob(Do(s, ttl, op, now), owner, id)
  {
    var t := Do(s, ttl, op, now);
    forall j | j in t.jobs
      ensures !IsJobFor(t.jobs[j], owner, id)
    {
      if j in s.jobs {
        JobsOnlyAdvance(s, ttl, op, now, j);
      }
    }
  }

  /** One call keeps the conversation, unless it sweeps when its retention is over. */
  lemma StepKeepsUntilDue(s: Store, ttl: int, op: Op, now: int, owner: string, id: string, r: Record)
    requires FreshFor(s, op) && Kept(s, owner, id, r) && LeavesAlone(op, owner, id)
    requires !Sweeps(op) || r.summary.retentionUntil == None || now < r.summary.retentionUntil.value
    ensures Kept(Do(s, ttl, op, now), owner, id, r)
  {
    NoNewJob(s, ttl, op, now, owner, id);
    PurgeKeepsExactly(s, ttl, now, id);
    if op.Runs? && op.job in s.jobs {
      assert !IsJobFor(s.jobs[op.job], owner, id);
    }
  }

  /** What the owner's read at `now` gives when retention ends at `due`. */
  function ReadWhenDue(r: Record, due: Option<int>, events: seq<Event>, ttl: int, now: int): Read {
    if due == None || now < due.value then Found(r)
    else if now < FirstSweep(events, due.value, now) + ttl then Expired else Missing
  }

  lemma {:induction false} ReadOverTime(s: Store, ttl: int, events: seq<Event>, start: int, owner: string, id: string,
                                        r: Record, now: int)
    requires ValidTtl(ttl) && IsRun(s, ttl, events, start) && EndOf(events, start) <= now && Kept(s, owner, id, r)
    requires forall i :: 0 <= i < |events| ==> LeavesAlone(events[i].op, owner, id)
    ensures Get(Purge(Final(s, ttl, events), ttl, now), owner, id, now)
         == ReadWhenDue(r, r.summary.retentionUntil, events, ttl, now)
    decreases events
  {
    var due := r.summary.retentionUntil;
    if events == [] {
      PurgeKeepsExactly(s, ttl, now, id);
      if due.Some? && due.value <= now {
        RemovalLeavesTombstone(s, ttl, Purges, now, id);
      }
    } else {
      var op, at, next := events[0].op, events[0].now, Do(s, ttl, events[0].op, events[0].now);
      TimeReaches(s, ttl, events, start);
      assert forall i :: 0 <= i < |events| - 1 ==> events[1..][i] == events[i + 1];
      if Sweeps(op) && due.Some? && due.value <= at {
        PurgeKeepsExactly(s, ttl, at, id);
        ReadAfterRemoval(s, ttl, op, at, events[1..], id, owner, now);
      } else {
        StepKeepsUntilDue(s, ttl, op, at, owner, id, r);
        ReadOverTime(next, ttl, events[1..], at, owner, id, r, now);
      }
    }
  }

  lemma {:induction false} TimeReaches(s: Store, ttl: int, events: seq<Event>, start: int)
    requires IsRun(s, ttl, events, start) && events != []
    ensures start <= events[0].now <= EndOf(events, start) && EndOf(events[1..], events[0].now) == EndOf(events, start)
    decreases events
  {
    if |events| > 1 {
      TimeReaches(Do(s, ttl, events[0].op, events[0].now), ttl, events[1..], events[0].now);
    }
  }

  /** A turn that leaves its conversation active says nothing about its end. */
  predicate Closes(v: Turn) {
    v.conversationStatus != Some(Active)
  }

  function ClosedAt(v: Turn): int {
    if v.conversationEndedAt.Some? then v.conversationEndedAt.value else v.endedAt
  }

  /** The latest end that the turns give their conversation. */
  ghost predicate EndsAt(turns: set<Turn>, end: int) {
    && (exists v :: v in turns && Closes(v) && ClosedAt(v) == end)
    && (forall v :: v in turns && Closes(v) ==> ClosedAt(v) <= end)
  }

  /** So many days after an instant. */
  function DaysAfter(at: int, days: int): int {
    at + days * 86_400_000
  }

  lemma RetentionOfTurn(p: Policy, v: Turn)
    requires p.captureTranscript && p.transcriptDays.Some?
    ensures RetentionOf(p, v) == if Closes(v) then Some(DaysAfter(ClosedAt(v), p.transcriptDays.value)) else None
  {
  }

  lemma RetentionFollowsEnd(p: Policy, r: Record, turns: set<Turn>, end: int)
    requires IsLatest(r.summary.retentionUntil, turns, (v: Turn) => RetentionOf(p, v))
    requires EndsAt(turns, end) && p.captureTranscript && p.transcriptDays.Some?
    ensures r.summary.retentionUntil == Some(DaysAfter(end, p.transcriptDays.value))
  {
    forall v | v in turns
      ensures RetentionOf(p, v) == if Closes(v) then Some(DaysAfter(ClosedAt(v), p.transcriptDays.value)) else None
    {
      RetentionOfTurn(p, v);
    }
    var v :| v in turns && Closes(v) && ClosedAt(v) == end;
    assert RetentionOf(p, v) == Some(DaysAfter(end, p.transcriptDays.value));
  }

  lemma NoEndNoRetention(p: Policy, r: Record, turns: set<Turn>)
    requires Reflects(p, r, turns)
    requires !p.captureTranscript || p.transcriptDays == None || forall v :: v in turns ==> !Closes(v)
    ensures r.summary.retentionUntil == None
  {
    assert forall v :: v in turns ==> RetentionOf(p, v) == None;
  }

  lemma DeliveredRetention(p: Policy, owner: string, assistantId: string, deliveries: seq<Turn>, end: int)
    requires deliveries != [] && Consistent(SetOf(deliveries), assistantId)
    requires p.captureTranscript && p.transcriptDays.Some? && EndsAt(SetOf(deliveries), end)
    ensures IngestAll(p, owner, deliveries).Some?
    ensures IngestAll(p, owner, deliveries).value.summary.retentionUntil
         == Some(DaysAfter(end, p.transcriptDays.value))
  {
    DeliveriesReflect(p, owner, assistantId, deliveries);
    RetentionFollowsEnd(p, IngestAll(p, owner, deliveries).value, SetOf(deliveries), end);
  }

  lemma DeliveredWithoutRetention(p: Policy, owner: string, assistantId: string, deliveries: seq<Turn>)
    requires deliveries != [] && Consistent(SetOf(deliveries), assistantId)
    requires !p.captureTranscript || p.transcriptDays == None || forall v :: v in deliveries ==> !Closes(v)
    ensures IngestAll(p, owner, deliveries).Some?
    ensures IngestAll(p, owner, deliveries).value.summary.retentionUntil == None
  {
    DeliveriesReflect(p, owner, assistantId, deliveries);
    NoEndNoRetention(p, IngestAll(p, owner, deliveries).value, SetOf(deliveries));
  }

  /**
   * From the turns to the reads: a conversation delivered under a policy of so many days is found by its owner until
   * that long after its end, and is expired from then on until the lifetime of a tombstone after the first sweep,
   * whatever else the store is asked to do.
   */
  lemma ReadUntilRetention(p: Policy, owner: string, assistantId: string, deliveries: seq<Turn>, end: int, s: Store,
                           ttl: int, events: seq<Event>, start: int, id: string, r: Record, now: int)
    requires deliveries != [] && Consistent(SetOf(deliveries), assistantId)
    requires p.captureTranscript && p.transcriptDays.Some? && EndsAt(SetOf(deliveries), end)
    requires IngestAll(p, owner, deliveries) == Some(r) && Kept(s, owner, id, r)
    requires ValidTtl(ttl) && IsRun(s, ttl, events, start) && EndOf(events, start) <= now
    requires forall i :: 0 <= i < |events| ==> LeavesAlone(events[i].op, owner, id)
    ensures Get(Purge(Final(s, ttl, events), ttl, now), owner, id, now) ==
      var due := DaysAfter(end, p.transcriptDays.value);
      if now < due then Found(r) else if now < FirstSweep(events, due, now) + ttl then Expired else Missing
  {
    DeliveredRetention(p, owner, assistantId, deliveries, end);
    ReadOverTime(s, ttl, events, start, owner, id, r, now);
  }

  /** And with no such policy, or as long as no turn has closed it, it is found for ever. */
  lemma KeptWithoutRetention(p: Policy, owner: string, assistantId: string, deliveries: seq<Turn>, s: Store,
                             ttl: int, events: seq<Event>, start: int, id: string, r: Record, now: int)
    requires deliveries != [] && Consistent(SetOf(deliveries), assistantId)
    requires !p.captureTranscript || p.transcriptDays == None || forall v :: v in deliveries ==> !Closes(v)
    requires IngestAll(p, owner, deliveries) == Some(r) && Kept(s, owner, id, r)
    requires ValidTtl(ttl) && IsRun(s, ttl, events, start) && EndOf(events, start) <= now
    requires forall i :: 0 <= i < |events| ==> LeavesAlone(events[i].op, owner, id)
    ensures Get(Purge(Final(s, ttl, events), ttl, now), owner, id, now) == Found(r)
  {
    DeliveredWithoutRetention(p, owner, assistantId, deliveries);
    ReadOverTime(s, ttl, events, start, owner, id, r, now);
  }

  lemma OneJobRequeued(s: Store, owner: string, id: string, j: string)
    requires JobsSound(s) && j in s.jobs && IsJobFor(s.jobs[j], owner, id)
    ensures RequeueFor(s, owner, id) == s.(jobs := s.jobs[j := Requeue(s.jobs[j])])
    ensures HasJob(s.(jobs := s.jobs[j := Requeue(s.jobs[j])]), owner, id)
  {
    var t := RequeueFor(s, owner, id);
    forall k | k in s.jobs
      ensures t.jobs[k] == if k == j then Requeue(s.jobs[j]) else s.jobs[k]
    {
      if IsJobFor(s.jobs[k], owner, id) {
        assert k == j;
      }
    }
    assert t.jobs == s.jobs[j := Requeue(s.jobs[j])];
    assert IsJobFor(t.jobs[j], owner, id);
  }

  // ------------------------------------------------------- deleting a second time

  /** A job that no run of it will ever carry out again: it completed, or its attempts are used up. */
  predicate Spent(job: Job) {
    job.status == Done || job.attempts >= MAX_ATTEMPTS
  }

  predicate Blocked(s: Store, owner: string, id: string) {
    exists j :: j in s.jobs && IsJobFor(s.jobs[j], owner, id) && Spent(s.jobs[j])
  }

  /** Some job of the owner's for the conversation removes it when it is run. */
  predicate CanBeDeleted(s: Store, ttl: int, owner: string, id: string, now: int) {
    exists j :: j in s.jobs && IsJobFor(s.jobs[j], owner, id) && id !in RunJob(s, ttl, j, now).conversations
  }

  /**
   * What a request leaves: the owner's job for the conversation, which is queued exactly when it is not spent, with as
   * many attempts as it had; a new one starts with none. No other job changes.
   */
  lemma RequestQueues(s: Store, owner: string, id: string, newId: string, j: string)
    requires JobsSound(s) && newId !in s.jobs && j in Request(s, owner, id, newId).jobs
    ensures var t := Request(s, owner, id, newId);
      && t.conversations == s.conversations && t.tombstones == s.tombstones
      && (j in s.jobs ==> t.jobs[j].attempts == s.jobs[j].attempts)
      && (j !in s.jobs ==> j == newId && t.jobs[j] == Job(owner, id, 0, Queued))
      && (IsJobFor(t.jobs[j], owner, id) ==> (t.jobs[j].status == Queued <==> !Spent(t.jobs[j])))
      && (!IsJobFor(t.jobs[j], owner, id) ==> j in s.jobs && t.jobs[j] == s.jobs[j])
  {
    if HasJob(s, owner, id) && IsJobFor(s.jobs[j], owner, id) {
      OneJobRequeued(s, owner, id, j);
    }
  }

  /**
   * How a run ends: a spent job stays spent. Any other uses up an attempt, and completes exactly when its owner's
   * conversation is there to be removed or is gone with the owner's tombstone left.
   */
  lemma RunEnds(s: Store, ttl: int, j: string, now: int)
    requires j in s.jobs
    ensures var job, after := s.jobs[j], RunJob(s, ttl, j, now).jobs[j]; var id := job.conversationId;
      var removed := id in s.conversations && s.conversations[id].ownerId == job.ownerId;
      var gone := id !in s.conversations && id in s.tombstones && s.tombstones[id].ownerId == job.ownerId;
      if job.status == Done then after == job
      else if job.attempts >= 3 then after == job.(status := JobFailed("DELETE_RETRY_LIMIT"))
      else
        && after.attempts == job.attempts + 1 && IsJobFor(after, job.ownerId, id)
        && after.status == if removed || gone then Done else JobFailed("NOT_FOUND")
  {
  }

  /** A job that is not spent removes its owner's conversation, a spent one never does. */
  lemma RunRemovesUnlessSpent(s: Store, ttl: int, j: string, now: int)
    requires j in s.jobs && s.jobs[j].conversationId in s.conversations
    requires s.conversations[s.jobs[j].conversationId].ownerId == s.jobs[j].ownerId
    ensures s.jobs[j].conversationId !in RunJob(s, ttl, j, now).conversations <==> !Spent(s.jobs[j])
  {
  }

  /**
   * When a request to delete a conversation can succeed: exactly as long as no earlier job of its owner for the same
   * id has completed or used up its attempts. An id that is ingested again after either is never deleted on request.
   */
  lemma RequestWorksUnlessBlocked(s: Store, ttl: int, owner: string, id: string, newId: string, now: int)
    requires JobsSound(s) && newId !in s.jobs
    requires id in s.conversations && s.conversations[id].ownerId == owner
    ensures CanBeDeleted(Request(s, owner, id, newId), ttl, owner, id, now) <==> !Blocked(s, owner, id)
  {
    var t := Request(s, owner, id, newId);
    if HasJob(s, owner, id) {
      var j :| j in s.jobs && IsJobFor(s.jobs[j], owner, id);
      OneJobRequeued(s, owner, id, j);
      RunRemovesUnlessSpent(t, ttl, j, now);
    } else {
      RunRemovesUnlessSpent(t, ttl, newId, now);
      assert IsJobFor(t.jobs[newId], owner, id);
    }
  }

  /** One way to be blocked: with the job completed, neither another request nor another run changes anything. */
  lemma CompletedJobBlocksSecondDelete(s: Store, ttl: int, j: string, newId: string, now: int)
    requires JobsSound(s) && j in s.jobs && s.jobs[j].status == Done
    requires s.jobs[j].conversationId in s.conversations
    ensures var job := s.jobs[j];
      && Blocked(s, job.ownerId, job.conversationId)
      && Request(s, job.ownerId, job.conversationId, newId) == s
      && RunJob(s, ttl, j, now) == s
  {
    var job := s.jobs[j];
    assert IsJobFor(s.jobs[j], job.ownerId, job.conversationId);
    OneJobRequeued(s, job.ownerId, job.conversationId, j);
    assert s.jobs[j := Requeue(job)] == s.jobs;
  }

  /** The other way: three runs while the conversation and its tombstone are gone use up the attempts. */
  lemma ThreeFailuresBlock(s: Store, ttl: int, j: string, now: int)
    requires j in s.jobs && s.jobs[j].status == Queued && s.jobs[j].attempts == 0
    requires s.jobs[j].conversationId !in s.conversations && s.jobs[j].conversationId !in s.tombstones
    ensures var t := RunJob(RunJob(RunJob(s, ttl, j, now), ttl, j, now), ttl, j, now);
      && t.conversations == s.conversations && t.jobs[j].status == JobFailed("NOT_FOUND")
      && Blocked(t, s.jobs[j].ownerId, s.jobs[j].conversationId)
  {
    var t := RunJob(RunJob(RunJob(s, ttl, j, now), ttl, j, now), ttl, j, now);
    assert t.jobs[j] == Job(s.jobs[j].ownerId, s.jobs[j].conversationId, 3, JobFailed("NOT_FOUND"));
    assert IsJobFor(t.jobs[j], s.jobs[j].ownerId, s.jobs[j].conversationId);
  }

  lemma StepKeepsBlocked(s: Store, ttl: int, op: Op, now: int, owner: string, id: string)
    requires FreshFor(s, op) && Blocked(s, owner, id)
    ensures Blocked(Do(s, ttl, op, now), owner, id)
  {
    var j :| j in s.jobs && IsJobFor(s.jobs[j], owner, id) && Spent(s.jobs[j]);
    JobsOnlyAdvance(s, ttl, op, now, j);
    assert Spent(Do(s, ttl, op, now).jobs[j]);
  }

  /** In a blocked state only the passing of its retention time removes the conversation. */
  lemma BlockedStepOnlyExpires(s: Store, ttl: int, op: Op, now: int, owner: string, id: string)
    requires JobsSound(s) && Blocked(s, owner, id)
    requires Removes(s, Do(s, ttl, op, now), id) && s.conversations[id].ownerId == owner
    ensures !op.Runs? && IsExpired(s.conversations[id], now)
  {
    if op.Runs? {
      RunRemovesUnlessSpent(s, ttl, op.job, now);
      assert false;
    }
  }

  /** Once blocked, for ever: after any run, the owner's conversation goes only by expiring, whatever is asked for. */
  lemma {:induction false} BlockedForEver(s: Store, ttl: int, events: seq<Event>, start: int, op: Op, now: int,
                                          owner: string, id: string)
    requires JobsSound(s) && Blocked(s, owner, id) && IsRun(s, ttl, events, start)
    ensures var t := Final(s, ttl, events);
      && Blocked(t, owner, id)
      && (Removes(t, Do(t, ttl, op, now), id) && t.conversations[id].ownerId == owner ==>
            !op.Runs? && IsExpired(t.conversations[id], now))
    decreases events
  {
    if events == [] {
      if Removes(s, Do(s, ttl, op, now), id) && s.conversations[id].ownerId == owner {
        BlockedStepOnlyExpires(s, ttl, op, now, owner, id);
      }
    } else {
      var next := Do(s, ttl, events[0].op, events[0].now);
      StepKeepsJobs(s, ttl, events[0].op, events[0].now);
      StepKeepsBlocked(s, ttl, events[0].op, events[0].now, owner, id);
      BlockedForEver(next, ttl, events[1..], events[0].now, op, now, owner, id);
    }
  }

  // --------------------------------------------------- conversations and their turns

  /** The conversation consists of the turns `delivered`; with none delivered it does not exist. */
  ghost predicate Holds(conversations: map<string, Record>, p: Policy, owner: string, id: string, assistantId: string,
                        delivered: set<Turn>)
  {
    if delivered == {} then id !in conversations
    else
      && id in conversations && Reflects(p, conversations[id], delivered)
      && conversations[id].ownerId == owner && conversations[id].summary.assistantId == assistantId
  }

  lemma IngestHolds(conversations: map<string, Record>, p: Policy, owner: string, id: string, v: Turn,
                    delivered: set<Turn>)
    requires Holds(conversations, p, owner, id, v.assistantId, delivered) && Consistent(delivered + {v}, v.assistantId)
    ensures var r := Ingest(p, owner, if id in conversations then Some(conversations[id]) else None, v);
      r.Ok? && Holds(conversations[id := r.value], p, owner, id, v.assistantId, delivered + {v})
  {
    assert v in delivered + {v};
    if delivered == {} {
      FirstReflects(p, owner, v);
      assert delivered + {v} == {v};
    } else {
      IngestReflects(p, conversations[id], delivered, v);
    }
  }

  // --------------------------------------------------------------------- the code

  datatype RequestReply = Accepted(jobId: string) | Refused(problem: Problem)

  class ConversationStore {
    const ttl: int
    var conversations: map<string, Record>
    var tombstones: map<string, Tombstone>
    var jobs: map<string, Job>

    ghost function Model(): Store
      reads this
    {
      Store(conversations, tombstones, jobs)
    }

    constructor (ttlSeconds: int)
      ensures Model() == EMPTY && JobsSound(Model())
      ensures ValidTtl(ttl) && ttl == (if ttlSeconds > 60 then ttlSeconds else 60) * 1000
    {
      ttl := (if ttlSeconds > 60 then ttlSeconds else 60) * 1000;
      conversations, tombstones, jobs := map[], map[], map[];
    }

    method PurgeExpired(now: int) returns (purged: nat)
      modifies this
      ensures Model() == Purge(old(Model()), ttl, now)
      ensures purged == |ExpiredIds(old(Model()), now)|
    {
      purged := BuryExpired(now, ExpiredIds(Model(), now));
      DropOutlived(now);
    }

    /** The first loop: the expired conversations, `gone`, become tombstones. */
    method BuryExpired(now: int, ghost gone: set<string>) returns (purged: nat)
      requires gone == ExpiredIds(Model(), now)
      modifies this
      ensures Marked(conversations, tombstones, old(conversations), old(tombstones), gone, now, now + ttl)
      ensures jobs == old(jobs) && purged == |gone|
    {
      purged := 0;
      var todo := conversations.Keys;
      ghost var living, stones, work := conversations, tombstones, jobs;
      ghost var done: set<string> := {};
      NoGraves(living, stones, now, now + ttl);
      while todo != {}
        invariant Sweeping(todo, done, gone, living.Keys)
        invariant jobs == work && purged == |done|
        invariant Marked(conversations, tombstones, living, stones, done, now, now + ttl)
        decreases todo
      {
        var id :| id in todo;
        SweepStep(todo, done, gone, living.Keys, id);
        todo := todo - {id};
        var buried := BuryOne(id, now, living, stones, done);
        if buried {
          done := done + {id};
          purged := purged + 1;
        }
      }
      SweepDone(done, gone, living.Keys);
    }

    /** The loop body, with the conversations `done` already buried. */
    method BuryOne(id: string, now: int, ghost living: map<string, Record>, ghost stones: map<string, Tombstone>,
                   ghost done: set<string>) returns (buried: bool)
      requires id in living && id !in done
      requires Marked(conversations, tombstones, living, stones, done, now, now + ttl)
      modifies this
      ensures jobs == old(jobs) && buried == IsExpired(living[id], now)
      ensures Marked(conversations, tombstones, living, stones, if buried then done + {id} else done, now, now + ttl)
    {
      OneMoreGrave(living, stones, done, id, now, now + ttl);
      buried := IsExpired(conversations[id], now);
      if buried {
        tombstones := tombstones[id := Tombstone(conversations[id].ownerId, now, now + ttl)];
        conversations := conversations - {id};
      }
    }

    /** The second loop: tombstones whose time is over go. */
    method DropOutlived(now: int)
      modifies this
      ensures tombstones == map id | id in old(tombstones) && old(tombstones)[id].expiresAt > now :: old(tombstones)[id]
      ensures conversations == old(conversations) && jobs == old(jobs)
    {
      var todo := tombstones.Keys;
      while todo != {}
        invariant conversations == old(conversations) && jobs == old(jobs) && todo <= tombstones.Keys
        invariant forall id :: id in tombstones ==> id in old(tombstones) && tombstones[id] == old(tombstones)[id]
        invariant forall id :: id in old(tombstones) && (id in todo || old(tombstones)[id].expiresAt > now) ==>
          id in tombstones
        invariant forall id :: id in tombstones && id !in todo ==> tombstones[id].expiresAt > now
        decreases todo
      {
        var id :| id in todo;
        todo := todo - {id};
        if tombstones[id].expiresAt <= now {
          tombstones := tombstones - {id};
        }
      }
    }

    method GetConversation(owner: string, id: string, now: int) returns (read: Read)
      modifies this
      ensures Model() == Purge(old(Model()), ttl, now) && read == Get(Model(), owner, id, now)
    {
      var _ := PurgeExpired(now);
      if id in conversations && conversations[id].ownerId == owner {
        return Found(conversations[id]);
      }
      if id in tombstones && tombstones[id].ownerId == owner && tombstones[id].expiresAt > now {
        return Expired;
      }
      return Missing;
    }

    method RequestDelete(owner: string, id: string, newId: string, now: int) returns (reply: RequestReply)
      requires JobsSound(Model())
      modifies this
      ensures Model() == Request(Purge(old(Model()), ttl, now), owner, id, newId)
      ensures reply.Accepted? ==> reply.jobId in jobs && IsJobFor(jobs[reply.jobId], owner, id)
      ensures reply.Refused? ==>
        reply.problem == if Get(Model(), owner, id, now).Expired? then RetentionExpired else NotFound
      ensures reply.Accepted? <==> HasJob(Model(), owner, id)
    {
      var _ := PurgeExpired(now);
      if j :| j in jobs && IsJobFor(jobs[j], owner, id) {
        var requeued := Requeue(jobs[j]);
        OneJobRequeued(Model(), owner, id, j);
        jobs := jobs[j := requeued];
        return Accepted(j);
      }
      if id !in conversations || conversations[id].ownerId != owner {
        if id in tombstones && tombstones[id].ownerId == owner && tombstones[id].expiresAt > now {
          return Refused(RetentionExpired);
        }
        return Refused(NotFound);
      }
      jobs := jobs[newId := Job(owner, id, 0, Queued)];
      return Accepted(newId);
    }

    /**
     * False stands for the unknown-job error. The run removes its owner's conversation unless the job is spent, and
     * nothing else; a removal leaves a tombstone of exactly the lifetime and completes the job.
     */
    method RunDeleteJob(j: string, now: int) returns (known: bool)
      modifies this
      ensures Model() == RunJob(old(Model()), ttl, j, now) && known == (j in old(jobs))
      ensures JobsSound(old(Model())) ==> JobsSound(Model())
      ensures forall id :: id in old(conversations) ==>
        (id !in conversations <==>
          known && IsJobFor(old(jobs)[j], old(conversations)[id].ownerId, id) && !Spent(old(jobs)[j]))
      ensures forall id :: Removes(old(Model()), Model(), id) ==>
        && id in tombstones && tombstones[id] == Tombstone(old(conversations)[id].ownerId, now, now + ttl)
        && j in jobs && jobs[j].status == Done
    {
      if JobsSound(Model()) {
        StepKeepsJobs(Model(), ttl, Runs(j), now);
      }
      if j !in jobs {
        return false;
      }
      if jobs[j].status == Done {
        return true;
      }
      var job := jobs[j];
      if job.attempts >= MAX_ATTEMPTS {
        jobs := jobs[j := job.(status := JobFailed("DELETE_RETRY_LIMIT"))];
        return true;
      }
      job := job.(attempts := job.attempts + 1);
      var id := job.conversationId;
      if id in conversations {
        if conversations[id].ownerId != job.ownerId {
          job := job.(status := JobFailed("NOT_FOUND"));
        } else {
          tombstones := tombstones[id := Tombstone(job.ownerId, now, now + ttl)];
          conversations := conversations - {id};
          job := job.(status := Done);
        }
      } else if id in tombstones && tombstones[id].ownerId == job.ownerId {
        job := job.(status := Done);
      } else {
        job := job.(status := JobFailed("NOT_FOUND"));
      }
      jobs := jobs[j := job];
      return true;
    }

    /**
     * `owner` is the owner of the turn's assistant. When the stored conversation holds the turns `delivered`, a
     * consistent turn is accepted and the conversation then holds exactly that turn as well, whether it is new or not.
     */
    method IngestTurn(p: Policy, owner: string, id: string, v: Turn, ghost delivered: set<Turn>)
      returns (result: Result<Record>)
      modifies this
      ensures Model() == IngestInto(old(Model()), p, owner, id, v)
      ensures result == Ingest(p, owner, if id in old(conversations) then Some(old(conversations)[id]) else None, v)
      ensures
        (Holds(old(conversations), p, owner, id, v.assistantId, delivered)
         && Consistent(delivered + {v}, v.assistantId)) ==>
          result.Ok? && Holds(conversations, p, owner, id, v.assistantId, delivered + {v})
      ensures forall other :: other != id ==>
        (other in conversations <==> other in old(conversations))
        && (other in conversations ==> conversations[other] == old(conversations)[other])
    {
      if Holds(conversations, p, owner, id, v.assistantId, delivered) && Consistent(delivered + {v}, v.assistantId) {
        IngestHolds(conversations, p, owner, id, v, delivered);
      }
      result := Ingest(p, owner, if id in conversations then Some(conversations[id]) else None, v);
      if result.Ok? {
        conversations := conversations[id := result.value];
      }
    }
  }
}
