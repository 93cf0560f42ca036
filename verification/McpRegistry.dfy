/** The replay-protected tool registry (veetee_mcp.c). */
module McpRegistry {
  import opened Wrappers

  const MAX_TOOLS := 16
  const CACHE_SLOTS := 16
  const MAX_RESULT_BYTES := 768
  const MAX_TOOL_NAME_BYTES := 64

  datatype Status =
    | Ok | ErrArgument | ErrRegistry | ErrRequestId | ErrToolNotFound
    | ErrDuplicateConflict | ErrDuplicateExpired | ErrResultTooLarge | ErrInvoke

  datatype Tool = Tool(name: string, description: string, schema: string, callable: bool)

  datatype Call = Call(id: int, digest: nat, toolName: string, arguments: string)

  /** What the owner callback hands back when it is run. */
  datatype Reply = Reply(status: Status, length: nat, json: string)

  datatype Entry = Entry(id: int, digest: nat, status: Status, length: nat, json: string)

  datatype Outcome = Outcome(status: Status, cached: bool, length: nat, json: string)

  // ------------------------------------------------------------- registration

  predicate ValidToolName(name: string) {
    1 <= |name| <= 63
  }

  ghost predicate DistinctNames(tools: seq<Tool>) {
    forall i, j :: 0 <= i < j < |tools| ==> tools[i].name != tools[j].name
  }

  ghost predicate Registrable(tools: seq<Tool>) {
    && |tools| <= 16 && DistinctNames(tools)
    && forall i :: 0 <= i < |tools| ==> ValidToolName(tools[i].name) && tools[i].callable
  }

  predicate HasTool(tools: seq<Tool>, name: string) {
    exists i :: 0 <= i < |tools| && tools[i].name == name
  }

  /** The checks of vt_mcp_registry_init. */
  method CheckTools(tools: seq<Tool>) returns (status: Status)
    ensures status == Ok <==> Registrable(tools)
    ensures status == ErrArgument <==> |tools| > 16
    ensures status in {Ok, ErrArgument, ErrRegistry}
  {
    if |tools| > MAX_TOOLS {
      return ErrArgument;
    }
    var index := 0;
    while index < |tools|
      invariant index <= |tools|
      invariant forall i :: 0 <= i < index ==> ValidToolName(tools[i].name) && tools[i].callable
      invariant DistinctNames(tools[..index])
    {
      if !(0 < |tools[index].name| < MAX_TOOL_NAME_BYTES) || !tools[index].callable {
        return ErrRegistry;
      }
      var previous := 0;
      while previous < index
        invariant previous <= index
        invariant forall i :: 0 <= i < previous ==> tools[i].name != tools[index].name
      {
        if tools[index].name == tools[previous].name {
          return ErrRegistry;
        }
        previous := previous + 1;
      }
      index := index + 1;
    }
    assert tools[..index] == tools;
    return Ok;
  }

  // ---------------------------------------- the specification: a plain history

  /** Every accepted call of the session, oldest first, and every call that reached a tool. */
  datatype Log = Log(accepted: seq<Entry>, invoked: seq<Call>)

  const EMPTY := Log([], [])

  function HighWater(log: Log): int {
    if log.accepted == [] then 0 else log.accepted[|log.accepted| - 1].id
  }

  predicate InWindow(log: Log, p: int) {
    0 <= p < |log.accepted| && |log.accepted| - 16 <= p
  }

  ghost function Lookup(log: Log, id: int): Option<Entry> {
    if p: int :| InWindow(log, p) && log.accepted[p].id == id then Some(log.accepted[p]) else None
  }

  function Record(tools: seq<Tool>, call: Call, reply: Reply): Entry {
    if !HasTool(tools, call.toolName) then Entry(call.id, call.digest, ErrToolNotFound, 0, "")
    else if reply.length > MAX_RESULT_BYTES then Entry(call.id, call.digest, ErrResultTooLarge, 0, reply.json)
    else Entry(call.id, call.digest, reply.status, reply.length, reply.json)
  }

  predicate Accepts(log: Log, call: Call) {
    0 < call.id && call.id > HighWater(log)
  }

  ghost function After(tools: seq<Tool>, log: Log, call: Call, reply: Reply): Log {
    if !Accepts(log, call) then log
    else Log(log.accepted + [Record(tools, call, reply)],
             if HasTool(tools, call.toolName) then log.invoked + [call] else log.invoked)
  }

  function Failure(status: Status): Outcome {
    Outcome(status, false, 0, "")
  }

  function Stored(entry: Entry, cached: bool): Outcome {
    Outcome(entry.status, cached, entry.length, entry.json)
  }

  ghost function Answer(tools: seq<Tool>, log: Log, call: Call, reply: Reply): Outcome {
    if call.id <= 0 then Failure(ErrRequestId)
    else if call.id > HighWater(log) then Stored(Record(tools, call, reply), false)
    else match Lookup(log, call.id)
      case None => Failure(ErrDuplicateExpired)
      case Some(entry) =>
        if entry.digest != call.digest then Failure(ErrDuplicateConflict) else Stored(entry, true)
  }

  ghost predicate Ordered(log: Log) {
    && (forall p :: 0 <= p < |log.accepted| ==> 0 < log.accepted[p].id <= HighWater(log))
    && (forall p, q :: 0 <= p < q < |log.accepted| ==> log.accepted[p].id < log.accepted[q].id)
  }

  /** Which accepted call occupies a filled slot once `n` calls were accepted. */
  lemma SlotPosition(n: nat, index: nat) returns (p: nat)
    requires index < 16 && index < n
    ensures p < n <= p + 16 && p % 16 == index
  {
    var base := n - n % 16;
    p := if index < n % 16 then base + index else base + index - 16;
  }

  /** The sixteen slots hold exactly the last sixteen accepted calls. */
  ghost predicate Caches(slots: seq<Option<Entry>>, log: Log)
    requires |slots| == 16
  {
    && (forall p :: InWindow(log, p) ==> slots[p % 16] == Some(log.accepted[p]))
    && (forall j :: |log.accepted| <= j < 16 ==> slots[j] == None)
  }

  /** Overwriting the next slot moves the window by one: the claimed slot is the one it has just left. */
  lemma ClaimSlot(slots: seq<Option<Entry>>, log: Log, log': Log, slot: nat)
    requires |slots| == 16 && Caches(slots, log) && slot == |log.accepted| % 16
    requires |log'.accepted| == |log.accepted| + 1 && log.accepted <= log'.accepted
    ensures (slot + 1) % 16 == |log'.accepted| % 16
    ensures Caches(slots[slot := Some(log'.accepted[|log.accepted|])], log')
  {
    var n := |log.accepted|;
    var slots' := slots[slot := Some(log'.accepted[n])];
    forall p | InWindow(log', p)
      ensures slots'[p % 16] == Some(log'.accepted[p])
    {
      if p < n {
        assert InWindow(log, p) && p % 16 != slot;
      }
    }
  }

  // ------------------------------------------------------------- the C struct

  class Registry {
    const tools: seq<Tool>
    var highestRequestId: int
    var nextCacheSlot: nat
    var cache: array<Option<Entry>>
    ghost var log: Log

    ghost predicate Valid()
      reads this, cache
    {
      && cache.Length == 16 && nextCacheSlot == |log.accepted| % 16
      && highestRequestId == HighWater(log) && Ordered(log) && Caches(cache[..], log)
    }

    constructor (tools: seq<Tool>)
      requires Registrable(tools)
      ensures Valid() && this.tools == tools && log == EMPTY && fresh(cache)
    {
      this.tools := tools;
      highestRequestId, nextCacheSlot := 0, 0;
      cache := new Option<Entry>[CACHE_SLOTS](_ => None);
      log := EMPTY;
    }

    method ResetSession()
      requires Valid()
      modifies this, cache
      ensures Valid() && log == EMPTY && cache == old(cache)
    {
      highestRequestId, nextCacheSlot := 0, 0;
      forall j | 0 <= j < cache.Length { cache[j] := None; }
      log := EMPTY;
    }

    method FindTool(name: string) returns (found: bool)
      ensures found == HasTool(tools, name)
    {
      for index := 0 to |tools|
        invariant forall i :: 0 <= i < index ==> tools[i].name != name
      {
        if tools[index].name == name {
          return true;
        }
      }
      return false;
    }

    method FindCache(id: int) returns (entry: Option<Entry>)
      requires Valid()
      ensures entry == Lookup(log, id)
    {
      for index := 0 to CACHE_SLOTS
        invariant forall j :: 0 <= j < index ==> cache[j].None? || cache[j].value.id != id
      {
        if cache[index].Some? && cache[index].value.id == id {
          SlotIsInWindow(index);
          return cache[index];
        }
      }
      return None;
    }

    lemma SlotIsInWindow(index: nat)
      requires Valid() && index < 16 && cache[index].Some?
      ensures Lookup(log, cache[index].value.id) == cache[index]
    {
      var p := SlotPosition(|log.accepted|, index);
      assert InWindow(log, p) && log.accepted[p] == cache[index].value;
    }

    /** vt_mcp_registry_call; `reply` is what the callback would return if it is run. */
    method Invoke(call: Call, reply: Reply) returns (outcome: Outcome)
      requires Valid()
      modifies this, cache
      ensures Valid() && cache == old(cache)
      ensures outcome == Answer(tools, old(log), call, reply)
      ensures log == After(tools, old(log), call, reply)
    {
      if call.id <= 0 {
        return Failure(ErrRequestId);
      }
      if call.id <= highestRequestId {
        var cached := FindCache(call.id);
        if cached == None {
          return Failure(ErrDuplicateExpired);
        }
        if cached.value.digest != call.digest {
          return Failure(ErrDuplicateConflict);
        }
        return Stored(cached.value, true);
      }
      outcome := AcceptCall(call, reply);
    }

    /** Advance the high-water mark, claim a slot, then run the tool. */
    method AcceptCall(call: Call, reply: Reply) returns (outcome: Outcome)
      requires Valid() && Accepts(log, call)
      modifies this, cache
      ensures Valid() && cache == old(cache)
      ensures outcome == Stored(Record(tools, call, reply), false)
      ensures log == After(tools, old(log), call, reply)
    {
      highestRequestId := call.id;
      var slot := nextCacheSlot;
      nextCacheSlot := (nextCacheSlot + 1) % 16;
      ghost var found := HasTool(tools, call.toolName);
      var entry := RunTool(call, reply);
      ghost var log' := Log(log.accepted + [entry], if found then log.invoked + [call] else log.invoked);
      ClaimSlot(cache[..], log, log', slot);
      ghost var slots := cache[..];
      cache[slot] := Some(entry);
      assert cache[..] == slots[slot := Some(entry)];
      log := log';
      return Stored(entry, false);
    }

    method RunTool(call: Call, reply: Reply) returns (entry: Entry)
      ensures entry == Record(tools, call, reply)
    {
      entry := Entry(call.id, call.digest, Ok, 0, "");
      var found := FindTool(call.toolName);
      if !found {
        entry := entry.(status := ErrToolNotFound);
      } else if reply.length > MAX_RESULT_BYTES {
        entry := entry.(status := ErrResultTooLarge, json := reply.json);
      } else {
        entry := entry.(status := reply.status, length := reply.length, json := reply.json);
      }
    }
  }

  // ---------------------------------------------------------------- whole runs

  datatype Event = Event(call: Call, reply: Reply)

  ghost function Run(tools: seq<Tool>, events: seq<Event>): Log {
    if events == [] then EMPTY
    else
      var last := events[|events| - 1];
      After(tools, Run(tools, events[..|events| - 1]), last.call, last.reply)
  }

  ghost function OutcomeAt(tools: seq<Tool>, events: seq<Event>, i: nat): Outcome
    requires i < |events|
  {
    Answer(tools, Run(tools, events[..i]), events[i].call, events[i].reply)
  }

  ghost predicate AcceptedAt(tools: seq<Tool>, events: seq<Event>, i: nat)
    requires i < |events|
  {
    Accepts(Run(tools, events[..i]), events[i].call)
  }

  ghost predicate InvokedInOrder(log: Log) {
    && (forall i :: 0 <= i < |log.invoked| ==> 0 < log.invoked[i].id <= HighWater(log))
    && (forall i, j :: 0 <= i < j < |log.invoked| ==> log.invoked[i].id < log.invoked[j].id)
  }

  lemma AcceptedStayOrdered(tools: seq<Tool>, log: Log, call: Call, reply: Reply)
    requires Ordered(log)
    ensures Ordered(After(tools, log, call, reply)) && HighWater(log) <= HighWater(After(tools, log, call, reply))
  {
  }

  lemma InvokedStayOrdered(tools: seq<Tool>, log: Log, call: Call, reply: Reply)
    requires InvokedInOrder(log) && HighWater(log) <= HighWater(After(tools, log, call, reply))
    ensures InvokedInOrder(After(tools, log, call, reply))
  {
  }

  /** Accepted and invoked ids strictly increase, so no request id reaches a tool twice. */
  lemma {:induction false} IdsStrictlyIncrease(tools: seq<Tool>, events: seq<Event>)
    ensures Ordered(Run(tools, events)) && InvokedInOrder(Run(tools, events))
  {
    if events != [] {
      var n := |events| - 1;
      IdsStrictlyIncrease(tools, events[..n]);
      AcceptedStayOrdered(tools, Run(tools, events[..n]), events[n].call, events[n].reply);
      InvokedStayOrdered(tools, Run(tools, events[..n]), events[n].call, events[n].reply);
    }
  }

  lemma {:induction false} HistoryOnlyGrows(tools: seq<Tool>, events: seq<Event>, i: nat, j: nat)
    requires i <= j <= |events|
    ensures Run(tools, events[..i]).accepted <= Run(tools, events[..j]).accepted
    ensures Run(tools, events[..i]).invoked <= Run(tools, events[..j]).invoked
  {
    if i < j {
      HistoryOnlyGrows(tools, events, i, j - 1);
      assert events[..j][..j - 1] == events[..j - 1];
    }
  }

  /** The high-water mark is the greatest id called so far. */
  lemma {:induction false} HighWaterIsGreatest(tools: seq<Tool>, events: seq<Event>, i: nat)
    requires i <= |events|
    ensures HighWater(Run(tools, events[..i])) >= 0
    ensures forall j :: 0 <= j < i ==> events[j].call.id <= HighWater(Run(tools, events[..i]))
    ensures HighWater(Run(tools, events[..i])) > 0 ==>
      exists j :: 0 <= j < i && events[j].call.id == HighWater(Run(tools, events[..i]))
  {
    if i > 0 {
      HighWaterIsGreatest(tools, events, i - 1);
      assert events[..i][..i - 1] == events[..i - 1];
    }
  }

  lemma LookupByPosition(log: Log, p: nat)
    requires Ordered(log) && p < |log.accepted|
    ensures Lookup(log, log.accepted[p].id) == if InWindow(log, p) then Some(log.accepted[p]) else None
  {
  }

  lemma EntryStays(tools: seq<Tool>, events: seq<Event>, i: nat, j: nat)
    requires i < j <= |events| && AcceptedAt(tools, events, i)
    ensures var p := |Run(tools, events[..i]).accepted|;
      p < |Run(tools, events[..j]).accepted|
      && Run(tools, events[..j]).accepted[p] == Record(tools, events[i].call, events[i].reply)
  {
    assert events[..i + 1][..i] == events[..i];
    HistoryOnlyGrows(tools, events, i + 1, j);
  }

  /** What a call that is run for the first time gets: what its tool said, unless there is none or it said too much. */
  lemma FirstAnswer(tools: seq<Tool>, events: seq<Event>, i: nat)
    requires i < |events| && AcceptedAt(tools, events, i)
    ensures var call, reply, o := events[i].call, events[i].reply, OutcomeAt(tools, events, i);
      if forall k :: 0 <= k < |tools| ==> tools[k].name != call.toolName
      then o == Outcome(ErrToolNotFound, false, 0, "")
      else if reply.length > 768 then o.status == ErrResultTooLarge && !o.cached && o.length == 0
      else o == Outcome(reply.status, false, reply.length, reply.json)
  {
  }

  /** An id that is not positive is refused, and nothing is remembered of it. */
  lemma BadIdIsRefused(tools: seq<Tool>, events: seq<Event>, i: nat)
    requires i < |events|
    requires events[i].call.id <= 0
    ensures OutcomeAt(tools, events, i) == Outcome(ErrRequestId, false, 0, "")
    ensures Run(tools, events[..i + 1]) == Run(tools, events[..i])
  {
    assert events[..i + 1][..i] == events[..i];
    HighWaterIsGreatest(tools, events, i);
  }

  /** Exactly the calls that were run for the first time and name a registered tool reach one, in order. */
  lemma InvokedExactly(tools: seq<Tool>, events: seq<Event>, i: nat)
    requires i < |events|
    ensures var before, after := Run(tools, events[..i]).invoked, Run(tools, events[..i + 1]).invoked;
      after ==
        if AcceptedAt(tools, events, i) && exists k :: 0 <= k < |tools| && tools[k].name == events[i].call.toolName
        then before + [events[i].call] else before
    ensures AcceptedAt(tools, events, i) <==>
      events[i].call.id > 0 && forall j :: 0 <= j < i ==> events[j].call.id < events[i].call.id
  {
    assert events[..i + 1][..i] == events[..i];
    HighWaterIsGreatest(tools, events, i);
  }

  /** What a repeated id gets, in terms of the run: the original outcome, a conflict, or expiry. */
  lemma RepeatAnswer(tools: seq<Tool>, events: seq<Event>, i: nat, j: nat)
    requires i < j < |events| && AcceptedAt(tools, events, i)
    requires events[j].call.id == events[i].call.id
    ensures var acceptedSince := |Run(tools, events[..j]).accepted| - |Run(tools, events[..i]).accepted|;
      && 1 <= acceptedSince
      && OutcomeAt(tools, events, j) ==
         (if acceptedSince > CACHE_SLOTS then Failure(ErrDuplicateExpired)
          else if events[j].call.digest != events[i].call.digest then Failure(ErrDuplicateConflict)
          else OutcomeAt(tools, events, i).(cached := true))
      && Run(tools, events[..j + 1]) == Run(tools, events[..j])
  {
    var before, later := Run(tools, events[..i]), Run(tools, events[..j]);
    EntryStays(tools, events, i, j);
    IdsStrictlyIncrease(tools, events[..j]);
    LookupByPosition(later, |before.accepted|);
    assert events[..j + 1][..j] == events[..j];
  }

  /** An id that was skipped over is refused for the rest of the session. */
  lemma SkippedIdExpires(tools: seq<Tool>, events: seq<Event>, j: nat)
    requires j < |events| && 0 < events[j].call.id <= HighWater(Run(tools, events[..j]))
    requires forall i :: 0 <= i < j && AcceptedAt(tools, events, i) ==> events[i].call.id != events[j].call.id
    ensures OutcomeAt(tools, events, j) == Outcome(ErrDuplicateExpired, false, 0, "")
  {
    var log := Run(tools, events[..j]);
    if p: int :| InWindow(log, p) && log.accepted[p].id == events[j].call.id {
      var i := AcceptedFrom(tools, events, j, p);
    }
  }

  lemma {:induction false} AcceptedFrom(tools: seq<Tool>, events: seq<Event>, j: nat, p: nat) returns (i: nat)
    requires j <= |events| && p < |Run(tools, events[..j]).accepted|
    ensures i < j && AcceptedAt(tools, events, i)
    ensures events[i].call.id == Run(tools, events[..j]).accepted[p].id
    ensures events[i].call.digest == Run(tools, events[..j]).accepted[p].digest
  {
    assert events[..j][..j - 1] == events[..j - 1];
    var before := Run(tools, events[..j - 1]);
    if p < |before.accepted| {
      i := AcceptedFrom(tools, events, j - 1, p);
    } else {
      i := j - 1;
    }
  }
}
