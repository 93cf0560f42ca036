/** Cursor paging and the tools/call path of the MCP dispatcher (veetee_mcp_dispatch.c). */
module McpDispatch {
  import opened Arithmetic
  import opened McpRegistry
  import Bits
  import Digest = McpDigest
  import T = McpTools
  import Wire = McpWire

  // ------------------------------------------------------------------- tools/list

  /** Index of the first tool of that name, or the number of tools. */
  function IndexOf(tools: seq<Tool>, name: string): (i: nat)
    ensures i <= |tools|
    ensures i < |tools| ==> tools[i].name == name
    ensures forall k :: 0 <= k < i ==> tools[k].name != name
  {
    if tools == [] || tools[0].name == name then 0 else 1 + IndexOf(tools[1..], name)
  }

  /** The `cursor` parameter: missing, a string, or something else. */
  datatype Cursor = Absent | At(name: string) | NotAString

  predicate ValidCursor(tools: seq<Tool>, cursor: Cursor) {
    match cursor
    case Absent => true
    case At(name) => IndexOf(tools, name) < |tools|
    case NotAString => false
  }

  function StartOf(tools: seq<Tool>, cursor: Cursor): nat {
    if cursor.At? then IndexOf(tools, cursor.name) else 0
  }

  /** Which cursors are good: none at all, and the name of any registered tool. */
  lemma CursorsAre(tools: seq<Tool>, cursor: Cursor)
    ensures ValidCursor(tools, cursor) <==>
      cursor == Absent || exists i :: 0 <= i < |tools| && cursor == At(tools[i].name)
    ensures cursor == Absent ==> StartOf(tools, cursor) == 0
  {
  }

  method CursorIndex(tools: seq<Tool>, cursor: Cursor) returns (valid: bool, index: nat)
    ensures valid == ValidCursor(tools, cursor)
    ensures index == if valid then StartOf(tools, cursor) else 0
  {
    if cursor.Absent? {
      return true, 0;
    }
    if cursor.NotAString? {
      return false, 0;
    }
    index := 0;
    while index < |tools|
      invariant index <= |tools|
      invariant forall k :: 0 <= k < index ==> tools[k].name != cursor.name
    {
      if tools[index].name == cursor.name {
        return true, index;
      }
      index := index + 1;
    }
    return false, 0;
  }

  datatype Page = Page(names: seq<string>, nextCursor: Cursor)

  function Names(tools: seq<Tool>): (names: seq<string>)
    ensures |names| == |tools|
  {
    seq(|tools|, i requires 0 <= i < |tools| => tools[i].name)
  }

  /** What one tools/list answer lists and which cursor it hands out. */
  function PageAt(tools: seq<Tool>, start: nat): Page
    requires start <= |tools|
  {
    var next := T.PageEnd(tools, start);
    Page(Names(tools[start..next]), if next < |tools| then At(tools[next].name) else Absent)
  }

  lemma IndexOfOwnName(tools: seq<Tool>, i: nat)
    requires DistinctNames(tools) && i < |tools|
    ensures IndexOf(tools, tools[i].name) == i
  {
  }

  /** The answers a client collects by sending back every cursor until none comes. */
  function Follow(tools: seq<Tool>, cursor: Cursor): seq<Page>
    requires Registrable(tools) && ValidCursor(tools, cursor)
    decreases |tools| - StartOf(tools, cursor)
  {
    var page := PageAt(tools, StartOf(tools, cursor));
    if page.nextCursor == Absent then [page]
    else
      IndexOfOwnName(tools, T.PageEnd(tools, StartOf(tools, cursor)));
      [page] + Follow(tools, page.nextCursor)
  }

  function AllNames(pages: seq<Page>): seq<string> {
    if pages == [] then [] else pages[0].names + AllNames(pages[1..])
  }

  lemma CeilStep(n: nat)
    requires n > 4
    ensures CeilDiv(n, 4) == 1 + CeilDiv(n - 4, 4)
  {
  }

  lemma {:induction false} FollowFrom(tools: seq<Tool>, cursor: Cursor)
    requires Registrable(tools) && ValidCursor(tools, cursor)
    ensures AllNames(Follow(tools, cursor)) == Names(tools[StartOf(tools, cursor)..])
    ensures |Follow(tools, cursor)| == Max(1, CeilDiv(|tools| - StartOf(tools, cursor), 4))
    decreases |tools| - StartOf(tools, cursor)
  {
    var start := StartOf(tools, cursor);
    var next := T.PageEnd(tools, start);
    var page := PageAt(tools, start);
    if page.nextCursor == Absent {
      assert tools[start..next] == tools[start..];
      assert AllNames([page][1..]) == [];
    } else {
      IndexOfOwnName(tools, next);
      FollowFrom(tools, page.nextCursor);
      CeilStep(|tools| - start);
      FirstPage(page, Follow(tools, page.nextCursor));
      NamesSplit(tools, start, next);
    }
  }

  lemma FirstPage(page: Page, rest: seq<Page>)
    ensures AllNames([page] + rest) == page.names + AllNames(rest) && |[page] + rest| == 1 + |rest|
  {
    assert ([page] + rest)[1..] == rest;
  }

  lemma NamesSplit(tools: seq<Tool>, start: nat, next: nat)
    requires start <= next <= |tools|
    ensures Names(tools[start..next]) + Names(tools[next..]) == Names(tools[start..])
  {
  }

  /** Starting without a cursor lists every tool once, in registry order, in max(1, ceil(n/4)) pages. */
  lemma PagingListsEveryTool(tools: seq<Tool>)
    requires Registrable(tools)
    ensures AllNames(Follow(tools, Absent)) == Names(tools)
    ensures |Follow(tools, Absent)| == Max(1, CeilDiv(|tools|, T.PAGE_SIZE))
    ensures forall i, j :: 0 <= i < j < |tools| ==> Names(tools)[i] != Names(tools)[j]
  {
    FollowFrom(tools, Absent);
    assert tools[0..] == tools;
  }

  /** Duplicate names, which registration refuses, would make the cursor loop for ever. */
  lemma DuplicateNameLoops(a: Tool, b: Tool)
    ensures var tools := [a, a, a, a, a, b];
      PageAt(tools, 0).nextCursor == At(a.name) && StartOf(tools, At(a.name)) == 0
      && !DistinctNames(tools)
  {
    var tools := [a, a, a, a, a, b];
    assert tools[0].name == tools[1].name;
  }

  // ------------------------------------------------------------ tools/list, written

  datatype Dispatched = Answered | ErrCapacity | ErrRegistry

  const CURSOR_MESSAGE := "cursor is invalid"

  /** The message that answers tools/list: an error for a bad cursor, else the page it stands for. */
  function ListText(session: string, id: nat, tools: seq<Tool>, cursor: Cursor): string {
    if ValidCursor(tools, cursor) then T.PageText(session, id, tools, StartOf(tools, cursor))
    else Wire.ErrorText(session, id, CURSOR_MESSAGE)
  }

  /** The schemas the answer embeds pass the check, and it fits. */
  predicate CanList(session: string, id: nat, tools: seq<Tool>, cursor: Cursor, outputCapacity: nat) {
    && (ValidCursor(tools, cursor) ==>
          var start := StartOf(tools, cursor); T.SchemasLookRight(tools[start..T.PageEnd(tools, start)]))
    && |ListText(session, id, tools, cursor)| < Wire.Room(outputCapacity)
  }

  /** The tools/list branch. */
  method ListTools(output: array<char>, outputCapacity: nat, session: string, id: int, tools: seq<Tool>, cursor: Cursor)
    returns (status: Dispatched, length: nat)
    requires outputCapacity <= output.Length && id > 0
    modifies output
    ensures status == Answered <==> CanList(session, id, tools, cursor, outputCapacity)
    ensures status == Answered ==> Wire.Finished(output, outputCapacity, length, ListText(session, id, tools, cursor))
  {
    var valid, start := CursorIndex(tools, cursor);
    if !valid {
      var written, n := Wire.WriteError(output, outputCapacity, session, id, CURSOR_MESSAGE);
      return if written == Wire.Ok then Answered else ErrCapacity, n;
    }
    var written, next, n := T.WriteToolsList(output, outputCapacity, session, id, tools, start);
    return if written == Wire.Ok then Answered
           else if written == Wire.ErrCapacity then ErrCapacity else Dispatched.ErrRegistry, n;
  }

  // ------------------------------------------------------------------- tools/call

  /** Characters of a C string are bytes. */
  predicate IsCString(s: string) {
    |s| < 0x1_0000_0000 && forall i :: 0 <= i < |s| ==> s[i] as int < 256
  }

  function Bytes(s: string): (b: Bits.Bytes)
    requires IsCString(s)
    ensures |b| == |s|
  {
    seq(|s|, i requires 0 <= i < |s| => s[i] as int)
  }

  const METHOD := "tools/call"

  function DigestOf(tool: string, arguments: string): nat
    requires IsCString(tool) && IsCString(arguments)
  {
    Digest.Fnv(Digest.OFFSET, Digest.Serialise(Bytes(METHOD), Bytes(tool), Bytes(arguments)))
  }

  method CallTool(registry: Registry, id: int, tool: string, arguments: string, reply: Reply) returns (outcome: Outcome)
    requires registry.Valid() && IsCString(tool) && IsCString(arguments)
    modifies registry, registry.cache
    ensures registry.Valid() && registry.cache == old(registry.cache)
    ensures var call := Call(id, DigestOf(tool, arguments), tool, arguments);
      && outcome == Answer(registry.tools, old(registry.log), call, reply)
      && registry.log == After(registry.tools, old(registry.log), call, reply)
  {
    var digest := Digest.DigestCall(Bytes(METHOD), Bytes(tool), Bytes(arguments));
    outcome := registry.Invoke(Call(id, digest, tool, arguments), reply);
  }

  // ------------------------------------------------------------ tools/call, written

  function ErrorMessage(status: Status): string {
    match status
    case ErrToolNotFound => "tool not found"
    case ErrDuplicateConflict => "request id conflicts with a previous call"
    case ErrDuplicateExpired => "request id has expired from the duplicate cache"
    case ErrResultTooLarge => "tool result exceeds the bounded response size"
    case ErrRequestId => "request id is invalid"
    case _ => "tool call failed"
  }

  lemma MessageLength(status: Status)
    ensures |ErrorMessage(status)| ==
      match status
      case ErrToolNotFound => 14
      case ErrDuplicateConflict => 41
      case ErrDuplicateExpired => 47
      case ErrResultTooLarge => 45
      case ErrRequestId => 21
      case _ => 16
  {
  }

  /** Each refusal has its own text, by which a client can tell it; what a tool reports itself has one in common. */
  lemma MessagesTell(a: Status, b: Status)
    ensures ErrorMessage(a) == ErrorMessage(b) <==>
      || a == b
      || ({a, b} !! {ErrToolNotFound, ErrDuplicateConflict, ErrDuplicateExpired, ErrResultTooLarge, ErrRequestId})
  {
    MessageLength(a);
    MessageLength(b);
  }

  /** The bytes of the tool's result; a tool counts bytes it has filled in. */
  function ResultBytes(o: Outcome): string {
    if o.length <= |o.json| then o.json[..o.length] else o.json
  }

  function AnswerText(session: string, id: nat, o: Outcome): string {
    if o.status == Ok then Wire.ResultText(session, id, ResultBytes(o))
    else Wire.ErrorText(session, id, ErrorMessage(o.status))
  }

  predicate CanAnswer(session: string, id: nat, o: Outcome, outputCapacity: nat) {
    && (o.status == Ok ==> Wire.LooksLikeObject(ResultBytes(o)))
    && |AnswerText(session, id, o)| < Wire.Room(outputCapacity)
  }

  /** The tools/call branch: run or replay the call, then write its result or the error it stands for. */
  method AnswerCall(registry: Registry, output: array<char>, outputCapacity: nat, session: string, id: int,
                    tool: string, arguments: string, reply: Reply) returns (status: Dispatched, length: nat)
    requires registry.Valid() && IsCString(tool) && IsCString(arguments) && id > 0 && outputCapacity <= output.Length
    modifies registry, registry.cache, output
    ensures registry.Valid() && registry.cache == old(registry.cache)
    ensures var call := Call(id, DigestOf(tool, arguments), tool, arguments);
      registry.log == After(registry.tools, old(registry.log), call, reply)
    ensures var call := Call(id, DigestOf(tool, arguments), tool, arguments);
      var o := Answer(registry.tools, old(registry.log), call, reply);
      && (status == Answered <==> CanAnswer(session, id, o, outputCapacity))
      && (status == Answered ==> Wire.Finished(output, outputCapacity, length, AnswerText(session, id, o)))
  {
    var o := CallTool(registry, id, tool, arguments, reply);
    var written: Wire.Status;
    if o.status == Ok {
      written, length := Wire.WriteResult(output, outputCapacity, session, id, ResultBytes(o));
    } else {
      written, length := Wire.WriteError(output, outputCapacity, session, id, ErrorMessage(o.status));
    }
    status := if written == Wire.Ok then Answered else ErrCapacity;
  }

  /** A tool of that name is registered, succeeded and kept to the result size. */
  ghost predicate ToolSucceeded(tools: seq<Tool>, event: Event) {
    && (exists k :: 0 <= k < |tools| && tools[k].name == event.call.toolName)
    && event.reply.status == Ok && event.reply.length <= 768
  }

  /** The client is told a result exactly when the tool itself reported one, and then it is the tool's own bytes. */
  lemma ResultIsTheTools(session: string, id: nat, tools: seq<Tool>, events: seq<Event>, i: nat)
    requires i < |events| && AcceptedAt(tools, events, i)
    ensures var text, json := AnswerText(session, id, OutcomeAt(tools, events, i)), events[i].reply.json;
      && ((exists payload :: text == Wire.ResultText(session, id, payload)) <==> ToolSucceeded(tools, events[i]))
      && (ToolSucceeded(tools, events[i]) && events[i].reply.length <= |json| ==>
            text == Wire.ResultText(session, id, json[..events[i].reply.length]))
  {
    FirstAnswer(tools, events, i);
    var o := OutcomeAt(tools, events, i);
    if o.status == Ok {
      assert AnswerText(session, id, o) == Wire.ResultText(session, id, ResultBytes(o));
    } else {
      forall payload
        ensures AnswerText(session, id, o) != Wire.ResultText(session, id, payload)
      {
        Wire.ResultIsNoError(session, id, payload, ErrorMessage(o.status));
      }
    }
  }

  /** Otherwise it is told which of these went wrong. */
  lemma FailureIsNamed(session: string, id: nat, tools: seq<Tool>, events: seq<Event>, i: nat)
    requires i < |events| && AcceptedAt(tools, events, i) && !ToolSucceeded(tools, events[i])
    ensures var call, reply := events[i].call, events[i].reply;
      AnswerText(session, id, OutcomeAt(tools, events, i)) ==
        Wire.ErrorText(session, id,
          if forall k :: 0 <= k < |tools| ==> tools[k].name != call.toolName then ErrorMessage(ErrToolNotFound)
          else ErrorMessage(if reply.length > 768 then ErrResultTooLarge else reply.status))
  {
    FirstAnswer(tools, events, i);
  }

  /** The digest is the one the dispatcher computes. */
  predicate WithDigest(call: Call) {
    IsCString(call.toolName) && IsCString(call.arguments) && call.digest == DigestOf(call.toolName, call.arguments)
  }

  /** A retry with one byte of its arguments changed is never answered from the cache nor run again. */
  lemma AlteredRetryConflicts(tools: seq<Tool>, events: seq<Event>, i: nat, j: nat)
    requires i < j < |events| && AcceptedAt(tools, events, i)
    requires WithDigest(events[i].call) && WithDigest(events[j].call)
    requires events[j].call.id == events[i].call.id && events[j].call.toolName == events[i].call.toolName
    requires Digest.DifferInOneByte(Bytes(events[i].call.arguments), Bytes(events[j].call.arguments))
    ensures OutcomeAt(tools, events, j) == Failure(ErrDuplicateConflict)
         || OutcomeAt(tools, events, j) == Failure(ErrDuplicateExpired)
    ensures Run(tools, events[..j + 1]).invoked == Run(tools, events[..j]).invoked
  {
    var a, b := events[i].call, events[j].call;
    Digest.ChangedArgumentIsSeen(Bytes(METHOD), Bytes(a.toolName), Bytes(a.arguments), Bytes(b.arguments));
    RepeatAnswer(tools, events, i, j);
  }

  /** An exact retry within the last sixteen calls is answered with the same bytes, and the tool does not run again. */
  lemma ExactRetryIsReplayed(tools: seq<Tool>, events: seq<Event>, i: nat, j: nat)
    requires i < j < |events| && AcceptedAt(tools, events, i)
    requires WithDigest(events[i].call) && WithDigest(events[j].call)
    requires events[j].call.id == events[i].call.id && events[j].call.toolName == events[i].call.toolName
    requires events[j].call.arguments == events[i].call.arguments
    requires |Run(tools, events[..j]).accepted| - |Run(tools, events[..i]).accepted| <= CACHE_SLOTS
    ensures OutcomeAt(tools, events, j) == OutcomeAt(tools, events, i).(cached := true)
    ensures Run(tools, events[..j + 1]).invoked == Run(tools, events[..j]).invoked
    ensures forall session, id: nat ::
      AnswerText(session, id, OutcomeAt(tools, events, j)) == AnswerText(session, id, OutcomeAt(tools, events, i))
  {
    RepeatAnswer(tools, events, i, j);
  }
}
