/** A client that lists the tools from the bytes it is sent (veetee_mcp_dispatch.c, veetee_mcp_wire.c). */
module McpClient {
  import opened Arithmetic
  import opened McpRegistry
  import opened McpDispatch
  import Json = JsonReader
  import Printer = JsonPrinter
  import T = McpTools
  import Wire = McpWire

  // ------------------------------------------------------ what the client reads

  /** The value of an object's first member with this key; `missing` when there is none. */
  function Value(members: seq<Json.Member>, key: string, missing: Json.Json): Json.Json {
    if members == [] then missing
    else if members[0].key == Printer.Units(key) then members[0].value
    else Value(members[1..], key, missing)
  }

  /** The tools of a tools/list result. */
  function ListedTools(result: Json.Json): seq<Json.Json> {
    var tools := if result.Object? then Value(result.members, "tools", Json.Null) else Json.Null;
    if tools.Array? then tools.items else []
  }

  function ListedName(tool: Json.Json): Json.Json {
    if tool.Object? then Value(tool.members, "name", Json.Null) else Json.Null
  }

  function NextCursor(result: Json.Json): Json.Json {
    if result.Object? then Value(result.members, "nextCursor", Json.Null) else Json.Null
  }

  lemma ValueOf(first: Json.Member, rest: seq<Json.Member>, key: string, missing: Json.Json)
    ensures Value([first] + rest, key, missing) ==
      if first.key == Printer.Units(key) then first.value else Value(rest, key, missing)
  {
    assert ([first] + rest)[1..] == rest;
  }

  lemma ToolTellsItsName(tool: Tool, schema: Json.Json)
    ensures ListedName(T.ToolValue(tool, schema)) == Json.Str(Printer.Units(tool.name))
  {
  }

  /** The value written for a page tells its reader exactly the page: the names in order and the next cursor. */
  lemma PageTellsTheClient(tools: seq<Tool>, schemas: seq<Json.Json>, start: nat)
    requires start <= |tools| && |schemas| == |tools|
    ensures var page, result := PageAt(tools, start), T.PageValue(tools, schemas, start);
      && |ListedTools(result)| == |page.names|
      && (forall i :: 0 <= i < |page.names| ==>
            ListedName(ListedTools(result)[i]) == Json.Str(Printer.Units(page.names[i])))
      && NextCursor(result) == if page.nextCursor.At? then Json.Str(Printer.Units(page.nextCursor.name)) else Json.Null
  {
    var page, result := PageAt(tools, start), T.PageValue(tools, schemas, start);
    var first, rest := result.members[0], result.members[1..];
    assert result.members == [first] + rest;
    assert |Printer.Units("tools")| == 5 && |Printer.Units("nextCursor")| == 10;
    ValueOf(first, rest, "tools", Json.Null);
    ValueOf(first, rest, "nextCursor", Json.Null);
    if page.nextCursor.At? {
      ValueOf(rest[0], [], "nextCursor", Json.Null);
      assert rest == [rest[0]] + [];
    }
    forall i | 0 <= i < |page.names|
      ensures ListedName(ListedTools(result)[i]) == Json.Str(Printer.Units(page.names[i]))
    {
      ToolTellsItsName(tools[start + i], schemas[start + i]);
    }
  }

  // ------------------------------------------------------------------- one answer

  /** What a client takes from one answer: the listed names and the next cursor, as JSON values. */
  datatype Seen = Nothing | Listing(names: seq<Json.Json>, next: Json.Json)

  function Result(message: Json.Json): Json.Json {
    var payload := if message.Object? then Value(message.members, "payload", Json.Null) else Json.Null;
    if payload.Object? then Value(payload.members, "result", Json.Null) else Json.Null
  }

  function NamesOf(tools: seq<Json.Json>): seq<Json.Json> {
    seq(|tools|, i requires 0 <= i < |tools| => ListedName(tools[i]))
  }

  function Look(text: string): Seen {
    var r := Json.ReadValue(text);
    if r.Done? && Json.SkipSpace(r.rest) == "" then
      var result := Result(r.value);
      Listing(NamesOf(ListedTools(result)), NextCursor(result))
    else Nothing
  }

  /** A page as the client should see it. */
  function Shown(page: Page): Seen {
    Listing(seq(|page.names|, i requires 0 <= i < |page.names| => Json.Str(Printer.Units(page.names[i]))),
            if page.nextCursor.At? then Json.Str(Printer.Units(page.nextCursor.name)) else Json.Null)
  }

  lemma ThirdValue(members: seq<Json.Member>, key: string)
    requires |members| == 3 && members[2].key == Printer.Units(key)
    requires members[0].key != Printer.Units(key) && members[1].key != Printer.Units(key)
    ensures Value(members, key, Json.Null) == members[2].value
  {
    assert members[1..][0] == members[1] && members[1..][1..] == [members[2]];
    assert Value(members[1..][1..], key, Json.Null) == members[2].value;
    assert Value(members[1..], key, Json.Null) == members[2].value;
  }

  lemma EnvelopeResult(session: string, id: nat, result: Json.Json)
    ensures Result(Wire.Envelope(session, id, Json.Member(Printer.Units("result"), result))) == result
  {
    var envelope := Wire.Envelope(session, id, Json.Member(Printer.Units("result"), result));
    assert |Printer.Units("session_id")| == 10 && |Printer.Units("type")| == 4 && |Printer.Units("payload")| == 7;
    assert Printer.Units("jsonrpc")[0] == 'j' as int && |Printer.Units("jsonrpc")| == 7;
    assert |Printer.Units("id")| == 2 && |Printer.Units("result")| == 6;
    ThirdValue(envelope.members, "payload");
    ThirdValue(envelope.members[2].value.members, "result");
  }

  /** The bytes of a page show the client that page. */
  lemma PageIsShown(session: string, id: nat, tools: seq<Tool>, schemas: seq<Json.Json>, start: nat)
    requires id > 0 && start <= |tools| && |schemas| == |tools| && T.PageSchemasRead(tools, schemas, start)
    ensures Look(T.PageText(session, id, tools, start)) == Shown(PageAt(tools, start))
  {
    var result := T.PageValue(tools, schemas, start);
    T.PageReadsBack(session, id, tools, schemas, start);
    EnvelopeResult(session, id, result);
    PageTellsTheClient(tools, schemas, start);
    assert NamesOf(ListedTools(result)) == Shown(PageAt(tools, start)).names;
  }

  // ------------------------------------------------------------- a whole conversation

  /** The string with these code units. */
  function Spelled(units: seq<int>): string {
    seq(|units|, i requires 0 <= i < |units| =>
      if 0 <= units[i] < 0xD800 || 0xE000 <= units[i] < 0x11_0000 then units[i] as char else ' ')
  }

  lemma SpelledUnits(s: string)
    ensures Spelled(Printer.Units(s)) == s
  {
  }

  /** What the client sends next. */
  datatype Request = Ask(cursor: Cursor) | Stop

  function NextRequest(seen: Seen): Request {
    if seen.Listing? && seen.next.Str? then Ask(At(Spelled(seen.next.units))) else Stop
  }

  /**
   * The client sends `request`, reads the bytes of the answer, sends back the cursor it finds there, and so on until
   * there is none: `seen` is what it saw. Its requests number `k` and up carry the ids `ids`.
   */
  predicate Converses(session: string, ids: nat -> nat, tools: seq<Tool>, request: Request, k: nat, seen: seq<Seen>)
    decreases |seen|
  {
    if request.Stop? then seen == []
    else
      && seen != [] && seen[0] == Look(ListText(session, ids(k), tools, request.cursor))
      && Converses(session, ids, tools, NextRequest(seen[0]), k + 1, seen[1..])
  }

  function AllShown(pages: seq<Page>): (seen: seq<Seen>)
    ensures |seen| == |pages|
  {
    if pages == [] then [] else [Shown(pages[0])] + AllShown(pages[1..])
  }

  lemma PageSchemas(tools: seq<Tool>, schemas: seq<Json.Json>, start: nat)
    requires T.SchemasRead(tools, schemas) && start <= |tools|
    ensures T.PageSchemasRead(tools, schemas, start)
  {
  }

  /** One request and what comes of it. */
  lemma AnswerShows(session: string, id: nat, tools: seq<Tool>, schemas: seq<Json.Json>, cursor: Cursor)
    requires id > 0 && T.SchemasRead(tools, schemas) && ValidCursor(tools, cursor)
    ensures var page := PageAt(tools, StartOf(tools, cursor)); var seen := Look(ListText(session, id, tools, cursor));
      && seen == Shown(page)
      && NextRequest(seen) == if page.nextCursor.At? then Ask(page.nextCursor) else Stop
  {
    var start := StartOf(tools, cursor);
    PageSchemas(tools, schemas, start);
    PageIsShown(session, id, tools, schemas, start);
    if PageAt(tools, start).nextCursor.At? {
      SpelledUnits(PageAt(tools, start).nextCursor.name);
    }
  }

  lemma FollowUnfolds(tools: seq<Tool>, cursor: Cursor)
    requires Registrable(tools) && ValidCursor(tools, cursor)
    ensures var page := PageAt(tools, StartOf(tools, cursor));
      if page.nextCursor.At?
      then ValidCursor(tools, page.nextCursor) && StartOf(tools, page.nextCursor) > StartOf(tools, cursor)
           && AllShown(Follow(tools, cursor)) == [Shown(page)] + AllShown(Follow(tools, page.nextCursor))
      else AllShown(Follow(tools, cursor)) == [Shown(page)]
  {
    var page := PageAt(tools, StartOf(tools, cursor));
    if page.nextCursor.At? {
      IndexOfOwnName(tools, T.PageEnd(tools, StartOf(tools, cursor)));
      assert Follow(tools, cursor)[1..] == Follow(tools, page.nextCursor);
    } else {
      assert [page][1..] == [];
    }
  }

  lemma ConsEqual(s: seq<Seen>, x: Seen, rest: seq<Seen>)
    ensures s == [x] + rest <==> s != [] && s[0] == x && s[1..] == rest
    ensures rest == [] ==> [x] + rest == [x]
  {
    if s != [] {
      assert s == [s[0]] + s[1..];
    }
  }

  lemma OneExchange(session: string, ids: nat -> nat, tools: seq<Tool>, schemas: seq<Json.Json>, cursor: Cursor, k: nat,
                    seen: seq<Seen>)
    requires T.SchemasRead(tools, schemas) && ValidCursor(tools, cursor) && forall i :: ids(i) > 0
    ensures var page := PageAt(tools, StartOf(tools, cursor));
      Converses(session, ids, tools, Ask(cursor), k, seen) <==>
        && seen != [] && seen[0] == Shown(page)
        && if page.nextCursor.At? then Converses(session, ids, tools, Ask(page.nextCursor), k + 1, seen[1..])
           else seen[1..] == []
  {
    AnswerShows(session, ids(k), tools, schemas, cursor);
  }

  /** A conversation from a valid cursor shows exactly the pages that follow it. */
  lemma {:induction false} ConversationShows(session: string, ids: nat -> nat, tools: seq<Tool>,
                                             schemas: seq<Json.Json>, cursor: Cursor, k: nat, seen: seq<Seen>)
    requires Registrable(tools) && T.SchemasRead(tools, schemas) && ValidCursor(tools, cursor) && forall i :: ids(i) > 0
    ensures Converses(session, ids, tools, Ask(cursor), k, seen) <==> seen == AllShown(Follow(tools, cursor))
    decreases |tools| - StartOf(tools, cursor)
  {
    var page := PageAt(tools, StartOf(tools, cursor));
    OneExchange(session, ids, tools, schemas, cursor, k, seen);
    FollowUnfolds(tools, cursor);
    if page.nextCursor.At? {
      ConsEqual(seen, Shown(page), AllShown(Follow(tools, page.nextCursor)));
      if seen != [] {
        ConversationShows(session, ids, tools, schemas, page.nextCursor, k + 1, seen[1..]);
      }
    } else {
      ConsEqual(seen, Shown(page), []);
    }
  }

  /**
   * A client that follows the cursors it finds in the bytes of the answers has one conversation, and sees in it every
   * tool of the registry once, in order, over max(1, ceil(n/4)) answers.
   */
  lemma ClientListsEveryTool(session: string, ids: nat -> nat, tools: seq<Tool>, schemas: seq<Json.Json>,
                             seen: seq<Seen>)
    requires Registrable(tools) && T.SchemasRead(tools, schemas) && forall i :: ids(i) > 0
    ensures Converses(session, ids, tools, Ask(Absent), 0, seen) <==> seen == AllShown(Follow(tools, Absent))
    ensures AllNames(Follow(tools, Absent)) == Names(tools)
    ensures |AllShown(Follow(tools, Absent))| == Max(1, CeilDiv(|tools|, T.PAGE_SIZE))
  {
    ConversationShows(session, ids, tools, schemas, Absent, 0, seen);
    PagingListsEveryTool(tools);
  }
}
