/** tools/list: the page writer (veetee_mcp_wire.c) and the cursor that follows it (veetee_mcp_dispatch.c). */
module McpTools {
  import opened Arithmetic
  import opened JsonReader
  import opened JsonPrinter
  import opened McpWire
  import Registry = McpRegistry

  type Tool = Registry.Tool

  const PAGE_SIZE := 4

  // ------------------------------------------------------------------ page text

  const NAME := "{" + "\"name\":"
  const DESCRIPTION := "," + "\"description\":"
  const SCHEMA := "," + "\"inputSchema\":"
  const TOOLS := "{" + "\"tools\":" + "["
  const NEXT_CURSOR := "," + "\"nextCursor\":"

  function ToolText(tool: Tool): string {
    NAME + Quoted(tool.name) + DESCRIPTION + Quoted(tool.description) + SCHEMA + tool.schema + "}"
  }

  function ToolsText(tools: seq<Tool>): string {
    if tools == [] then ""
    else if |tools| == 1 then ToolText(tools[0])
    else ToolsText(tools[..|tools| - 1]) + "," + ToolText(tools[|tools| - 1])
  }

  function CursorText(tools: seq<Tool>, next: nat): string {
    if next < |tools| then NEXT_CURSOR + Quoted(tools[next].name) else ""
  }

  function PageEnd(tools: seq<Tool>, start: nat): nat {
    Min(start + PAGE_SIZE, |tools|)
  }

  function PageText(session: string, id: nat, tools: seq<Tool>, start: nat): string
    requires start <= |tools|
  {
    var next := PageEnd(tools, start);
    Head(session, id) + RESULT + TOOLS + ToolsText(tools[start..next]) + "]" + CursorText(tools, next) + "}}}"
  }

  // ------------------------------------------------------------------ the writer

  method AppendTool(w: Writer, tool: Tool) returns (ok: bool)
    requires w.Valid() && !w.failed
    modifies w, w.buffer
    ensures w.Valid() && w.failed == !ok
    ensures ok <==> old(w.length) + |ToolText(tool)| < w.capacity
    ensures ok ==> w.Text() == old(w.Text()) + ToolText(tool)
    ensures w.buffer[w.capacity..] == old(w.buffer[w.capacity..])
  {
    ghost var start := w.Text();
    ok := AppendLabelled(w, NAME, tool.name);
    if !ok {
      return;
    }
    ok := AppendLabelled(w, DESCRIPTION, tool.description);
    if !ok {
      return;
    }
    ok := AppendEnd(w, SCHEMA, tool.schema, "}");
    RegroupTool(start, NAME + Quoted(tool.name), DESCRIPTION + Quoted(tool.description), SCHEMA, tool.schema, "}");
    Associate(NAME + Quoted(tool.name), DESCRIPTION, Quoted(tool.description));
  }

  lemma RegroupTool(start: string, a: string, b: string, c: string, d: string, e: string)
    ensures start + a + b + (c + d + e) == start + (a + b + c + d + e)
  {
    Associate(start, a, b);
    Associate(start, a + b, c + d + e);
    Associate(a + b, c + d, e);
    Associate(a + b, c, d);
  }

  method AppendLabelled(w: Writer, tag: string, value: string) returns (ok: bool)
    requires w.Valid() && !w.failed
    modifies w, w.buffer
    ensures w.Valid() && w.failed == !ok
    ensures ok <==> old(w.length) + |tag + Quoted(value)| < w.capacity
    ensures ok ==> w.Text() == old(w.Text()) + (tag + Quoted(value))
    ensures w.buffer[w.capacity..] == old(w.buffer[w.capacity..])
  {
    ghost var start := w.Text();
    ok := w.AppendBytes(tag);
    if !ok {
      return;
    }
    ok := w.AppendEscapedString(value);
    Associate(start, tag, Quoted(value));
  }

  method AppendEnd(w: Writer, a: string, b: string, c: string) returns (ok: bool)
    requires w.Valid() && !w.failed
    modifies w, w.buffer
    ensures w.Valid() && w.failed == !ok
    ensures ok <==> old(w.length) + |a + b + c| < w.capacity
    ensures ok ==> w.Text() == old(w.Text()) + (a + b + c)
    ensures w.buffer[w.capacity..] == old(w.buffer[w.capacity..])
  {
    ghost var start := w.Text();
    ok := w.AppendBytes(a);
    if !ok {
      return;
    }
    ok := w.AppendBytes(b);
    if !ok {
      return;
    }
    ok := w.AppendBytes(c);
    Associate(start, a, b);
    Associate(start, a + b, c);
  }

  lemma {:induction false} ToolsTextGrows(tools: seq<Tool>, i: nat, j: nat)
    requires i <= j <= |tools|
    ensures |ToolsText(tools[..i])| <= |ToolsText(tools[..j])|
  {
    if i < j {
      ToolsTextGrows(tools, i, j - 1);
      NextToolText(tools, j - 1);
    }
  }

  /** The text already there when tool `i` is about to be written. */
  function Before(tools: seq<Tool>, i: nat): string
    requires i <= |tools|
  {
    if i == 0 then "" else ToolsText(tools[..i]) + ","
  }

  lemma NextToolText(tools: seq<Tool>, i: nat)
    requires i < |tools|
    ensures ToolsText(tools[..i + 1]) == Before(tools, i) + ToolText(tools[i])
  {
    assert tools[..i + 1][..i] == tools[..i];
    if i == 0 {
      assert "" + ToolText(tools[0]) == ToolText(tools[0]);
    }
  }

  /** The first `n` schemas pass the bounded check. */
  predicate SchemasUpTo(tools: seq<Tool>, n: nat)
    requires n <= |tools|
  {
    n == 0 || (SchemasUpTo(tools, n - 1) && LooksLikeObject(tools[n - 1].schema))
  }

  predicate SchemasLookRight(tools: seq<Tool>) {
    SchemasUpTo(tools, |tools|)
  }

  /** Every single schema is looked at. */
  lemma {:induction false} EverySchemaIsChecked(tools: seq<Tool>, n: nat)
    requires n <= |tools|
    ensures SchemasUpTo(tools, n) <==> forall i :: 0 <= i < n ==> LooksLikeObject(tools[i].schema)
  {
    if n > 0 {
      EverySchemaIsChecked(tools, n - 1);
    }
  }

  lemma {:induction false} OneBadSchema(tools: seq<Tool>, i: nat, n: nat)
    requires i <= n <= |tools| && !SchemasUpTo(tools, i)
    ensures !SchemasUpTo(tools, n)
  {
    if i < n {
      OneBadSchema(tools, i, n - 1);
    }
  }

  /** One turn of the page loop: a comma between tools, then the tool. */
  method AppendNext(w: Writer, page: seq<Tool>, emitted: nat, ghost start: string) returns (ok: bool)
    requires w.Valid() && !w.failed && emitted < |page|
    requires w.Text() == start + ToolsText(page[..emitted])
    modifies w, w.buffer
    ensures w.Valid() && w.failed == !ok
    ensures ok <==> |start| + |ToolsText(page[..emitted + 1])| < w.capacity
    ensures ok ==> w.Text() == start + ToolsText(page[..emitted + 1])
    ensures w.buffer[w.capacity..] == old(w.buffer[w.capacity..])
  {
    NextToolText(page, emitted);
    if emitted > 0 {
      ok := w.AppendBytes(",");
      if !ok {
        return;
      }
      Associate(start, ToolsText(page[..emitted]), ",");
    } else {
      assert page[..0] == [];
    }
    assert w.Text() == start + Before(page, emitted);
    ok := AppendTool(w, page[emitted]);
    Associate(start, Before(page, emitted), ToolText(page[emitted]));
  }

  /** The first `emitted` tools of the page have passed the check and stand behind `start`. */
  ghost predicate Emitted(w: Writer, page: seq<Tool>, emitted: nat, start: string)
    requires emitted <= |page|
    reads w, w.buffer
  {
    w.Valid() && !w.failed && SchemasUpTo(page, emitted) && w.Text() == start + ToolsText(page[..emitted])
  }

  /** The whole page passes the check and its text has fewer than `limit` characters. */
  predicate PageFits(page: seq<Tool>, limit: int) {
    SchemasLookRight(page) && |ToolsText(page)| < limit
  }

  /** The schema check in front of it; once a tool does not go in, the page does not. */
  method AppendChecked(w: Writer, page: seq<Tool>, emitted: nat, ghost start: string) returns (status: Status)
    requires emitted < |page| && Emitted(w, page, emitted, start)
    modifies w, w.buffer
    ensures w.Valid()
    ensures status == Ok ==> Emitted(w, page, emitted + 1, start)
    ensures status != Ok ==> !PageFits(page, w.capacity - |start|)
    ensures w.buffer[w.capacity..] == old(w.buffer[w.capacity..])
  {
    var valid := ValidJsonObject(page[emitted].schema);
    if !valid {
      WholePage(page, emitted + 1, w.capacity - |start|);
      return ErrJson;
    }
    var ok := AppendNext(w, page, emitted, start);
    if !ok {
      WholePage(page, emitted + 1, w.capacity - |start|);
    }
    status := if ok then Ok else ErrCapacity;
  }

  lemma WholePage(page: seq<Tool>, emitted: nat, limit: int)
    requires emitted <= |page|
    requires !(SchemasUpTo(page, emitted) && |ToolsText(page[..emitted])| < limit)
    ensures !PageFits(page, limit)
  {
    if !SchemasUpTo(page, emitted) {
      OneBadSchema(page, emitted, |page|);
    }
    ToolsTextGrows(page, emitted, |page|);
    assert page[..|page|] == page;
  }

  lemma NothingEmitted(page: seq<Tool>, start: string)
    ensures start + ToolsText(page[..0]) == start && SchemasUpTo(page, 0)
  {
    assert page[..0] == [];
  }

  /** With every tool emitted the page is written, and it fitted. */
  lemma PageIsEmitted(w: Writer, page: seq<Tool>, start: string)
    requires Emitted(w, page, |page|, start)
    ensures w.Text() == start + ToolsText(page) && PageFits(page, w.capacity - |start|)
  {
    assert page[..|page|] == page;
  }

  /** The page loop. */
  method AppendTools(w: Writer, page: seq<Tool>) returns (status: Status)
    requires w.Valid() && !w.failed
    modifies w, w.buffer
    ensures w.Valid()
    ensures status == Ok <==> PageFits(page, w.capacity - old(w.length))
    ensures status == Ok ==> !w.failed && w.Text() == old(w.Text()) + ToolsText(page)
    ensures w.buffer[w.capacity..] == old(w.buffer[w.capacity..])
  {
    ghost var start := w.Text();
    NothingEmitted(page, start);
    var emitted := 0;
    while emitted < |page|
      invariant emitted <= |page| && Emitted(w, page, emitted, start)
      invariant w.buffer[w.capacity..] == old(w.buffer[w.capacity..])
    {
      status := AppendChecked(w, page, emitted, start);
      if status != Ok {
        return;
      }
      emitted := emitted + 1;
    }
    PageIsEmitted(w, page, start);
    return Ok;
  }

  /** vt_mcp_wire_write_tools_list for one page. */
  method WriteToolsList(output: array<char>, outputCapacity: nat, session: string, id: int, tools: seq<Tool>,
                        start: nat)
    returns (status: Status, next: nat, length: nat)
    requires outputCapacity <= output.Length
    modifies output
    ensures status == Ok <==>
      start <= |tools| && id > 0 && SchemasLookRight(tools[start..PageEnd(tools, start)])
      && |PageText(session, id, tools, start)| < Room(outputCapacity)
    ensures status == Ok ==> next == PageEnd(tools, start)
    ensures status == Ok ==> Finished(output, outputCapacity, length, PageText(session, id, tools, start))
    ensures output[Room(outputCapacity)..] == old(output[Room(outputCapacity)..])
  {
    next, length := start, 0;
    if start > |tools| {
      return ErrArgument, start, 0;
    }
    var begun, w := Begin(output, outputCapacity, session, id);
    if begun != Ok {
      return begun, start, 0;
    }
    var ok := w.AppendBytes(RESULT);
    if !ok {
      return ErrCapacity, start, 0;
    }
    ok := w.AppendBytes(TOOLS);
    if !ok {
      return ErrCapacity, start, 0;
    }
    next := PageEnd(tools, start);
    status := AppendTools(w, tools[start..next]);
    if status != Ok {
      return status, start, 0;
    }
    ok := AppendTail(w, tools, next);
    if !ok {
      return ErrCapacity, start, 0;
    }
    return Ok, next, w.length;
  }

  method AppendTail(w: Writer, tools: seq<Tool>, next: nat) returns (ok: bool)
    requires w.Valid() && !w.failed
    modifies w, w.buffer
    ensures w.Valid() && w.failed == !ok
    ensures ok <==> old(w.length) + 1 + |CursorText(tools, next)| + 3 < w.capacity
    ensures ok ==> w.Text() == old(w.Text()) + "]" + CursorText(tools, next) + "}}}"
    ensures w.buffer[w.capacity..] == old(w.buffer[w.capacity..])
  {
    ok := w.AppendBytes("]");
    if !ok {
      return;
    }
    if next < |tools| {
      ok := AppendLabelled(w, NEXT_CURSOR, tools[next].name);
      if !ok {
        return;
      }
    } else {
      assert w.Text() + "" == w.Text();
    }
    ok := w.AppendBytes("}}}");
  }

  // --------------------------------------------------------- the page reads back

  function ToolDoc(tool: Tool, schema: Json): Doc {
    Obj([Field("name", Text(tool.name)), Field("description", Text(tool.description)),
         Field("inputSchema", Raw(tool.schema, schema))])
  }

  function ToolDocs(tools: seq<Tool>, schemas: seq<Json>): (docs: seq<Doc>)
    requires |schemas| == |tools|
    ensures |docs| == |tools|
  {
    if tools == [] then []
    else ToolDocs(tools[..|tools| - 1], schemas[..|tools| - 1]) + [ToolDoc(tools[|tools| - 1], schemas[|tools| - 1])]
  }

  lemma NameLabel()
    ensures Label("name") == "\"name\":"
  {
    PlainLabel("name", "\"name\":");
  }

  lemma DescriptionLabel()
    ensures Label("description") == "\"description\":"
  {
    PlainLabel("description", "\"description\":");
  }

  lemma SchemaLabel()
    ensures Label("inputSchema") == "\"inputSchema\":"
  {
    PlainLabel("inputSchema", "\"inputSchema\":");
  }

  lemma ToolsLabel()
    ensures Label("tools") == "\"tools\":"
  {
    PlainLabel("tools", "\"tools\":");
  }

  lemma CursorLabel()
    ensures Label("nextCursor") == "\"nextCursor\":"
  {
    PlainLabel("nextCursor", "\"nextCursor\":");
  }

  lemma ToolIsDoc(tool: Tool, schema: Json)
    ensures Render(ToolDoc(tool, schema)) == ToolText(tool)
  {
    ThreeFields(Field("name", Text(tool.name)), Field("description", Text(tool.description)),
                Field("inputSchema", Raw(tool.schema, schema)));
    NameLabel();
    DescriptionLabel();
    SchemaLabel();
    RegroupToolDoc("{" + Label("name") + Quoted(tool.name), Label("description"), Quoted(tool.description),
                   Label("inputSchema"), tool.schema);
  }

  lemma RegroupToolDoc(front: string, lb: string, rb: string, lc: string, rc: string)
    ensures front + ("," + lb + rb + "," + lc + rc) + "}" == front + ("," + lb) + rb + ("," + lc) + rc + "}"
  {
    Associate("," + lb + rb, ",", lc);
    Associate(front, "," + lb + rb + ("," + lc), rc);
    Associate(front, "," + lb + rb, "," + lc);
    Associate(front, "," + lb, rb);
  }

  lemma {:induction false} RenderItemsSnoc(items: seq<Doc>, last: Doc)
    ensures RenderItems(items + [last]) == (if items == [] then "" else RenderItems(items) + ",") + Render(last)
  {
    if items == [] {
      assert items + [last] == [last] && "" + Render(last) == Render(last);
    } else {
      var more := items[1..];
      assert (items + [last])[1..] == more + [last];
      RenderItemsSnoc(more, last);
      if more == [] {
        assert more + [last] == [last];
      } else {
        Associate(Render(items[0]) + ",", RenderItems(more) + ",", Render(last));
        Associate(Render(items[0]) + ",", RenderItems(more), ",");
      }
    }
  }

  lemma {:induction false} ToolsAreDocs(tools: seq<Tool>, schemas: seq<Json>)
    requires |schemas| == |tools|
    ensures RenderItems(ToolDocs(tools, schemas)) == ToolsText(tools)
  {
    if tools != [] {
      var n := |tools| - 1;
      ToolsAreDocs(tools[..n], schemas[..n]);
      ToolIsDoc(tools[n], schemas[n]);
      RenderItemsSnoc(ToolDocs(tools[..n], schemas[..n]), ToolDoc(tools[n], schemas[n]));
      NextToolText(tools, n);
      assert tools[..n + 1] == tools;
    }
  }

  function CursorFields(tools: seq<Tool>, next: nat): seq<Field> {
    if next < |tools| then [Field("nextCursor", Text(tools[next].name))] else []
  }

  function PageField(tools: seq<Tool>, schemas: seq<Json>, start: nat): Field
    requires start <= |tools| && |schemas| == |tools|
  {
    var next := PageEnd(tools, start);
    var items := ToolDocs(tools[start..next], schemas[start..next]);
    Field("result", Obj([Field("tools", List(items))] + CursorFields(tools, next)))
  }

  lemma PageFieldsText(items: seq<Doc>, tools: seq<Tool>, next: nat)
    ensures RenderFields([Field("tools", List(items))] + CursorFields(tools, next))
         == Label("tools") + ("[" + RenderItems(items) + "]") + CursorText(tools, next)
  {
    var first, more := Field("tools", List(items)), CursorFields(tools, next);
    var body := Label("tools") + ("[" + RenderItems(items) + "]");
    ConsField(first, more);
    if more == [] {
      assert [first] + more == [first] && body + "" == body;
    } else {
      ConsField(more[0], []);
      assert more == [more[0]];
      CursorLabel();
      Associate(",", Label("nextCursor"), Quoted(tools[next].name));
      Associate(body, ",", RenderFields(more));
    }
  }

  lemma PageIsDoc(session: string, id: nat, tools: seq<Tool>, schemas: seq<Json>, start: nat)
    requires start <= |tools| && |schemas| == |tools|
    ensures Render(EnvelopeDoc(session, id, PageField(tools, schemas, start))) == PageText(session, id, tools, start)
  {
    var next := PageEnd(tools, start);
    var items := ToolDocs(tools[start..next], schemas[start..next]);
    EnvelopeIsDoc(session, id, PageField(tools, schemas, start));
    ConsField(PageField(tools, schemas, start), []);
    PageFieldsText(items, tools, next);
    ToolsAreDocs(tools[start..next], schemas[start..next]);
    ResultLabel();
    ToolsLabel();
    RegroupPage(Head(session, id), Label("result"), Label("tools"), RenderItems(items), CursorText(tools, next));
  }

  lemma RegroupPage(head: string, lr: string, lt: string, items: string, cursor: string)
    ensures head + ("," + (lr + ("{" + (lt + ("[" + items + "]") + cursor) + "}")) + "}}")
         == head + ("," + lr) + ("{" + lt + "[") + items + "]" + cursor + "}}}"
  {
    var inner := lt + ("[" + items + "]") + cursor;
    Associate(",", lr, "{" + inner + "}");
    Associate("," + lr, "{" + inner + "}", "}}");
    Associate("{" + inner, "}", "}}");
    assert "}" + "}}" == "}}}";
    Associate(head, "," + lr, "{" + inner + "}}}");
    var front := head + ("," + lr);
    Associate(front, "{" + inner, "}}}");
    Associate("{", lt + ("[" + items + "]"), cursor);
    Associate("{", lt, "[" + items + "]");
    Associate("{" + lt, "[" + items, "]");
    Associate("{" + lt, "[", items);
    Associate(front, "{" + lt + "[" + items + "]", cursor);
    Associate(front, "{" + lt + "[" + items, "]");
    Associate(front, "{" + lt + "[", items);
  }

  /** One tool as the client reads it. */
  function ToolValue(tool: Tool, schema: Json): Json {
    Object([Member(Units("name"), Str(Units(tool.name))), Member(Units("description"), Str(Units(tool.description))),
            Member(Units("inputSchema"), schema)])
  }

  function ToolValues(tools: seq<Tool>, schemas: seq<Json>): (values: seq<Json>)
    requires |schemas| == |tools|
    ensures |values| == |tools|
  {
    seq(|tools|, i requires 0 <= i < |tools| => ToolValue(tools[i], schemas[i]))
  }

  lemma ToolValuesSnoc(tools: seq<Tool>, schemas: seq<Json>)
    requires |schemas| == |tools| > 0
    ensures var n := |tools| - 1;
      ToolValues(tools, schemas) == ToolValues(tools[..n], schemas[..n]) + [ToolValue(tools[n], schemas[n])]
  {
  }

  function PageValue(tools: seq<Tool>, schemas: seq<Json>, start: nat): Json
    requires start <= |tools| && |schemas| == |tools|
  {
    var next := PageEnd(tools, start);
    Object([Member(Units("tools"), Array(ToolValues(tools[start..next], schemas[start..next])))]
           + if next < |tools| then [Member(Units("nextCursor"), Str(Units(tools[next].name)))] else [])
  }

  ghost predicate SchemasRead(tools: seq<Tool>, schemas: seq<Json>) {
    |schemas| == |tools| && forall i :: 0 <= i < |tools| ==> IsText(tools[i].schema, schemas[i])
  }

  lemma ToolMeaning(tool: Tool, schema: Json)
    ensures Meaning(ToolDoc(tool, schema)) == ToolValue(tool, schema)
    ensures Sound(ToolDoc(tool, schema)) <==> IsText(tool.schema, schema)
  {
    ThreeMeanings(Field("name", Text(tool.name)), Field("description", Text(tool.description)),
                  Field("inputSchema", Raw(tool.schema, schema)));
  }

  lemma {:induction false} ItemsSnoc(items: seq<Doc>, last: Doc)
    ensures ItemMeanings(items + [last]) == ItemMeanings(items) + [Meaning(last)]
    ensures SoundItems(items + [last]) <==> SoundItems(items) && Sound(last)
  {
    if items == [] {
      assert items + [last] == [last] && [last][1..] == [];
    } else {
      assert (items + [last])[1..] == items[1..] + [last];
      ItemsSnoc(items[1..], last);
    }
  }

  lemma {:induction false} ToolsMeaning(tools: seq<Tool>, schemas: seq<Json>)
    requires SchemasRead(tools, schemas)
    ensures SoundItems(ToolDocs(tools, schemas))
    ensures ItemMeanings(ToolDocs(tools, schemas)) == ToolValues(tools, schemas)
  {
    if tools != [] {
      var n := |tools| - 1;
      assert SchemasRead(tools[..n], schemas[..n]);
      ToolsMeaning(tools[..n], schemas[..n]);
      ToolMeaning(tools[n], schemas[n]);
      ItemsSnoc(ToolDocs(tools[..n], schemas[..n]), ToolDoc(tools[n], schemas[n]));
      ToolValuesSnoc(tools, schemas);
    }
  }

  /** The schemas of the page from `start` are JSON texts of these values. */
  ghost predicate PageSchemasRead(tools: seq<Tool>, schemas: seq<Json>, start: nat)
    requires start <= |tools| && |schemas| == |tools|
  {
    SchemasRead(tools[start..PageEnd(tools, start)], schemas[start..PageEnd(tools, start)])
  }

  lemma PageMeaning(tools: seq<Tool>, schemas: seq<Json>, start: nat)
    requires start <= |tools| && |schemas| == |tools| && PageSchemasRead(tools, schemas, start)
    ensures Sound(PageField(tools, schemas, start).doc)
    ensures Meaning(PageField(tools, schemas, start).doc) == PageValue(tools, schemas, start)
  {
    var next := PageEnd(tools, start);
    var items := ToolDocs(tools[start..next], schemas[start..next]);
    ToolsMeaning(tools[start..next], schemas[start..next]);
    PageFieldsMeaning(items, tools, next);
  }

  lemma PageFieldsMeaning(items: seq<Doc>, tools: seq<Tool>, next: nat)
    requires SoundItems(items)
    ensures var fields := [Field("tools", List(items))] + CursorFields(tools, next);
      && SoundFields(fields)
      && FieldMeanings(fields) == [Member(Units("tools"), Array(ItemMeanings(items)))]
         + if next < |tools| then [Member(Units("nextCursor"), Str(Units(tools[next].name)))] else []
  {
    var first, more := Field("tools", List(items)), CursorFields(tools, next);
    assert ([first] + more)[1..] == more;
    assert FieldMeanings([first] + more) == [Member(Units("tools"), Meaning(first.doc))] + FieldMeanings(more);
    if more != [] {
      OneMeaning(more[0]);
      assert more == [more[0]];
    } else {
      assert FieldMeanings(more) == [] && SoundFields(more);
    }
    assert Sound(first.doc);
  }

  /** A written page reads back to the same session and id, the page's tools, and the cursor naming the next one. */
  lemma PageReadsBack(session: string, id: nat, tools: seq<Tool>, schemas: seq<Json>, start: nat)
    requires id > 0 && start <= |tools| && |schemas| == |tools| && PageSchemasRead(tools, schemas, start)
    ensures IsText(PageText(session, id, tools, start),
      Envelope(session, id, Member(Units("result"), PageValue(tools, schemas, start))))
  {
    var last := PageField(tools, schemas, start);
    PageIsDoc(session, id, tools, schemas, start);
    PageMeaning(tools, schemas, start);
    EnvelopeReadsBack(session, id, last);
  }

  // ---------------------------------------------------- pages and malformed schemas

  /** The page from `start` reads back to its tools with these schemas. */
  ghost predicate PageReads(session: string, id: nat, tools: seq<Tool>, schemas: seq<Json>, start: nat)
    requires start <= |tools| && |schemas| == |tools|
  {
    IsText(PageText(session, id, tools, start),
      Envelope(session, id, Member(Units("result"), PageValue(tools, schemas, start))))
  }

  /** The page that holds the last tool alone is readable only if the tool's schema is a JSON text. */
  lemma LastToolReadOnlyIf(session: string, id: nat, tools: seq<Tool>, schemas: seq<Json>)
    requires id > 0 && tools != [] && |schemas| == |tools| && PageReads(session, id, tools, schemas, |tools| - 1)
    ensures IsText(tools[|tools| - 1].schema, schemas[|tools| - 1])
  {
    var n := |tools| - 1;
    var last := PageField(tools, schemas, n);
    PageIsDoc(session, id, tools, schemas, n);
    EnvelopeLastRead(session, id, last, Member(Units("result"), PageValue(tools, schemas, n)));
    LastToolField(tools, schemas);
    OneToolRead(tools[n], schemas[n]);
  }

  lemma OneToolRead(tool: Tool, schema: Json)
    requires Leaves(Render(Obj([Field("tools", List([ToolDoc(tool, schema)]))])) + ("}" + "}"),
                    Object([Member(Units("tools"), Array([ToolValue(tool, schema)]))]), 2)
    ensures IsText(tool.schema, schema)
  {
    var fields, members := ToolDoc(tool, schema).fields, ToolValue(tool, schema).members;
    TwoSoundFields(fields[0], fields[1], fields[2]);
    var closing := "}" + "}";
    SolidAfter('}', "");
    SolidAfter('}', "}");
    assert closing == ['}'] + "}" && "}" == ['}'] + "";
    OnlyRawRead("tools", fields, closing, Member(Units("tools"), Array([Object(members)])), members);
  }

  lemma LastToolField(tools: seq<Tool>, schemas: seq<Json>)
    requires tools != [] && |schemas| == |tools|
    ensures var n := |tools| - 1;
      && PageField(tools, schemas, n) == Field("result", Obj([Field("tools", List([ToolDoc(tools[n], schemas[n])]))]))
      && PageValue(tools, schemas, n) == Object([Member(Units("tools"), Array([ToolValue(tools[n], schemas[n])]))])
  {
    var n := |tools| - 1;
    var one, its := tools[n..PageEnd(tools, n)], schemas[n..PageEnd(tools, n)];
    assert one == [tools[n]] && its == [schemas[n]];
    assert ToolDocs(one[..0], its[..0]) == [];
    assert ToolDocs(one, its) == [ToolDoc(tools[n], schemas[n])];
    assert CursorFields(tools, n + 1) == [];
    var list := [Field("tools", List([ToolDoc(tools[n], schemas[n])]))];
    assert list + [] == list;
    var members := [Member(Units("tools"), Array([ToolValue(tools[n], schemas[n])]))];
    assert members + [] == members;
    assert ToolValues(one, its) == [ToolValue(tools[n], schemas[n])];
  }

  /**
   * All schemas of a registry are JSON texts exactly when the pages of every registry made of its first tools read
   * back. A registry's own pages do not suffice, as SchemasCanConspire shows.
   */
  lemma SchemasReadExactly(session: string, id: nat, tools: seq<Tool>, schemas: seq<Json>)
    requires id > 0 && |schemas| == |tools|
    ensures SchemasRead(tools, schemas) <==>
      forall n, start :: 0 <= start <= n <= |tools| ==> PageReads(session, id, tools[..n], schemas[..n], start)
  {
    if SchemasRead(tools, schemas) {
      forall n, start | 0 <= start <= n <= |tools|
        ensures PageReads(session, id, tools[..n], schemas[..n], start)
      {
        PageReadsBack(session, id, tools[..n], schemas[..n], start);
      }
    }
    if forall n, start :: 0 <= start <= n <= |tools| ==> PageReads(session, id, tools[..n], schemas[..n], start) {
      forall i | 0 <= i < |tools|
        ensures IsText(tools[i].schema, schemas[i])
      {
        assert PageReads(session, id, tools[..i + 1], schemas[..i + 1], i);
        LastToolReadOnlyIf(session, id, tools[..i + 1], schemas[..i + 1]);
      }
    }
  }

  // ------------------------------------- two malformed schemas that complete each other

  // {"b":{}   and   {"a":[{"b":{}
  const UNCLOSED := "{" + (Quoted("b") + (":" + "{}"))
  const OPENS := "{" + (Quoted("a") + (":" + ("[" + UNCLOSED)))

  /** Everything of a tool's text in front of its schema. */
  function ToolFront(tool: Tool): string {
    NAME + Quoted(tool.name) + DESCRIPTION + Quoted(tool.description) + SCHEMA
  }

  /** Closes what OPENS left open with a copy of the tool, and then begins the tool once more. */
  function Closes(tool: Tool): string {
    "{}" + "}" + "]" + "}" + "}" + "," + ToolFront(tool) + "{}"
  }

  function WithSchema(tool: Tool, schema: string): Tool {
    tool.(schema := schema)
  }

  /** What the first schema is taken for: it has swallowed the second tool. */
  function Swallowed(tool: Tool): Doc {
    Obj([Field("a", List([Obj([Field("b", Obj([]))]), ToolDoc(WithSchema(tool, "{}"), Object([]))]))])
  }

  lemma UnclosedFails()
    ensures ReadValue(UNCLOSED).Fail?
  {
    var member := Quoted("b") + (":" + "{}");
    ReadOneMember("b", "{}");
    assert "{}" + "" == "{}";
    ReadEmptyObject("");
    assert ReadMembers(member).Fail?;
    assert UNCLOSED[1..] == member && member[0] == '"';
  }

  lemma OpensFails()
    ensures ReadValue(OPENS).Fail?
  {
    UnclosedFails();
    var list := "[" + UNCLOSED;
    assert list[1..] == UNCLOSED && UNCLOSED[0] == '{';
    assert ReadItems(UNCLOSED).Fail?;
    assert ReadValue(list).Fail?;
    ReadOneMember("a", list);
    var member := Quoted("a") + (":" + list);
    assert ReadMembers(member).Fail?;
    assert OPENS[1..] == member && member[0] == '"';
  }

  lemma ClosesIsNoText(tool: Tool, value: Json)
    ensures !IsText(Closes(tool), value)
  {
    var rest := "}" + "]" + "}" + "}" + "," + ToolFront(tool) + "{}";
    RegroupCloses("{}", "}", "]", ",", ToolFront(tool));
    ReadEmptyObject(rest);
    assert rest[0] == '}';
  }

  lemma RegroupCloses(e: string, c: string, k: string, d: string, front: string)
    ensures e + c + k + c + c + d + front + e == e + (c + k + c + c + d + front + e)
  {
    Associate(e, c + k + c + c + d + front, e);
    Associate(e, c + k + c + c + d, front);
    Associate(e, c + k + c + c, d);
    Associate(e, c + k + c, c);
    Associate(e, c + k, c);
    Associate(e, c, k);
  }

  lemma BracedLooksLikeObject(s: string)
    requires s != "" && s[0] == '{' && s[|s| - 1] == '}'
    ensures LooksLikeObject(s)
  {
  }

  lemma UnclosedText()
    ensures Render(Obj([Field("b", Obj([]))])) == UNCLOSED + "}"
  {
    assert Render(Obj([])) == "{}";
    assert RenderFields([Field("b", Obj([]))]) == Quoted("b") + ":" + "{}";
    Associate(Quoted("b"), ":", "{}");
  }

  lemma TwoItems(x: Doc, y: Doc)
    ensures Render(List([x, y])) == "[" + (Render(x) + "," + Render(y)) + "]"
  {
    assert [x, y][1..] == [y] && RenderItems([y]) == Render(y);
    assert RenderItems([x, y]) == Render(x) + "," + Render(y);
  }

  lemma OneField(key: string, doc: Doc)
    ensures Render(Obj([Field(key, doc)])) == "{" + (Quoted(key) + ":" + Render(doc)) + "}"
  {
  }

  lemma SwallowedText(tool: Tool)
    ensures Render(Swallowed(tool)) == OPENS + "}" + "," + ToolText(WithSchema(tool, "{}")) + "]" + "}"
  {
    var first, second := Obj([Field("b", Obj([]))]), ToolDoc(WithSchema(tool, "{}"), Object([]));
    UnclosedText();
    ToolIsDoc(WithSchema(tool, "{}"), Object([]));
    TwoItems(first, second);
    OneField("a", List([first, second]));
    RegroupOpens("{", Quoted("a"), ":", "[", UNCLOSED, "}", ",", ToolText(WithSchema(tool, "{}")), "]");
  }

  lemma RegroupOpens(o: string, key: string, n: string, l: string, u: string, c: string, d: string, text: string,
                     k: string)
    ensures o + (key + n + (l + (u + c + d + text) + k)) + c == o + (key + (n + (l + u))) + c + d + text + k + c
  {
    Associate(l, u + c + d, text);
    Associate(l, u + c, d);
    Associate(l, u, c);
    var body := l + u;
    Associate(key, n, body + c + d + text + k);
    Associate(n, body + c + d + text, k);
    Associate(n, body + c + d, text);
    Associate(n, body + c, d);
    Associate(n, body, c);
    var inner := n + body;
    Associate(key, inner + c + d + text, k);
    Associate(key, inner + c + d, text);
    Associate(key, inner + c, d);
    Associate(key, inner, c);
    var outer := key + inner;
    Associate(o, outer + c + d + text, k);
    Associate(o, outer + c + d, text);
    Associate(o, outer + c, d);
    Associate(o, outer, c);
  }

  /** The text is the same as that of two well-formed tools. */
  lemma ConspiracyText(a: Tool, b: Tool)
    requires a.schema == OPENS && b.schema == Closes(b)
    ensures ToolsText([a, b]) == ToolsText([WithSchema(a, Render(Swallowed(b))), WithSchema(b, "{}")])
  {
    var plain := WithSchema(b, "{}");
    TwoToolsText(a, b);
    TwoToolsText(WithSchema(a, Render(Swallowed(b))), plain);
    SwallowedText(b);
    RegroupConspiracy(ToolFront(a), OPENS, "}", ",", ToolFront(b), "{}", "]");
  }

  lemma TwoToolsText(a: Tool, b: Tool)
    ensures ToolsText([a, b]) == ToolFront(a) + a.schema + "}" + "," + (ToolFront(b) + b.schema + "}")
  {
    assert [a, b][..1] == [a];
    assert ToolText(a) == ToolFront(a) + a.schema + "}" && ToolText(b) == ToolFront(b) + b.schema + "}";
  }

  lemma RegroupConspiracy(na: string, o: string, c: string, d: string, nb: string, e: string, k: string)
    ensures na + o + c + d + (nb + (e + c + k + c + c + d + nb + e) + c)
         == na + (o + c + d + (nb + e + c) + k + c) + c + d + (nb + e + c)
  {
    var y := nb + e + c;
    RegroupSecond(nb, e, c, k, d);
    var w, f := y + k + c + c + d, na + o + c + d;
    Associate(f, w, y);
    Associate(f, y + k + c + c, d);
    Associate(f, y + k + c, c);
    Associate(f, y + k, c);
    Associate(f, y, k);
    Associate(na, o + c + d + y + k, c);
    Associate(na, o + c + d + y, k);
    Associate(na, o + c + d, y);
    Associate(na, o + c, d);
    Associate(na, o, c);
  }

  lemma RegroupSecond(nb: string, e: string, c: string, k: string, d: string)
    ensures nb + (e + c + k + c + c + d + nb + e) + c == nb + e + c + k + c + c + d + (nb + e + c)
  {
    Associate(nb, e + c + k + c + c + d + nb, e);
    Associate(nb, e + c + k + c + c + d, nb);
    Associate(nb, e + c + k + c + c, d);
    Associate(nb, e + c + k + c, c);
    Associate(nb, e + c + k, c);
    Associate(nb, e + c, k);
    Associate(nb, e, c);
    var w := nb + e + c + k + c + c + d;
    Associate(w, nb, e);
    Associate(w, nb + e, c);
  }

  /**
   * A page can be readable although none of its schemas is a JSON text: the first leaves brackets open, the second
   * closes them, and the reader finds as many tools as were written, under the same names.
   */
  lemma SchemasCanConspire(session: string, id: nat, a: Tool, b: Tool)
    requires id > 0 && a.schema == OPENS && b.schema == Closes(b)
    ensures SchemasLookRight([a, b]) && forall value :: !IsText(a.schema, value) && !IsText(b.schema, value)
    ensures PageReads(session, id, [a, b], [Meaning(Swallowed(b)), Object([])], 0)
  {
    OpensFails();
    forall value
      ensures !IsText(b.schema, value)
    {
      ClosesIsNoText(b, value);
    }
    BracedLooksLikeObject(a.schema);
    BracedLooksLikeObject(b.schema);
    assert SchemasUpTo([a, b], 1);
    ConspiracyReads(session, id, a, b);
  }

  lemma ConspiracyReads(session: string, id: nat, a: Tool, b: Tool)
    requires id > 0 && a.schema == OPENS && b.schema == Closes(b)
    ensures PageReads(session, id, [a, b], [Meaning(Swallowed(b)), Object([])], 0)
  {
    var a', b' := WithSchema(a, Render(Swallowed(b))), WithSchema(b, "{}");
    SwallowedReads(b);
    assert SchemasRead([a', b'], [Meaning(Swallowed(b)), Object([])]);
    ConspiracyText(a, b);
    SameTextReads(session, id, [a, b], [a', b'], [Meaning(Swallowed(b)), Object([])]);
  }

  lemma SamePageText(session: string, id: nat, tools: seq<Tool>, others: seq<Tool>)
    requires |tools| == |others| <= PAGE_SIZE && ToolsText(tools) == ToolsText(others)
    ensures PageText(session, id, tools, 0) == PageText(session, id, others, 0)
  {
    assert tools[0..|tools|] == tools && others[0..|others|] == others;
  }

  /** Two short registries of one text and with the same names and descriptions are read alike. */
  lemma SameTextReads(session: string, id: nat, tools: seq<Tool>, others: seq<Tool>, schemas: seq<Json>)
    requires id > 0 && |tools| == |others| == |schemas| <= PAGE_SIZE && SchemasRead(others, schemas)
    requires ToolsText(tools) == ToolsText(others)
    requires forall i :: 0 <= i < |tools| ==>
      tools[i].name == others[i].name && tools[i].description == others[i].description
    ensures PageReads(session, id, tools, schemas, 0)
  {
    SamePageText(session, id, tools, others);
    SameListing(tools, others, schemas);
    PageReadsBack(session, id, others, schemas, 0);
  }

  lemma SameListing(tools: seq<Tool>, others: seq<Tool>, schemas: seq<Json>)
    requires |tools| == |others| == |schemas| <= PAGE_SIZE
    requires forall i :: 0 <= i < |tools| ==> ToolValue(tools[i], schemas[i]) == ToolValue(others[i], schemas[i])
    ensures PageValue(tools, schemas, 0) == PageValue(others, schemas, 0)
  {
    var n := |tools|;
    assert tools[0..n] == tools && others[0..n] == others && schemas[0..n] == schemas;
    assert ToolValues(tools, schemas) == ToolValues(others, schemas);
  }

  lemma SwallowedReads(tool: Tool)
    ensures IsText(Render(Swallowed(tool)), Meaning(Swallowed(tool))) && IsText("{}", Object([]))
  {
    assert "{}" + "" == "{}";
    ReadEmptyObject("");
    ToolMeaning(WithSchema(tool, "{}"), Object([]));
    SwallowedIsSound(tool);
    DocReadsBack(Swallowed(tool), "");
    assert Render(Swallowed(tool)) + "" == Render(Swallowed(tool));
  }

  lemma SwallowedIsSound(tool: Tool)
    requires IsText("{}", Object([]))
    ensures Sound(Swallowed(tool))
  {
    var first, second := Obj([Field("b", Obj([]))]), ToolDoc(WithSchema(tool, "{}"), Object([]));
    ToolMeaning(WithSchema(tool, "{}"), Object([]));
    OneMeaning(Field("b", Obj([])));
    assert SoundFields([]) && SoundItems([]) && Sound(first) && Sound(second);
    assert [first, second][1..] == [second] && [second][1..] == [];
    assert SoundItems([second]);
    assert SoundItems([first, second]);
    OneMeaning(Field("a", List([first, second])));
  }
}
