/** The bounded JSON writer of the MCP transport (veetee_mcp_wire.c). */
module McpWire {
  import opened Arithmetic
  import opened JsonReader
  import opened JsonPrinter

  const WIRE_MAX_BYTES := 8000

  datatype Status = Ok | ErrArgument | ErrCapacity | ErrJson | ErrRequestId

  // ---------------------------------------------------------------- the writer

  class Writer {
    const buffer: array<char>
    const capacity: nat
    var length: nat
    var failed: bool

    ghost predicate Valid()
      reads this, buffer
    {
      length < capacity <= buffer.Length && (!failed ==> buffer[length] as int == 0)
    }

    /** What has been written so far. */
    ghost function Text(): string
      requires length <= buffer.Length
      reads this, buffer
    {
      buffer[..length]
    }

    /** The first steps of `begin`: cap the buffer and terminate it. */
    constructor (output: array<char>, outputCapacity: nat)
      requires 0 < outputCapacity <= output.Length
      modifies output
      ensures Valid() && !failed && Text() == "" && buffer == output
      ensures capacity == Min(outputCapacity, WIRE_MAX_BYTES + 1)
      ensures output[capacity..] == old(output[Min(outputCapacity, WIRE_MAX_BYTES + 1)..])
    {
      buffer := output;
      capacity := if outputCapacity > WIRE_MAX_BYTES + 1 then WIRE_MAX_BYTES + 1 else outputCapacity;
      length, failed := 0, false;
      new;
      output[0] := 0 as char;
    }

    method AppendBytes(bytes: string) returns (ok: bool)
      requires Valid()
      modifies this, buffer
      ensures Valid() && failed == !ok
      ensures ok <==> !old(failed) && old(length) + |bytes| < capacity
      ensures ok ==> Text() == old(Text()) + bytes
      ensures buffer[capacity..] == old(buffer[capacity..])
    {
      if failed || length >= capacity || |bytes| > capacity - length - 1 {
        failed := true;
        return false;
      }
      forall i | 0 <= i < |bytes| { buffer[length + i] := bytes[i]; }
      length := length + |bytes|;
      buffer[length] := 0 as char;
      return true;
    }

    /** vsnprintf: a text that does not fit is cut and terminated, and the writer fails. */
    method AppendFormat(text: string) returns (ok: bool)
      requires Valid()
      modifies this, buffer
      ensures Valid() && failed == !ok
      ensures ok <==> !old(failed) && old(length) + |text| < capacity
      ensures ok ==> Text() == old(Text()) + text
      ensures buffer[capacity..] == old(buffer[capacity..])
    {
      if failed || length >= capacity {
        failed := true;
        return false;
      }
      var room := capacity - length - 1;
      var kept := if |text| < room then |text| else room;
      forall i | 0 <= i < kept { buffer[length + i] := text[i]; }
      buffer[length + kept] := 0 as char;
      if |text| >= capacity - length {
        failed := true;
        return false;
      }
      length := length + |text|;
      return true;
    }

    /** A literal, an escaped string, then a formatted text. */
    method AppendHead(opening: string, value: string, closing: string) returns (ok: bool)
      requires Valid() && !failed && Text() == ""
      modifies this, buffer
      ensures Valid() && failed == !ok
      ensures ok <==> |opening + Quoted(value) + closing| < capacity
      ensures ok ==> Text() == opening + Quoted(value) + closing
      ensures buffer[capacity..] == old(buffer[capacity..])
    {
      ok := AppendBytes(opening);
      if !ok {
        return;
      }
      assert Text() == opening;
      ok := AppendEscapedString(value);
      if !ok {
        return;
      }
      ok := AppendFormat(closing);
    }

    method AppendEscapedString(value: string) returns (ok: bool)
      requires Valid()
      modifies this, buffer
      ensures Valid() && failed == !ok
      ensures ok <==> !old(failed) && old(length) + |Quoted(value)| < capacity
      ensures ok ==> Text() == old(Text()) + Quoted(value)
      ensures buffer[capacity..] == old(buffer[capacity..])
    {
      ok := AppendBytes("\"");
      if !ok {
        return;
      }
      ok := AppendEscapes(value);
      if !ok {
        return;
      }
      ok := AppendBytes("\"");
      Associate(old(Text()), "\"" + Escape(value), "\"");
      Associate(old(Text()), "\"", Escape(value));
    }

    /** The character loop between the quotes. */
    method AppendEscapes(value: string) returns (ok: bool)
      requires Valid() && !failed
      modifies this, buffer
      ensures Valid() && failed == !ok
      ensures ok <==> old(length) + |Escape(value)| < capacity
      ensures ok ==> Text() == old(Text()) + Escape(value)
      ensures buffer[capacity..] == old(buffer[capacity..])
    {
      var cursor := 0;
      ghost var start := Text();
      while cursor < |value|
        invariant cursor <= |value| && Valid() && !failed
        invariant Text() == start + Escape(value[..cursor])
        invariant buffer[capacity..] == old(buffer[capacity..])
      {
        EscapeNext(value, cursor);
        PrefixIsShorter(value, cursor + 1);
        ok := AppendBytes(EscapeChar(value[cursor]));
        if !ok {
          return;
        }
        Associate(start, Escape(value[..cursor]), EscapeChar(value[cursor]));
        cursor := cursor + 1;
      }
      assert value[..cursor] == value;
      return true;
    }
  }

  lemma EscapeNext(value: string, i: nat)
    requires i < |value|
    ensures Escape(value[..i + 1]) == Escape(value[..i]) + EscapeChar(value[i])
  {
    EscapeAppend(value[..i], [value[i]]);
    assert value[..i + 1] == value[..i] + [value[i]];
    assert [value[i]][1..] == "";
    assert Escape([value[i]]) == EscapeChar(value[i]) + "";
  }

  lemma PrefixIsShorter(value: string, i: nat)
    requires i <= |value|
    ensures |Escape(value[..i])| <= |Escape(value)|
  {
    EscapeAppend(value[..i], value[i..]);
    assert value[..i] + value[i..] == value;
  }

  // ----------------------------------------------------------------- envelopes

  // The fixed parts of the envelope, spelt piece by piece:
  // {"session_id":   ,"type":"mcp","payload":   {"jsonrpc":"2.0","id":
  const OPENING := "{" + "\"session_id\":"
  const TYPE_AND_PAYLOAD := "," + "\"type\":" + "\"mcp\"" + "," + "\"payload\":"
  const ID_PREFIX := "{" + "\"jsonrpc\":" + "\"2.0\"" + "," + "\"id\":"
  const MIDDLE := TYPE_AND_PAYLOAD + ID_PREFIX

  /** What `begin` writes: the outer envelope up to the JSON-RPC id. */
  function Head(session: string, id: nat): string {
    OPENING + Quoted(session) + (MIDDLE + Decimal(id))
  }

  const RESULT := "," + "\"result\":"
  const ERROR_MESSAGE := "," + "\"error\":" + "{" + "\"message\":"

  function ResultText(session: string, id: nat, json: string): string {
    Head(session, id) + RESULT + json + "}}"
  }

  function ErrorText(session: string, id: nat, message: string): string {
    Head(session, id) + ERROR_MESSAGE + Quoted(message) + "}}}"
  }

  /** No text is both a result and an error message. */
  lemma ResultIsNoError(session: string, id: nat, json: string, message: string)
    ensures ResultText(session, id, json) != ErrorText(session, id, message)
  {
    var n := |Head(session, id)| + 2;
    assert RESULT[2] == 'r' && ERROR_MESSAGE[2] == 'e';
    assert ResultText(session, id, json)[n] == 'r' && ErrorText(session, id, message)[n] == 'e';
  }

  /** The payload object both envelopes share, with its last field left open. */
  function EnvelopeDoc(session: string, id: nat, last: Field): Doc {
    Obj([Field("session_id", Text(session)), Field("type", Text("mcp")),
         Field("payload", Obj([Field("jsonrpc", Text("2.0")), Field("id", Count(id)), last]))])
  }

  function Label(key: string): string {
    Quoted(key) + ":"
  }

  lemma PlainQuoted(s: string)
    requires forall i :: 0 <= i < |s| ==> IsPlain(s[i])
    ensures Quoted(s) == "\"" + s + "\""
  {
    EscapePlain(s);
  }

  lemma PlainLabel(key: string, text: string)
    requires forall i :: 0 <= i < |key| ==> IsPlain(key[i])
    requires text == "\"" + key + "\":"
    ensures Label(key) == text
  {
    EscapePlain(key);
  }

  /** Three fields in a row, regrouped the way the writer appends them. */
  lemma Regroup3(la: string, ra: string, lb: string, rb: string, lc: string, rc: string)
    ensures "{" + (la + ra + "," + (lb + rb + "," + (lc + rc))) + "}"
         == "{" + la + ra + ("," + lb + rb + "," + lc + rc) + "}"
  {
    var x, y := la + ra, lb + rb;
    var w := y + "," + (lc + rc);
    Associate(x, ",", w);
    Associate("{", x, "," + w);
    Associate("{", la, ra);
    Associate(",", y + ",", lc + rc);
    Associate(",", y, ",");
    Associate(",", lb, rb);
    Associate("," + y + ",", lc, rc);
  }

  lemma ConsField(field: Field, more: seq<Field>)
    ensures RenderFields([field]) == Label(field.key) + Render(field.doc)
    ensures more != [] ==>
      RenderFields([field] + more) == Label(field.key) + Render(field.doc) + "," + RenderFields(more)
  {
    assert ([field] + more)[1..] == more;
  }

  lemma ThreeFields(a: Field, b: Field, c: Field)
    ensures Render(Obj([a, b, c]))
         == "{" + Label(a.key) + Render(a.doc)
            + ("," + Label(b.key) + Render(b.doc) + "," + Label(c.key) + Render(c.doc)) + "}"
  {
    ConsField(a, [b, c]);
    ConsField(b, [c]);
    assert [a] + [b, c] == [a, b, c] && [b] + [c] == [b, c];
    Regroup3(Label(a.key), Render(a.doc), Label(b.key), Render(b.doc), Label(c.key), Render(c.doc));
  }

  lemma RegroupPayload(la: string, ra: string, lb: string, rb: string, lc: string, rc: string)
    ensures "{" + la + ra + ("," + lb + rb + "," + lc + rc) + "}"
         == "{" + la + ra + "," + lb + (rb + "," + (lc + rc) + "}")
  {
    var front := "{" + la + ra;
    var back := rb + "," + (lc + rc);
    Associate("," + lb + rb + ",", lc, rc);
    Associate("," + lb, rb, ",");
    Associate("," + lb, rb + ",", lc + rc);
    Associate(front, ",", lb);
    Associate(front, "," + lb, back);
    Associate(front + "," + lb, back, "}");
  }

  /** Three fields, with everything before the second value in front. */
  lemma ThreeFieldsSplit(a: Field, b: Field, c: Field)
    ensures Render(Obj([a, b, c]))
         == "{" + Label(a.key) + Render(a.doc) + "," + Label(b.key) + (Render(b.doc) + "," + RenderFields([c]) + "}")
  {
    ThreeFields(a, b, c);
    ConsField(c, []);
    RegroupPayload(Label(a.key), Render(a.doc), Label(b.key), Render(b.doc), Label(c.key), Render(c.doc));
  }

  lemma JsonrpcLabel()
    ensures Label("jsonrpc") == "\"jsonrpc\":"
  {
    PlainLabel("jsonrpc", "\"jsonrpc\":");
  }

  lemma VersionQuoted()
    ensures Quoted("2.0") == "\"2.0\""
  {
    PlainQuoted("2.0");
  }

  lemma IdLabel()
    ensures Label("id") == "\"id\":"
  {
    PlainLabel("id", "\"id\":");
  }

  lemma IdPrefixText()
    ensures "{" + Label("jsonrpc") + Quoted("2.0") + "," + Label("id") == ID_PREFIX
  {
    JsonrpcLabel();
    VersionQuoted();
    IdLabel();
  }

  lemma PayloadText(id: nat, last: Field)
    ensures Render(Obj([Field("jsonrpc", Text("2.0")), Field("id", Count(id)), last]))
         == ID_PREFIX + (Decimal(id) + "," + RenderFields([last]) + "}")
  {
    ThreeFieldsSplit(Field("jsonrpc", Text("2.0")), Field("id", Count(id)), last);
    IdPrefixText();
  }

  lemma SessionLabel()
    ensures Label("session_id") == "\"session_id\":"
  {
    PlainLabel("session_id", "\"session_id\":");
  }

  lemma OpeningText()
    ensures "{" + Label("session_id") == OPENING
  {
    SessionLabel();
  }

  lemma TypeLabel()
    ensures Label("type") == "\"type\":"
  {
    PlainLabel("type", "\"type\":");
  }

  lemma McpQuoted()
    ensures Quoted("mcp") == "\"mcp\""
  {
    PlainQuoted("mcp");
  }

  lemma PayloadLabel()
    ensures Label("payload") == "\"payload\":"
  {
    PlainLabel("payload", "\"payload\":");
  }

  lemma TypeAndPayloadText()
    ensures "," + Label("type") + Quoted("mcp") + "," + Label("payload") == TYPE_AND_PAYLOAD
  {
    TypeLabel();
    McpQuoted();
    PayloadLabel();
  }

  lemma OuterText(session: string, payload: Doc)
    ensures Render(Obj([Field("session_id", Text(session)), Field("type", Text("mcp")), Field("payload", payload)]))
         == OPENING + Quoted(session) + (TYPE_AND_PAYLOAD + Render(payload)) + "}"
  {
    ThreeFields(Field("session_id", Text(session)), Field("type", Text("mcp")), Field("payload", payload));
    OpeningText();
    TypeAndPayloadText();
  }

  /** The printed envelope is the compact form of its document. */
  lemma EnvelopeIsDoc(session: string, id: nat, last: Field)
    ensures Render(EnvelopeDoc(session, id, last)) == Head(session, id) + ("," + RenderFields([last]) + "}}")
  {
    var payload := Obj([Field("jsonrpc", Text("2.0")), Field("id", Count(id)), last]);
    PayloadText(id, last);
    OuterText(session, payload);
    RegroupEnvelope(OPENING + Quoted(session), TYPE_AND_PAYLOAD, ID_PREFIX, Decimal(id), RenderFields([last]));
  }

  lemma RegroupEnvelope(front: string, outer: string, inner: string, id: string, last: string)
    ensures front + (outer + (inner + (id + "," + last + "}"))) + "}"
         == front + (outer + inner + id) + ("," + last + "}}")
  {
    var tail := "," + last;
    Associate(id, ",", last);
    Associate(id, tail, "}");
    Associate(inner, id, tail + "}");
    Associate(outer, inner + id, tail + "}");
    Associate(outer, inner, id);
    Associate(front, outer + inner + id, tail + "}");
    Associate(front + (outer + inner + id), tail + "}", "}");
    Associate(tail, "}", "}");
    assert "}" + "}" == "}}";
  }

  lemma ResultLabel()
    ensures Label("result") == "\"result\":"
  {
    PlainLabel("result", "\"result\":");
  }

  lemma ErrorLabel()
    ensures Label("error") == "\"error\":"
  {
    PlainLabel("error", "\"error\":");
  }

  lemma MessageLabel()
    ensures Label("message") == "\"message\":"
  {
    PlainLabel("message", "\"message\":");
  }

  lemma ResultIsDoc(session: string, id: nat, json: string, meaning: Json)
    ensures Render(EnvelopeDoc(session, id, Field("result", Raw(json, meaning)))) == ResultText(session, id, json)
  {
    var last := Field("result", Raw(json, meaning));
    EnvelopeIsDoc(session, id, last);
    ConsField(last, []);
    ResultLabel();
    RegroupLast(Head(session, id), Label("result"), json, "}}");
  }

  lemma RegroupLast(head: string, tag: string, value: string, end: string)
    ensures head + ("," + (tag + value) + end) == head + ("," + tag) + value + end
  {
    Associate(",", tag, value);
    Associate(head, "," + tag + value, end);
    Associate(head, "," + tag, value);
  }

  lemma ErrorIsDoc(session: string, id: nat, message: string)
    ensures Render(EnvelopeDoc(session, id, Field("error", Obj([Field("message", Text(message))]))))
         == ErrorText(session, id, message)
  {
    var inner := Field("message", Text(message));
    var last := Field("error", Obj([inner]));
    EnvelopeIsDoc(session, id, last);
    ConsField(last, []);
    ConsField(inner, []);
    ErrorLabel();
    MessageLabel();
    RegroupError(Head(session, id), "\"error\":", "\"message\":", Quoted(message));
  }

  lemma RegroupError(head: string, outer: string, tag: string, value: string)
    ensures head + ("," + (outer + ("{" + (tag + value) + "}")) + "}}")
         == head + ("," + outer + "{" + tag) + value + "}}}"
  {
    Associate("{", tag, value);
    Associate("," + outer, "{", tag);
    Associate("," + outer, "{" + tag, value);
    Associate("," + outer, "{" + tag + value, "}");
    Associate(",", outer, "{" + tag + value + "}");
    var body := "," + outer + ("{" + tag) + value;
    Associate(body, "}", "}}");
    assert "}" + "}}" == "}}}";
    Associate(head, body, "}}}");
    Associate(head, "," + outer + ("{" + tag), value);
  }

  // ------------------------------------------------------------- the operations

  function TrimEnd(s: string): (t: string)
    ensures t <= s && (t != "" ==> !IsSpace(t[|t| - 1]))
  {
    if s != "" && IsSpace(s[|s| - 1]) then TrimEnd(s[..|s| - 1]) else s
  }

  /** The bounded envelope check: it looks at the two outermost characters only. */
  predicate LooksLikeObject(json: string) {
    var t := TrimEnd(SkipSpace(json));
    t != "" && t[0] == '{' && t[|t| - 1] == '}'
  }

  method ValidJsonObject(json: string) returns (valid: bool)
    ensures valid == LooksLikeObject(json)
  {
    var first := 0;
    while first < |json| && IsSpace(json[first])
      invariant first <= |json| && SkipSpace(json[first..]) == SkipSpace(json)
    {
      first := first + 1;
    }
    assert SkipSpace(json) == json[first..];
    if first >= |json| || json[first] != '{' {
      return false;
    }
    var last := EndOfText(json, first);
    return last > first && json[last - 1] == '}';
  }

  /** The backward scan over trailing white space. */
  method EndOfText(json: string, first: nat) returns (last: nat)
    requires first <= |json|
    ensures first <= last <= |json| && json[first..last] == TrimEnd(json[first..])
  {
    last := |json|;
    assert json[first..last] == json[first..];
    while last > first && IsSpace(json[last - 1])
      invariant first <= last <= |json| && TrimEnd(json[first..last]) == TrimEnd(json[first..])
    {
      assert json[first..last][..last - first - 1] == json[first..last - 1];
      last := last - 1;
    }
  }

  function Room(outputCapacity: nat): nat {
    Min(outputCapacity, WIRE_MAX_BYTES + 1)
  }

  /** A text fits when it leaves room for its terminator and is at most 8000 bytes long. */
  lemma FitsExactly(length: nat, outputCapacity: nat)
    ensures length < Room(outputCapacity) <==> length < outputCapacity && length <= 8000
  {
  }

  method Begin(output: array<char>, outputCapacity: nat, session: string, id: int)
    returns (status: Status, writer: Writer?)
    requires outputCapacity <= output.Length
    modifies output
    ensures status == ErrArgument <==> outputCapacity == 0
    ensures status == ErrRequestId <==> outputCapacity > 0 && id <= 0
    ensures outputCapacity > 0 && id > 0 ==> (status == Ok <==> |Head(session, id)| < Room(outputCapacity))
    ensures status in {Ok, ErrArgument, ErrRequestId, ErrCapacity}
    ensures status == Ok ==> (
      && writer != null && fresh(writer) && writer.Valid() && !writer.failed
      && writer.buffer == output && writer.capacity == Room(outputCapacity) && writer.Text() == Head(session, id))
    ensures output[Room(outputCapacity)..] == old(output[Room(outputCapacity)..])
  {
    if outputCapacity == 0 {
      return ErrArgument, null;
    }
    if id <= 0 {
      return ErrRequestId, null;
    }
    var w := new Writer(output, outputCapacity);
    var ok := w.AppendHead(OPENING, session, MIDDLE + Decimal(id));
    if !ok {
      return ErrCapacity, null;
    }
    return Ok, w;
  }

  /** A finished message: terminated, inside the buffer and at most 8000 bytes long. */
  ghost predicate Finished(output: array<char>, outputCapacity: nat, length: nat, text: string)
    reads output
  {
    && length == |text| && length < outputCapacity <= output.Length && length <= WIRE_MAX_BYTES
    && output[..length] == text && output[length] as int == 0
  }

  method WriteResult(output: array<char>, outputCapacity: nat, session: string, id: int, json: string)
    returns (status: Status, length: nat)
    requires outputCapacity <= output.Length
    modifies output
    ensures status == ErrJson <==> !LooksLikeObject(json)
    ensures status == Ok <==> LooksLikeObject(json) && id > 0 && |ResultText(session, id, json)| < Room(outputCapacity)
    ensures status == Ok ==> Finished(output, outputCapacity, length, ResultText(session, id, json))
    ensures output[Room(outputCapacity)..] == old(output[Room(outputCapacity)..])
  {
    length := 0;
    var valid := ValidJsonObject(json);
    if !valid {
      return ErrJson, 0;
    }
    var begun, w := Begin(output, outputCapacity, session, id);
    if begun != Ok {
      return begun, 0;
    }
    var ok := w.AppendBytes(RESULT);
    if !ok {
      return ErrCapacity, 0;
    }
    ok := w.AppendBytes(json);
    if !ok {
      return ErrCapacity, 0;
    }
    ok := w.AppendBytes("}}");
    if !ok {
      return ErrCapacity, 0;
    }
    return Ok, w.length;
  }

  method WriteError(output: array<char>, outputCapacity: nat, session: string, id: int, message: string)
    returns (status: Status, length: nat)
    requires outputCapacity <= output.Length
    modifies output
    ensures status == Ok <==> id > 0 && |ErrorText(session, id, message)| < Room(outputCapacity)
    ensures status == Ok ==> Finished(output, outputCapacity, length, ErrorText(session, id, message))
    ensures output[Room(outputCapacity)..] == old(output[Room(outputCapacity)..])
  {
    length := 0;
    var begun, w := Begin(output, outputCapacity, session, id);
    if begun != Ok {
      return begun, 0;
    }
    var ok := w.AppendBytes(ERROR_MESSAGE);
    if !ok {
      return ErrCapacity, 0;
    }
    ok := w.AppendEscapedString(message);
    if !ok {
      return ErrCapacity, 0;
    }
    ok := w.AppendBytes("}}}");
    if !ok {
      return ErrCapacity, 0;
    }
    return Ok, w.length;
  }

  // -------------------------------------------------------------- main results

  /** The envelope as a reader sees it: session, protocol constants, id, and one more payload member. */
  function Envelope(session: string, id: nat, last: Member): Json {
    Object([Member(Units("session_id"), Str(Units(session))),
            Member(Units("type"), Str(Units("mcp"))),
            Member(Units("payload"), Object([
              Member(Units("jsonrpc"), Str(Units("2.0"))),
              Member(Units("id"), Number(Decimal(id))),
              last]))])
  }

  lemma EnvelopeMeaning(session: string, id: nat, last: Field)
    ensures Meaning(EnvelopeDoc(session, id, last))
         == Envelope(session, id, Member(Units(last.key), Meaning(last.doc)))
    ensures Sound(EnvelopeDoc(session, id, last)) <==> id > 0 && Sound(last.doc)
  {
    var a, b := Field("jsonrpc", Text("2.0")), Field("id", Count(id));
    var inner := [a, b, last];
    assert inner[1..] == [b, last] && [b, last][1..] == [last];
    var x, y, z := Field("session_id", Text(session)), Field("type", Text("mcp")), Field("payload", Obj(inner));
    assert [x, y, z][1..] == [y, z] && [y, z][1..] == [z];
    ThreeMeanings(a, b, last);
    ThreeMeanings(x, y, z);
  }

  lemma ThreeMeanings(a: Field, b: Field, c: Field)
    ensures FieldMeanings([a, b, c])
         == [Member(Units(a.key), Meaning(a.doc)), Member(Units(b.key), Meaning(b.doc)),
             Member(Units(c.key), Meaning(c.doc))]
    ensures SoundFields([a, b, c]) <==> Sound(a.doc) && Sound(b.doc) && Sound(c.doc)
  {
    assert [a, b, c][1..] == [b, c] && [b, c][1..] == [c];
    OneMeaning(c);
    assert FieldMeanings([b, c]) == [Member(Units(b.key), Meaning(b.doc))] + FieldMeanings([c]);
    assert SoundFields([b, c]) <==> Sound(b.doc) && Sound(c.doc);
  }

  lemma OneMeaning(field: Field)
    ensures FieldMeanings([field]) == [Member(Units(field.key), Meaning(field.doc))]
    ensures SoundFields([field]) <==> Sound(field.doc)
  {
    assert FieldMeanings([field][1..]) == [] && SoundFields([field][1..]);
  }

  lemma EnvelopeReadsBack(session: string, id: nat, last: Field)
    requires id > 0 && Sound(last.doc)
    ensures IsText(Render(EnvelopeDoc(session, id, last)),
                   Envelope(session, id, Member(Units(last.key), Meaning(last.doc))))
  {
    var doc := EnvelopeDoc(session, id, last);
    EnvelopeMeaning(session, id, last);
    DocReadsBack(doc, "");
    assert Render(doc) + "" == Render(doc);
  }

  /** A written result reads back to the same session, id and payload value. */
  lemma ResultReadsBack(session: string, id: nat, json: string, value: Json)
    requires id > 0 && IsText(json, value)
    ensures IsText(ResultText(session, id, json), Envelope(session, id, Member(Units("result"), value)))
    ensures DecimalValue(Decimal(id)) == id
  {
    ResultIsDoc(session, id, json, value);
    EnvelopeReadsBack(session, id, Field("result", Raw(json, value)));
    DecimalRoundTrip(id);
  }

  /** A written error reads back to the same session, id and message. */
  lemma ErrorReadsBack(session: string, id: nat, message: string)
    requires id > 0
    ensures IsText(ErrorText(session, id, message),
      Envelope(session, id, Member(Units("error"), Object([Member(Units("message"), Str(Units(message)))]))))
    ensures DecimalValue(Decimal(id)) == id
  {
    var last := Field("error", Obj([Field("message", Text(message))]));
    ErrorIsDoc(session, id, message);
    OneMeaning(Field("message", Text(message)));
    EnvelopeReadsBack(session, id, last);
    DecimalRoundTrip(id);
  }

  /** Reading the envelope of a session and id reads its last field, and leaves the two closing braces. */
  lemma EnvelopeLastRead(session: string, id: nat, last: Field, m: Member)
    requires id > 0 && IsText(Render(EnvelopeDoc(session, id, last)), Envelope(session, id, m))
    ensures Leaves(Render(last.doc) + ("}" + "}"), m.value, 2)
  {
    var inner := [Field("jsonrpc", Text("2.0")), Field("id", Count(id)), last];
    var outer := [Field("session_id", Text(session)), Field("type", Text("mcp")), Field("payload", Obj(inner))];
    var whole := Render(Obj(outer));
    assert whole + "" == whole && "}" + "" == "}";
    TwoSoundFields(outer[0], outer[1], outer[2]);
    TwoSoundFields(inner[0], inner[1], inner[2]);
    SolidSkip(ReadValue(whole).rest);
    var members := Envelope(session, id, m).members;
    LastFieldRead(outer, "", members, 0);
    LastFieldRead(inner, "}", members[2].value.members, 1);
  }

  lemma TwoSoundFields(a: Field, b: Field, c: Field)
    ensures SoundFields([a, b, c][..2]) <==> Sound(a.doc) && Sound(b.doc)
  {
    assert [a, b, c][..2] == [a, b] && [a, b][1..] == [b];
    OneMeaning(b);
  }

  lemma ResultReadOnlyIf(session: string, id: nat, json: string, value: Json)
    requires id > 0
    requires IsText(ResultText(session, id, json), Envelope(session, id, Member(Units("result"), value)))
    ensures IsText(json, value)
  {
    var closing := "}" + "}";
    ResultIsDoc(session, id, json, Null);
    EnvelopeLastRead(session, id, Field("result", Raw(json, Null)), Member(Units("result"), value));
    SolidAfter('}', "");
    SolidAfter('}', "}");
    assert closing == ['}'] + "}" && "}" == ['}'] + "";
    RawReadsAlone(json, closing, value);
  }

  /**
   * A written result reads back as the session, the id and a value exactly when the payload is a JSON text of that
   * value on its own. The writer's check does not look further than the outermost characters.
   */
  lemma ResultReadsBackExactly(session: string, id: nat, json: string, value: Json)
    requires id > 0
    ensures IsText(ResultText(session, id, json), Envelope(session, id, Member(Units("result"), value))) <==>
      IsText(json, value)
  {
    if IsText(json, value) {
      ResultReadsBack(session, id, json, value);
    } else if IsText(ResultText(session, id, json), Envelope(session, id, Member(Units("result"), value))) {
      ResultReadOnlyIf(session, id, json, value);
    }
  }

  const SIBLING := "{}" + "," + "\"error\":" + "{}"

  /** A payload that passes the check, is no JSON text, and puts a second member beside the result. */
  lemma AcceptedPayloadAddsMember(session: string, id: nat)
    requires id > 0
    ensures LooksLikeObject(SIBLING) && forall value :: !IsText(SIBLING, value)
    ensures IsText(ResultText(session, id, SIBLING),
      Object([Member(Units("session_id"), Str(Units(session))),
              Member(Units("type"), Str(Units("mcp"))),
              Member(Units("payload"), Object([
                Member(Units("jsonrpc"), Str(Units("2.0"))),
                Member(Units("id"), Number(Decimal(id))),
                Member(Units("result"), Object([])),
                Member(Units("error"), Object([]))]))]))
  {
    SiblingIsNoText();
    SiblingText(session, id);
    SiblingMeaning(session, id);
    DocReadsBack(SiblingDoc(session, id), "");
    assert ResultText(session, id, SIBLING) + "" == ResultText(session, id, SIBLING);
  }

  function SiblingPayload(id: nat): Doc {
    Obj([Field("jsonrpc", Text("2.0")), Field("id", Count(id)), Field("result", Obj([])), Field("error", Obj([]))])
  }

  function SiblingDoc(session: string, id: nat): Doc {
    Obj([Field("session_id", Text(session)), Field("type", Text("mcp")), Field("payload", SiblingPayload(id))])
  }

  lemma SiblingText(session: string, id: nat)
    ensures ResultText(session, id, SIBLING) == Render(SiblingDoc(session, id))
  {
    var j, i, raw := Field("jsonrpc", Text("2.0")), Field("id", Count(id)), Field("result", Raw(SIBLING, Null));
    SiblingRenders(j, i, raw, Field("result", Obj([])), Field("error", Obj([])));
    assert Render(Obj([j, i, raw])) == Render(SiblingPayload(id));
    ThreeFields(Field("session_id", Text(session)), Field("type", Text("mcp")), Field("payload", Obj([j, i, raw])));
    ThreeFields(Field("session_id", Text(session)), Field("type", Text("mcp")), Field("payload", SiblingPayload(id)));
    ResultIsDoc(session, id, SIBLING, Null);
  }

  lemma SiblingMeaning(session: string, id: nat)
    ensures Sound(SiblingDoc(session, id)) <==> id > 0
    ensures Meaning(SiblingDoc(session, id)) ==
      Object([Member(Units("session_id"), Str(Units(session))),
              Member(Units("type"), Str(Units("mcp"))),
              Member(Units("payload"), Object([
                Member(Units("jsonrpc"), Str(Units("2.0"))),
                Member(Units("id"), Number(Decimal(id))),
                Member(Units("result"), Object([])),
                Member(Units("error"), Object([]))]))])
  {
    FourMeanings(Field("jsonrpc", Text("2.0")), Field("id", Count(id)),
                 Field("result", Obj([])), Field("error", Obj([])));
    ThreeMeanings(Field("session_id", Text(session)), Field("type", Text("mcp")), Field("payload", SiblingPayload(id)));
    assert FieldMeanings([]) == [];
  }

  lemma SiblingIsNoText()
    ensures LooksLikeObject(SIBLING) && forall value :: !IsText(SIBLING, value)
  {
    assert TrimEnd(SIBLING) == SIBLING;
    var rest := "," + "\"error\":" + "{}";
    assert SIBLING == "{}" + rest;
    ReadEmptyObject(rest);
  }

  lemma SiblingRenders(j: Field, i: Field, raw: Field, c: Field, d: Field)
    requires raw == Field("result", Raw(SIBLING, Null)) && c == Field("result", Obj([])) && d == Field("error", Obj([]))
    ensures RenderFields([j, i, raw]) == RenderFields([j, i, c, d])
  {
    assert [j, i, raw][1..] == [i, raw] && [i, raw][1..] == [raw];
    assert [j, i, c, d][1..] == [i, c, d] && [i, c, d][1..] == [c, d] && [c, d][1..] == [d];
    ErrorLabel();
    assert Render(Obj([])) == "{}";
    assert RenderFields([d]) == Label("error") + "{}";
    assert RenderFields([raw]) == Label("result") + SIBLING;
    assert RenderFields([c, d]) == Label("result") + "{}" + "," + (Label("error") + "{}");
    Associate("{}" + ",", "\"error\":", "{}");
    Associate(Label("result"), "{}" + ",", "\"error\":" + "{}");
    Associate(Label("result"), "{}", ",");
  }

  lemma FourMeanings(a: Field, b: Field, c: Field, d: Field)
    ensures FieldMeanings([a, b, c, d])
         == [Member(Units(a.key), Meaning(a.doc)), Member(Units(b.key), Meaning(b.doc)),
             Member(Units(c.key), Meaning(c.doc)), Member(Units(d.key), Meaning(d.doc))]
    ensures SoundFields([a, b, c, d]) <==> Sound(a.doc) && Sound(b.doc) && Sound(c.doc) && Sound(d.doc)
  {
    assert [a, b, c, d][1..] == [b, c, d];
    ThreeMeanings(b, c, d);
  }

  lemma {:induction false} OnlySpaces(w: string)
    requires SkipSpace(w) == ""
    ensures forall i :: 0 <= i < |w| ==> IsSpace(w[i])
  {
    if w != "" {
      OnlySpaces(w[1..]);
      assert forall i :: 1 <= i < |w| ==> w[i] == w[1..][i - 1];
    }
  }

  lemma {:induction false} TrimSpaces(p: string, w: string)
    requires p != "" && !IsSpace(p[|p| - 1])
    requires forall i :: 0 <= i < |w| ==> IsSpace(w[i])
    ensures TrimEnd(p + w) == p
  {
    if w == "" {
      assert p + w == p;
    } else {
      var init := w[..|w| - 1];
      TrimSpaces(p, init);
      assert (p + w)[..|p + w| - 1] == p + init;
    }
  }

  /** The bounded check refuses no JSON object: a well-formed payload never fails as malformed. */
  lemma ObjectsPassTheCheck(json: string, value: Json)
    requires IsText(json, value) && value.Object?
    ensures LooksLikeObject(json)
  {
    var t, rest := SkipSpace(json), ReadValue(json).rest;
    ValueSkips(json);
    assert SkipSpace(t) == t;
    ObjectStart(t);
    ObjectTail(t);
    OnlySpaces(rest);
    BracesTrimmed(t, rest);
  }

  lemma BracesTrimmed(t: string, rest: string)
    requires AfterBrace(rest, t) && t[0] == '{' && forall i :: 0 <= i < |rest| ==> IsSpace(rest[i])
    ensures var u := TrimEnd(t); u != "" && u[0] == '{' && u[|u| - 1] == '}'
  {
    var p := t[..|t| - |rest|];
    assert p + rest == t && p[|p| - 1] == '}';
    TrimSpaces(p, rest);
  }

  lemma ObjectStart(t: string)
    requires t != "" && !IsSpace(t[0]) && ReadValue(t).Done? && ReadValue(t).value.Object?
    ensures t[0] == '{'
  {
  }

  predicate Blank(s: string) {
    forall i :: 0 <= i < |s| ==> s[i] in {' ', '\n', '\r', '\t'}
  }

  lemma {:induction false} LeadingBlanks(s: string) returns (blanks: string)
    ensures Blank(blanks) && s == blanks + SkipSpace(s)
  {
    if s != "" && IsSpace(s[0]) {
      blanks := LeadingBlanks(s[1..]);
      blanks := [s[0]] + blanks;
    } else {
      blanks := "";
    }
  }

  lemma {:induction false} TrailingBlanks(s: string) returns (blanks: string)
    ensures Blank(blanks) && s == TrimEnd(s) + blanks
  {
    if s != "" && IsSpace(s[|s| - 1]) {
      blanks := TrailingBlanks(s[..|s| - 1]);
      blanks := blanks + [s[|s| - 1]];
    } else {
      blanks := "";
    }
  }

  lemma {:induction false} SkipBlanks(blanks: string, s: string)
    requires Blank(blanks) && s != "" && !IsSpace(s[0])
    ensures SkipSpace(blanks + s) == s
  {
    if blanks != "" {
      SkipBlanks(blanks[1..], s);
      assert (blanks + s)[1..] == blanks[1..] + s;
    } else {
      assert blanks + s == s;
    }
  }

  /** The text is braces around anything, with blanks in front and behind. */
  ghost predicate Braced(json: string, before: string, body: string, after: string) {
    Blank(before) && Blank(after) && json == before + ("{" + body + "}") + after
  }

  lemma LooksBraced(json: string) returns (before: string, body: string, after: string)
    requires LooksLikeObject(json)
    ensures Braced(json, before, body, after)
  {
    before := LeadingBlanks(json);
    after := TrailingBlanks(SkipSpace(json));
    var t := TrimEnd(SkipSpace(json));
    body := t[1..|t| - 1];
    assert t == "{" + body + "}";
    assert json == before + t + after;
  }

  lemma BracedLooks(json: string, before: string, body: string, after: string)
    requires Braced(json, before, body, after)
    ensures LooksLikeObject(json)
  {
    var t := "{" + body + "}";
    SkipBlanks(before, t + after);
    assert json == before + (t + after);
    TrimSpaces(t, after);
  }

  /** What the check lets through. */
  lemma LooksExactly(json: string)
    ensures LooksLikeObject(json) <==> exists before, body, after :: Braced(json, before, body, after)
  {
    if LooksLikeObject(json) {
      var before, body, after := LooksBraced(json);
    }
    if before, body, after :| Braced(json, before, body, after) {
      BracedLooks(json, before, body, after);
    }
  }

  /** The converse fails: the check also lets through texts that are not JSON. */
  lemma CheckIsNotAParser()
    ensures LooksLikeObject("{]}") && ReadValue("{]}").Fail?
  {
    var s := "{]}";
    assert s[1..] == "]}" && "]}"[0] == ']';
    assert TrimEnd(s) == s;
    assert ReadMember("]}").Fail?;
  }
}
