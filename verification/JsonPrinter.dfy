/** Compact JSON documents as the firmware prints them, and the proof that they read back. */
module JsonPrinter {
  import opened JsonReader

  // ------------------------------------------------------------------- strings

  function HexDigit(n: nat): char
    requires n < 16
  {
    "0123456789abcdef"[n]
  }

  /** What the switch of append_escaped_string emits for one character. */
  function EscapeChar(c: char): string {
    if c == '"' then "\\\""
    else if c == '\\' then "\\\\"
    else if c as int == 8 then "\\b"
    else if c as int == 12 then "\\f"
    else if c == '\n' then "\\n"
    else if c == '\r' then "\\r"
    else if c == '\t' then "\\t"
    else if c < ' ' then "\\u00" + [HexDigit(c as int / 16), HexDigit(c as int % 16)]
    else [c]
  }

  function Escape(s: string): string {
    if s == "" then "" else EscapeChar(s[0]) + Escape(s[1..])
  }

  function Quoted(s: string): string {
    "\"" + Escape(s) + "\""
  }

  function Units(s: string): (u: seq<int>)
    ensures |u| == |s|
  {
    seq(|s|, i requires 0 <= i < |s| => s[i] as int)
  }

  lemma HexRoundTrip(n: nat)
    requires n < 16
    ensures HexValue(HexDigit(n)) == n
  {
  }

  lemma ReadUnicodeEscape(n: nat, t: string)
    requires n < 32
    ensures ReadString("\\u00" + [HexDigit(n / 16), HexDigit(n % 16)] + t) == Prepend(n, ReadString(t))
  {
    var e := "\\u00" + [HexDigit(n / 16), HexDigit(n % 16)];
    assert (e + t)[6..] == t;
    HexRoundTrip(n / 16);
    HexRoundTrip(n % 16);
    assert HexValue('0') == 0 && SimpleEscape('u') == -1;
  }

  predicate IsPlain(c: char) {
    c >= ' ' && c != '"' && c != '\\'
  }

  lemma ReadSimpleEscape(letter: char, t: string)
    requires SimpleEscape(letter) >= 0
    ensures ReadString(['\\', letter] + t) == Prepend(SimpleEscape(letter), ReadString(t))
  {
    assert (['\\', letter] + t)[2..] == t;
  }

  lemma ReadPlainChar(c: char, t: string)
    requires IsPlain(c)
    ensures ReadString([c] + t) == Prepend(c as int, ReadString(t))
  {
    assert ([c] + t)[1..] == t;
  }

  /** The reader takes one escaped character for exactly the character it stands for. */
  lemma ReadEscapedChar(c: char, t: string)
    ensures ReadString(EscapeChar(c) + t) == Prepend(c as int, ReadString(t))
  {
    var e := EscapeChar(c);
    if |e| == 1 {
      ReadPlainChar(c, t);
    } else if |e| == 2 {
      assert e == ['\\', e[1]] && SimpleEscape(e[1]) == c as int;
      ReadSimpleEscape(e[1], t);
    } else {
      ReadUnicodeEscape(c as int, t);
    }
  }

  /** Unescaping inverts escaping, whatever the string holds. */
  lemma {:induction false} ReadEscaped(s: string, t: string)
    ensures ReadString(Escape(s) + "\"" + t) == Done(Units(s), t)
  {
    if s == "" {
      assert Escape(s) + "\"" + t == "\"" + t;
    } else {
      ReadEscaped(s[1..], t);
      assert Escape(s) + "\"" + t == EscapeChar(s[0]) + (Escape(s[1..]) + "\"" + t);
      ReadEscapedChar(s[0], Escape(s[1..]) + "\"" + t);
      assert [s[0] as int] + Units(s[1..]) == Units(s);
    }
  }

  lemma Associate(a: string, b: string, c: string)
    ensures a + (b + c) == a + b + c
  {
  }

  lemma EscapeCons(c: char, s: string)
    ensures Escape([c] + s) == EscapeChar(c) + Escape(s)
  {
    assert ([c] + s)[1..] == s;
  }

  lemma EscapeStep(c: char, rest: string, b: string)
    requires Escape(rest + b) == Escape(rest) + Escape(b)
    ensures Escape([c] + rest + b) == Escape([c] + rest) + Escape(b)
  {
    Associate([c], rest, b);
    EscapeCons(c, rest);
    EscapeCons(c, rest + b);
    Associate(EscapeChar(c), Escape(rest), Escape(b));
  }

  lemma {:induction false} EscapeAppend(a: string, b: string)
    ensures Escape(a + b) == Escape(a) + Escape(b)
  {
    if a == "" {
      assert a + b == b;
      assert Escape(a) + Escape(b) == Escape(b);
    } else {
      EscapeAppend(a[1..], b);
      EscapeStep(a[0], a[1..], b);
      assert a == [a[0]] + a[1..];
    }
  }

  lemma {:induction false} EscapePlain(s: string)
    requires forall i :: 0 <= i < |s| ==> IsPlain(s[i])
    ensures Escape(s) == s
  {
    if s != "" {
      EscapePlain(s[1..]);
      assert [s[0]] + s[1..] == s;
    }
  }

  // ------------------------------------------------------------------- numbers

  function Decimal(n: nat): (s: string)
    ensures s != ""
  {
    var digit := "0123456789"[n % 10];
    if n < 10 then [digit] else Decimal(n / 10) + [digit]
  }

  function DecimalValue(s: string): int {
    if s == "" then 0
    else DecimalValue(s[..|s| - 1]) * 10 + (s[|s| - 1] as int - '0' as int)
  }

  lemma {:induction false} DecimalRoundTrip(n: nat)
    ensures DecimalValue(Decimal(n)) == n
  {
    var d := "0123456789"[n % 10];
    assert d as int - '0' as int == n % 10;
    if n >= 10 {
      DecimalRoundTrip(n / 10);
      assert Decimal(n)[..|Decimal(n)| - 1] == Decimal(n / 10);
    } else {
      assert Decimal(n)[..0] == "";
    }
  }

  lemma {:induction false} DecimalDigits(n: nat)
    ensures forall i :: 0 <= i < |Decimal(n)| ==> IsDigit(Decimal(n)[i])
    ensures n > 0 ==> Decimal(n)[0] != '0'
  {
    if n >= 10 {
      DecimalDigits(n / 10);
    }
  }

  lemma {:induction false} AllDigits(s: string)
    requires forall i :: 0 <= i < |s| ==> IsDigit(s[i])
    ensures Digits(s) == |s| && NumberPrefix(s) == |s|
  {
    if s != "" {
      AllDigits(s[1..]);
    }
  }

  lemma ReadDecimal(n: nat, t: string)
    requires n > 0 && Closes(t)
    ensures ReadValue(Decimal(n) + t) == Done(Number(Decimal(n)), t)
  {
    var s := Decimal(n);
    DecimalDigits(n);
    AllDigits(s);
    NumberPrefixExtends(s, t);
    assert (s + t)[0] == s[0] && (s + t)[..|s|] == s && (s + t)[|s|..] == t;
    assert s[|s|..] == "";
    assert ValidNumber(s);
  }

  // ----------------------------------------------------------------- documents

  /** `Raw` embeds a JSON text someone else has written. */
  datatype Doc =
    | Text(text: string) | Count(n: nat) | Raw(json: string, meaning: Json)
    | Obj(fields: seq<Field>) | List(items: seq<Doc>)

  datatype Field = Field(key: string, doc: Doc)

  function Render(doc: Doc): string
    decreases doc, 1
  {
    match doc
    case Text(text) => Quoted(text)
    case Count(n) => Decimal(n)
    case Raw(json, _) => json
    case Obj(fields) => "{" + RenderFields(fields) + "}"
    case List(items) => "[" + RenderItems(items) + "]"
  }

  function RenderFields(fields: seq<Field>): string
    decreases fields, 0
  {
    if fields == [] then ""
    else
      var first := Quoted(fields[0].key) + ":" + Render(fields[0].doc);
      if |fields| == 1 then first else first + "," + RenderFields(fields[1..])
  }

  function RenderItems(items: seq<Doc>): string
    decreases items, 0
  {
    if items == [] then ""
    else if |items| == 1 then Render(items[0])
    else Render(items[0]) + "," + RenderItems(items[1..])
  }

  /** The JSON value a document denotes. */
  function Meaning(doc: Doc): Json
    decreases doc, 1
  {
    match doc
    case Text(text) => Str(Units(text))
    case Count(n) => Number(Decimal(n))
    case Raw(_, meaning) => meaning
    case Obj(fields) => Object(FieldMeanings(fields))
    case List(items) => Array(ItemMeanings(items))
  }

  function FieldMeanings(fields: seq<Field>): seq<Member>
    decreases fields, 0
  {
    if fields == [] then []
    else [Member(Units(fields[0].key), Meaning(fields[0].doc))] + FieldMeanings(fields[1..])
  }

  function ItemMeanings(items: seq<Doc>): seq<Json>
    decreases items, 0
  {
    if items == [] then [] else [Meaning(items[0])] + ItemMeanings(items[1..])
  }

  /** Counts are positive and every embedded text is a JSON value on its own. */
  predicate Sound(doc: Doc)
    decreases doc, 1
  {
    match doc
    case Text(_) => true
    case Count(n) => n > 0
    case Raw(json, meaning) => IsText(json, meaning)
    case Obj(fields) => SoundFields(fields)
    case List(items) => SoundItems(items)
  }

  predicate SoundFields(fields: seq<Field>)
    decreases fields, 0
  {
    fields == [] || (Sound(fields[0].doc) && SoundFields(fields[1..]))
  }

  predicate SoundItems(items: seq<Doc>)
    decreases items, 0
  {
    items == [] || (Sound(items[0]) && SoundItems(items[1..]))
  }

  /** `t` begins with the punctuation that may follow a value. */
  predicate Follows(t: string) {
    t == "" || t[0] == ',' || t[0] == '}' || t[0] == ']'
  }

  /** Reading `s` with `t` behind it yields `value` and, up to white space, leaves `t`. */
  predicate ReadsAs(s: string, t: string, value: Json) {
    var r := ReadValue(s + t);
    r.Done? && r.value == value && SkipSpace(r.rest) == t
  }

  lemma {:induction false} SkipSpaceBefore(w: string, t: string)
    requires SkipSpace(w) == "" && Follows(t)
    ensures SkipSpace(w + t) == t
  {
    if w == "" {
      assert w + t == t;
    } else {
      SkipSpaceBefore(w[1..], t);
      assert (w + t)[1..] == w[1..] + t;
    }
  }

  // ----------------------------------------------------- one step of the reader

  lemma LastMember(s: string, t: string)
    requires ReadMember(s).Done? && SkipSpace(ReadMember(s).rest) == "}" + t
    ensures ReadMembers(s) == Done([ReadMember(s).value], t)
  {
    assert ("}" + t)[1..] == t;
  }

  lemma NextMember(s: string, u: string)
    requires ReadMember(s).Done? && SkipSpace(ReadMember(s).rest) == "," + u
    ensures ReadMembers(s) == Prepend(ReadMember(s).value, ReadMembers(u))
  {
    assert ("," + u)[1..] == u;
  }

  lemma LastItem(s: string, t: string)
    requires ReadValue(s).Done? && SkipSpace(ReadValue(s).rest) == "]" + t
    ensures ReadItems(s) == Done([ReadValue(s).value], t)
  {
    assert ("]" + t)[1..] == t;
  }

  lemma NextItem(s: string, u: string)
    requires ReadValue(s).Done? && SkipSpace(ReadValue(s).rest) == "," + u
    ensures ReadItems(s) == Prepend(ReadValue(s).value, ReadItems(u))
  {
    assert ("," + u)[1..] == u;
  }

  lemma ReadObject(s: string, t: string, members: seq<Member>)
    requires ReadMembers(s) == Done(members, t)
    ensures ReadValue("{" + s) == Done(Object(members), t)
  {
    assert ("{" + s)[1..] == s;
    assert SkipSpace(s) != "" && SkipSpace(s)[0] == '"';
  }

  lemma ReadBraced(s: string, t: string, members: seq<Member>)
    requires ReadMembers(s + ("}" + t)) == Done(members, t)
    ensures ReadValue("{" + s + "}" + t) == Done(Object(members), t)
  {
    ReadObject(s + ("}" + t), t, members);
    Regroup("{", s, "}", t);
  }

  lemma ReadBracketed(s: string, t: string, items: seq<Json>)
    requires ReadItems(s + ("]" + t)) == Done(items, t)
    ensures ReadValue("[" + s + "]" + t) == Done(Array(items), t)
  {
    ReadArray(s + ("]" + t), t, items);
    Regroup("[", s, "]", t);
  }

  lemma ReadEmptyObject(t: string)
    ensures ReadValue("{}" + t) == Done(Object([]), t)
  {
    assert ("{}" + t)[1..] == "}" + t && ("}" + t)[1..] == t;
  }

  lemma ValueStart(s: string)
    requires ReadValue(s).Done?
    ensures SkipSpace(s) != "" && SkipSpace(s)[0] != ']'
  {
  }

  /** No value begins with a closing bracket, so an array with an item is not taken for an empty one. */
  lemma ReadArray(s: string, t: string, items: seq<Json>)
    requires ReadItems(s) == Done(items, t)
    ensures ReadValue("[" + s) == Done(Array(items), t)
  {
    assert ("[" + s)[1..] == s;
    assert ReadValue(s).Done?;
    ValueStart(s);
  }

  lemma ReadEmptyArray(t: string)
    ensures ReadValue("[]" + t) == Done(Array([]), t)
  {
    assert ("[]" + t)[1..] == "]" + t && ("]" + t)[1..] == t;
  }

  lemma ReadOneMember(key: string, s: string)
    ensures ReadMember(Quoted(key) + (":" + s)) ==
      if ReadValue(s).Done? then Done(Member(Units(key), ReadValue(s).value), ReadValue(s).rest) else Fail
  {
    var whole := Quoted(key) + (":" + s);
    assert whole[1..] == Escape(key) + "\"" + (":" + s);
    ReadEscaped(key, ":" + s);
    assert (":" + s)[1..] == s;
  }

  lemma TextReadsBack(text: string, t: string)
    ensures ReadValue(Quoted(text) + t) == Done(Str(Units(text)), t)
  {
    assert (Quoted(text) + t)[1..] == Escape(text) + "\"" + t;
    ReadEscaped(text, t);
  }

  lemma Regroup(a: string, b: string, c: string, d: string)
    ensures a + b + c + d == a + (b + (c + d))
  {
  }

  /** The printed fields, regrouped around what the reader takes first. */
  lemma UnfoldFields(fields: seq<Field>, t: string)
    requires fields != []
    ensures var more := fields[1..];
      var tail := if more == [] then "}" + t else "," + (RenderFields(more) + ("}" + t));
      RenderFields(fields) + ("}" + t) == Quoted(fields[0].key) + (":" + (Render(fields[0].doc) + tail))
  {
    var key, body := Quoted(fields[0].key), Render(fields[0].doc);
    var more := fields[1..];
    if more == [] {
      Regroup(key, ":", body, "}" + t);
    } else {
      Regroup(key, ":", body, "," + (RenderFields(more) + ("}" + t)));
      Regroup(key + ":" + body, ",", RenderFields(more), "}" + t);
    }
  }

  lemma UnfoldItems(items: seq<Doc>, t: string)
    requires items != []
    ensures var more := items[1..];
      var tail := if more == [] then "]" + t else "," + (RenderItems(more) + ("]" + t));
      RenderItems(items) + ("]" + t) == Render(items[0]) + tail
  {
    var more := items[1..];
    if more != [] {
      Regroup(Render(items[0]), ",", RenderItems(more), "]" + t);
    }
  }

  // --------------------------------------------------------------- main result

  /** Whatever a sound document prints, the reader recovers its meaning and leaves what follows. */
  lemma {:induction false} DocReadsBack(doc: Doc, t: string)
    requires Sound(doc) && Follows(t)
    ensures ReadsAs(Render(doc), t, Meaning(doc))
    decreases doc, 1
  {
    match doc
    case Text(text) => TextReadsBack(text, t);
    case Count(n) => ReadDecimal(n, t);
    case Raw(json, meaning) => RawReadsBack(json, meaning, t);
    case Obj(fields) =>
      if fields != [] {
        FieldsReadBack(fields, t);
      }
      ObjectReadsBack(fields, t);
    case List(items) =>
      if items != [] {
        ItemsReadBack(items, t);
      }
      ListReadsBack(items, t);
  }

  lemma ObjectReadsBack(fields: seq<Field>, t: string)
    requires fields != [] ==> ReadMembers(RenderFields(fields) + ("}" + t)) == Done(FieldMeanings(fields), t)
    ensures ReadValue(Render(Obj(fields)) + t) == Done(Meaning(Obj(fields)), t)
  {
    if fields == [] {
      ReadEmptyObject(t);
    } else {
      ReadBraced(RenderFields(fields), t, FieldMeanings(fields));
    }
  }

  lemma ListReadsBack(items: seq<Doc>, t: string)
    requires items != [] ==> ReadItems(RenderItems(items) + ("]" + t)) == Done(ItemMeanings(items), t)
    ensures ReadValue(Render(List(items)) + t) == Done(Meaning(List(items)), t)
  {
    if items == [] {
      ReadEmptyArray(t);
    } else {
      ReadBracketed(RenderItems(items), t, ItemMeanings(items));
    }
  }

  lemma RawReadsBack(json: string, meaning: Json, t: string)
    requires IsText(json, meaning) && Follows(t)
    ensures ReadsAs(json, t, meaning)
  {
    ReadValueExtends(json, t);
    SkipSpaceBefore(ReadValue(json).rest, t);
  }

  lemma {:induction false} FieldReadsBack(field: Field, t: string)
    requires Sound(field.doc) && Follows(t)
    ensures var r := ReadMember(Quoted(field.key) + (":" + (Render(field.doc) + t)));
      r.Done? && r.value == Member(Units(field.key), Meaning(field.doc)) && SkipSpace(r.rest) == t
    decreases field, 2
  {
    DocReadsBack(field.doc, t);
    ReadOneMember(field.key, Render(field.doc) + t);
  }

  lemma {:induction false} FieldsReadBack(fields: seq<Field>, t: string)
    requires fields != [] && SoundFields(fields) && Follows(t)
    ensures ReadMembers(RenderFields(fields) + ("}" + t)) == Done(FieldMeanings(fields), t)
    decreases fields, 0
  {
    var s := RenderFields(fields) + ("}" + t);
    var more := fields[1..];
    UnfoldFields(fields, t);
    if more == [] {
      FieldReadsBack(fields[0], "}" + t);
      LastMember(s, t);
      assert FieldMeanings(more) == [] && FieldMeanings(fields) == [ReadMember(s).value];
    } else {
      var u := RenderFields(more) + ("}" + t);
      FieldReadsBack(fields[0], "," + u);
      NextMember(s, u);
      FieldsReadBack(more, t);
    }
  }

  lemma {:induction false} ItemsReadBack(items: seq<Doc>, t: string)
    requires items != [] && SoundItems(items) && Follows(t)
    ensures ReadItems(RenderItems(items) + ("]" + t)) == Done(ItemMeanings(items), t)
    decreases items, 0
  {
    var s := RenderItems(items) + ("]" + t);
    var more := items[1..];
    UnfoldItems(items, t);
    if more == [] {
      DocReadsBack(items[0], "]" + t);
      LastItem(s, t);
      assert ItemMeanings(more) == [] && ItemMeanings(items) == [ReadValue(s).value];
    } else {
      var u := RenderItems(more) + ("]" + t);
      DocReadsBack(items[0], "," + u);
      NextItem(s, u);
      ItemsReadBack(more, t);
    }
  }

  // ------------------------------------------------------ what a reader must have read

  /** How many characters are not white space. */
  function Solid(s: string): (n: nat)
    ensures n <= |s|
  {
    if s == "" then 0 else (if IsSpace(s[0]) then 0 else 1) + Solid(s[1..])
  }

  lemma {:induction false} SolidAppend(a: string, b: string)
    ensures Solid(a + b) == Solid(a) + Solid(b)
  {
    if a == "" {
      assert a + b == b;
    } else {
      SolidAppend(a[1..], b);
      assert (a + b)[1..] == a[1..] + b;
    }
  }

  lemma {:induction false} SolidSkip(s: string)
    ensures Solid(SkipSpace(s)) == Solid(s)
    ensures SkipSpace(s) == "" <==> Solid(s) == 0
  {
    if s != "" && IsSpace(s[0]) {
      SolidSkip(s[1..]);
    }
  }

  /** Reading `s` gives this value and leaves so many characters besides white space. */
  predicate Leaves(s: string, value: Json, count: nat) {
    var r := ReadValue(s);
    r.Done? && r.value == value && Solid(r.rest) == count
  }

  /** A text read in front of `t`, which the reading left over up to white space, is a text of its own. */
  lemma RawReadsAlone(json: string, t: string, value: Json)
    requires Leaves(json + t, value, |t|) && Solid(t) == |t|
    ensures IsText(json, value)
  {
    ReadValueShrinks(json, t);
    var w := ReadValue(json).rest;
    SolidAppend(w, t);
    SolidSkip(w);
  }

  lemma SolidAfter(c: char, t: string)
    requires !IsSpace(c) && Solid(t) == |t|
    ensures Solid([c] + t) == 1 + |t|
  {
    assert ([c] + t)[1..] == t;
  }

  function PrependAll<T>(xs: seq<T>, r: Read<seq<T>>): Read<seq<T>> {
    match r
    case Fail => Fail
    case Done(ys, rest) => Done(xs + ys, rest)
  }

  lemma PrependedAll<T>(x: T, xs: seq<T>, r: Read<seq<T>>)
    ensures Prepend(x, PrependAll(xs, r)) == PrependAll([x] + xs, r)
  {
    if r.Done? {
      assert [x] + (xs + r.value) == [x] + xs + r.value;
    }
  }

  lemma LeadingField(fields: seq<Field>, t: string)
    requires |fields| > 1 && Sound(fields[0].doc) && Follows(t)
    ensures ReadMembers(RenderFields(fields) + ("}" + t)) ==
      Prepend(Member(Units(fields[0].key), Meaning(fields[0].doc)), ReadMembers(RenderFields(fields[1..]) + ("}" + t)))
  {
    var u := RenderFields(fields[1..]) + ("}" + t);
    UnfoldFields(fields, t);
    FieldReadsBack(fields[0], "," + u);
    NextMember(RenderFields(fields) + ("}" + t), u);
  }

  lemma ConsMeaning(fields: seq<Field>, n: nat)
    requires 0 < n <= |fields|
    ensures FieldMeanings(fields[..n]) ==
      [Member(Units(fields[0].key), Meaning(fields[0].doc))] + FieldMeanings(fields[1..][..n - 1])
    ensures SoundFields(fields[..n]) <==> Sound(fields[0].doc) && SoundFields(fields[1..][..n - 1])
  {
    assert fields[..n][1..] == fields[1..][..n - 1];
  }

  /** All fields but the last are read as what they mean. */
  lemma {:induction false} LeadingFields(fields: seq<Field>, t: string)
    requires fields != [] && SoundFields(fields[..|fields| - 1]) && Follows(t)
    ensures ReadMembers(RenderFields(fields) + ("}" + t)) ==
      PrependAll(FieldMeanings(fields[..|fields| - 1]), ReadMembers(RenderFields(fields[|fields| - 1..]) + ("}" + t)))
    decreases |fields|
  {
    var n := |fields| - 1;
    var last := ReadMembers(RenderFields(fields[n..]) + ("}" + t));
    if n == 0 {
      assert fields[0..] == fields && FieldMeanings(fields[..0]) == [];
      assert last.Done? ==> [] + last.value == last.value;
    } else {
      var more := fields[1..];
      assert more[n - 1..] == fields[n..];
      ConsMeaning(fields, n);
      LeadingFields(more, t);
      LeadingField(fields, t);
      PrependedAll(Member(Units(fields[0].key), Meaning(fields[0].doc)), FieldMeanings(more[..n - 1]), last);
    }
  }

  lemma {:induction false} FieldCount(fields: seq<Field>)
    ensures |FieldMeanings(fields)| == |fields|
  {
    if fields != [] {
      FieldCount(fields[1..]);
    }
  }

  /** A single member is followed by its closing brace. */
  lemma OnlyMember(s: string, m: Member, rest: string)
    requires ReadMembers(s) == Done([m], rest)
    ensures ReadMember(s).Done? && ReadMember(s).value == m && Solid(ReadMember(s).rest) == 1 + Solid(rest)
  {
    var after := ReadMember(s).rest;
    SolidSkip(after);
    var t := SkipSpace(after);
    if t != "" && t[0] == ',' {
      var r := ReadMembers(t[1..]);
      assert r.Done? ==> |Prepend(ReadMember(s).value, r).value| == 1 + |r.value|;
      MembersAreSome(t[1..]);
    }
  }

  lemma MembersAreSome(s: string)
    requires ReadMembers(s).Done?
    ensures |ReadMembers(s).value| > 0
  {
  }

  lemma OnlyItem(s: string, v: Json, rest: string)
    requires ReadItems(s) == Done([v], rest)
    ensures ReadValue(s).Done? && ReadValue(s).value == v && Solid(ReadValue(s).rest) == 1 + Solid(rest)
  {
    var after := ReadValue(s).rest;
    SolidSkip(after);
    var t := SkipSpace(after);
    if t != "" && t[0] == ',' {
      var r := ReadItems(t[1..]);
      assert r.Done? ==> |Prepend(ReadValue(s).value, r).value| == 1 + |r.value|;
      ItemsAreSome(t[1..]);
    }
  }

  lemma ItemsAreSome(s: string)
    requires ReadItems(s).Done?
    ensures |ReadItems(s).value| > 0
  {
  }

  /**
   * Reading a printed object that has as many members as fields has read the last field alone, whatever it embeds,
   * and left one character more than the object leaves.
   */
  lemma LastFieldRead(fields: seq<Field>, t: string, members: seq<Member>, count: nat)
    requires fields != [] && SoundFields(fields[..|fields| - 1]) && Follows(t)
    requires Leaves(Render(Obj(fields)) + t, Object(members), count) && |members| == |fields|
    ensures Leaves(Render(fields[|fields| - 1].doc) + ("}" + t), members[|fields| - 1].value, count + 1)
  {
    var n := |fields| - 1;
    var last := fields[n..];
    var s := RenderFields(fields) + ("}" + t);
    var rest := ReadValue(Render(Obj(fields)) + t).rest;
    UnfoldFields(fields, t);
    Regroup("{", RenderFields(fields), "}", t);
    assert ("{" + s)[1..] == s && s[0] == '"';
    LeadingFields(fields, t);
    FieldCount(fields[..n]);
    var u := RenderFields(last) + ("}" + t);
    UnfoldFields(last, t);
    var r := ReadMembers(u);
    assert r.Done? && members == FieldMeanings(fields[..n]) + r.value;
    assert r.value == [members[n]];
    OnlyMember(u, members[n], rest);
    ReadOneMember(fields[n].key, Render(fields[n].doc) + ("}" + t));
  }

  /** The same for a list of one object. */
  lemma OnlyItemRead(fields: seq<Field>, t: string, item: Json, count: nat)
    requires Leaves(Render(List([Obj(fields)])) + t, Array([item]), count)
    ensures Leaves(Render(Obj(fields)) + ("]" + t), item, count + 1)
  {
    var body := Render(Obj(fields));
    var s := body + ("]" + t);
    assert RenderItems([Obj(fields)]) == body;
    Regroup("[", body, "]", t);
    assert ("[" + s)[1..] == s && s[0] == '{';
    OnlyItem(s, item, ReadValue(Render(List([Obj(fields)])) + t).rest);
  }

  /** The text embedded in the last field of an object that was read is a JSON text. */
  lemma LastRawRead(fields: seq<Field>, t: string, members: seq<Member>)
    requires fields != [] && fields[|fields| - 1].doc.Raw? && SoundFields(fields[..|fields| - 1])
    requires Follows(t) && Solid(t) == |t|
    requires Leaves(Render(Obj(fields)) + t, Object(members), |t|) && |members| == |fields|
    ensures IsText(fields[|fields| - 1].doc.json, members[|fields| - 1].value)
  {
    LastFieldRead(fields, t, members, |t|);
    SolidAfter('}', t);
    assert "}" + t == ['}'] + t;
    RawReadsAlone(fields[|fields| - 1].doc.json, "}" + t, members[|fields| - 1].value);
  }

  /** The same one level down, in the only object of the only list of an object. */
  lemma OnlyRawRead(key: string, fields: seq<Field>, t: string, m: Member, members: seq<Member>)
    requires fields != [] && fields[|fields| - 1].doc.Raw? && SoundFields(fields[..|fields| - 1])
    requires Follows(t) && Solid(t) == |t| && m.value == Array([Object(members)])
    requires Leaves(Render(Obj([Field(key, List([Obj(fields)]))])) + t, Object([m]), |t|) && |members| == |fields|
    ensures IsText(fields[|fields| - 1].doc.json, members[|fields| - 1].value)
  {
    var list := [Field(key, List([Obj(fields)]))];
    assert SoundFields(list[..0]);
    LastFieldRead(list, t, [m], |t|);
    SolidAfter('}', t);
    assert "}" + t == ['}'] + t;
    var u := "}" + t;
    OnlyItemRead(fields, u, Object(members), |u|);
    SolidAfter(']', u);
    assert "]" + u == [']'] + u;
    LastRawRead(fields, "]" + u, members);
  }
}
