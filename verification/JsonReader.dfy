/** A reference reader for JSON texts (RFC 8259), independent of the firmware's printer. */
module JsonReader {

  /** A string value is the sequence of its code units, so escapes and raw bytes are on one footing. */
  datatype Json =
    | Null
    | Bool(truth: bool)
    | Number(lexeme: string)
    | Str(units: seq<int>)
    | Array(items: seq<Json>)
    | Object(members: seq<Member>)

  datatype Member = Member(key: seq<int>, value: Json)

  datatype Read<+T> = Fail | Done(value: T, rest: string)

  // ------------------------------------------------------------------ scanning

  predicate IsSpace(c: char) {
    c == ' ' || c == '\n' || c == '\r' || c == '\t'
  }

  function SkipSpace(s: string): (rest: string)
    ensures |rest| <= |s|
    ensures rest != "" ==> !IsSpace(rest[0])
  {
    if s != "" && IsSpace(s[0]) then SkipSpace(s[1..]) else s
  }

  predicate IsDigit(c: char) {
    '0' <= c <= '9'
  }

  predicate IsNumberChar(c: char) {
    IsDigit(c) || c == '-' || c == '+' || c == '.' || c == 'e' || c == 'E'
  }

  function NumberPrefix(s: string): (n: nat)
    ensures n <= |s|
  {
    if s != "" && IsNumberChar(s[0]) then 1 + NumberPrefix(s[1..]) else 0
  }

  function Digits(s: string): (n: nat)
    ensures n <= |s|
  {
    if s != "" && IsDigit(s[0]) then 1 + Digits(s[1..]) else 0
  }

  /** An optional exponent, then the end. */
  predicate ValidExponent(s: string) {
    s == "" ||
    ((s[0] == 'e' || s[0] == 'E') &&
     var t := if |s| > 1 && (s[1] == '+' || s[1] == '-') then s[2..] else s[1..];
     t != "" && Digits(t) == |t|)
  }

  predicate ValidFraction(s: string) {
    if s != "" && s[0] == '.' then
      var n := Digits(s[1..]);
      n > 0 && ValidExponent(s[1 + n..])
    else ValidExponent(s)
  }

  predicate ValidNumber(s: string) {
    var t := if s != "" && s[0] == '-' then s[1..] else s;
    var n := Digits(t);
    n > 0 && (t[0] == '0' ==> n == 1) && ValidFraction(t[n..])
  }

  function HexValue(c: char): (v: int)
    ensures -1 <= v < 16
  {
    if '0' <= c <= '9' then c as int - '0' as int
    else if 'a' <= c <= 'f' then c as int - 'a' as int + 10
    else if 'A' <= c <= 'F' then c as int - 'A' as int + 10
    else -1
  }

  /** The code unit named by the escape whose letter is `c`, or -1. */
  function SimpleEscape(c: char): int {
    if c == '"' || c == '\\' || c == '/' then c as int
    else if c == 'b' then 8
    else if c == 'f' then 12
    else if c == 'n' then 10
    else if c == 'r' then 13
    else if c == 't' then 9
    else -1
  }

  // ------------------------------------------------------------------- reading

  function Prepend<T>(x: T, r: Read<seq<T>>): Read<seq<T>> {
    match r
    case Fail => Fail
    case Done(xs, rest) => Done([x] + xs, rest)
  }

  /** Reads up to and over the closing quote. */
  function ReadString(s: string): (r: Read<seq<int>>)
    ensures r.Done? ==> |r.rest| < |s|
  {
    if s == "" || s[0] < ' ' then Fail
    else if s[0] == '"' then Done([], s[1..])
    else if s[0] != '\\' then Prepend(s[0] as int, ReadString(s[1..]))
    else if |s| < 2 then Fail
    else if SimpleEscape(s[1]) >= 0 then Prepend(SimpleEscape(s[1]), ReadString(s[2..]))
    else if s[1] == 'u' && |s| >= 6 then
      var a, b, c, d := HexValue(s[2]), HexValue(s[3]), HexValue(s[4]), HexValue(s[5]);
      if a < 0 || b < 0 || c < 0 || d < 0 then Fail
      else Prepend(((a * 16 + b) * 16 + c) * 16 + d, ReadString(s[6..]))
    else Fail
  }

  function ReadNumber(s: string): (r: Read<Json>)
    ensures r.Done? ==> |r.rest| < |s|
  {
    var n := NumberPrefix(s);
    if n > 0 && ValidNumber(s[..n]) then Done(Number(s[..n]), s[n..]) else Fail
  }

  function ReadWord(s: string, word: string, value: Json): (r: Read<Json>)
    requires word != ""
    ensures r.Done? ==> |r.rest| < |s|
  {
    if word <= s then Done(value, s[|word|..]) else Fail
  }

  function ReadValue(s: string): (r: Read<Json>)
    ensures r.Done? ==> |r.rest| < |s|
    decreases |s|, 0
  {
    var t := SkipSpace(s);
    if t == "" then Fail
    else if t[0] == '{' then
      var u := SkipSpace(t[1..]);
      if u != "" && u[0] == '}' then Done(Object([]), u[1..])
      else match ReadMembers(t[1..])
        case Fail => Fail
        case Done(members, rest) => Done(Object(members), rest)
    else if t[0] == '[' then
      var u := SkipSpace(t[1..]);
      if u != "" && u[0] == ']' then Done(Array([]), u[1..])
      else match ReadItems(t[1..])
        case Fail => Fail
        case Done(items, rest) => Done(Array(items), rest)
    else if t[0] == '"' then
      match ReadString(t[1..])
      case Fail => Fail
      case Done(units, rest) => Done(Str(units), rest)
    else if t[0] == 't' then ReadWord(t, "true", Bool(true))
    else if t[0] == 'f' then ReadWord(t, "false", Bool(false))
    else if t[0] == 'n' then ReadWord(t, "null", Null)
    else ReadNumber(t)
  }

  /** One `key : value`. */
  function ReadMember(s: string): (r: Read<Member>)
    ensures r.Done? ==> |r.rest| < |s|
    decreases |s|, 1
  {
    var t := SkipSpace(s);
    if t == "" || t[0] != '"' then Fail
    else match ReadString(t[1..])
      case Fail => Fail
      case Done(key, afterKey) =>
        var u := SkipSpace(afterKey);
        if u == "" || u[0] != ':' then Fail
        else match ReadValue(u[1..])
          case Fail => Fail
          case Done(value, rest) => Done(Member(key, value), rest)
  }

  function ReadMembers(s: string): (r: Read<seq<Member>>)
    ensures r.Done? ==> |r.rest| < |s|
    decreases |s|, 2
  {
    match ReadMember(s)
    case Fail => Fail
    case Done(member, rest) =>
      var t := SkipSpace(rest);
      if t != "" && t[0] == ',' then Prepend(member, ReadMembers(t[1..]))
      else if t != "" && t[0] == '}' then Done([member], t[1..])
      else Fail
  }

  function ReadItems(s: string): (r: Read<seq<Json>>)
    ensures r.Done? ==> |r.rest| < |s|
    decreases |s|, 2
  {
    match ReadValue(s)
    case Fail => Fail
    case Done(item, rest) =>
      var t := SkipSpace(rest);
      if t != "" && t[0] == ',' then Prepend(item, ReadItems(t[1..]))
      else if t != "" && t[0] == ']' then Done([item], t[1..])
      else Fail
  }

  /** The whole text is one JSON value, up to surrounding white space. */
  predicate IsText(s: string, value: Json) {
    var r := ReadValue(s);
    r.Done? && r.value == value && SkipSpace(r.rest) == ""
  }

  // ------------------------------------- what follows a value does not change it

  /** `t` cannot prolong a number that ends just before it. */
  predicate Closes(t: string) {
    t == "" || !IsNumberChar(t[0])
  }

  /** Reading `s` and reading `s + t` give the same value, the latter leaving `t` as well. */
  ghost predicate Extends<T>(r: Read<T>, r': Read<T>, t: string) {
    r.Done? ==> r' == Done(r.value, r.rest + t)
  }

  lemma {:induction false} SkipSpaceExtends(s: string, t: string)
    requires SkipSpace(s) != ""
    ensures SkipSpace(s + t) == SkipSpace(s) + t
  {
    if IsSpace(s[0]) {
      SkipSpaceExtends(s[1..], t);
      assert (s + t)[1..] == s[1..] + t;
    }
  }

  lemma {:induction false} NumberPrefixExtends(s: string, t: string)
    requires Closes(t)
    ensures NumberPrefix(s + t) == NumberPrefix(s)
  {
    if s == "" {
      assert s + t == t;
    } else if IsNumberChar(s[0]) {
      NumberPrefixExtends(s[1..], t);
      assert (s + t)[1..] == s[1..] + t;
    }
  }

  lemma {:induction false} ReadStringExtends(s: string, t: string)
    ensures Extends(ReadString(s), ReadString(s + t), t)
  {
    if s != "" && ReadString(s).Done? {
      var k := if s[0] != '\\' then 1 else if SimpleEscape(s[1]) >= 0 then 2 else 6;
      assert (s + t)[k..] == s[k..] + t;
      if s[0] != '"' {
        ReadStringExtends(s[k..], t);
      }
    }
  }

  lemma ReadNumberExtends(s: string, t: string)
    requires Closes(t)
    ensures Extends(ReadNumber(s), ReadNumber(s + t), t)
  {
    var n := NumberPrefix(s);
    NumberPrefixExtends(s, t);
    assert (s + t)[..n] == s[..n] && (s + t)[n..] == s[n..] + t;
  }

  lemma ReadWordExtends(s: string, t: string, word: string, value: Json)
    requires word != ""
    ensures Extends(ReadWord(s, word, value), ReadWord(s + t, word, value), t)
  {
    if word <= s {
      assert (s + t)[|word|..] == s[|word|..] + t;
    }
  }

  lemma {:induction false} ReadValueExtends(s: string, t: string)
    requires Closes(t)
    ensures Extends(ReadValue(s), ReadValue(s + t), t)
    decreases |s|, 0
  {
    var u := SkipSpace(s);
    if u != "" {
      SkipSpaceExtends(s, t);
      var v := u[1..];
      assert (u + t)[1..] == v + t;
      if u[0] == '{' {
        if SkipSpace(v) != "" {
          SkipSpaceExtends(v, t);
          assert (SkipSpace(v) + t)[1..] == SkipSpace(v)[1..] + t;
          ReadMembersExtends(v, t);
        } else {
          assert ReadMember(v).Fail?;
        }
      } else if u[0] == '[' {
        if SkipSpace(v) != "" {
          SkipSpaceExtends(v, t);
          assert (SkipSpace(v) + t)[1..] == SkipSpace(v)[1..] + t;
          ReadItemsExtends(v, t);
        } else {
          assert ReadValue(v).Fail?;
        }
      } else if u[0] == '"' {
        ReadStringExtends(v, t);
      } else if u[0] == 't' {
        ReadWordExtends(u, t, "true", Bool(true));
      } else if u[0] == 'f' {
        ReadWordExtends(u, t, "false", Bool(false));
      } else if u[0] == 'n' {
        ReadWordExtends(u, t, "null", Null);
      } else {
        ReadNumberExtends(u, t);
      }
    }
  }

  lemma {:induction false} ReadMemberExtends(s: string, t: string)
    requires Closes(t)
    ensures Extends(ReadMember(s), ReadMember(s + t), t)
    decreases |s|, 1
  {
    if ReadMember(s).Done? {
      var u := SkipSpace(s);
      SkipSpaceExtends(s, t);
      assert (u + t)[1..] == u[1..] + t;
      ReadStringExtends(u[1..], t);
      var afterKey := ReadString(u[1..]).rest;
      var v := SkipSpace(afterKey);
      SkipSpaceExtends(afterKey, t);
      assert (v + t)[1..] == v[1..] + t;
      ReadValueExtends(v[1..], t);
    }
  }

  lemma {:induction false} ReadMembersExtends(s: string, t: string)
    requires Closes(t)
    ensures Extends(ReadMembers(s), ReadMembers(s + t), t)
    decreases |s|, 2
  {
    if ReadMembers(s).Done? {
      ReadMemberExtends(s, t);
      var rest := ReadMember(s).rest;
      var u := SkipSpace(rest);
      SkipSpaceExtends(rest, t);
      assert (u + t)[1..] == u[1..] + t;
      if u[0] == ',' {
        ReadMembersExtends(u[1..], t);
      }
    }
  }

  lemma {:induction false} ReadItemsExtends(s: string, t: string)
    requires Closes(t)
    ensures Extends(ReadItems(s), ReadItems(s + t), t)
    decreases |s|, 2
  {
    if ReadItems(s).Done? {
      ReadValueExtends(s, t);
      var rest := ReadValue(s).rest;
      var u := SkipSpace(rest);
      SkipSpaceExtends(rest, t);
      assert (u + t)[1..] == u[1..] + t;
      if u[0] == ',' {
        ReadItemsExtends(u[1..], t);
      }
    }
  }

  // --------------------------------------------------- where an object text ends

  /** `rest` is what remains of `s`. */
  predicate IsTail(rest: string, s: string) {
    |rest| <= |s| && rest == s[|s| - |rest|..]
  }

  /** `rest` is what remains of `s` after a closing brace. */
  predicate AfterBrace(rest: string, s: string) {
    |rest| < |s| && IsTail(rest, s) && s[|s| - |rest| - 1] == '}'
  }

  lemma TailOfTail(rest: string, mid: string, s: string)
    requires IsTail(rest, mid) && IsTail(mid, s)
    ensures IsTail(rest, s)
    ensures AfterBrace(rest, mid) ==> AfterBrace(rest, s)
  {
  }

  lemma {:induction false} SkipSpaceTail(s: string)
    ensures IsTail(SkipSpace(s), s)
  {
    if s != "" && IsSpace(s[0]) {
      SkipSpaceTail(s[1..]);
      TailOfTail(SkipSpace(s), s[1..], s);
    }
  }

  lemma {:induction false} ReadStringTail(s: string)
    requires ReadString(s).Done?
    ensures IsTail(ReadString(s).rest, s)
  {
    if s[0] != '"' {
      var k := if s[0] != '\\' then 1 else if SimpleEscape(s[1]) >= 0 then 2 else 6;
      ReadStringTail(s[k..]);
      TailOfTail(ReadString(s).rest, s[k..], s);
    }
  }

  lemma {:induction false} ReadValueTail(s: string)
    requires ReadValue(s).Done?
    ensures IsTail(ReadValue(s).rest, s)
    ensures ReadValue(s).value.Object? ==> AfterBrace(ReadValue(s).rest, s)
    decreases |s|, 1
  {
    var t := SkipSpace(s);
    SkipSpaceTail(s);
    assert SkipSpace(t) == t;
    assert ReadValue(t) == ReadValue(s);
    if t[0] == '{' {
      ObjectTail(t);
    } else if t[0] == '[' {
      ArrayTail(t);
    } else {
      ScalarTail(t);
    }
    TailOfTail(ReadValue(t).rest, t, s);
  }

  lemma WordTail(t: string, word: string, value: Json)
    requires word != "" && ReadWord(t, word, value).Done?
    ensures IsTail(ReadWord(t, word, value).rest, t)
  {
  }

  lemma NumberTail(t: string)
    requires ReadNumber(t).Done?
    ensures IsTail(ReadNumber(t).rest, t) && !ReadNumber(t).value.Object?
  {
  }

  lemma ScalarTail(t: string)
    requires t != "" && !IsSpace(t[0]) && t[0] != '{' && t[0] != '[' && ReadValue(t).Done?
    ensures IsTail(ReadValue(t).rest, t) && !ReadValue(t).value.Object?
  {
    assert SkipSpace(t) == t;
    if t[0] == '"' {
      ReadStringTail(t[1..]);
      TailOfTail(ReadValue(t).rest, t[1..], t);
    } else if t[0] == 't' {
      WordTail(t, "true", Bool(true));
    } else if t[0] == 'f' {
      WordTail(t, "false", Bool(false));
    } else if t[0] == 'n' {
      WordTail(t, "null", Null);
    } else {
      NumberTail(t);
    }
  }

  lemma {:induction false} ObjectTail(t: string)
    requires t != "" && t[0] == '{' && ReadValue(t).Done?
    ensures AfterBrace(ReadValue(t).rest, t)
    decreases |t|, 0
  {
    var u := SkipSpace(t[1..]);
    SkipSpaceTail(t[1..]);
    if u != "" && u[0] == '}' {
      TailOfTail(u, t[1..], t);
    } else {
      ReadMembersTail(t[1..]);
      TailOfTail(ReadValue(t).rest, t[1..], t);
    }
  }

  lemma {:induction false} ArrayTail(t: string)
    requires t != "" && t[0] == '[' && ReadValue(t).Done?
    ensures IsTail(ReadValue(t).rest, t)
    decreases |t|, 0
  {
    var u := SkipSpace(t[1..]);
    SkipSpaceTail(t[1..]);
    if u != "" && u[0] == ']' {
      TailOfTail(u, t[1..], t);
    } else {
      ReadItemsTail(t[1..]);
      TailOfTail(ReadValue(t).rest, t[1..], t);
    }
  }

  lemma {:induction false} ReadMemberTail(s: string)
    requires ReadMember(s).Done?
    ensures IsTail(ReadMember(s).rest, s)
    decreases |s|, 1
  {
    var key := SkipSpace(s)[1..];
    DropFirst(s);
    ReadStringTail(key);
    var afterKey := ReadString(key).rest;
    var value := SkipSpace(afterKey)[1..];
    DropFirst(afterKey);
    ReadValueTail(value);
    var rest := ReadValue(value).rest;
    TailOfTail(rest, value, afterKey);
    TailOfTail(rest, afterKey, key);
    TailOfTail(rest, key, s);
  }

  lemma DropFirst(s: string)
    requires SkipSpace(s) != ""
    ensures IsTail(SkipSpace(s)[1..], s)
  {
    SkipSpaceTail(s);
  }

  lemma {:induction false} ReadMembersTail(s: string)
    requires ReadMembers(s).Done?
    ensures AfterBrace(ReadMembers(s).rest, s)
    decreases |s|, 2
  {
    ReadMemberTail(s);
    var after := ReadMember(s).rest;
    var t := SkipSpace(after);
    SkipSpaceTail(after);
    TailOfTail(t, after, s);
    if t[0] == ',' {
      ReadMembersTail(t[1..]);
      TailOfTail(ReadMembers(s).rest, t[1..], s);
    }
  }

  lemma {:induction false} ReadItemsTail(s: string)
    requires ReadItems(s).Done?
    ensures IsTail(ReadItems(s).rest, s)
    decreases |s|, 2
  {
    ReadValueTail(s);
    var after := ReadValue(s).rest;
    var t := SkipSpace(after);
    SkipSpaceTail(after);
    TailOfTail(t, after, s);
    if t[0] == ',' {
      ReadItemsTail(t[1..]);
      TailOfTail(ReadItems(s).rest, t[1..], s);
    }
  }

  // ---------------------------------------- nor does what follows help a value read

  /** A reading of `s + t` that stops before `t` is a reading of `s`. */
  ghost predicate Shrinks<T>(r: Read<T>, r': Read<T>, t: string) {
    r'.Done? && |r'.rest| >= |t| ==> r.Done? && r' == Done(r.value, r.rest + t)
  }

  lemma {:induction false} SkipSpaceSplits(s: string, t: string)
    ensures SkipSpace(s + t) == if SkipSpace(s) == "" then SkipSpace(t) else SkipSpace(s) + t
  {
    if s == "" {
      assert s + t == t;
    } else if IsSpace(s[0]) {
      SkipSpaceSplits(s[1..], t);
      assert (s + t)[1..] == s[1..] + t;
    }
  }

  lemma {:induction false} NumberPrefixShrinks(s: string, t: string)
    ensures NumberPrefix(s + t) <= |s| ==> NumberPrefix(s) == NumberPrefix(s + t)
  {
    if s != "" && IsNumberChar(s[0]) {
      NumberPrefixShrinks(s[1..], t);
      assert (s + t)[1..] == s[1..] + t;
    }
  }

  lemma DropBoth(s: string, t: string, k: nat)
    requires k <= |s|
    ensures (s + t)[k..] == s[k..] + t && forall i :: 0 <= i < k ==> (s + t)[i] == s[i]
  {
  }

  lemma {:induction false} ReadStringShrinks(s: string, t: string)
    ensures Shrinks(ReadString(s), ReadString(s + t), t)
  {
    var r, u := ReadString(s + t), s + t;
    if r.Done? && |r.rest| >= |t| {
      if u[0] == '"' {
        DropBoth(s, t, 1);
      } else if u[0] != '\\' {
        DropBoth(s, t, 1);
        ReadStringShrinks(s[1..], t);
      } else if SimpleEscape(u[1]) >= 0 {
        DropBoth(s, t, 2);
        ReadStringShrinks(s[2..], t);
      } else {
        DropBoth(s, t, 6);
        ReadStringShrinks(s[6..], t);
      }
    }
  }

  lemma ReadNumberShrinks(s: string, t: string)
    ensures Shrinks(ReadNumber(s), ReadNumber(s + t), t)
  {
    var n := NumberPrefix(s + t);
    NumberPrefixShrinks(s, t);
    if n <= |s| {
      assert (s + t)[..n] == s[..n] && (s + t)[n..] == s[n..] + t;
    }
  }

  lemma ReadWordShrinks(s: string, t: string, word: string, value: Json)
    requires word != ""
    ensures Shrinks(ReadWord(s, word, value), ReadWord(s + t, word, value), t)
  {
    if word <= s + t && |s + t| - |word| >= |t| {
      assert s == (s + t)[..|s|];
      assert (s + t)[|word|..] == s[|word|..] + t;
    }
  }

  /** A value is what is left of a text from its first solid character, and more than white space. */
  lemma ValueSkips(s: string)
    ensures ReadValue(SkipSpace(s)) == ReadValue(s)
    ensures ReadValue(s).Done? ==> |ReadValue(s).rest| < |SkipSpace(s)|
  {
    assert SkipSpace(SkipSpace(s)) == SkipSpace(s);
  }

  lemma {:induction false} ReadValueShrinks(s: string, t: string)
    ensures Shrinks(ReadValue(s), ReadValue(s + t), t)
    decreases |s|, 0
  {
    var r := ReadValue(s + t);
    if r.Done? && |r.rest| >= |t| {
      SkipSpaceSplits(s, t);
      ValueSkips(s + t);
      var u := SkipSpace(s);
      var v := u[1..];
      assert (u + t)[1..] == v + t;
      if u[0] == '{' {
        SkipSpaceSplits(v, t);
        if SkipSpace(v) != "" && SkipSpace(v)[0] == '}' {
          assert (SkipSpace(v) + t)[1..] == SkipSpace(v)[1..] + t;
        } else {
          ReadMembersShrinks(v, t);
        }
      } else if u[0] == '[' {
        SkipSpaceSplits(v, t);
        if SkipSpace(v) != "" && SkipSpace(v)[0] == ']' {
          assert (SkipSpace(v) + t)[1..] == SkipSpace(v)[1..] + t;
        } else {
          ReadItemsShrinks(v, t);
        }
      } else if u[0] == '"' {
        ReadStringShrinks(v, t);
      } else if u[0] == 't' {
        ReadWordShrinks(u, t, "true", Bool(true));
      } else if u[0] == 'f' {
        ReadWordShrinks(u, t, "false", Bool(false));
      } else if u[0] == 'n' {
        ReadWordShrinks(u, t, "null", Null);
      } else {
        ReadNumberShrinks(u, t);
      }
    }
  }

  /** The key and the colon of a member, if they are there, and what is left for its value. */
  function ReadKey(s: string): (r: Read<seq<int>>)
    ensures r.Done? ==> |r.rest| < |s|
  {
    var t := SkipSpace(s);
    if t == "" || t[0] != '"' then Fail
    else match ReadString(t[1..])
      case Fail => Fail
      case Done(key, afterKey) =>
        var u := SkipSpace(afterKey);
        if u == "" || u[0] != ':' then Fail else Done(key, u[1..])
  }

  lemma MemberByKey(s: string)
    ensures ReadMember(s) == match ReadKey(s)
      case Fail => Fail
      case Done(key, rest) =>
        match ReadValue(rest)
        case Fail => Fail
        case Done(value, after) => Done(Member(key, value), after)
  {
  }

  lemma ReadKeyShrinks(s: string, t: string)
    ensures Shrinks(ReadKey(s), ReadKey(s + t), t)
  {
    var r := ReadKey(s + t);
    if r.Done? && |r.rest| >= |t| {
      SkipSpaceSplits(s, t);
      var u := SkipSpace(s);
      assert u != "";
      DropBoth(u, t, 1);
      ReadStringShrinks(u[1..], t);
      var afterKey := ReadString(u[1..]).rest;
      SkipSpaceSplits(afterKey, t);
      DropBoth(SkipSpace(afterKey), t, 1);
    }
  }

  lemma {:induction false} ReadMemberShrinks(s: string, t: string)
    ensures Shrinks(ReadMember(s), ReadMember(s + t), t)
    decreases |s|, 1
  {
    MemberByKey(s);
    MemberByKey(s + t);
    if ReadMember(s + t).Done? && |ReadMember(s + t).rest| >= |t| {
      ReadKeyShrinks(s, t);
      ReadValueShrinks(ReadKey(s).rest, t);
    }
  }

  lemma {:induction false} ReadMembersShrinks(s: string, t: string)
    ensures Shrinks(ReadMembers(s), ReadMembers(s + t), t)
    decreases |s|, 2
  {
    var r := ReadMembers(s + t);
    if r.Done? && |r.rest| >= |t| {
      ReadMemberShrinks(s, t);
      var rest := ReadMember(s).rest;
      SkipSpaceSplits(rest, t);
      var u := SkipSpace(rest);
      assert (u + t)[1..] == u[1..] + t;
      if u[0] == ',' {
        ReadMembersShrinks(u[1..], t);
      }
    }
  }

  lemma {:induction false} ReadItemsShrinks(s: string, t: string)
    ensures Shrinks(ReadItems(s), ReadItems(s + t), t)
    decreases |s|, 2
  {
    var r := ReadItems(s + t);
    if r.Done? && |r.rest| >= |t| {
      ReadValueShrinks(s, t);
      var rest := ReadValue(s).rest;
      SkipSpaceSplits(rest, t);
      var u := SkipSpace(rest);
      assert (u + t)[1..] == u[1..] + t;
      if u[0] == ',' {
        ReadItemsShrinks(u[1..], t);
      }
    }
  }
}
