/**
 The JSON text that signatures and digests cover. The repository writes it by hand, field by
 field, with `serde_json` doing the string escaping; this module gives the writer, a reader, and
 the theorem that the reader recovers every value the writer can emit.
 */
module Json {
  import opened Text

  predicate IsNumChar(c: char) {
    IsDigit(c) || 'a' <= c <= 'z' || 'A' <= c <= 'Z' || c == '.' || c == '-' || c == '+'
  }

  predicate IsNumText(s: Bytes) {
    s != [] && forall i :: 0 <= i < |s| ==> IsNumChar(s[i])
  }

  /** A number, as the text the writer printed for it. */
  type NumText = s: Bytes | IsNumText(s) witness "0"

  datatype Json = JStr(s: Bytes) | JNum(text: NumText) | JObj(members: Members) | JArr(items: Items)

  datatype Members = NoMembers | Member(key: Bytes, value: Json, rest: Members)

  datatype Items = NoItems | Item(head: Json, tail: Items)

  // ── Writer ─────────────────────────────────────────────────────────────────

  /** The byte-wise escape table of `serde_json` (section 7 of RFC 8259). */
  function EscapeChar(c: char): Bytes {
    if c == '"' then "\\\""
    else if c == '\\' then "\\\\"
    else if c as int == 8 then "\\b"
    else if c as int == 9 then "\\t"
    else if c as int == 10 then "\\n"
    else if c as int == 12 then "\\f"
    else if c as int == 13 then "\\r"
    else if c as int < 32 then "\\u00" + [HexDigit(c as int / 16), HexDigit(c as int % 16)]
    else [c]
  }

  function Escape(s: Bytes): Bytes {
    if s == [] then "" else EscapeChar(s[0]) + Escape(s[1..])
  }

  /** `json_str`. */
  function Quote(s: Bytes): Bytes { "\"" + Escape(s) + "\"" }

  function Render(v: Json): Bytes {
    match v
    case JStr(s) => Quote(s)
    case JNum(t) => t
    case JObj(m) => "{" + RenderMembers(m) + "}"
    case JArr(i) => "[" + RenderItems(i) + "]"
  }

  function RenderMembers(m: Members): Bytes {
    match m
    case NoMembers => ""
    case Member(k, v, rest) =>
      Quote(k) + ":" + Render(v) + if rest.NoMembers? then "" else "," + RenderMembers(rest)
  }

  function RenderItems(i: Items): Bytes {
    match i
    case NoItems => ""
    case Item(v, tail) => Render(v) + if tail.NoItems? then "" else "," + RenderItems(tail)
  }

  // ── Reader ─────────────────────────────────────────────────────────────────

  /** One escape sequence, the backslash already consumed. */
  function ReadEscape(t: Bytes): (r: Option<(char, Bytes)>)
    ensures r.Some? ==> |r.value.1| < |t|
  {
    if t == [] then None
    else if t[0] == '"' then Some(('"', t[1..]))
    else if t[0] == '\\' then Some(('\\', t[1..]))
    else if t[0] == 'b' then Some((8 as char, t[1..]))
    else if t[0] == 't' then Some((9 as char, t[1..]))
    else if t[0] == 'n' then Some((10 as char, t[1..]))
    else if t[0] == 'f' then Some((12 as char, t[1..]))
    else if t[0] == 'r' then Some((13 as char, t[1..]))
    else if t[0] == 'u' && |t| >= 5 && t[1] == '0' && t[2] == '0' then
      match (HexValue(t[3]), HexValue(t[4]))
      case (Some(h), Some(l)) => Some(((h * 16 + l) as char, t[5..]))
      case _ => None
    else None
  }

  /** A string body, the opening quote already consumed: its content and what follows the closing quote. */
  function ReadString(t: Bytes): (r: Option<(Bytes, Bytes)>)
    ensures r.Some? ==> |r.value.1| < |t|
    decreases |t|
  {
    if t == [] then None
    else if t[0] == '"' then Some(("", t[1..]))
    else if t[0] == '\\' then
      (match ReadEscape(t[1..])
       case None => None
       case Some((c, after)) =>
         match ReadString(after)
         case None => None
         case Some((s, rest)) => Some(([c] + s, rest)))
    else if t[0] as int < 32 then None
    else
      match ReadString(t[1..])
      case None => None
      case Some((s, rest)) => Some(([t[0]] + s, rest))
  }

  function NumRun(t: Bytes): (n: nat)
    ensures n <= |t| && forall i :: 0 <= i < n ==> IsNumChar(t[i])
  {
    if t != [] && IsNumChar(t[0]) then 1 + NumRun(t[1..]) else 0
  }

  function ReadValue(t: Bytes): (r: Option<(Json, Bytes)>)
    ensures r.Some? ==> |r.value.1| < |t|
    decreases |t|, 0
  {
    if t == [] then None
    else if t[0] == '"' then
      (match ReadString(t[1..])
       case None => None
       case Some((s, rest)) => Some((JStr(s), rest)))
    else if t[0] == '{' then
      (if |t| > 1 && t[1] == '}' then Some((JObj(NoMembers), t[2..]))
       else match ReadMembers(t[1..])
            case None => None
            case Some((m, rest)) => Some((JObj(m), rest)))
    else if t[0] == '[' then
      (if |t| > 1 && t[1] == ']' then Some((JArr(NoItems), t[2..]))
       else match ReadItems(t[1..])
            case None => None
            case Some((i, rest)) => Some((JArr(i), rest)))
    else
      var n := NumRun(t);
      if n == 0 then None else Some((JNum(t[..n]), t[n..]))
  }

  /** One or more members and the closing brace. */
  function ReadMembers(t: Bytes): (r: Option<(Members, Bytes)>)
    ensures r.Some? ==> |r.value.1| < |t|
    decreases |t|, 1
  {
    if t == [] || t[0] != '"' then None else
    match ReadString(t[1..])
    case None => None
    case Some((k, afterKey)) =>
      if afterKey == [] || afterKey[0] != ':' then None else
      match ReadValue(afterKey[1..])
      case None => None
      case Some((v, after)) =>
        if after == [] then None
        else if after[0] == '}' then Some((Member(k, v, NoMembers), after[1..]))
        else if after[0] != ',' then None
        else match ReadMembers(after[1..])
             case None => None
             case Some((m, rest)) => Some((Member(k, v, m), rest))
  }

  /** One or more items and the closing bracket. */
  function ReadItems(t: Bytes): (r: Option<(Items, Bytes)>)
    ensures r.Some? ==> |r.value.1| < |t|
    decreases |t|, 1
  {
    match ReadValue(t)
    case None => None
    case Some((v, after)) =>
      if after == [] then None
      else if after[0] == ']' then Some((Item(v, NoItems), after[1..]))
      else if after[0] != ',' then None
      else match ReadItems(after[1..])
           case None => None
           case Some((i, rest)) => Some((Item(v, i), rest))
  }

  /** The whole text is one value. */
  function Parse(t: Bytes): Option<Json> {
    match ReadValue(t)
    case Some((v, "")) => Some(v)
    case _ => None
  }

  // ── The reader undoes the writer ───────────────────────────────────────────

  lemma EscapeShape(c: char)
    ensures var e := EscapeChar(c); e != "" && (e[0] == '\\' || (e == [c] && c as int >= 32 && c != '"'))
  {
  }

  lemma {:induction false} ReadEscaped(s: Bytes, rest: Bytes)
    ensures ReadString(Escape(s) + "\"" + rest) == Some((s, rest))
  {
    hide EscapeChar, ReadEscape;
    if s == [] {
      assert (Escape(s) + "\"" + rest)[1..] == rest;
    } else {
      EscapeShape(s[0]);
      var c, e := s[0], EscapeChar(s[0]);
      var tail := Escape(s[1..]) + "\"" + rest;
      ReadEscaped(s[1..], rest);
      assert Escape(s) + "\"" + rest == e + tail;
      assert s == [c] + s[1..];
      if e[0] == '\\' {
        ReadEscapeChar(c, tail);
      } else {
        assert (e + tail)[1..] == tail;
      }
    }
  }

  lemma EscapeForms(c: char)
    requires EscapeChar(c)[0] == '\\'
    ensures |EscapeChar(c)| == 2 || (c as int < 32 && EscapeChar(c) == ['\\', 'u', '0', '0', HexDigit(c as int / 16), HexDigit(c as int % 16)])
  {
  }

  lemma ReadEscapeChar(c: char, tail: Bytes)
    requires EscapeChar(c)[0] == '\\'
    ensures ReadEscape((EscapeChar(c) + tail)[1..]) == Some((c, tail))
  {
    var t := (EscapeChar(c) + tail)[1..];
    EscapeForms(c);
    if |EscapeChar(c)| == 2 {
      assert t == [EscapeChar(c)[1]] + tail;
      assert t[1..] == tail;
    } else {
      ReadLongEscape(c, tail);
    }
  }

  lemma ReadLongEscape(c: char, tail: Bytes)
    requires c as int < 32 && EscapeChar(c) == ['\\', 'u', '0', '0', HexDigit(c as int / 16), HexDigit(c as int % 16)]
    ensures ReadEscape((EscapeChar(c) + tail)[1..]) == Some((c, tail))
  {
    hide EscapeChar;
    var t := (EscapeChar(c) + tail)[1..];
    assert t == ['u', '0', '0', HexDigit(c as int / 16), HexDigit(c as int % 16)] + tail;
    assert t[5..] == tail;
    HexByte(c);
  }

  /** What may follow a value: anything that does not extend a number. */
  predicate Stops(rest: Bytes) { rest == [] || !IsNumChar(rest[0]) }

  lemma {:induction false} NumRunStops(t: Bytes, rest: Bytes)
    requires forall i :: 0 <= i < |t| ==> IsNumChar(t[i])
    requires Stops(rest)
    ensures NumRun(t + rest) == |t|
  {
    if t == [] {
      assert t + rest == rest;
    } else {
      NumRunStops(t[1..], rest);
      assert (t + rest)[1..] == t[1..] + rest;
    }
  }

  lemma ReadQuoted(s: Bytes, rest: Bytes)
    ensures var t := Quote(s) + rest; t[0] == '"' && ReadString(t[1..]) == Some((s, rest))
  {
    ReadEscaped(s, rest);
    assert (Quote(s) + rest)[1..] == Escape(s) + "\"" + rest;
  }

  lemma ReadNumber(t: NumText, rest: Bytes)
    requires Stops(rest)
    ensures ReadValue(t + rest) == Some((JNum(t), rest))
  {
    NumRunStops(t, rest);
    assert (t + rest)[0] == t[0];
    assert (t + rest)[..|t|] == t && (t + rest)[|t|..] == rest;
  }

  lemma ReadBraced(inner: Bytes, m: Members, rest: Bytes)
    requires inner != [] && inner[0] == '"'
    requires ReadMembers(inner) == Some((m, rest))
    ensures ReadValue("{" + inner) == Some((JObj(m), rest))
  {
    assert ("{" + inner)[1..] == inner;
  }

  lemma ReadBracketed(inner: Bytes, i: Items, rest: Bytes)
    requires inner != [] && inner[0] != ']'
    requires ReadItems(inner) == Some((i, rest))
    ensures ReadValue("[" + inner) == Some((JArr(i), rest))
  {
    assert ("[" + inner)[1..] == inner;
  }

  lemma Enclosed(open: Bytes, body: Bytes, end: Bytes, rest: Bytes)
    ensures open + body + end + rest == open + (body + end + rest)
    ensures body != [] ==> (body + end + rest)[0] == body[0]
  {
  }

  lemma ReadEmpty(rest: Bytes)
    ensures ReadValue("{" + "" + "}" + rest) == Some((JObj(NoMembers), rest))
    ensures ReadValue("[" + "" + "]" + rest) == Some((JArr(NoItems), rest))
  {
    assert ("{" + "" + "}" + rest)[2..] == rest;
    assert ("[" + "" + "]" + rest)[2..] == rest;
  }

  lemma {:induction false} ReadRendered(v: Json, rest: Bytes)
    requires Stops(rest)
    ensures ReadValue(Render(v) + rest) == Some((v, rest))
    decreases v
  {
    match v
    case JStr(s) => ReadQuoted(s, rest);
    case JNum(n) => ReadNumber(n, rest);
    case JObj(m) =>
      if m.NoMembers? {
        ReadEmpty(rest);
      } else {
        ReadRenderedMembers(m, rest);
        Enclosed("{", RenderMembers(m), "}", rest);
        ReadBraced(RenderMembers(m) + "}" + rest, m, rest);
      }
    case JArr(i) =>
      if i.NoItems? {
        ReadEmpty(rest);
      } else {
        ReadRenderedItems(i, rest);
        RenderStart(i.head);
        assert RenderItems(i)[0] == Render(i.head)[0];
        Enclosed("[", RenderItems(i), "]", rest);
        ReadBracketed(RenderItems(i) + "]" + rest, i, rest);
      }
  }

  lemma RenderStart(v: Json)
    ensures Render(v) != [] && Render(v)[0] != ']' && Render(v)[0] != '}'
  {
  }

  function MembersAfter(more: Members, rest: Bytes): Bytes {
    (if more.NoMembers? then "" else "," + RenderMembers(more)) + "}" + rest
  }

  lemma Separated(more: Bytes, end: Bytes, rest: Bytes)
    requires |end| == 1
    ensures var after := "" + end + rest; after != [] && after[0] == end[0] && after[1..] == rest
    ensures var after := "," + more + end + rest; after != [] && after[0] == ',' && after[1..] == more + end + rest
  {
  }

  lemma Regroup(q: Bytes, r: Bytes, sep: Bytes, end: Bytes, rest: Bytes)
    ensures q + ":" + r + sep + end + rest == q + (":" + (r + (sep + end + rest)))
  {
  }

  /** A member list, cut into the pieces the reader consumes one by one. */
  lemma MembersPieces(k: Bytes, v: Json, more: Members, rest: Bytes)
    ensures RenderMembers(Member(k, v, more)) + "}" + rest
         == Quote(k) + (":" + (Render(v) + MembersAfter(more, rest)))
  {
    Regroup(Quote(k), Render(v), if more.NoMembers? then "" else "," + RenderMembers(more), "}", rest);
  }

  lemma ReadOneMember(k: Bytes, v: Json, text: Bytes, after: Bytes)
    requires ReadValue(text + after) == Some((v, after)) && after != []
    ensures ReadMembers(Quote(k) + (":" + (text + after))) ==
            if after[0] == '}' then Some((Member(k, v, NoMembers), after[1..]))
            else if after[0] != ',' then None
            else match ReadMembers(after[1..])
                 case None => None
                 case Some((m, rest)) => Some((Member(k, v, m), rest))
  {
    var afterKey := ":" + (text + after);
    ReadQuoted(k, afterKey);
    assert afterKey[1..] == text + after;
  }

  lemma {:induction false} ReadRenderedMembers(m: Members, rest: Bytes)
    requires m.Member?
    ensures ReadMembers(RenderMembers(m) + "}" + rest) == Some((m, rest))
    decreases m
  {
    var Member(k, v, more) := m;
    var after := MembersAfter(more, rest);
    MembersPieces(k, v, more, rest);
    ReadRendered(v, after);
    ReadOneMember(k, v, Render(v), after);
    if more.Member? {
      ReadRenderedMembers(more, rest);
    }
    Separated(RenderMembers(more), "}", rest);
  }

  lemma {:induction false} ReadRenderedItems(i: Items, rest: Bytes)
    requires i.Item?
    ensures ReadItems(RenderItems(i) + "]" + rest) == Some((i, rest))
    decreases i
  {
    var Item(v, more) := i;
    var after := (if more.NoItems? then "" else "," + RenderItems(more)) + "]" + rest;
    assert RenderItems(i) + "]" + rest == Render(v) + after;
    ReadRendered(v, after);
    if more.Item? {
      ReadRenderedItems(more, rest);
    }
    Separated(RenderItems(more), "]", rest);
  }

  /** Reading back what was written gives the same value, for every value. */
  lemma ParseRender(v: Json)
    ensures Parse(Render(v)) == Some(v)
  {
    ReadRendered(v, "");
    assert Render(v) + "" == Render(v);
  }

  /** Hence the writer never maps two values to one text. */
  lemma RenderInjective(v: Json, w: Json)
    requires Render(v) == Render(w)
    ensures v == w
  {
    ParseRender(v);
    ParseRender(w);
  }

  // ── Rendered text stays on one line ────────────────────────────────────────

  predicate OneLine(t: Bytes) {
    forall i :: 0 <= i < |t| ==> t[i] as int != 10
  }

  lemma {:induction false} EscapeOneLine(s: Bytes)
    ensures OneLine(Escape(s))
  {
    if s != [] {
      EscapeOneLine(s[1..]);
    }
  }

  lemma {:induction false} RenderOneLine(v: Json)
    ensures OneLine(Render(v))
    decreases v
  {
    match v
    case JStr(s) => EscapeOneLine(s);
    case JNum(_) =>
    case JObj(m) => MembersOneLine(m);
    case JArr(i) => ItemsOneLine(i);
  }

  lemma {:induction false} MembersOneLine(m: Members)
    ensures OneLine(RenderMembers(m))
    decreases m
  {
    if m.Member? {
      EscapeOneLine(m.key);
      RenderOneLine(m.value);
      MembersOneLine(m.rest);
    }
  }

  lemma {:induction false} ItemsOneLine(i: Items)
    ensures OneLine(RenderItems(i))
    decreases i
  {
    if i.Item? {
      RenderOneLine(i.head);
      ItemsOneLine(i.tail);
    }
  }

  // ── The text itself ────────────────────────────────────────────────────────

  /** Nothing in `s` needs escaping. */
  predicate IsPlain(s: Bytes) {
    forall i :: 0 <= i < |s| ==> s[i] as int >= 32 && s[i] != '"' && s[i] != '\\'
  }

  lemma {:induction false} QuotePlain(s: Bytes)
    requires IsPlain(s)
    ensures Quote(s) == "\"" + s + "\""
  {
    if s != [] {
      QuotePlain(s[1..]);
      assert Escape(s[1..]) == Quote(s[1..])[1..|s[1..]| + 1] == s[1..] by {
        assert |Quote(s[1..])| == |s[1..]| + 2 == |Escape(s[1..])| + 2;
      }
      assert s == [s[0]] + s[1..];
    }
  }

  lemma EscapeOne(c: char)
    ensures Escape([c]) == EscapeChar(c)
  {
    assert [c][1..] == [];
  }

  /** The characters with a short escape. */
  lemma ShortEscapes()
    ensures Escape([8 as char]) == "\\b" && Escape([9 as char]) == "\\t" && Escape([10 as char]) == "\\n"
    ensures Escape([12 as char]) == "\\f" && Escape([13 as char]) == "\\r"
    ensures Escape(['"']) == "\\\"" && Escape(['\\']) == "\\\\" && Escape(['/']) == "/"
  {
    hide Escape;
    EscapeOne(8 as char);
    EscapeOne(9 as char);
    EscapeOne(10 as char);
    EscapeOne(12 as char);
    EscapeOne(13 as char);
    EscapeOne('"');
    EscapeOne('\\');
    EscapeOne('/');
  }

  /** Other control characters are written with four lower-case hexadecimal digits. */
  lemma LongEscapes()
    ensures Escape([0 as char]) == "\\u0000" && Escape([11 as char]) == "\\u000b" && Escape([31 as char]) == "\\u001f"
  {
    hide Escape;
    EscapeOne(0 as char);
    EscapeOne(11 as char);
    EscapeOne(31 as char);
  }

  /** `"key":text`. */
  function Pair(key: Bytes, text: Bytes): Bytes { "\"" + key + "\":" + text }

  /** `[a,b,…]` without the brackets. */
  function Join(parts: seq<Bytes>): Bytes {
    if parts == [] then "" else parts[0] + if |parts| == 1 then "" else "," + Join(parts[1..])
  }

  function Braces(parts: seq<Bytes>): Bytes { "{" + Join(parts) + "}" }

  function Brackets(parts: seq<Bytes>): Bytes { "[" + Join(parts) + "]" }

  /** The members of an object, one text each. */
  function Parts(m: Members): (parts: seq<Bytes>)
    ensures parts == [] <==> m.NoMembers?
  {
    if m.NoMembers? then [] else [Quote(m.key) + ":" + Render(m.value)] + Parts(m.rest)
  }

  lemma {:induction false} MembersText(m: Members)
    ensures RenderMembers(m) == Join(Parts(m))
  {
    if m.Member? {
      MembersText(m.rest);
      var parts := Parts(m);
      assert parts[1..] == Parts(m.rest);
    }
  }

  lemma PartsOf(key: Bytes, v: Json, rest: Members)
    requires IsPlain(key)
    ensures Parts(Member(key, v, rest)) == [Pair(key, Render(v))] + Parts(rest)
  {
    QuotePlain(key);
    assert "\"" + key + "\"" + ":" == "\"" + key + "\":";
  }

  lemma ObjectText(m: Members)
    ensures Render(JObj(m)) == Braces(Parts(m))
  {
    MembersText(m);
  }
}
