/**
  JSON values, their canonical text and the reader.

  The canonical text sorts object members by key and uses no whitespace.  A value printed
  canonically reads back as itself up to the order of object members, so equal texts mean
  equal values.
 */
module Json {
  import opened Prelude
  import opened JsonText
  import opened JsonNumbers

  /** Objects keep their members in insertion order; a float is carried as its printed token. */
  datatype Value =
    | Null
    | Bool(b: bool)
    | Int(i: int)
    | Float(token: Text)
    | Str(s: seq<CodePoint>)
    | Arr(items: seq<Value>)
    | Obj(members: seq<Member>)

  datatype Member = Member(key: seq<CodePoint>, value: Value)

  const COMMA := 0x2C
  const COLON := 0x3A
  const LBRACKET := 0x5B
  const RBRACKET := 0x5D
  const LBRACE := 0x7B
  const RBRACE := 0x7D

  const NULL_TEXT: Text := [0x6E, 0x75, 0x6C, 0x6C]
  const TRUE_TEXT: Text := [0x74, 0x72, 0x75, 0x65]
  const FALSE_TEXT: Text := [0x66, 0x61, 0x6C, 0x73, 0x65]

  // ---------- writing ----------

  function WriteString(s: seq<CodePoint>): Text {
    [QUOTE] + EscapeUnits(Utf16(s)) + [QUOTE]
  }

  function Write(v: Value): Text {
    match v
    case Null => NULL_TEXT
    case Bool(b) => if b then TRUE_TEXT else FALSE_TEXT
    case Int(i) => Decimal(i)
    case Float(token) => token
    case Str(s) => WriteString(s)
    case Arr(items) => [LBRACKET] + Join(ItemTexts(items)) + [RBRACKET]
    case Obj(members) => [LBRACE] + Join(MemberTexts(members)) + [RBRACE]
  }

  function ItemTexts(items: seq<Value>): (texts: seq<Text>)
    ensures |texts| == |items|
  {
    if items == [] then [] else [Write(items[0])] + ItemTexts(items[1..])
  }

  function MemberTexts(ms: seq<Member>): (texts: seq<Text>)
    ensures |texts| == |ms|
  {
    if ms == [] then [] else [WriteMember(ms[0])] + MemberTexts(ms[1..])
  }

  function WriteMember(m: Member): Text {
    WriteString(m.key) + [COLON] + Write(m.value)
  }

  function Join(texts: seq<Text>): Text {
    if texts == [] then []
    else if |texts| == 1 then texts[0]
    else texts[0] + [COMMA] + Join(texts[1..])
  }

  // ---------- reading ----------

  function ReadString(t: Text): (r: Reading<seq<CodePoint>>)
    ensures r.Read? ==> |r.rest| < |t|
  {
    match ReadUnits(t)
    case Failed => Failed
    case Read(us, rest) => Read(FromUtf16(us), rest)
  }

  function ReadNumber(t: Text): (r: Reading<Value>)
    ensures r.Read? ==> |r.rest| < |t|
  {
    var n := TokenLength(t);
    var token, rest := t[..n], t[n..];
    if ReadDecimal(token).Some? then Read(Int(ReadDecimal(token).value), rest)
    else if IsFloatToken(token) then Read(Float(token), rest)
    else Failed
  }

  function ReadValue(t: Text): (r: Reading<Value>)
    ensures r.Read? ==> |r.rest| < |t|
    decreases |t|, 0
  {
    if t == [] then Failed
    else if NULL_TEXT <= t then Read(Null, t[4..])
    else if TRUE_TEXT <= t then Read(Bool(true), t[4..])
    else if FALSE_TEXT <= t then Read(Bool(false), t[5..])
    else if t[0] == QUOTE then
      match ReadString(t[1..])
      case Failed => Failed
      case Read(s, rest) => Read(Str(s), rest)
    else if t[0] == LBRACKET then
      if |t| > 1 && t[1] == RBRACKET then Read(Arr([]), t[2..])
      else
        match ReadItems(t[1..])
        case Failed => Failed
        case Read(items, rest) => Read(Arr(items), rest)
    else if t[0] == LBRACE then
      if |t| > 1 && t[1] == RBRACE then Read(Obj([]), t[2..])
      else
        match ReadMembers(t[1..])
        case Failed => Failed
        case Read(ms, rest) => Read(Obj(ms), rest)
    else ReadNumber(t)
  }

  /** One or more items and the closing bracket. */
  function ReadItems(t: Text): (r: Reading<seq<Value>>)
    ensures r.Read? ==> |r.rest| < |t|
    decreases |t|, 2
  {
    match ReadValue(t)
    case Failed => Failed
    case Read(v, rest) =>
      if rest == [] then Failed
      else if rest[0] == RBRACKET then Read([v], rest[1..])
      else if rest[0] != COMMA then Failed
      else
        match ReadItems(rest[1..])
        case Failed => Failed
        case Read(vs, end) => Read([v] + vs, end)
  }

  function ReadMember(t: Text): (r: Reading<Member>)
    ensures r.Read? ==> |r.rest| < |t|
    decreases |t|, 1
  {
    if t == [] || t[0] != QUOTE then Failed
    else
      match ReadString(t[1..])
      case Failed => Failed
      case Read(key, afterKey) =>
        if afterKey == [] || afterKey[0] != COLON then Failed
        else
          match ReadValue(afterKey[1..])
          case Failed => Failed
          case Read(v, rest) => Read(Member(key, v), rest)
  }

  /** One or more members and the closing brace. */
  function ReadMembers(t: Text): (r: Reading<seq<Member>>)
    ensures r.Read? ==> |r.rest| < |t|
    decreases |t|, 2
  {
    match ReadMember(t)
    case Failed => Failed
    case Read(m, rest) =>
      if rest == [] then Failed
      else if rest[0] == RBRACE then Read([m], rest[1..])
      else if rest[0] != COMMA then Failed
      else
        match ReadMembers(rest[1..])
        case Failed => Failed
        case Read(ms, end) => Read([m] + ms, end)
  }

  /** A whole document: one value and nothing after it. */
  function Parse(t: Text): Option<Value> {
    match ReadValue(t)
    case Failed => None
    case Read(v, rest) => if rest == [] then Some(v) else None
  }

  // ---------- what reading gives back ----------

  /** Floats carry printed tokens; nothing else is demanded of a value. */
  ghost predicate Printable(v: Value) {
    match v
    case Float(token) => IsFloatToken(token)
    case Arr(items) => forall x :: x in items ==> Printable(x)
    case Obj(ms) => forall m :: m in ms ==> Printable(m.value)
    case _ => true
  }

  function Joined(s: seq<CodePoint>): seq<CodePoint> {
    FromUtf16(Utf16(s))
  }

  /** The value with every string as it reads back. */
  function Rejoined(v: Value): Value {
    match v
    case Str(s) => Str(Joined(s))
    case Arr(items) => Arr(RejoinedItems(items))
    case Obj(ms) => Obj(RejoinedMembers(ms))
    case _ => v
  }

  function RejoinedItems(items: seq<Value>): (r: seq<Value>)
    ensures |r| == |items|
  {
    if items == [] then [] else [Rejoined(items[0])] + RejoinedItems(items[1..])
  }

  function RejoinedMembers(ms: seq<Member>): (r: seq<Member>)
    ensures |r| == |ms|
  {
    if ms == [] then [] else [Member(Joined(ms[0].key), Rejoined(ms[0].value))] + RejoinedMembers(ms[1..])
  }

  predicate Stops(rest: Text) {
    rest == [] || !IsNumberChar(rest[0])
  }

  lemma QuotedText(body: Text, rest: Text)
    ensures [QUOTE] + body + [QUOTE] + rest == [QUOTE] + (body + [QUOTE] + rest)
    ensures ([QUOTE] + body + [QUOTE] + rest)[1..] == body + [QUOTE] + rest
  {
  }

  lemma ReadWrittenString(s: seq<CodePoint>, rest: Text)
    ensures WriteString(s) + rest == [QUOTE] + (EscapeUnits(Utf16(s)) + [QUOTE] + rest)
    ensures ReadString((WriteString(s) + rest)[1..]) == Read(Joined(s), rest)
  {
    var body := EscapeUnits(Utf16(s));
    QuotedText(body, rest);
    ReadEscapedUnits(Utf16(s), rest);
  }

  lemma ReadWrittenToken(token: Text, rest: Text)
    requires token != [] && StartsNumber(token[0])
    requires forall i :: 0 <= i < |token| ==> IsNumberChar(token[i])
    requires Stops(rest)
    ensures ReadValue(token + rest) == ReadNumber(token + rest)
    ensures TokenLength(token + rest) == |token|
    ensures (token + rest)[..|token|] == token && (token + rest)[|token|..] == rest
  {
    TokenEndsAt(token, rest);
    assert (token + rest)[0] == token[0];
  }

  lemma {:induction false} NoDigitsInFraction(t: Text)
    ensures (exists i :: 0 <= i < |t| && IsFraction(t[i])) ==> ReadDigits(t).None?
  {
    if t != [] {
      NoDigitsInFraction(t[..|t| - 1]);
      if i :| 0 <= i < |t| && IsFraction(t[i]) {
        if i < |t| - 1 { assert IsFraction(t[..|t| - 1][i]); }
      }
    }
  }

  lemma FloatIsNoInteger(t: Text)
    requires IsFloatToken(t)
    ensures ReadDecimal(t).None?
  {
    NoDigitsInFraction(t);
    var i :| 0 <= i < |t| && IsFraction(t[i]);
    if t[0] == MINUS {
      assert IsFraction(t[1..][i - 1]);
      NoDigitsInFraction(t[1..]);
    }
  }

  /** The first character of a written value closes no bracket. */
  lemma WrittenHead(v: Value)
    requires Printable(v)
    ensures Write(v) != [] && Write(v)[0] != RBRACKET && Write(v)[0] != RBRACE
  {
    if v.Int? { DecimalRoundTrip(v.i); }
  }

  /** What follows the first of several joined texts, up to the closing bracket. */
  function AfterFirst(texts: seq<Text>, close: int, rest: Text): Text
    requires texts != []
  {
    if |texts| == 1 then [close] + rest else [COMMA] + (Join(texts[1..]) + [close] + rest)
  }

  lemma JoinedText(texts: seq<Text>, close: int, rest: Text)
    requires texts != []
    ensures Join(texts) + [close] + rest == texts[0] + AfterFirst(texts, close, rest)
  {
  }

  lemma ReadWrittenScalar(v: Value, rest: Text)
    requires Printable(v) && !v.Arr? && !v.Obj? && Stops(rest)
    ensures ReadValue(Write(v) + rest) == Read(Rejoined(v), rest)
  {
    var t := Write(v) + rest;
    match v
    case Null => assert t[..4] == NULL_TEXT && t[4..] == rest;
    case Bool(b) =>
      assert t[0] != NULL_TEXT[0];
      if b { assert t[..4] == TRUE_TEXT && t[4..] == rest; } else { assert t[..5] == FALSE_TEXT && t[5..] == rest; }
    case Int(i) =>
      DecimalRoundTrip(i);
      ReadWrittenToken(Decimal(i), rest);
    case Float(token) =>
      FloatIsNoInteger(token);
      ReadWrittenToken(token, rest);
    case Str(s) =>
      ReadWrittenString(s, rest);
  }

  lemma ReadWrittenArray(texts: seq<Text>, items: seq<Value>, rest: Text)
    requires texts == [] <==> items == []
    requires texts != [] ==> Join(texts) != [] && Join(texts)[0] != RBRACKET
    requires texts != [] ==> ReadItems(Join(texts) + [RBRACKET] + rest) == Read(items, rest)
    ensures ReadValue([LBRACKET] + Join(texts) + [RBRACKET] + rest) == Read(Arr(items), rest)
  {
    var t := [LBRACKET] + Join(texts) + [RBRACKET] + rest;
    assert t[0] == LBRACKET;
    if texts == [] {
      assert t == [LBRACKET, RBRACKET] + rest;
    } else {
      assert t[1..] == Join(texts) + [RBRACKET] + rest;
    }
  }

  lemma ReadWrittenObject(texts: seq<Text>, ms: seq<Member>, rest: Text)
    requires texts == [] <==> ms == []
    requires texts != [] ==> Join(texts) != [] && Join(texts)[0] != RBRACE
    requires texts != [] ==> ReadMembers(Join(texts) + [RBRACE] + rest) == Read(ms, rest)
    ensures ReadValue([LBRACE] + Join(texts) + [RBRACE] + rest) == Read(Obj(ms), rest)
  {
    var t := [LBRACE] + Join(texts) + [RBRACE] + rest;
    assert t[0] == LBRACE;
    if texts == [] {
      assert t == [LBRACE, RBRACE] + rest;
    } else {
      assert t[1..] == Join(texts) + [RBRACE] + rest;
    }
  }

  /** Whatever follows, the reader takes exactly the written value and stops. */
  lemma {:induction false} ReadWritten(v: Value, rest: Text)
    requires Printable(v) && Stops(rest)
    ensures ReadValue(Write(v) + rest) == Read(Rejoined(v), rest)
    decreases v, 1
  {
    match v
    case Arr(items) =>
      if items != [] { ReadWrittenItems(items, rest); }
      ReadWrittenArray(ItemTexts(items), RejoinedItems(items), rest);
    case Obj(ms) =>
      if ms != [] { ReadWrittenMembers(ms, rest); }
      ReadWrittenObject(MemberTexts(ms), RejoinedMembers(ms), rest);
    case _ =>
      ReadWrittenScalar(v, rest);
  }

  lemma {:induction false} ReadWrittenItems(items: seq<Value>, rest: Text)
    requires items != [] && forall x :: x in items ==> Printable(x)
    ensures ReadItems(Join(ItemTexts(items)) + [RBRACKET] + rest) == Read(RejoinedItems(items), rest)
    ensures Join(ItemTexts(items)) != [] && Join(ItemTexts(items))[0] != RBRACKET
    decreases items, 0
  {
    var texts := ItemTexts(items);
    WrittenHead(items[0]);
    JoinedText(texts, RBRACKET, rest);
    ReadWritten(items[0], AfterFirst(texts, RBRACKET, rest));
    if |items| == 1 {
      assert RejoinedItems(items) == [Rejoined(items[0])];
    } else {
      assert texts[1..] == ItemTexts(items[1..]);
      ReadWrittenItems(items[1..], rest);
    }
  }

  lemma ReadMemberInParts(t: Text, key: seq<CodePoint>, tail: Text, v: Value, rest: Text)
    requires t != [] && t[0] == QUOTE && ReadString(t[1..]) == Read(key, [COLON] + tail)
    requires ReadValue(tail) == Read(v, rest)
    ensures ReadMember(t) == Read(Member(key, v), rest)
  {
    assert ([COLON] + tail)[1..] == tail;
  }

  lemma MemberText(m: Member, rest: Text)
    ensures WriteMember(m) + rest == WriteString(m.key) + ([COLON] + (Write(m.value) + rest))
    ensures WriteMember(m)[0] == QUOTE
  {
  }

  lemma {:induction false} ReadWrittenMember(m: Member, rest: Text)
    requires Printable(m.value) && Stops(rest)
    ensures ReadMember(WriteMember(m) + rest) == Read(Member(Joined(m.key), Rejoined(m.value)), rest)
    ensures WriteMember(m)[0] == QUOTE
    decreases m, 2
  {
    var tail := Write(m.value) + rest;
    MemberText(m, rest);
    ReadWrittenString(m.key, [COLON] + tail);
    ReadWritten(m.value, rest);
    ReadMemberInParts(WriteMember(m) + rest, Joined(m.key), tail, Rejoined(m.value), rest);
  }

  lemma {:induction false} ReadWrittenMembers(ms: seq<Member>, rest: Text)
    requires ms != [] && forall m :: m in ms ==> Printable(m.value)
    ensures ReadMembers(Join(MemberTexts(ms)) + [RBRACE] + rest) == Read(RejoinedMembers(ms), rest)
    ensures Join(MemberTexts(ms)) != [] && Join(MemberTexts(ms))[0] == QUOTE
    decreases ms, 0
  {
    var texts := MemberTexts(ms);
    JoinedText(texts, RBRACE, rest);
    ReadWrittenMember(ms[0], AfterFirst(texts, RBRACE, rest));
    if |ms| == 1 {
      assert RejoinedMembers(ms) == [Member(Joined(ms[0].key), Rejoined(ms[0].value))];
    } else {
      assert texts[1..] == MemberTexts(ms[1..]);
      ReadWrittenMembers(ms[1..], rest);
    }
  }

  lemma ParseWritten(v: Value)
    requires Printable(v)
    ensures Parse(Write(v)) == Some(Rejoined(v))
  {
    ReadWritten(v, []);
    assert Write(v) + [] == Write(v);
  }
}
