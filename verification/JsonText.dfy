/**
  Strings as JSON writes and reads them.

  A string of the program is a sequence of code points and may hold lone surrogates.  The
  writer escapes everything outside printable ASCII (section 7 of RFC 8259), a code point
  beyond the basic plane as the two escapes of its surrogate pair.
 */
module JsonText {
  import opened Prelude

  type CodePoint = c: int | 0 <= c < 0x11_0000

  /** A 16-bit code unit. */
  type Unit = u: int | 0 <= u < 0x1_0000

  /** Written text, as code points. */
  type Text = seq<int>

  const QUOTE := 0x22
  const BACKSLASH := 0x5C

  predicate High(c: int) { 0xD800 <= c < 0xDC00 }

  predicate Low(c: int) { 0xDC00 <= c < 0xE000 }

  // ---------- code points and code units ----------

  function UnitsOf(c: CodePoint): seq<Unit> {
    if c < 0x1_0000 then [c]
    else
      var n := c - 0x1_0000;
      [0xD800 + n / 0x400, 0xDC00 + n % 0x400]
  }

  function Utf16(s: seq<CodePoint>): seq<Unit> {
    if s == [] then [] else UnitsOf(s[0]) + Utf16(s[1..])
  }

  function Pair(high: Unit, low: Unit): CodePoint
    requires High(high) && Low(low)
  {
    0x1_0000 + (high - 0xD800) * 0x400 + (low - 0xDC00)
  }

  /** Reading combines a high surrogate with a low one right behind it. */
  function FromUtf16(us: seq<Unit>): seq<CodePoint>
    decreases |us|
  {
    if us == [] then []
    else if |us| >= 2 && High(us[0]) && Low(us[1]) then [Pair(us[0], us[1])] + FromUtf16(us[2..])
    else [us[0]] + FromUtf16(us[1..])
  }

  predicate SplitAt(s: seq<CodePoint>, i: int) {
    0 <= i < |s| - 1 && High(s[i]) && Low(s[i + 1])
  }

  /** The string holds a high surrogate directly followed by a low one, as two code points. */
  ghost predicate HasSplitPair(s: seq<CodePoint>) {
    exists i :: SplitAt(s, i)
  }

  lemma SplitsOfTail(s: seq<CodePoint>)
    requires s != []
    ensures HasSplitPair(s) <==> SplitAt(s, 0) || HasSplitPair(s[1..])
  {
    forall i ensures SplitAt(s[1..], i) ==> SplitAt(s, i + 1) { }
    forall i ensures i != 0 && SplitAt(s, i) ==> SplitAt(s[1..], i - 1) { }
  }

  lemma AstralUnits(c: CodePoint)
    requires c >= 0x1_0000
    ensures var us := UnitsOf(c); High(us[0]) && Low(us[1]) && Pair(us[0], us[1]) == c
  {
  }

  lemma {:induction false} UnsplitRoundTrip(s: seq<CodePoint>)
    requires !HasSplitPair(s)
    ensures FromUtf16(Utf16(s)) == s
  {
    if s != [] {
      SplitsOfTail(s);
      UnsplitRoundTrip(s[1..]);
      var us := Utf16(s);
      if s[0] >= 0x1_0000 {
        AstralUnits(s[0]);
        assert us[2..] == Utf16(s[1..]);
      } else {
        assert us[1..] == Utf16(s[1..]);
        FirstUnit(s[1..]);
      }
    }
  }

  lemma FirstUnit(s: seq<CodePoint>)
    ensures Utf16(s) != [] ==> s != [] && (Low(Utf16(s)[0]) ==> s[0] == Utf16(s)[0])
  {
    if s != [] && s[0] >= 0x1_0000 { AstralUnits(s[0]); }
  }

  /** Re-encoding what was read gives the same units: reading never changes the text. */
  lemma {:induction false} Utf16RoundTrip(us: seq<Unit>)
    ensures Utf16(FromUtf16(us)) == us
    decreases |us|
  {
    if us != [] {
      if |us| >= 2 && High(us[0]) && Low(us[1]) {
        Utf16RoundTrip(us[2..]);
        var c := Pair(us[0], us[1]);
        assert UnitsOf(c) == [us[0], us[1]];
        assert FromUtf16(us)[1..] == FromUtf16(us[2..]);
        assert us == [us[0], us[1]] + us[2..];
      } else {
        Utf16RoundTrip(us[1..]);
        assert FromUtf16(us)[1..] == FromUtf16(us[1..]);
        assert us == [us[0]] + us[1..];
      }
    }
  }

  lemma FirstRead(us: seq<Unit>)
    ensures us != [] ==> FromUtf16(us) != [] && (FromUtf16(us)[0] == us[0] || FromUtf16(us)[0] >= 0x1_0000)
    ensures us == [] ==> FromUtf16(us) == []
  {
  }

  /** No read string holds a split pair. */
  lemma {:induction false} ReadIsUnsplit(us: seq<Unit>)
    ensures !HasSplitPair(FromUtf16(us))
    decreases |us|
  {
    if us != [] {
      var s := FromUtf16(us);
      SplitsOfTail(s);
      if |us| >= 2 && High(us[0]) && Low(us[1]) {
        ReadIsUnsplit(us[2..]);
        assert s[1..] == FromUtf16(us[2..]);
      } else {
        ReadIsUnsplit(us[1..]);
        assert s[1..] == FromUtf16(us[1..]);
        FirstRead(us[1..]);
      }
    }
  }

  /** A string is what reading its written form gives back exactly when it holds no split pair. */
  lemma RoundTripIffUnsplit(s: seq<CodePoint>)
    ensures FromUtf16(Utf16(s)) == s <==> !HasSplitPair(s)
  {
    if !HasSplitPair(s) {
      UnsplitRoundTrip(s);
    } else {
      ReadIsUnsplit(Utf16(s));
    }
  }

  // ---------- escapes ----------

  function HexDigit(d: int): int
    requires 0 <= d < 16
  {
    if d < 10 then 0x30 + d else 0x61 + d - 10
  }

  function Hex4(u: Unit): Text {
    [HexDigit(u / 0x1000), HexDigit(u / 0x100 % 16), HexDigit(u / 16 % 16), HexDigit(u % 16)]
  }

  function EscapeUnit(u: Unit): Text {
    if u == QUOTE then [BACKSLASH, QUOTE]
    else if u == BACKSLASH then [BACKSLASH, BACKSLASH]
    else if u == 0x08 then [BACKSLASH, 0x62]
    else if u == 0x09 then [BACKSLASH, 0x74]
    else if u == 0x0A then [BACKSLASH, 0x6E]
    else if u == 0x0C then [BACKSLASH, 0x66]
    else if u == 0x0D then [BACKSLASH, 0x72]
    else if 0x20 <= u < 0x7F then [u]
    else [BACKSLASH, 0x75] + Hex4(u)
  }

  function EscapeUnits(us: seq<Unit>): Text {
    if us == [] then [] else EscapeUnit(us[0]) + EscapeUnits(us[1..])
  }

  // ---------- reading them back ----------

  datatype Reading<+T> = Failed | Read(value: T, rest: Text)

  function HexValue(c: int): Option<int> {
    if 0x30 <= c < 0x3A then Some(c - 0x30)
    else if 0x61 <= c < 0x67 then Some(c - 0x61 + 10)
    else if 0x41 <= c < 0x47 then Some(c - 0x41 + 10)
    else None
  }

  function ReadHex4(t: Text): Option<Unit> {
    if |t| < 4 then None
    else
      match (HexValue(t[0]), HexValue(t[1]), HexValue(t[2]), HexValue(t[3]))
      case (Some(a), Some(b), Some(c), Some(d)) => HexNumber(a, b, c, d)
      case _ => None
  }

  function HexNumber(a: int, b: int, c: int, d: int): Option<Unit> {
    var n := a * 0x1000 + b * 0x100 + c * 16 + d;
    if 0 <= n < 0x1_0000 then Some(n) else None
  }

  function SimpleEscape(c: int): Option<Unit> {
    if c == QUOTE || c == BACKSLASH || c == 0x2F then Some(c)
    else if c == 0x62 then Some(0x08)
    else if c == 0x74 then Some(0x09)
    else if c == 0x6E then Some(0x0A)
    else if c == 0x66 then Some(0x0C)
    else if c == 0x72 then Some(0x0D)
    else None
  }

  /** One character of a string body: an escape or an unescaped printable character. */
  function ReadUnit(t: Text): (r: Reading<Unit>)
    ensures r.Read? ==> |r.rest| < |t|
  {
    if t == [] then Failed
    else if t[0] == BACKSLASH then
      if |t| < 2 then Failed
      else if t[1] == 0x75 then
        var u := ReadHex4(t[2..]);
        if u.Some? then Read(u.value, t[6..]) else Failed
      else
        var u := SimpleEscape(t[1]);
        if u.Some? then Read(u.value, t[2..]) else Failed
    else if 0x20 <= t[0] < 0x80 && t[0] != QUOTE then Read(t[0], t[1..])
    else Failed
  }

  /** The rest of a string body up to and including the closing quote. */
  function ReadUnits(t: Text): (r: Reading<seq<Unit>>)
    ensures r.Read? ==> |r.rest| < |t|
    decreases |t|
  {
    if t != [] && t[0] == QUOTE then Read([], t[1..])
    else
      match ReadUnit(t)
      case Failed => Failed
      case Read(u, rest) =>
        match ReadUnits(rest)
        case Failed => Failed
        case Read(us, end) => Read([u] + us, end)
  }

  lemma HexDigitRoundTrip(d: int)
    requires 0 <= d < 16
    ensures HexValue(HexDigit(d)) == Some(d)
  {
  }

  lemma HexSum(u: Unit)
    ensures 0 <= u / 0x1000 < 16 && 0 <= u / 0x100 % 16 < 16 && 0 <= u / 16 % 16 < 16 && 0 <= u % 16 < 16
    ensures HexNumber(u / 0x1000, u / 0x100 % 16, u / 16 % 16, u % 16) == Some(u)
  {
    assert u / 16 == (u / 0x100) * 16 + u / 16 % 16;
    assert u / 0x100 == (u / 0x1000) * 16 + u / 0x100 % 16;
  }

  lemma ReadFourDigits(a: int, b: int, c: int, d: int, rest: Text)
    requires 0 <= a < 16 && 0 <= b < 16 && 0 <= c < 16 && 0 <= d < 16
    ensures ReadHex4([HexDigit(a), HexDigit(b), HexDigit(c), HexDigit(d)] + rest) == HexNumber(a, b, c, d)
  {
    HexDigitRoundTrip(a);
    HexDigitRoundTrip(b);
    HexDigitRoundTrip(c);
    HexDigitRoundTrip(d);
  }

  lemma HexRoundTrip(u: Unit, rest: Text)
    ensures ReadHex4(Hex4(u) + rest) == Some(u)
  {
    HexSum(u);
    ReadFourDigits(u / 0x1000, u / 0x100 % 16, u / 16 % 16, u % 16, rest);
  }

  lemma ReadEscapedUnit(u: Unit, rest: Text)
    ensures EscapeUnit(u) != [] && EscapeUnit(u)[0] != QUOTE
    ensures ReadUnit(EscapeUnit(u) + rest) == Read(u, rest)
  {
    var e := EscapeUnit(u);
    var t := e + rest;
    assert t[|e|..] == rest;
    if |e| == 6 {
      HexRoundTrip(u, rest);
      assert t[2..] == Hex4(u) + rest;
    }
  }

  lemma ReadOneMore(t: Text, u: Unit, tail: Text, us: seq<Unit>, rest: Text)
    requires t != [] && t[0] != QUOTE && ReadUnit(t) == Read(u, tail) && ReadUnits(tail) == Read(us, rest)
    ensures ReadUnits(t) == Read([u] + us, rest)
  {
  }

  lemma EscapedBody(us: seq<Unit>, rest: Text)
    requires us != []
    ensures EscapeUnits(us) + [QUOTE] + rest == EscapeUnit(us[0]) + (EscapeUnits(us[1..]) + [QUOTE] + rest)
  {
  }

  /** A written string body reads back as its units, and the reader stops at its quote. */
  lemma {:induction false} ReadEscapedUnits(us: seq<Unit>, rest: Text)
    ensures ReadUnits(EscapeUnits(us) + [QUOTE] + rest) == Read(us, rest)
  {
    if us == [] {
      assert EscapeUnits(us) + [QUOTE] + rest == [QUOTE] + rest;
    } else {
      var tail := EscapeUnits(us[1..]) + [QUOTE] + rest;
      EscapedBody(us, rest);
      ReadEscapedUnit(us[0], tail);
      ReadEscapedUnits(us[1..], rest);
      ReadOneMore(EscapeUnit(us[0]) + tail, us[0], tail, us[1..], rest);
      assert us == [us[0]] + us[1..];
    }
  }

  predicate IsAscii(t: Text) {
    forall i :: 0 <= i < |t| ==> 0 <= t[i] < 0x80
  }

  /** Which characters are printed as they are, which have a short escape, and the form of all
      other escapes; with the round trip this leaves one text for each unit. */
  lemma EscapeForm(u: Unit)
    ensures EscapeUnit(u) == [u] <==> 0x20 <= u <= 0x7E && u != 0x22 && u != 0x5C
    ensures u in {0x22, 0x5C, 0x08, 0x09, 0x0A, 0x0C, 0x0D} ==> |EscapeUnit(u)| == 2 && EscapeUnit(u)[0] == 0x5C
    ensures !(0x20 <= u <= 0x7E) && u !in {0x08, 0x09, 0x0A, 0x0C, 0x0D} ==>
      && |EscapeUnit(u)| == 6 && EscapeUnit(u)[0] == 0x5C && EscapeUnit(u)[1] == 0x75
      && forall i :: 2 <= i < 6 ==> 0x30 <= EscapeUnit(u)[i] <= 0x39 || 0x61 <= EscapeUnit(u)[i] <= 0x66
  {
    HexSum(u);
  }

  lemma {:induction false} EscapesAreAscii(us: seq<Unit>)
    ensures IsAscii(EscapeUnits(us))
  {
    if us != [] {
      EscapesAreAscii(us[1..]);
      assert IsAscii(EscapeUnit(us[0]));
    }
  }
}
