/**
  URL-safe base64 (section 5 of RFC 4648) and the stripping and restoring of its padding
  (section 3.2).
 */
module Base64Url {
  import opened Prelude

  type Byte = b: int | 0 <= b < 256

  const PAD := 0x3D

  function SextetChar(d: int): int
    requires 0 <= d < 64
  {
    if d < 26 then 0x41 + d
    else if d < 52 then 0x61 + d - 26
    else if d < 62 then 0x30 + d - 52
    else if d == 62 then 0x2D
    else 0x5F
  }

  /** The decoder also takes the characters of the standard alphabet. */
  function Sextet(c: int): Option<int> {
    if 0x41 <= c < 0x5B then Some(c - 0x41)
    else if 0x61 <= c < 0x7B then Some(c - 0x61 + 26)
    else if 0x30 <= c < 0x3A then Some(c - 0x30 + 52)
    else if c == 0x2D || c == 0x2B then Some(62)
    else if c == 0x5F || c == 0x2F then Some(63)
    else None
  }

  /** The characters of one group of up to three bytes, without padding. */
  function EncodeGroup(b: seq<Byte>): seq<int>
    requires 1 <= |b| <= 3
  {
    if |b| == 1 then [SextetChar(b[0] / 4), SextetChar(b[0] % 4 * 16)]
    else if |b| == 2 then
      [SextetChar(b[0] / 4), SextetChar(b[0] % 4 * 16 + b[1] / 16), SextetChar(b[1] % 16 * 4)]
    else
      [SextetChar(b[0] / 4), SextetChar(b[0] % 4 * 16 + b[1] / 16),
       SextetChar(b[1] % 16 * 4 + b[2] / 64), SextetChar(b[2] % 64)]
  }

  function Padding(n: nat): seq<int> {
    seq(n, i => PAD)
  }

  function Encode(b: seq<Byte>): seq<int> {
    if b == [] then []
    else if |b| <= 3 then EncodeGroup(b) + Padding(3 - |b|)
    else EncodeGroup(b[..3]) + Encode(b[3..])
  }

  /** The bytes of one group of two to four characters. */
  function DecodeGroup(t: seq<int>): Option<seq<Byte>>
    requires 2 <= |t| <= 4
  {
    match (Sextet(t[0]), Sextet(t[1]))
    case (Some(p), Some(q)) =>
      if |t| == 2 then Some([FirstByte(p, q)])
      else
        (match Sextet(t[2])
         case None => None
         case Some(r) =>
           if |t| == 3 then Some([FirstByte(p, q), SecondByte(q, r)])
           else
             match Sextet(t[3])
             case None => None
             case Some(s) => Some([FirstByte(p, q), SecondByte(q, r), ThirdByte(r, s)]))
    case _ => None
  }

  function FirstByte(p: int, q: int): Byte { (p * 4 + q / 16) % 256 }

  function SecondByte(q: int, r: int): Byte { (q % 16 * 16 + r / 4) % 256 }

  function ThirdByte(r: int, s: int): Byte { (r % 4 * 64 + s) % 256 }

  /** Complete groups of four; only the last may end in padding. */
  function Decode(t: seq<int>): Option<seq<Byte>>
    decreases |t|
  {
    if t == [] then Some([])
    else if |t| < 4 then None
    else if |t| == 4 && t[2] == PAD && t[3] == PAD then DecodeGroup(t[..2])
    else if |t| == 4 && t[3] == PAD then DecodeGroup(t[..3])
    else
      match (DecodeGroup(t[..4]), Decode(t[4..]))
      case (Some(g), Some(rest)) => Some(g + rest)
      case _ => None
  }

  // ---------- tokens without padding ----------

  /** Trailing padding removed. */
  function Unpad(t: seq<int>): seq<int> {
    if t != [] && t[|t| - 1] == PAD then Unpad(t[..|t| - 1]) else t
  }

  /** Padding restored to a multiple of four. */
  function Repad(t: seq<int>): seq<int> {
    t + Padding(-|t| % 4)
  }

  /** The URL-safe alphabet. */
  lemma AlphabetSpelled(d: int)
    requires 0 <= d < 64
    ensures var c := SextetChar(d);
      if d < 26 then 'A' as int <= c <= 'Z' as int && c - 'A' as int == d
      else if d < 52 then 'a' as int <= c <= 'z' as int && c - 'a' as int == d - 26
      else if d < 62 then '0' as int <= c <= '9' as int && c - '0' as int == d - 52
      else c == (if d == 62 then '-' else '_') as int
  {
  }

  lemma SextetRoundTrip(d: int)
    requires 0 <= d < 64
    ensures Sextet(SextetChar(d)) == Some(d) && SextetChar(d) != PAD
  {
  }

  lemma BytesFromSextets(a: Byte, b: Byte, c: Byte)
    ensures FirstByte(a / 4, a % 4 * 16) == a
    ensures FirstByte(a / 4, a % 4 * 16 + b / 16) == a
    ensures SecondByte(a % 4 * 16 + b / 16, b % 16 * 4) == b
    ensures SecondByte(a % 4 * 16 + b / 16, b % 16 * 4 + c / 64) == b
    ensures ThirdByte(b % 16 * 4 + c / 64, c % 64) == c
  {
  }

  lemma DecodeTwoSextets(p: int, q: int)
    requires 0 <= p < 64 && 0 <= q < 64
    ensures DecodeGroup([SextetChar(p), SextetChar(q)]) == Some([FirstByte(p, q)])
  {
    SextetRoundTrip(p);
    SextetRoundTrip(q);
  }

  lemma DecodeThreeSextets(p: int, q: int, r: int)
    requires 0 <= p < 64 && 0 <= q < 64 && 0 <= r < 64
    ensures DecodeGroup([SextetChar(p), SextetChar(q), SextetChar(r)]) == Some([FirstByte(p, q), SecondByte(q, r)])
  {
    SextetRoundTrip(p);
    SextetRoundTrip(q);
    SextetRoundTrip(r);
  }

  lemma DecodeFourSextets(p: int, q: int, r: int, s: int)
    requires 0 <= p < 64 && 0 <= q < 64 && 0 <= r < 64 && 0 <= s < 64
    ensures DecodeGroup([SextetChar(p), SextetChar(q), SextetChar(r), SextetChar(s)]) ==
      Some([FirstByte(p, q), SecondByte(q, r), ThirdByte(r, s)])
  {
    SextetRoundTrip(p);
    SextetRoundTrip(q);
    SextetRoundTrip(r);
    SextetRoundTrip(s);
  }

  lemma DecodeEncodedOne(a: Byte)
    ensures DecodeGroup(EncodeGroup([a])) == Some([a])
  {
    BytesFromSextets(a, 0, 0);
    DecodeTwoSextets(a / 4, a % 4 * 16);
  }

  lemma DecodeEncodedTwo(a: Byte, b: Byte)
    ensures DecodeGroup(EncodeGroup([a, b])) == Some([a, b])
  {
    var p, q, r := a / 4, a % 4 * 16 + b / 16, b % 16 * 4;
    assert FirstByte(p, q) == a && SecondByte(q, r) == b by { BytesFromSextets(a, b, 0); }
    DecodeThreeSextets(p, q, r);
  }

  lemma DecodeEncodedThree(a: Byte, b: Byte, c: Byte)
    ensures DecodeGroup(EncodeGroup([a, b, c])) == Some([a, b, c])
  {
    var p, q, r, s := a / 4, a % 4 * 16 + b / 16, b % 16 * 4 + c / 64, c % 64;
    assert FirstByte(p, q) == a && SecondByte(q, r) == b && ThirdByte(r, s) == c by { BytesFromSextets(a, b, c); }
    DecodeFourSextets(p, q, r, s);
  }

  lemma DecodeEncodedGroup(b: seq<Byte>)
    requires 1 <= |b| <= 3
    ensures DecodeGroup(EncodeGroup(b)) == Some(b)
  {
    if |b| == 1 {
      assert b == [b[0]];
      DecodeEncodedOne(b[0]);
    } else if |b| == 2 {
      assert b == [b[0], b[1]];
      DecodeEncodedTwo(b[0], b[1]);
    } else {
      assert b == [b[0], b[1], b[2]];
      DecodeEncodedThree(b[0], b[1], b[2]);
    }
  }

  lemma EncodedGroupAlphabet(b: seq<Byte>)
    requires 1 <= |b| <= 3
    ensures forall i :: 0 <= i < |EncodeGroup(b)| ==> Sextet(EncodeGroup(b)[i]).Some? && EncodeGroup(b)[i] != PAD
  {
    forall d | 0 <= d < 64 ensures Sextet(SextetChar(d)) == Some(d) && SextetChar(d) != PAD {
      SextetRoundTrip(d);
    }
  }

  lemma DecodeLastGroup(b: seq<Byte>)
    requires 1 <= |b| <= 3
    ensures Decode(EncodeGroup(b) + Padding(3 - |b|)) == Some(b)
  {
    DecodeEncodedGroup(b);
    EncodedGroupAlphabet(b);
    var g := EncodeGroup(b);
    var t := g + Padding(3 - |b|);
    assert t[..|g|] == g;
    if |b| == 3 {
      assert t[3] == g[3];
      assert t[4..] == [] && b + [] == b;
    } else if |b| == 2 {
      assert t[2] == g[2];
    }
  }

  lemma {:induction false} EncodedLength(b: seq<Byte>)
    ensures |Encode(b)| % 4 == 0
  {
    if |b| > 3 { EncodedLength(b[3..]); }
  }

  lemma EncodeNonEmpty(b: seq<Byte>)
    ensures b != [] ==> Encode(b) != []
  {
  }

  lemma {:induction false} DecodeEncoded(b: seq<Byte>)
    ensures Decode(Encode(b)) == Some(b)
  {
    if b == [] {
    } else if |b| <= 3 {
      DecodeLastGroup(b);
    } else {
      var head, tail := b[..3], b[3..];
      DecodeEncodedGroup(head);
      DecodeEncoded(tail);
      EncodeNonEmpty(tail);
      DecodeMore(EncodeGroup(head), Encode(tail), head, tail);
      assert b == head + tail;
      assert Encode(b) == EncodeGroup(head) + Encode(tail);
    }
  }

  lemma DecodeMore(g: seq<int>, rest: seq<int>, b: seq<Byte>, c: seq<Byte>)
    requires |g| == 4 && DecodeGroup(g) == Some(b) && Decode(rest) == Some(c) && rest != []
    ensures Decode(g + rest) == Some(b + c)
  {
    var t := g + rest;
    assert t[..4] == g && t[4..] == rest;
  }

  lemma {:induction false} UnpadPadded(t: seq<int>, n: nat)
    requires t == [] || t[|t| - 1] != PAD
    ensures Unpad(t + Padding(n)) == t
  {
    if n == 0 {
      assert t + Padding(0) == t;
    } else {
      assert (t + Padding(n))[..|t| + n - 1] == t + Padding(n - 1);
      UnpadPadded(t, n - 1);
    }
  }

  /** The text is characters of the alphabet followed by at most two padding characters. */
  lemma {:induction false} EncodedShape(b: seq<Byte>) returns (core: seq<int>, n: nat)
    ensures Encode(b) == core + Padding(n) && n < 3
    ensures forall i :: 0 <= i < |core| ==> Sextet(core[i]).Some? && core[i] != PAD
    ensures b != [] ==> core != []
  {
    if b == [] {
      core, n := [], 0;
    } else if |b| <= 3 {
      core, n := EncodeGroup(b), 3 - |b|;
      EncodedGroupAlphabet(b);
    } else {
      var rest;
      EncodedGroupAlphabet(b[..3]);
      rest, n := EncodedShape(b[3..]);
      core := EncodeGroup(b[..3]) + rest;
    }
  }

  lemma RepadCore(core: seq<int>, n: nat)
    requires n < 3 && (|core| + n) % 4 == 0
    ensures Repad(core) == core + Padding(n)
  {
  }

  /** Stripping the padding loses nothing: restoring it by length gives the encoding back. */
  lemma UnpadRepad(b: seq<Byte>)
    ensures Repad(Unpad(Encode(b))) == Encode(b)
    ensures Decode(Repad(Unpad(Encode(b)))) == Some(b)
    ensures forall i :: 0 <= i < |Unpad(Encode(b))| ==> Sextet(Unpad(Encode(b))[i]).Some?
    ensures b != [] ==> Unpad(Encode(b)) != []
  {
    DecodeEncoded(b);
    EncodedLength(b);
    var core, n := EncodedShape(b);
    UnpadPadded(core, n);
    RepadCore(core, n);
  }
}
