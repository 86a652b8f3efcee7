/** UUIDs and their text: 32 hexadecimal digits, grouped 8-4-4-4-12 by hyphens. */
module UuidText {
  import opened Prelude

  type Digit = d: int | 0 <= d < 16

  type Id = ds: seq<Digit> | |ds| == 32 witness seq(32, i => 0)

  function DigitChar(d: Digit): char {
    "0123456789abcdef"[d]
  }

  function DigitOf(c: char): Option<Digit> {
    if '0' <= c <= '9' then Some(c as int - '0' as int)
    else if 'a' <= c <= 'f' then Some(c as int - 'a' as int + 10)
    else if 'A' <= c <= 'F' then Some(c as int - 'A' as int + 10)
    else None
  }

  function Hex(ds: seq<Digit>): (t: string)
    ensures |t| == |ds|
    ensures forall i :: 0 <= i < |ds| ==> t[i] == DigitChar(ds[i])
  {
    seq(|ds|, i requires 0 <= i < |ds| => DigitChar(ds[i]))
  }

  function Show(u: Id): string {
    Hex(u[..8]) + "-" + Hex(u[8..12]) + "-" + Hex(u[12..16]) + "-" + Hex(u[16..20]) + "-" + Hex(u[20..])
  }

  function DropHyphens(t: string): string {
    if t == "" then ""
    else if t[0] == '-' then DropHyphens(t[1..])
    else [t[0]] + DropHyphens(t[1..])
  }

  predicate Brace(c: char) { c == '{' || c == '}' }

  function DropBraces(t: string): string
    decreases |t|
  {
    if t != "" && Brace(t[0]) then DropBraces(t[1..])
    else if t != "" && Brace(t[|t| - 1]) then DropBraces(t[..|t| - 1])
    else t
  }

  function DigitsOf(t: string): (r: Option<seq<Digit>>)
    ensures r.Some? ==> |r.value| == |t|
  {
    if t == "" then Some([])
    else
      match (DigitOf(t[0]), DigitsOf(t[1..]))
      case (Some(d), Some(ds)) => Some([d] + ds)
      case _ => None
  }

  /** Hyphens may stand anywhere and braces around the text; the digits may be of either case. */
  function Read(t: string): Option<Id> {
    var hex := DropHyphens(DropBraces(t));
    if |hex| != 32 then None else DigitsOf(hex)
  }

  lemma {:induction false} DropHyphensJoins(s: string, t: string)
    ensures DropHyphens(s + t) == DropHyphens(s) + DropHyphens(t)
  {
    if s == "" {
      assert s + t == t;
    } else {
      DropHyphensJoins(s[1..], t);
      assert (s + t)[1..] == s[1..] + t;
    }
  }

  lemma DigitCharReads(d: Digit)
    ensures DigitOf(DigitChar(d)) == Some(d)
  {
  }

  lemma {:induction false} HexReads(ds: seq<Digit>)
    ensures DigitsOf(Hex(ds)) == Some(ds)
  {
    if ds != [] {
      HexReads(ds[1..]);
      DigitCharReads(ds[0]);
      assert Hex(ds)[1..] == Hex(ds[1..]);
      assert ds == [ds[0]] + ds[1..];
    } else {
      assert Hex(ds) == "";
    }
  }

  lemma {:induction false} NothingToDrop(t: string)
    requires forall i :: 0 <= i < |t| ==> t[i] != '-'
    ensures DropHyphens(t) == t
  {
    if t != "" { NothingToDrop(t[1..]); }
  }

  lemma HexHasNoHyphen(ds: seq<Digit>)
    ensures DropHyphens(Hex(ds)) == Hex(ds)
  {
    forall i | 0 <= i < |ds| ensures Hex(ds)[i] != '-' {
      DigitCharReads(ds[i]);
    }
    NothingToDrop(Hex(ds));
  }

  lemma HexJoins(ds: seq<Digit>, es: seq<Digit>)
    ensures Hex(ds + es) == Hex(ds) + Hex(es)
  {
  }

  lemma GroupsJoin(u: seq<Digit>, i: nat, j: nat)
    requires i <= j <= |u|
    ensures Hex(u[..i]) + Hex(u[i..j]) == Hex(u[..j])
  {
    assert u[..i] + u[i..j] == u[..j];
    HexJoins(u[..i], u[i..j]);
  }

  lemma DropHyphenBetween(before: string, t: string)
    ensures DropHyphens(before + "-" + t) == DropHyphens(before) + DropHyphens(t)
  {
    DropHyphensJoins(before, "-");
    DropHyphensJoins(before + "-", t);
  }

  lemma DropAllHyphens(a: string, b: string, c: string, d: string, e: string)
    ensures DropHyphens(a + "-" + b + "-" + c + "-" + d + "-" + e) ==
      DropHyphens(a) + DropHyphens(b) + DropHyphens(c) + DropHyphens(d) + DropHyphens(e)
  {
    DropHyphenBetween(a, b);
    DropHyphenBetween(a + "-" + b, c);
    DropHyphenBetween(a + "-" + b + "-" + c, d);
    DropHyphenBetween(a + "-" + b + "-" + c + "-" + d, e);
  }

  lemma ShownDigits(u: Id)
    ensures DropHyphens(Show(u)) == Hex(u)
  {
    HexHasNoHyphen(u[..8]);
    HexHasNoHyphen(u[8..12]);
    HexHasNoHyphen(u[12..16]);
    HexHasNoHyphen(u[16..20]);
    HexHasNoHyphen(u[20..]);
    DropAllHyphens(Hex(u[..8]), Hex(u[8..12]), Hex(u[12..16]), Hex(u[16..20]), Hex(u[20..]));
    GroupsAreHex(u);
  }

  lemma GroupsAreHex(u: Id)
    ensures Hex(u[..8]) + Hex(u[8..12]) + Hex(u[12..16]) + Hex(u[16..20]) + Hex(u[20..]) == Hex(u)
  {
    GroupsJoin(u, 8, 12);
    GroupsJoin(u, 12, 16);
    GroupsJoin(u, 16, 20);
    GroupsJoin(u, 20, 32);
    assert u[20..32] == u[20..] && u[..32] == u;
  }

  /** The shown text reads back as the same identity. */
  lemma ReadShown(u: Id)
    ensures Read(Show(u)) == Some(u)
  {
    ShownDigits(u);
    HexReads(u);
    NoBraces(u);
  }

  lemma NoBraces(u: Id)
    ensures DropBraces(Show(u)) == Show(u)
  {
    assert Show(u)[0] == DigitChar(u[0]);
    assert Show(u)[|Show(u)| - 1] == Hex(u[20..])[11];
  }

  /** The form of a shown id: 36 characters, hyphens behind the groups, digits in lower case. */
  lemma ShownForm(u: Id)
    ensures |Show(u)| == 36
    ensures forall i :: 0 <= i < 36 ==>
      if i in {8, 13, 18, 23} then Show(u)[i] == '-' else '0' <= Show(u)[i] <= '9' || 'a' <= Show(u)[i] <= 'f'
  {
  }

  /** Texts that come back unchanged from being read and shown. */
  predicate Canonical(t: string) {
    Read(t).Some? && Show(Read(t).value) == t
  }
}
