/**
  Pagination cursors: sealing, the token codec and replay checks.

  A cursor pins a resolved pair, an ordering, a position and a query id under a hash of
  exactly those five values.  Its token is the unpadded base64 of its canonical JSON.
 */
module Cursor {
  import opened Prelude
  import opened JsonText
  import opened JsonNumbers
  import opened Json
  import opened JsonCanonical
  import opened QueryIdentity
  import Base64Url

  /** What the library supplies: the hash and the reader of ISO-8601 timestamps. */
  datatype Library = Library(hash: Text -> Digest, instant: seq<CodePoint> -> Option<Instant>)

  datatype Cursor = Cursor(
    actDate: seq<CodePoint>,
    knownAt: seq<CodePoint>,
    orderKey: seq<CodePoint>,
    queryId: seq<CodePoint>,
    position: int,
    integrity: seq<CodePoint>)

  // ---------- stripping ----------

  function StripLeft(s: seq<CodePoint>): (r: seq<CodePoint>)
    ensures |r| <= |s| && r == s[|s| - |r|..]
    ensures r != [] ==> !Whitespace(r[0])
  {
    if s != [] && Whitespace(s[0]) then StripLeft(s[1..]) else s
  }

  function StripRight(s: seq<CodePoint>): (r: seq<CodePoint>)
    ensures |r| <= |s| && r == s[..|r|]
    ensures r != [] ==> !Whitespace(r[|r| - 1])
  {
    if s != [] && Whitespace(s[|s| - 1]) then StripRight(s[..|s| - 1]) else s
  }

  function Strip(s: seq<CodePoint>): seq<CodePoint> {
    StripRight(StripLeft(s))
  }

  predicate Stripped(s: seq<CodePoint>) {
    s != [] ==> !Whitespace(s[0]) && !Whitespace(s[|s| - 1])
  }

  lemma StripStrips(s: seq<CodePoint>)
    ensures Stripped(Strip(s))
  {
    var left := StripLeft(s);
    var r := StripRight(left);
    assert r != [] ==> r[0] == left[0];
  }

  lemma StripLeavesStripped(s: seq<CodePoint>)
    requires Stripped(s)
    ensures Strip(s) == s
  {
  }

  /** Stripping twice is stripping once. */
  lemma StripIsDone(s: seq<CodePoint>)
    ensures Strip(Strip(s)) == Strip(s)
  {
    StripStrips(s);
    StripLeavesStripped(Strip(s));
  }

  ghost predicate AllWhite(s: seq<int>) {
    forall i :: 0 <= i < |s| ==> Whitespace(s[i])
  }

  /** What stripping removes: whitespace before and behind, and all of it there. */
  lemma StripSplits(s: seq<CodePoint>)
    ensures exists i, j :: 0 <= i <= j <= |s| && Strip(s) == s[i..j] && AllWhite(s[..i]) && AllWhite(s[j..])
    ensures Stripped(Strip(s))
  {
    StripStrips(s);
    LeftIsWhite(s);
    var left := StripLeft(s);
    RightIsWhite(left);
    var i := |s| - |left|;
    var j := i + |StripRight(left)|;
    assert s[i..j] == Strip(s) && s[j..] == left[|StripRight(left)|..];
  }

  lemma {:induction false} LeftIsWhite(s: seq<CodePoint>)
    ensures AllWhite(s[..|s| - |StripLeft(s)|])
  {
    if s != [] && Whitespace(s[0]) {
      LeftIsWhite(s[1..]);
      assert s[..|s| - |StripLeft(s)|] == [s[0]] + s[1..][..|s| - 1 - |StripLeft(s)|];
    }
  }

  lemma {:induction false} RightIsWhite(s: seq<CodePoint>)
    ensures AllWhite(s[|StripRight(s)|..])
  {
    if s != [] && Whitespace(s[|s| - 1]) {
      RightIsWhite(s[..|s| - 1]);
      assert s[|StripRight(s)|..] == s[..|s| - 1][|StripRight(s)|..] + [s[|s| - 1]];
    }
  }

  // ---------- sealing ----------

  function PinnedMembers(c: Cursor): seq<Member> {
    [Member(ACT_DATE, Str(c.actDate)), Member(KNOWN_AT, Str(c.knownAt)), Member(ORDER_KEY, Str(c.orderKey)),
     Member(POSITION, Int(c.position)), Member(QUERY_ID, Str(c.queryId))]
  }

  function SealText(c: Cursor): Text {
    Canonical(Obj(PinnedMembers(c)))
  }

  function Seal(c: Cursor, lib: Library): Digest {
    lib.hash(SealText(c))
  }

  /** A timestamp as the constructor keeps it: stripped, not empty, readable. */
  function Timestamp(value: seq<CodePoint>, lib: Library): Option<seq<CodePoint>> {
    var s := Strip(value);
    if s == [] || lib.instant(s).None? then None else Some(s)
  }

  /** The constructor: normalise the dates, check the fields, then seal or check the seal. */
  function Make(c: Cursor, lib: Library): Option<Cursor> {
    match (Timestamp(c.actDate, lib), Timestamp(c.knownAt, lib))
    case (Some(act), Some(known)) =>
      if Strip(c.orderKey) == [] || Strip(c.queryId) == [] || c.position < 0 then None
      else
        var made := c.(actDate := act, knownAt := known);
        var expected := Seal(made, lib);
        if c.integrity == [] then Some(made.(integrity := expected))
        else if c.integrity == expected then Some(made)
        else None
    case _ => None
  }

  /** The cursors the constructor can return. */
  ghost predicate Constructible(c: Cursor, lib: Library) {
    && Timestamp(c.actDate, lib) == Some(c.actDate)
    && Timestamp(c.knownAt, lib) == Some(c.knownAt)
    && Strip(c.orderKey) != [] && Strip(c.queryId) != [] && c.position >= 0
    && c.integrity == Seal(c, lib)
  }

  lemma SealIgnoresIntegrity(c: Cursor, integrity: seq<CodePoint>)
    ensures SealText(c.(integrity := integrity)) == SealText(c)
  {
  }

  lemma TimestampIsStable(value: seq<CodePoint>, lib: Library)
    ensures Timestamp(value, lib).Some? ==> Timestamp(Timestamp(value, lib).value, lib) == Timestamp(value, lib)
  {
    StripIsDone(value);
  }

  lemma MadeIsConstructible(c: Cursor, lib: Library)
    ensures Make(c, lib).Some? ==> Constructible(Make(c, lib).value, lib)
  {
    if Make(c, lib).Some? {
      TimestampIsStable(c.actDate, lib);
      TimestampIsStable(c.knownAt, lib);
      var made := c.(actDate := Timestamp(c.actDate, lib).value, knownAt := Timestamp(c.knownAt, lib).value);
      SealIgnoresIntegrity(made, Seal(made, lib));
    }
  }

  /** Building a cursor again changes it exactly when it could not have been built at all. */
  lemma ConstructibleIffStable(c: Cursor, lib: Library)
    ensures Constructible(c, lib) <==> Make(c, lib) == Some(c)
  {
    MadeIsConstructible(c, lib);
  }

  /** The cursor with both dates stripped, as the constructor keeps it. */
  function StrippedDates(c: Cursor): Cursor {
    c.(actDate := Strip(c.actDate), knownAt := Strip(c.knownAt))
  }

  /** What the constructor takes: dates that strip to readable text, an order key and a query id
      that are not blank, a position that is not negative, and a seal that is empty or is the
      hash of the stripped cursor.  What it returns is the stripped cursor under that hash. */
  lemma MakeAcceptsIff(c: Cursor, lib: Library)
    ensures Make(c, lib).Some? <==>
      && Strip(c.actDate) != [] && lib.instant(Strip(c.actDate)).Some?
      && Strip(c.knownAt) != [] && lib.instant(Strip(c.knownAt)).Some?
      && Strip(c.orderKey) != [] && Strip(c.queryId) != [] && 0 <= c.position
      && (c.integrity == [] || c.integrity == lib.hash(SealText(StrippedDates(c))))
    ensures Make(c, lib).Some? ==>
      Make(c, lib).value == StrippedDates(c).(integrity := lib.hash(SealText(StrippedDates(c))))
  {
  }

  /** A cursor is built from one with the same order key, query id and position whose dates strip
      to its dates and whose seal is empty or its own. */
  lemma MakeIff(given: Cursor, c: Cursor, lib: Library)
    ensures Make(given, lib) == Some(c) <==>
      && Constructible(c, lib)
      && Strip(given.actDate) == c.actDate && Strip(given.knownAt) == c.knownAt
      && given.orderKey == c.orderKey && given.queryId == c.queryId && given.position == c.position
      && (given.integrity == [] || given.integrity == c.integrity)
  {
    MakeAcceptsIff(given, lib);
    MadeIsConstructible(given, lib);
    SealIgnoresIntegrity(StrippedDates(given), c.integrity);
    if StrippedDates(given).(integrity := c.integrity) == c {
      MakeAcceptsIff(c, lib);
      ConstructibleIffStable(c, lib);
    }
  }

  // ---------- the fields of an object ----------

  /** The value under a name; the last of several members with one name counts. */
  function LastValue(ms: seq<Member>, name: seq<CodePoint>): Option<Value> {
    if ms == [] then None
    else if LastValue(ms[1..], name).Some? then LastValue(ms[1..], name)
    else if ms[0].key == name then Some(ms[0].value)
    else None
  }

  lemma {:induction false} LastValueFinds(ms: seq<Member>, m: Member)
    requires UniqueKeys(ms) && m in ms
    ensures LastValue(ms, m.key) == Some(m.value)
  {
    if m == ms[0] {
      NoLastValue(ms[1..], m.key);
    } else {
      LastValueFinds(ms[1..], m);
    }
  }

  lemma {:induction false} NoLastValue(ms: seq<Member>, name: seq<CodePoint>)
    requires forall m :: m in ms ==> m.key != name
    ensures LastValue(ms, name) == None
  {
    if ms != [] { NoLastValue(ms[1..], name); }
  }

  const FIELDS: set<seq<CodePoint>> := {ACT_DATE, KNOWN_AT, ORDER_KEY, QUERY_ID, POSITION, INTEGRITY}

  /** The seal carried by a payload; a missing or empty one is made anew. */
  function CarriedSeal(v: Option<Value>): Option<seq<CodePoint>> {
    match v
    case None => Some([])
    case Some(Str(s)) => Some(s)
    case Some(w) => if w in {Null, Bool(false), Int(0), Arr([]), Obj([])} then Some([]) else None
  }

  function CarriedPosition(v: Option<Value>): Option<int> {
    match v
    case None => Some(0)
    case Some(Int(i)) => Some(i)
    case _ => None
  }

  /** The constructor arguments in a JSON object; a missing name or a wrong kind is refused. */
  function Arguments(ms: seq<Member>): Option<Cursor> {
    match (LastValue(ms, ACT_DATE), LastValue(ms, KNOWN_AT), LastValue(ms, ORDER_KEY), LastValue(ms, QUERY_ID))
    case (Some(Str(a)), Some(Str(k)), Some(Str(o)), Some(Str(q))) =>
      (match (CarriedPosition(LastValue(ms, POSITION)), CarriedSeal(LastValue(ms, INTEGRITY)))
       case (Some(p), Some(i)) => Some(Cursor(a, k, o, q, p, i))
       case _ => None)
    case _ => None
  }

  /** A cursor from a JSON object; unknown names are refused. */
  function FromMembers(ms: seq<Member>, lib: Library): Option<Cursor> {
    if (exists m :: m in ms && m.key !in FIELDS) || Arguments(ms) == None then None
    else Make(Arguments(ms).value, lib)
  }

  ghost predicate LastAt(ms: seq<Member>, i: nat, m: Member) {
    i < |ms| && ms[i] == m && forall j :: i < j < |ms| ==> ms[j].key != m.key
  }

  /** The last of several members with one name counts. */
  lemma {:induction false} LastValueIff(ms: seq<Member>, name: seq<CodePoint>, v: Value)
    ensures LastValue(ms, name) == Some(v) <==> exists i: nat :: LastAt(ms, i, Member(name, v))
  {
    if ms != [] {
      var m := Member(name, v);
      LastValueIff(ms[1..], name, v);
      if i: nat :| LastAt(ms[1..], i, m) {
        forall j | i + 1 < j < |ms| ensures ms[j].key != name { assert ms[1..][j - 1] == ms[j]; }
        assert LastAt(ms, i + 1, m);
      } else if i: nat :| LastAt(ms, i, m) {
        assert i > 0 ==> LastAt(ms[1..], i - 1, m);
        NoLastValue(ms[1..], name);
      } else if LastValue(ms, name) == Some(v) {
        NameIsThere(ms[1..], name);
        assert LastAt(ms, 0, m);
      }
    }
  }

  lemma {:induction false} NameIsThere(ms: seq<Member>, name: seq<CodePoint>)
    requires LastValue(ms, name) == None
    ensures forall i :: 0 <= i < |ms| ==> ms[i].key != name
  {
    if ms != [] { NameIsThere(ms[1..], name); }
  }

  /** A seal is text, or missing or empty in one of six ways; then it is made anew. */
  lemma CarriedSealIff(v: Option<Value>, seal: seq<CodePoint>)
    ensures CarriedSeal(v) == Some(seal) <==>
      || v == Some(Str(seal))
      || (seal == [] && v in {None, Some(Null), Some(Bool(false)), Some(Int(0)), Some(Arr([])), Some(Obj([]))})
    ensures CarriedSeal(None) == CarriedSeal(Some(Null)) == CarriedSeal(Some(Str([]))) == Some([])
  {
  }

  /** A position is an integer, and 0 when it is missing. */
  lemma CarriedPositionIff(v: Option<Value>, position: int)
    ensures CarriedPosition(v) == Some(position) <==> v == Some(Int(position)) || (v == None && position == 0)
  {
  }

  lemma ArgumentsIff(ms: seq<Member>, c: Cursor)
    ensures Arguments(ms) == Some(c) <==>
      && LastValue(ms, ACT_DATE) == Some(Str(c.actDate)) && LastValue(ms, KNOWN_AT) == Some(Str(c.knownAt))
      && LastValue(ms, ORDER_KEY) == Some(Str(c.orderKey)) && LastValue(ms, QUERY_ID) == Some(Str(c.queryId))
      && CarriedPosition(LastValue(ms, POSITION)) == Some(c.position)
      && CarriedSeal(LastValue(ms, INTEGRITY)) == Some(c.integrity)
  {
  }

  /** The text under a name strips to the given one. */
  ghost predicate Holds(ms: seq<Member>, name: seq<CodePoint>, stripped: seq<CodePoint>) {
    exists s :: LastValue(ms, name) == Some(Str(s)) && Strip(s) == stripped
  }

  /** The object names nothing but the six fields, its four strings are those of the cursor up to
      stripping of the dates, a missing position is 0, and a seal that is neither missing nor
      empty is the very hash of the cursor. */
  ghost predicate Represents(ms: seq<Member>, c: Cursor, lib: Library) {
    && (forall m :: m in ms ==> m.key in FIELDS)
    && Holds(ms, ACT_DATE, c.actDate) && Holds(ms, KNOWN_AT, c.knownAt)
    && LastValue(ms, ORDER_KEY) == Some(Str(c.orderKey)) && LastValue(ms, QUERY_ID) == Some(Str(c.queryId))
    && CarriedPosition(LastValue(ms, POSITION)) == Some(c.position)
    && (CarriedSeal(LastValue(ms, INTEGRITY)) == Some([]) ||
        CarriedSeal(LastValue(ms, INTEGRITY)) == Some(lib.hash(SealText(c))))
  }

  /** An object gives exactly the constructible cursor it represents. */
  lemma FromMembersIff(ms: seq<Member>, c: Cursor, lib: Library)
    ensures FromMembers(ms, lib) == Some(c) <==> Constructible(c, lib) && Represents(ms, c, lib)
  {
    if FromMembers(ms, lib) == Some(c) {
      MembersRepresent(ms, Arguments(ms).value, c, lib);
    }
    if Constructible(c, lib) && Represents(ms, c, lib) {
      FieldsMake(ms, c, CarriedSeal(LastValue(ms, INTEGRITY)).value);
      MakeIff(Arguments(ms).value, c, lib);
    }
  }

  lemma MembersRepresent(ms: seq<Member>, given: Cursor, c: Cursor, lib: Library)
    requires Arguments(ms) == Some(given) && Make(given, lib) == Some(c)
    ensures Constructible(c, lib)
    ensures (forall m :: m in ms ==> m.key in FIELDS) ==> Represents(ms, c, lib)
  {
    ArgumentsIff(ms, given);
    MakeIff(given, c, lib);
    assert Holds(ms, ACT_DATE, c.actDate) && Holds(ms, KNOWN_AT, c.knownAt);
  }

  lemma FieldsMake(ms: seq<Member>, c: Cursor, seal: seq<CodePoint>)
    requires Holds(ms, ACT_DATE, c.actDate) && Holds(ms, KNOWN_AT, c.knownAt)
    requires CarriedSeal(LastValue(ms, INTEGRITY)) == Some(seal)
    ensures
      && LastValue(ms, ORDER_KEY) == Some(Str(c.orderKey)) && LastValue(ms, QUERY_ID) == Some(Str(c.queryId))
      && CarriedPosition(LastValue(ms, POSITION)) == Some(c.position)
      ==> && Arguments(ms).Some?
          && Strip(Arguments(ms).value.actDate) == c.actDate && Strip(Arguments(ms).value.knownAt) == c.knownAt
          && Arguments(ms).value.(actDate := c.actDate, knownAt := c.knownAt) == c.(integrity := seal)
  {
    var a :| LastValue(ms, ACT_DATE) == Some(Str(a)) && Strip(a) == c.actDate;
    var k :| LastValue(ms, KNOWN_AT) == Some(Str(k)) && Strip(k) == c.knownAt;
    ArgumentsIff(ms, Cursor(a, k, c.orderKey, c.queryId, c.position, seal));
  }

  // ---------- the token ----------

  function CursorMembers(c: Cursor): seq<Member> {
    [Member(ACT_DATE, Str(c.actDate)), Member(KNOWN_AT, Str(c.knownAt)), Member(ORDER_KEY, Str(c.orderKey)),
     Member(QUERY_ID, Str(c.queryId)), Member(POSITION, Int(c.position)), Member(INTEGRITY, Str(c.integrity))]
  }

  lemma NamesAreDistinct()
    ensures ACT_DATE[0] == 0x61 && KNOWN_AT[0] == 0x6B && ORDER_KEY[0] == 0x6F
    ensures QUERY_ID[0] == 0x71 && POSITION[0] == 0x70 && INTEGRITY[0] == 0x69
  {
  }

  lemma NamesAreAscii()
    ensures IsAscii(ACT_DATE) && IsAscii(KNOWN_AT) && IsAscii(ORDER_KEY)
    ensures IsAscii(QUERY_ID) && IsAscii(POSITION) && IsAscii(INTEGRITY)
  {
  }

  lemma CursorMembersUnique(c: Cursor)
    ensures UniqueKeys(CursorMembers(c)) && WellFormed(Obj(CursorMembers(c)))
    ensures UniqueKeys(PinnedMembers(c)) && WellFormed(Obj(PinnedMembers(c)))
  {
    NamesAreDistinct();
    DistinctHeads(CursorMembers(c));
    DistinctHeads(PinnedMembers(c));
  }

  lemma DistinctHeads(ms: seq<Member>)
    requires forall m :: m in ms ==> m.key != []
    requires forall i, j :: 0 <= i < j < |ms| ==> ms[i].key[0] != ms[j].key[0]
    ensures UniqueKeys(ms)
  {
  }

  /** ASCII text and its bytes. */
  function Bytes(t: Text): (b: seq<Base64Url.Byte>)
    requires IsAscii(t)
    ensures b == t
  {
    t
  }

  /** The opaque token of a cursor. */
  function Encode(c: Cursor): (token: seq<CodePoint>)
    ensures token != [] && Strip(token) == token
  {
    CursorMembersUnique(c);
    CanonicalIsAscii(Obj(CursorMembers(c)));
    var raw := Bytes(Canonical(Obj(CursorMembers(c))));
    Base64Url.UnpadRepad(raw);
    var token := Base64Url.Unpad(Base64Url.Encode(raw));
    AlphabetIsUnstripped(token);
    token
  }

  lemma AlphabetIsUnstripped(t: seq<int>)
    requires forall i :: 0 <= i < |t| ==> Base64Url.Sextet(t[i]).Some?
    ensures forall i :: 0 <= i < |t| ==> 0 <= t[i] < 0x11_0000 && !Whitespace(t[i])
    ensures t != [] ==> Strip(t) == t
  {
  }

  /** The JSON object behind a token. */
  function Payload(token: seq<CodePoint>): Option<seq<Member>> {
    var text := Strip(token);
    if text == [] then None
    else
      match Base64Url.Decode(Base64Url.Repad(text))
      case None => None
      case Some(raw) =>
        if !IsAscii(raw) then None
        else
          match Parse(raw)
          case Some(Obj(ms)) => Some(ms)
          case _ => None
  }

  function Decode(token: seq<CodePoint>, lib: Library): Option<Cursor> {
    match Payload(token)
    case None => None
    case Some(ms) => FromMembers(ms, lib)
  }

  /** Whitespace around a token does not matter, and a blank one is refused. */
  lemma TokenIsStripped(token: seq<CodePoint>, lib: Library)
    ensures Decode(token, lib) == Decode(Strip(token), lib)
    ensures Strip(token) == [] ==> Decode(token, lib) == None
  {
    StripIsDone(token);
  }

  /** The next page of the same listing. */
  function Advance(c: Cursor, position: int, lib: Library): Option<Cursor> {
    Make(c.(position := position, integrity := []), lib)
  }

  // ---------- every cursor is sealed ----------

  /** Whatever object a token is taken to hold, a cursor built from it is sealed. */
  lemma RebuiltIsConstructible(ms: seq<Member>, lib: Library)
    ensures FromMembers(ms, lib).Some? ==> Constructible(FromMembers(ms, lib).value, lib)
  {
    if FromMembers(ms, lib).Some? {
      MadeIsConstructible(Arguments(ms).value, lib);
    }
  }

  /** Whatever text is decoded, the cursor that results carries the hash of its five pinned values. */
  lemma DecodedIsConstructible(token: seq<CodePoint>, lib: Library)
    ensures Decode(token, lib).Some? ==> Constructible(Decode(token, lib).value, lib)
  {
    if Decode(token, lib).Some? {
      RebuiltIsConstructible(Payload(token).value, lib);
    }
  }

  /** Whatever text is decoded, the seal its object carries is missing, empty or the hash of the
      cursor that results; any other seal is refused. */
  lemma DecodedSeal(token: seq<CodePoint>, lib: Library)
    ensures Decode(token, lib).Some? ==>
      && Payload(token).Some?
      && var seal := LastValue(Payload(token).value, INTEGRITY);
         var expected := lib.hash(SealText(Decode(token, lib).value));
         seal in {None, Some(Null), Some(Bool(false)), Some(Int(0)), Some(Arr([])), Some(Obj([])), Some(Str([])),
                  Some(Str(expected))}
  {
    if Decode(token, lib).Some? {
      var ms, c := Payload(token).value, Decode(token, lib).value;
      FromMembersIff(ms, c, lib);
      CarriedSealIff(LastValue(ms, INTEGRITY), []);
      CarriedSealIff(LastValue(ms, INTEGRITY), lib.hash(SealText(c)));
    }
  }

  /** Turning the page re-seals: only position and seal change, and only a negative position fails. */
  lemma AdvanceReseals(c: Cursor, position: int, lib: Library)
    requires Constructible(c, lib)
    ensures Advance(c, position, lib).Some? <==> position >= 0
    ensures position >= 0 ==>
      && Constructible(Advance(c, position, lib).value, lib)
      && Advance(c, position, lib).value.(position := c.position, integrity := c.integrity) == c
      && Advance(c, position, lib).value.position == position
  {
    MadeIsConstructible(c.(position := position, integrity := []), lib);
  }

  // ---------- what a token holds ----------

  lemma AsciiIsUnsplit(s: seq<CodePoint>)
    requires IsAscii(s)
    ensures !HasSplitPair(s)
  {
  }

  /** The token hides nothing and adds nothing: decoding it parses the canonical text. */
  lemma PayloadOfEncoded(c: Cursor)
    ensures Payload(Encode(c)) == Some(PrintedMembers(CursorMembers(c)))
  {
    var v := Obj(CursorMembers(c));
    CursorMembersUnique(c);
    CanonicalIsAscii(v);
    var raw := Bytes(Canonical(v));
    Base64Url.UnpadRepad(raw);
    CanonicalReadsBack(v);
  }

  lemma SortedLookup(ms: seq<Member>, m: Member)
    requires UniqueKeys(ms) && m in ms
    ensures LastValue(SortMembers(ms), m.key) == Some(SortKeys(m.value))
  {
    SortMembersSorted(ms);
    SortMembersContents(ms, SortMember(m));
    LastValueFinds(SortMembers(ms), SortMember(m));
  }

  /** The strings a cursor pins. */
  ghost predicate UnsplitCursor(c: Cursor) {
    !HasSplitPair(c.actDate) && !HasSplitPair(c.knownAt) && !HasSplitPair(c.orderKey) && !HasSplitPair(c.queryId)
  }

  lemma NamesAreUnsplit()
    ensures !HasSplitPair(ACT_DATE) && !HasSplitPair(KNOWN_AT) && !HasSplitPair(ORDER_KEY)
    ensures !HasSplitPair(QUERY_ID) && !HasSplitPair(POSITION) && !HasSplitPair(INTEGRITY)
  {
    NamesAreAscii();
    AsciiIsUnsplit(ACT_DATE);
    AsciiIsUnsplit(KNOWN_AT);
    AsciiIsUnsplit(ORDER_KEY);
    AsciiIsUnsplit(QUERY_ID);
    AsciiIsUnsplit(POSITION);
    AsciiIsUnsplit(INTEGRITY);
  }

  /** The cursor with every string as it reads back. */
  function JoinedCursor(c: Cursor): Cursor {
    c.(actDate := Joined(c.actDate), knownAt := Joined(c.knownAt),
       orderKey := Joined(c.orderKey), queryId := Joined(c.queryId))
  }

  lemma UnsplitIsJoined(c: Cursor)
    ensures UnsplitCursor(c) <==> JoinedCursor(c) == c
  {
    RoundTripIffUnsplit(c.actDate);
    RoundTripIffUnsplit(c.knownAt);
    RoundTripIffUnsplit(c.orderKey);
    RoundTripIffUnsplit(c.queryId);
  }

  lemma CursorNamesArePlain(c: Cursor)
    ensures PlainNames(CursorMembers(c)) && PlainNames(PinnedMembers(c))
  {
    NamesAreUnsplit();
  }

  lemma PrintedOneByOne(ms: seq<Member>, ns: seq<Member>, e: Member)
    requires |ms| == |ns| && PlainNames(ms)
    requires forall i :: 0 <= i < |ms| ==> Printed(ms[i]) == SortMember(ns[i])
    ensures e in PrintedMembers(ms) <==> e in SortMembers(ns)
  {
    PrintedMembersContents(ms, e);
    SortMembersContents(ns, e);
    if m :| m in ms && e == Printed(m) {
      var i :| 0 <= i < |ms| && ms[i] == m;
      assert ns[i] in ns;
    }
    if n :| n in ns && e == SortMember(n) {
      var i :| 0 <= i < |ns| && ns[i] == n;
      assert ms[i] in ms;
    }
  }

  /** The printed members are the members of the joined cursor. */
  lemma PrintedCursorMember(c: Cursor, i: nat)
    requires IsAscii(c.integrity) && i < 6
    ensures Printed(CursorMembers(c)[i]) == SortMember(CursorMembers(JoinedCursor(c))[i])
  {
    if i == 5 {
      AsciiIsUnsplit(c.integrity);
      RoundTripIffUnsplit(c.integrity);
    }
  }

  lemma PrintedCursor(c: Cursor)
    requires IsAscii(c.integrity)
    ensures PrintedMembers(CursorMembers(c)) == SortMembers(CursorMembers(JoinedCursor(c)))
  {
    var ms, ns := CursorMembers(c), CursorMembers(JoinedCursor(c));
    forall i: nat | i < 6 ensures Printed(ms[i]) == SortMember(ns[i]) {
      PrintedCursorMember(c, i);
    }
    CursorNamesArePlain(c);
    forall e ensures e in PrintedMembers(ms) <==> e in SortMembers(ns) {
      PrintedOneByOne(ms, ns, e);
    }
    CursorMembersUnique(c);
    PrintedMembersSorted(ms);
    CursorMembersUnique(JoinedCursor(c));
    SortMembersSorted(ns);
    SortedIsUnique(PrintedMembers(ms), SortMembers(ns));
  }

  lemma SortedNames(c: Cursor)
    ensures forall e :: e in SortMembers(CursorMembers(c)) ==> e.key in FIELDS
  {
    forall e | e in SortMembers(CursorMembers(c)) ensures e.key in FIELDS {
      SortMembersContents(CursorMembers(c), e);
      var m :| m in CursorMembers(c) && e == SortMember(m);
    }
  }

  lemma SortedFields(c: Cursor, ms: seq<Member>)
    requires ms == SortMembers(CursorMembers(c))
    ensures LastValue(ms, ACT_DATE) == Some(Str(c.actDate)) && LastValue(ms, KNOWN_AT) == Some(Str(c.knownAt))
    ensures LastValue(ms, ORDER_KEY) == Some(Str(c.orderKey)) && LastValue(ms, QUERY_ID) == Some(Str(c.queryId))
    ensures LastValue(ms, POSITION) == Some(Int(c.position)) && LastValue(ms, INTEGRITY) == Some(Str(c.integrity))
  {
    CursorMembersUnique(c);
    SortedLookup(CursorMembers(c), CursorMembers(c)[0]);
    SortedLookup(CursorMembers(c), CursorMembers(c)[1]);
    SortedLookup(CursorMembers(c), CursorMembers(c)[2]);
    SortedLookup(CursorMembers(c), CursorMembers(c)[3]);
    SortedLookup(CursorMembers(c), CursorMembers(c)[4]);
    SortedLookup(CursorMembers(c), CursorMembers(c)[5]);
  }

  lemma FromFields(ms: seq<Member>, c: Cursor)
    requires LastValue(ms, ACT_DATE) == Some(Str(c.actDate)) && LastValue(ms, KNOWN_AT) == Some(Str(c.knownAt))
    requires LastValue(ms, ORDER_KEY) == Some(Str(c.orderKey)) && LastValue(ms, QUERY_ID) == Some(Str(c.queryId))
    requires LastValue(ms, POSITION) == Some(Int(c.position)) && LastValue(ms, INTEGRITY) == Some(Str(c.integrity))
    ensures Arguments(ms) == Some(c)
  {
  }

  /** The token of a cursor is the token of its joined form: decoding builds that. */
  lemma DecodeBuildsJoined(c: Cursor, lib: Library)
    requires IsAscii(c.integrity)
    ensures Decode(Encode(c), lib) == Make(JoinedCursor(c), lib)
  {
    var joined := JoinedCursor(c);
    PayloadOfEncoded(c);
    PrintedCursor(c);
    SortedNames(joined);
    SortedFields(joined, SortMembers(CursorMembers(joined)));
    FromFields(SortMembers(CursorMembers(joined)), joined);
  }

  // ---------- joining and stripping ----------

  lemma {:induction false} AllWhiteUnits(s: seq<CodePoint>)
    ensures AllWhite(s) <==> AllWhite(Utf16(s))
  {
    if s != [] {
      AllWhiteUnits(s[1..]);
      var us := UnitsOf(s[0]);
      assert AllWhite(s) <==> Whitespace(s[0]) && AllWhite(s[1..]);
      assert AllWhite(us + Utf16(s[1..])) <==> AllWhite(us) && AllWhite(Utf16(s[1..])) by {
        AllWhiteJoin(us, Utf16(s[1..]));
      }
      if s[0] >= 0x1_0000 {
        AstralUnits(s[0]);
        assert !Whitespace(us[0]) && !Whitespace(s[0]);
      }
    }
  }

  lemma AllWhiteJoin(a: seq<int>, b: seq<int>)
    ensures AllWhite(a + b) <==> AllWhite(a) && AllWhite(b)
  {
    forall i | 0 <= i < |a| ensures (a + b)[i] == a[i] { }
    forall i | 0 <= i < |b| ensures (a + b)[|a| + i] == b[i] { }
  }

  lemma {:induction false} LeftEmptyIffWhite(s: seq<CodePoint>)
    ensures StripLeft(s) == [] <==> AllWhite(s)
  {
    if s != [] {
      LeftEmptyIffWhite(s[1..]);
      assert AllWhite(s) <==> Whitespace(s[0]) && AllWhite(s[1..]);
    }
  }

  lemma StripEmptyIffWhite(s: seq<CodePoint>)
    ensures Strip(s) == [] <==> AllWhite(s)
  {
    LeftEmptyIffWhite(s);
    var left := StripLeft(s);
    if left != [] { StripRightKeepsFirst(left); }
  }

  lemma {:induction false} StripRightKeepsFirst(s: seq<CodePoint>)
    requires s != [] && !Whitespace(s[0])
    ensures StripRight(s) != []
  {
    if |s| > 1 && Whitespace(s[|s| - 1]) { StripRightKeepsFirst(s[..|s| - 1]); }
  }

  /** Joining split pairs neither makes nor removes blank text. */
  lemma JoinedIsBlankIff(s: seq<CodePoint>)
    ensures Strip(Joined(s)) == [] <==> Strip(s) == []
  {
    StripEmptyIffWhite(s);
    StripEmptyIffWhite(Joined(s));
    AllWhiteUnits(s);
    AllWhiteUnits(Joined(s));
    Utf16RoundTrip(Utf16(s));
  }

  lemma {:induction false} LastUnit(s: seq<CodePoint>)
    requires s != []
    ensures Utf16(s) != []
    ensures var u := Utf16(s)[|Utf16(s)| - 1]; u == s[|s| - 1] || Low(u)
  {
    if |s| == 1 {
      assert Utf16(s[1..]) == [];
      if s[0] >= 0x1_0000 { AstralUnits(s[0]); }
    } else {
      LastUnit(s[1..]);
    }
  }

  lemma {:induction false} LastRead(us: seq<Unit>)
    requires us != []
    ensures FromUtf16(us) != []
    ensures var c := FromUtf16(us)[|FromUtf16(us)| - 1]; c == us[|us| - 1] || c >= 0x1_0000
    decreases |us|
  {
    if |us| >= 2 && High(us[0]) && Low(us[1]) {
      if us[2..] != [] { LastRead(us[2..]); }
    } else if us[1..] != [] {
      LastRead(us[1..]);
    }
  }

  lemma JoinedIsStripped(s: seq<CodePoint>)
    requires Stripped(s)
    ensures Stripped(Joined(s))
  {
    if s != [] {
      LastUnit(s);
      LastRead(Utf16(s));
      FirstRead(Utf16(s));
      if s[0] >= 0x1_0000 { AstralUnits(s[0]); }
    }
  }

  // ---------- the round trip ----------

  /** The library reads both dates of the joined cursor. */
  predicate DatesRead(c: Cursor, lib: Library) {
    lib.instant(Joined(c.actDate)).Some? && lib.instant(Joined(c.knownAt)).Some?
  }

  lemma JoinedTimestamp(value: seq<CodePoint>, lib: Library)
    requires Timestamp(value, lib) == Some(value)
    ensures Timestamp(Joined(value), lib) ==
      if lib.instant(Joined(value)).Some? then Some(Joined(value)) else None
  {
    StripStrips(value);
    JoinedIsStripped(value);
    StripLeavesStripped(Joined(value));
    JoinedIsBlankIff(value);
  }

  /** Every constructible cursor's token decodes to its joined form, as long as the library reads
      the joined dates, and to nothing otherwise. */
  lemma DecodeEncoded(c: Cursor, lib: Library)
    requires Constructible(c, lib)
    ensures Decode(Encode(c), lib) == if DatesRead(c, lib) then Some(JoinedCursor(c)) else None
  {
    DecodeBuildsJoined(c, lib);
    JoinedTimestamp(c.actDate, lib);
    JoinedTimestamp(c.knownAt, lib);
    JoinedIsBlankIff(c.orderKey);
    JoinedIsBlankIff(c.queryId);
    SealTextIffJoined(c, JoinedCursor(c));
    JoinedTwice(c);
  }

  lemma JoinedTwice(c: Cursor)
    ensures JoinedCursor(JoinedCursor(c)) == JoinedCursor(c)
  {
    Utf16RoundTrip(Utf16(c.actDate));
    Utf16RoundTrip(Utf16(c.knownAt));
    Utf16RoundTrip(Utf16(c.orderKey));
    Utf16RoundTrip(Utf16(c.queryId));
  }

  /** A cursor survives its token exactly when none of its strings holds a split surrogate pair. */
  lemma RoundTripIff(c: Cursor, lib: Library)
    requires Constructible(c, lib)
    ensures Decode(Encode(c), lib) == Some(c) <==> UnsplitCursor(c)
  {
    DecodeEncoded(c, lib);
    UnsplitIsJoined(c);
  }

  // ---------- what the seal pins ----------

  lemma SameUnderOneName(ms: seq<Member>, ns: seq<Member>, i: nat, same: Equality)
    requires Matched(ms, ns, same) && UniqueKeys(ns) && i < |ms| == |ns| && ms[i].key == ns[i].key
    ensures same(ms[i].value, ns[i].value)
  {
    assert HasPartner(ms[i], ns, same);
    var q :| q in ns && Partner(ms[i], q, same);
  }

  lemma AlikeStrings(s: seq<CodePoint>, t: seq<CodePoint>)
    ensures Alike(Str(s), Str(t)) <==> Joined(s) == Joined(t)
  {
  }

  ghost predicate PinnedAlike(c: Cursor, d: Cursor) {
    forall i {:trigger PinnedMembers(c)[i]} :: 0 <= i < 5 ==> Alike(PinnedMembers(c)[i].value, PinnedMembers(d)[i].value)
  }

  lemma PinnedValuesAlike(c: Cursor, d: Cursor)
    ensures var ms, ns := PinnedMembers(c), PinnedMembers(d);
      && (Alike(ms[0].value, ns[0].value) <==> Joined(c.actDate) == Joined(d.actDate))
      && (Alike(ms[1].value, ns[1].value) <==> Joined(c.knownAt) == Joined(d.knownAt))
      && (Alike(ms[2].value, ns[2].value) <==> Joined(c.orderKey) == Joined(d.orderKey))
      && (Alike(ms[3].value, ns[3].value) <==> c.position == d.position)
      && (Alike(ms[4].value, ns[4].value) <==> Joined(c.queryId) == Joined(d.queryId))
  {
    AlikeStrings(c.actDate, d.actDate);
    AlikeStrings(c.knownAt, d.knownAt);
    AlikeStrings(c.orderKey, d.orderKey);
    AlikeStrings(c.queryId, d.queryId);
  }

  lemma FiveAlike(c: Cursor, d: Cursor)
    ensures var ms, ns := PinnedMembers(c), PinnedMembers(d);
      PinnedAlike(c, d) <==>
        && Alike(ms[0].value, ns[0].value) && Alike(ms[1].value, ns[1].value) && Alike(ms[2].value, ns[2].value)
        && Alike(ms[3].value, ns[3].value) && Alike(ms[4].value, ns[4].value)
  {
  }

  lemma PinnedAlikeIff(c: Cursor, d: Cursor)
    ensures PinnedAlike(c, d) <==> JoinedCursor(c).(integrity := d.integrity) == JoinedCursor(d)
  {
    FiveAlike(c, d);
    PinnedValuesAlike(c, d);
  }

  lemma MatchedIffPointwise(ms: seq<Member>, ns: seq<Member>, same: Equality)
    requires |ms| == |ns| && UniqueKeys(ns) && forall i :: 0 <= i < |ms| ==> ms[i].key == ns[i].key
    ensures Matched(ms, ns, same) <==> forall i :: 0 <= i < |ms| ==> same(ms[i].value, ns[i].value)
  {
    if Matched(ms, ns, same) {
      forall i: nat | i < |ms| ensures same(ms[i].value, ns[i].value) {
        SameUnderOneName(ms, ns, i, same);
      }
    }
    if forall i :: 0 <= i < |ms| ==> same(ms[i].value, ns[i].value) {
      assert forall i :: 0 <= i < |ms| ==> Partner(ms[i], ns[i], same);
      EveryOneMatched(ms, ns, same);
    }
  }

  lemma EveryOneMatched(ms: seq<Member>, ns: seq<Member>, same: Equality)
    requires |ms| == |ns| && forall i :: 0 <= i < |ms| ==> Partner(ms[i], ns[i], same)
    ensures Matched(ms, ns, same)
  {
    forall m | m in ms ensures HasPartner(m, ns, same) {
      var i :| 0 <= i < |ms| && ms[i] == m;
      assert ns[i] in ns;
    }
    forall n | n in ns ensures IsPartner(n, ms, same) {
      var i :| 0 <= i < |ns| && ns[i] == n;
      assert ms[i] in ms;
    }
  }

  lemma PinnedMatchedIff(c: Cursor, d: Cursor, same: Equality)
    requires forall v, w :: same(v, w) <==> Alike(v, w)
    ensures Matched(PinnedMembers(c), PinnedMembers(d), same) <==> PinnedAlike(c, d)
  {
    var ms, ns := PinnedMembers(c), PinnedMembers(d);
    CursorMembersUnique(d);
    MatchedIffPointwise(ms, ns, same);
    assert forall i :: 0 <= i < 5 ==> (same(ms[i].value, ns[i].value) <==> Alike(ms[i].value, ns[i].value));
  }

  lemma SealTextIffPinnedAlike(c: Cursor, d: Cursor)
    ensures SealText(c) == SealText(d) <==> PinnedAlike(c, d)
  {
    ghost var same := (a, b) => Alike(a, b);
    CursorMembersUnique(c);
    CursorMembersUnique(d);
    CursorNamesArePlain(c);
    CursorNamesArePlain(d);
    CanonicalIffAlike(Obj(PinnedMembers(c)), Obj(PinnedMembers(d)));
    AlikeObjectsAreMatched(PinnedMembers(c), PinnedMembers(d), same);
    PinnedMatchedIff(c, d, same);
  }

  /** Two cursors are sealed over one text exactly when they pin the same position and, up to
      split pairs, the same four strings. */
  lemma SealTextIffJoined(c: Cursor, d: Cursor)
    ensures SealText(c) == SealText(d) <==> JoinedCursor(c).(integrity := d.integrity) == JoinedCursor(d)
  {
    SealTextIffPinnedAlike(c, d);
    PinnedAlikeIff(c, d);
  }

  /** A sealed cursor whose values are altered under its old seal is refused, and so is its token,
      barring a hash collision between the two sealed texts. */
  lemma AlteredIsRefused(c: Cursor, altered: Cursor, lib: Library)
    requires Constructible(c, lib) && altered.integrity == c.integrity
    ensures var made := StrippedDates(altered);
      JoinedCursor(made) != JoinedCursor(c) && NoCollision(SealText(c), SealText(made), lib.hash) ==>
        Make(altered, lib) == None
    ensures var made := StrippedDates(JoinedCursor(altered));
      JoinedCursor(made) != JoinedCursor(c) && NoCollision(SealText(c), SealText(made), lib.hash) ==>
        Decode(Encode(altered), lib) == None
  {
    MakeAcceptsIff(altered, lib);
    SealTextIffJoined(c, StrippedDates(altered));
    DecodeBuildsJoined(altered, lib);
    MakeAcceptsIff(JoinedCursor(altered), lib);
    SealTextIffJoined(c, StrippedDates(JoinedCursor(altered)));
  }

  /** Barring a hash collision between their two sealed texts, cursors carry one seal exactly
      when their joined forms are one cursor. */
  lemma SealPinsJoinedFields(c: Cursor, d: Cursor, lib: Library)
    requires Constructible(c, lib) && Constructible(d, lib)
    requires NoCollision(SealText(c), SealText(d), lib.hash)
    ensures c.integrity == d.integrity <==> JoinedCursor(c) == JoinedCursor(d)
  {
    SealTextIffJoined(c, d);
  }

  /** Without split pairs that is pinning the same five values. */
  lemma SealPinsFields(c: Cursor, d: Cursor, lib: Library)
    requires Constructible(c, lib) && Constructible(d, lib) && UnsplitCursor(c) && UnsplitCursor(d)
    requires NoCollision(SealText(c), SealText(d), lib.hash)
    ensures c.integrity == d.integrity <==> c == d
  {
    SealPinsJoinedFields(c, d, lib);
    UnsplitIsJoined(c);
    UnsplitIsJoined(d);
  }

  // ---------- the sealed text, spelled out ----------

  /** A name and the text of its value, as they stand in an object. */
  function Spelled(name: seq<CodePoint>, text: Text): Text {
    Ascii("\"") + name + Ascii("\":") + text
  }

  lemma {:induction false} PlainUnits(s: seq<CodePoint>)
    requires PlainName(s)
    ensures EscapeUnits(Utf16(s)) == s
  {
    if s != [] {
      PlainUnits(s[1..]);
      assert Utf16(s)[0] == s[0] && Utf16(s)[1..] == Utf16(s[1..]);
    }
  }

  predicate PlainName(name: seq<CodePoint>) {
    forall i :: 0 <= i < |name| ==> 0x5D <= name[i] < 0x7F
  }

  lemma SpelledMember(m: Member)
    requires PlainName(m.key)
    ensures WriteMember(m) == Spelled(m.key, Write(m.value))
  {
    PlainUnits(m.key);
    assert Ascii("\"") == [QUOTE] && Ascii("\":") == [QUOTE, COLON];
    assert WriteMember(m) == [QUOTE] + m.key + [QUOTE] + [COLON] + Write(m.value);
  }

  lemma NamesArePlain()
    ensures PlainName(ACT_DATE) && PlainName(KNOWN_AT) && PlainName(ORDER_KEY)
    ensures PlainName(POSITION) && PlainName(QUERY_ID)
  {
  }

  lemma InsertFirst(m: Member, ms: seq<Member>)
    requires ms != [] ==> m.key != [] && ms[0].key != [] && m.key[0] < ms[0].key[0]
    ensures Insert(m, ms) == [m] + ms
  {
  }

  /** Members whose names begin with ever later characters are in order. */
  lemma {:induction false} HeadsInOrder(ms: seq<Member>)
    requires forall i :: 0 <= i < |ms| ==> ms[i].key != [] && SortMember(ms[i]) == ms[i]
    requires forall i, j :: 0 <= i < j < |ms| ==> ms[i].key[0] < ms[j].key[0]
    ensures SortMembers(ms) == ms
  {
    if ms != [] {
      var rest := ms[1..];
      assert forall i :: 0 <= i < |rest| ==> rest[i] == ms[i + 1];
      HeadsInOrder(rest);
      InsertFirst(ms[0], rest);
    }
  }

  function SpelledTexts(ms: seq<Member>): seq<Text> {
    seq(|ms|, i requires 0 <= i < |ms| => Spelled(ms[i].key, Write(ms[i].value)))
  }

  lemma MembersSpelled(ms: seq<Member>)
    requires forall m :: m in ms ==> PlainName(m.key)
    ensures MemberTexts(ms) == SpelledTexts(ms)
  {
    TextsOf(ms);
    forall i | 0 <= i < |ms| ensures MemberTexts(ms)[i] == SpelledTexts(ms)[i] {
      assert ms[i] in ms;
      SpelledMember(ms[i]);
    }
  }

  lemma PinnedAreSorted(c: Cursor)
    ensures SealText(c) == Write(Obj(PinnedMembers(c)))
  {
    NamesAreDistinct();
    HeadsInOrder(PinnedMembers(c));
  }

  lemma PinnedNamesArePlain(c: Cursor)
    ensures MemberTexts(PinnedMembers(c)) == SpelledTexts(PinnedMembers(c))
  {
    NamesArePlain();
    MembersSpelled(PinnedMembers(c));
  }

  /** The text under the seal, spelled out: the five pinned values by name, in the order of their
      names and separated by commas. */
  lemma SealTextSpelled(c: Cursor)
    ensures SealText(c) == Ascii("{") + Join(SpelledTexts([
      Member(Ascii("act_date"), Str(c.actDate)), Member(Ascii("known_at"), Str(c.knownAt)),
      Member(Ascii("order_key"), Str(c.orderKey)), Member(Ascii("position"), Int(c.position)),
      Member(Ascii("query_id"), Str(c.queryId))])) + Ascii("}")
  {
    PinnedAreSorted(c);
    PinnedNamesArePlain(c);
    PunctuationSpelled();
  }

  lemma PunctuationSpelled()
    ensures Ascii("{") == [LBRACE] && Ascii("}") == [RBRACE]
  {
  }

  lemma {:induction false} TextsOf(ms: seq<Member>)
    ensures forall i :: 0 <= i < |ms| ==> MemberTexts(ms)[i] == WriteMember(ms[i])
  {
    if ms != [] { TextsOf(ms[1..]); }
  }

  // ---------- replay ----------

  /** The moment a timestamp denotes, whatever its spelling. */
  function Moment(value: seq<CodePoint>, lib: Library): Option<Instant> {
    match Timestamp(value, lib)
    case None => None
    case Some(s) => lib.instant(s)
  }

  /** A bound repeated next to a cursor must denote the pinned moment. */
  predicate BoundReplays(bound: Value, pinned: seq<CodePoint>, lib: Library) {
    match bound
    case Null => true
    case Str(s) => Moment(s, lib).Some? && Moment(s, lib) == Moment(pinned, lib)
    case _ => false
  }

  predicate BoundReads(bound: Value, lib: Library) {
    bound == Null || (bound.Str? && Moment(bound.s, lib).Some?)
  }

  predicate Replays(act: Value, known: Value, id: seq<CodePoint>, c: Cursor, lib: Library) {
    BoundReplays(act, c.actDate, lib) && BoundReplays(known, c.knownAt, lib) && c.queryId == id
  }

  predicate DecodedReplays(act: Value, known: Value, id: seq<CodePoint>, decoded: Option<Cursor>, lib: Library) {
    decoded.Some? && Replays(act, known, id, decoded.value, lib)
  }

  predicate CursorReplays(act: Value, known: Value, id: seq<CodePoint>, cursor: Value, lib: Library) {
    cursor == Null || (cursor.Str? && DecodedReplays(act, known, id, Decode(cursor.s, lib), lib))
  }

  /** The checks a request makes of itself, the cursor it carries included. */
  predicate Accepts(fields: seq<Member>, lib: Library) {
    var act, known := Lookup(fields, ACT_DATE), Lookup(fields, KNOWN_AT);
    && BoundReads(act, lib)
    && BoundReads(known, lib)
    && CursorReplays(act, known, QueryId(fields, lib.hash), Lookup(fields, CURSOR), lib)
  }

  /** Which moment a text denotes. */
  ghost predicate Denotes(s: seq<CodePoint>, at: Instant, lib: Library) {
    Strip(s) != [] && lib.instant(Strip(s)) == Some(at)
  }

  /** A repeated bound replays when it is null or text that denotes the pinned moment. */
  lemma BoundReplaysIff(bound: Value, pinned: seq<CodePoint>, lib: Library)
    ensures BoundReplays(bound, pinned, lib) <==>
      bound == Null || (bound.Str? && exists at :: Denotes(bound.s, at, lib) && Denotes(pinned, at, lib))
    ensures BoundReads(bound, lib) <==> bound == Null || (bound.Str? && exists at :: Denotes(bound.s, at, lib))
  {
    if bound.Str? {
      forall at ensures Denotes(bound.s, at, lib) <==> Moment(bound.s, lib) == Some(at) {
        DenotesIff(bound.s, at, lib);
      }
      forall at ensures Denotes(pinned, at, lib) <==> Moment(pinned, lib) == Some(at) {
        DenotesIff(pinned, at, lib);
      }
      if Moment(bound.s, lib).Some? { assert Denotes(bound.s, Moment(bound.s, lib).value, lib); }
    }
  }

  lemma DenotesIff(s: seq<CodePoint>, at: Instant, lib: Library)
    ensures Denotes(s, at, lib) <==> Moment(s, lib) == Some(at)
  {
  }

  /** What a request is taken with: readable bounds, and no cursor, or one that decodes to a
      cursor of this very query whose pinned moments the given bounds denote. */
  lemma AcceptsByField(fields: seq<Member>, lib: Library)
    ensures var cursor := Lookup(fields, CURSOR);
      cursor == Null ==> (Accepts(fields, lib) <==>
        BoundReads(Lookup(fields, ACT_DATE), lib) && BoundReads(Lookup(fields, KNOWN_AT), lib))
    ensures var cursor := Lookup(fields, CURSOR);
      cursor != Null ==> (Accepts(fields, lib) <==>
        && cursor.Str? && Decode(cursor.s, lib).Some?
        && BoundReplays(Lookup(fields, ACT_DATE), Decode(cursor.s, lib).value.actDate, lib)
        && BoundReplays(Lookup(fields, KNOWN_AT), Decode(cursor.s, lib).value.knownAt, lib)
        && Decode(cursor.s, lib).value.queryId == QueryId(fields, lib.hash))
  {
    if Lookup(fields, CURSOR).Str? && Decode(Lookup(fields, CURSOR).s, lib).Some? {
      ReplayingBoundReads(Lookup(fields, ACT_DATE), Decode(Lookup(fields, CURSOR).s, lib).value.actDate, lib);
      ReplayingBoundReads(Lookup(fields, KNOWN_AT), Decode(Lookup(fields, CURSOR).s, lib).value.knownAt, lib);
    }
  }

  lemma ReplayingBoundReads(bound: Value, pinned: seq<CodePoint>, lib: Library)
    ensures BoundReplays(bound, pinned, lib) ==> BoundReads(bound, lib)
  {
  }

  lemma CursorReplaysIff(act: Value, known: Value, id: seq<CodePoint>, c: Cursor, lib: Library)
    requires Constructible(c, lib)
    ensures CursorReplays(act, known, id, Str(Encode(c)), lib) <==>
      DatesRead(c, lib) && Replays(act, known, id, JoinedCursor(c), lib)
  {
    DecodeEncoded(c, lib);
  }

  /** The bounds a request repeats denote the moments that decoding its cursor gives back. */
  predicate BoundsReplay(q: seq<Member>, c: Cursor, lib: Library) {
    && DatesRead(c, lib)
    && BoundReplays(Lookup(q, ACT_DATE), Joined(c.actDate), lib)
    && BoundReplays(Lookup(q, KNOWN_AT), Joined(c.knownAt), lib)
  }

  lemma AcceptsIff(q: seq<Member>, c: Cursor, lib: Library)
    requires Constructible(c, lib) && Lookup(q, CURSOR) == Str(Encode(c))
    ensures Accepts(q, lib) <==> BoundsReplay(q, c, lib) && Joined(c.queryId) == QueryId(q, lib.hash)
  {
    var act, known, id := Lookup(q, ACT_DATE), Lookup(q, KNOWN_AT), QueryId(q, lib.hash);
    CursorReplaysIff(act, known, id, c, lib);
    ReplayingBoundReads(act, Joined(c.actDate), lib);
    ReplayingBoundReads(known, Joined(c.knownAt), lib);
  }

  /** A cursor handed out for one request is accepted with another exactly when any bounds
      repeated beside it denote the pinned moments and the requests agree, up to split pairs,
      on every field other than the paging state. */
  lemma ReplayAcceptedIff(p: seq<Member>, q: seq<Member>, c: Cursor, lib: Library)
    requires Request(p) && Request(q) && PlainNames(p) && PlainNames(q)
    requires Constructible(c, lib) && c.queryId == QueryId(p, lib.hash)
    requires Lookup(q, CURSOR) == Str(Encode(c))
    requires NoCollision(IdentityText(p), IdentityText(q), lib.hash)
    ensures Accepts(q, lib) <==> BoundsReplay(q, c, lib) && AgreeAlike(p, q, PAGING)
  {
    AcceptsIff(q, c, lib);
    AsciiIsUnsplit(c.queryId);
    RoundTripIffUnsplit(c.queryId);
    QueryIdIffFieldsAlike(p, q, lib.hash);
  }

  lemma UnsplitBoundsReplay(q: seq<Member>, c: Cursor, lib: Library)
    requires Constructible(c, lib) && UnsplitCursor(c)
    ensures Joined(c.queryId) == c.queryId
    ensures BoundsReplay(q, c, lib) <==>
      BoundReplays(Lookup(q, ACT_DATE), c.actDate, lib) && BoundReplays(Lookup(q, KNOWN_AT), c.knownAt, lib)
  {
    UnsplitIsJoined(c);
    assert JoinedCursor(c).actDate == c.actDate && JoinedCursor(c).knownAt == c.knownAt;
  }

  /** Where no string holds a split pair, the bounds must denote the pinned moments and the
      requests must agree. */
  lemma UnsplitReplayAcceptedIff(p: seq<Member>, q: seq<Member>, c: Cursor, lib: Library)
    requires Request(p) && Request(q) && Unsplit(Obj(p)) && Unsplit(Obj(q))
    requires Constructible(c, lib) && UnsplitCursor(c) && c.queryId == QueryId(p, lib.hash)
    requires Lookup(q, CURSOR) == Str(Encode(c))
    requires NoCollision(IdentityText(p), IdentityText(q), lib.hash)
    ensures Accepts(q, lib) <==>
      && BoundReplays(Lookup(q, ACT_DATE), c.actDate, lib)
      && BoundReplays(Lookup(q, KNOWN_AT), c.knownAt, lib)
      && Agree(p, q, PAGING)
  {
    AcceptsIff(q, c, lib);
    UnsplitBoundsReplay(q, c, lib);
    QueryIdIsIdentity(p, q, lib.hash);
  }

  /** Turning the page keeps the request's identity and its pinned moments: the advanced cursor
      is accepted with just the requests the first one is accepted with. */
  lemma PagesReplay(p: seq<Member>, q: seq<Member>, c: Cursor, next: Cursor, lib: Library)
    requires Request(p) && Request(q) && PlainNames(p) && PlainNames(q)
    requires Constructible(c, lib) && c.queryId == QueryId(p, lib.hash)
    requires Advance(c, next.position, lib) == Some(next) && Lookup(q, CURSOR) == Str(Encode(next))
    requires NoCollision(IdentityText(p), IdentityText(q), lib.hash)
    ensures Accepts(q, lib) <==> BoundsReplay(q, c, lib) && AgreeAlike(p, q, PAGING)
  {
    AdvanceReseals(c, next.position, lib);
    ReplayAcceptedIff(p, q, next, lib);
  }
}
