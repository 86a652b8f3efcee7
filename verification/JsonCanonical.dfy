/**
  Canonical JSON: when two values print to the same text.
 */
module JsonCanonical {
  import opened Prelude
  import opened JsonText
  import opened JsonNumbers
  import opened Json

  // ---------- key order ----------

  /** The order on keys: by code points, a prefix first. */
  predicate AtMost(a: seq<CodePoint>, b: seq<CodePoint>) {
    a == [] || (b != [] && (a[0] < b[0] || (a[0] == b[0] && AtMost(a[1..], b[1..]))))
  }

  lemma {:induction false} AtMostTotal(a: seq<CodePoint>, b: seq<CodePoint>)
    ensures AtMost(a, b) || AtMost(b, a)
    ensures AtMost(a, b) && AtMost(b, a) ==> a == b
  {
    if a != [] && b != [] && a[0] == b[0] {
      AtMostTotal(a[1..], b[1..]);
      assert a == [a[0]] + a[1..] && b == [b[0]] + b[1..];
    }
  }

  lemma {:induction false} AtMostTransitive(a: seq<CodePoint>, b: seq<CodePoint>, c: seq<CodePoint>)
    requires AtMost(a, b) && AtMost(b, c)
    ensures AtMost(a, c)
  {
    if a != [] && a[0] == b[0] && b[0] == c[0] {
      AtMostTransitive(a[1..], b[1..], c[1..]);
    }
  }

  /** The order is that of a dictionary: a prefix first, else by the first difference. */
  lemma {:induction false} AtMostIff(a: seq<CodePoint>, b: seq<CodePoint>)
    ensures AtMost(a, b) <==>
      a <= b || exists i :: 0 <= i < |a| && i < |b| && a[..i] == b[..i] && a[i] < b[i]
  {
    if a != [] && b != [] {
      AtMostIff(a[1..], b[1..]);
      var x, y := a[1..], b[1..];
      assert a <= b <==> a[0] == b[0] && x <= y;
      if a[0] == b[0] {
        if i :| 0 <= i < |x| && i < |y| && x[..i] == y[..i] && x[i] < y[i] {
          assert a[..i + 1] == [a[0]] + x[..i] && b[..i + 1] == [b[0]] + y[..i];
          assert a[i + 1] < b[i + 1];
        }
        if i :| 0 <= i < |a| && i < |b| && a[..i] == b[..i] && a[i] < b[i] {
          assert x[..i - 1] == a[..i][1..] && y[..i - 1] == b[..i][1..];
          assert x[i - 1] < y[i - 1];
        }
      } else {
        assert a[0] < b[0] ==> a[..0] == b[..0];
        assert forall i :: 0 < i < |a| && i < |b| ==> a[..i][0] == a[0] && b[..i][0] == b[0];
      }
    }
  }

  // ---------- sorting members ----------

  function Insert(m: Member, ms: seq<Member>): seq<Member> {
    if ms == [] || AtMost(m.key, ms[0].key) then [m] + ms else [ms[0]] + Insert(m, ms[1..])
  }

  /** The value with the members of every object in key order. */
  function SortKeys(v: Value): Value {
    match v
    case Arr(items) => Arr(SortItems(items))
    case Obj(ms) => Obj(SortMembers(ms))
    case _ => v
  }

  function SortItems(items: seq<Value>): (r: seq<Value>)
    ensures |r| == |items|
  {
    if items == [] then [] else [SortKeys(items[0])] + SortItems(items[1..])
  }

  function SortMembers(ms: seq<Member>): seq<Member> {
    if ms == [] then [] else Insert(SortMember(ms[0]), SortMembers(ms[1..]))
  }

  function SortMember(m: Member): Member {
    Member(m.key, SortKeys(m.value))
  }

  /** The text used for identities and hashes. */
  function Canonical(v: Value): Text {
    Write(SortKeys(v))
  }

  // ---------- equality up to member order ----------

  ghost predicate UniqueKeys(ms: seq<Member>) {
    forall i, j :: 0 <= i < j < |ms| ==> ms[i].key != ms[j].key
  }

  /** Objects are dictionaries, and floats carry printed tokens. */
  ghost predicate WellFormed(v: Value) {
    match v
    case Float(token) => IsFloatToken(token)
    case Arr(items) => forall x :: x in items ==> WellFormed(x)
    case Obj(ms) => UniqueKeys(ms) && forall m :: m in ms ==> WellFormed(m.value)
    case _ => true
  }

  /** Equal values, where objects are equal when they hold equal values under the same keys. */
  ghost predicate Same(a: Value, b: Value) {
    match (a, b)
    case (Arr(x), Arr(y)) => |x| == |y| && forall i :: 0 <= i < |x| ==> Same(x[i], y[i])
    case (Obj(m), Obj(n)) =>
      && (forall p :: p in m ==> exists q :: q in n && q.key == p.key && Same(p.value, q.value))
      && (forall q :: q in n ==> exists p :: p in m && q.key == p.key && Same(p.value, q.value))
    case _ => a == b
  }

  // ---------- sorting is canonical ----------

  ghost predicate Sorted(ms: seq<Member>) {
    forall i, j :: 0 <= i < j < |ms| ==> AtMost(ms[i].key, ms[j].key)
  }

  lemma {:induction false} InsertContents(m: Member, ms: seq<Member>, e: Member)
    ensures e in Insert(m, ms) <==> e == m || e in ms
  {
    if !(ms == [] || AtMost(m.key, ms[0].key)) {
      InsertContents(m, ms[1..], e);
      assert ms == [ms[0]] + ms[1..];
    }
  }

  lemma {:induction false} InsertSorts(m: Member, ms: seq<Member>)
    requires Sorted(ms)
    ensures Sorted(Insert(m, ms))
  {
    var r := Insert(m, ms);
    if ms == [] {
    } else if AtMost(m.key, ms[0].key) {
      forall j | 0 < j < |r| ensures AtMost(r[0].key, r[j].key) {
        if j > 1 { AtMostTransitive(m.key, ms[0].key, ms[j - 1].key); }
      }
    } else {
      InsertSorts(m, ms[1..]);
      AtMostTotal(m.key, ms[0].key);
      forall j | 0 < j < |r| ensures AtMost(r[0].key, r[j].key) {
        InsertContents(m, ms[1..], r[j]);
        assert r[j] in Insert(m, ms[1..]);
      }
    }
  }

  lemma {:induction false} SortMembersContents(ms: seq<Member>, e: Member)
    ensures e in SortMembers(ms) <==> exists m :: m in ms && e == SortMember(m)
  {
    if ms != [] {
      InsertContents(SortMember(ms[0]), SortMembers(ms[1..]), e);
      SortMembersContents(ms[1..], e);
      assert ms[0] in ms && forall m :: m in ms <==> m == ms[0] || m in ms[1..];
    }
  }

  lemma {:induction false} SortMembersSorted(ms: seq<Member>)
    requires UniqueKeys(ms)
    ensures Sorted(SortMembers(ms)) && UniqueKeys(SortMembers(ms))
  {
    if ms != [] {
      SortMembersSorted(ms[1..]);
      InsertSorts(SortMember(ms[0]), SortMembers(ms[1..]));
      forall e | e in SortMembers(ms[1..]) ensures e.key != ms[0].key {
        SortMembersContents(ms[1..], e);
      }
      InsertUnique(SortMember(ms[0]), SortMembers(ms[1..]));
    }
  }

  lemma {:induction false} InsertUnique(m: Member, ms: seq<Member>)
    requires UniqueKeys(ms) && forall e :: e in ms ==> e.key != m.key
    ensures UniqueKeys(Insert(m, ms))
  {
    if !(ms == [] || AtMost(m.key, ms[0].key)) {
      InsertUnique(m, ms[1..]);
      var r := Insert(m, ms);
      forall j | 0 < j < |r| ensures r[j].key != r[0].key {
        InsertContents(m, ms[1..], r[j]);
        assert r[j] in Insert(m, ms[1..]);
      }
    }
  }

  lemma SmallestFirst(s: seq<Member>, t: seq<Member>)
    requires s != [] && t != [] && Sorted(s) && Sorted(t) && UniqueKeys(s)
    requires forall e :: e in s <==> e in t
    ensures s[0] == t[0]
  {
    assert s[0] in t && t[0] in s;
    var i :| 0 <= i < |t| && t[i] == s[0];
    var j :| 0 <= j < |s| && s[j] == t[0];
    AtMostTotal(s[0].key, t[0].key);
  }

  /** Sorted members with distinct keys are determined by their set. */
  lemma {:induction false} SortedIsUnique(s: seq<Member>, t: seq<Member>)
    requires Sorted(s) && Sorted(t) && UniqueKeys(s) && UniqueKeys(t)
    requires forall e :: e in s <==> e in t
    ensures s == t
  {
    assert t != [] ==> t[0] in s;
    if s != [] {
      assert s[0] in t;
      SmallestFirst(s, t);
      assert s[0] !in s[1..] && t[0] !in t[1..];
      forall e ensures e in s[1..] <==> e in t[1..] {
        assert e in s <==> e == s[0] || e in s[1..];
        assert e in t <==> e == t[0] || e in t[1..];
      }
      SortedIsUnique(s[1..], t[1..]);
      assert s == [s[0]] + s[1..] && t == [t[0]] + t[1..];
    }
  }

  lemma {:induction false} SortItemsAt(items: seq<Value>, i: nat)
    requires i < |items|
    ensures SortItems(items)[i] == SortKeys(items[i])
  {
    if i > 0 { SortItemsAt(items[1..], i - 1); }
  }

  /** Sorting the keys gives the same value exactly when the values are equal up to member order. */
  lemma {:induction false} SortKeysCanonical(a: Value, b: Value)
    requires WellFormed(a) && WellFormed(b)
    ensures SortKeys(a) == SortKeys(b) <==> Same(a, b)
    decreases a
  {
    match (a, b)
    case (Arr(x), Arr(y)) =>
      SortItemsCanonical(a, x, y);
    case (Obj(m), Obj(n)) =>
      forall p, q | p in m && q in n
        ensures SortKeys(p.value) == SortKeys(q.value) <==> Same(p.value, q.value)
      {
        SortKeysCanonical(p.value, q.value);
      }
      SortMembersCanonical(m, n);
    case _ =>
  }

  lemma {:induction false} SortItemsCanonical(a: Value, x: seq<Value>, y: seq<Value>)
    requires a == Arr(x) && WellFormed(a) && WellFormed(Arr(y))
    ensures SortItems(x) == SortItems(y) <==> Same(a, Arr(y))
    decreases a, 0
  {
    if |x| == |y| {
      forall i | 0 <= i < |x|
        ensures SortItems(x)[i] == SortItems(y)[i] <==> Same(x[i], y[i])
      {
        SortItemsAt(x, i);
        SortItemsAt(y, i);
        SortKeysCanonical(x[i], y[i]);
      }
    }
  }

  ghost predicate SortsAgree(m: seq<Member>, n: seq<Member>) {
    forall p, q :: p in m && q in n ==> (SortKeys(p.value) == SortKeys(q.value) <==> Same(p.value, q.value))
  }

  lemma EqualSortsHoldSameMembers(m: seq<Member>, n: seq<Member>)
    requires SortsAgree(m, n) && SortMembers(m) == SortMembers(n)
    ensures Same(Obj(m), Obj(n))
  {
    forall p | p in m ensures exists q :: q in n && q.key == p.key && Same(p.value, q.value) {
      SortMembersContents(m, SortMember(p));
      SortMembersContents(n, SortMember(p));
    }
    forall q | q in n ensures exists p :: p in m && q.key == p.key && Same(p.value, q.value) {
      SortMembersContents(m, SortMember(q));
      SortMembersContents(n, SortMember(q));
    }
  }

  lemma SameMembersSortEqually(m: seq<Member>, n: seq<Member>)
    requires UniqueKeys(m) && UniqueKeys(n) && SortsAgree(m, n) && Same(Obj(m), Obj(n))
    ensures SortMembers(m) == SortMembers(n)
  {
    forall e ensures e in SortMembers(m) <==> e in SortMembers(n) {
      SortMembersContents(m, e);
      SortMembersContents(n, e);
    }
    SortMembersSorted(m);
    SortMembersSorted(n);
    SortedIsUnique(SortMembers(m), SortMembers(n));
  }

  lemma SortMembersCanonical(m: seq<Member>, n: seq<Member>)
    requires UniqueKeys(m) && UniqueKeys(n) && SortsAgree(m, n)
    ensures SortMembers(m) == SortMembers(n) <==> Same(Obj(m), Obj(n))
  {
    if SortMembers(m) == SortMembers(n) { EqualSortsHoldSameMembers(m, n); }
    if Same(Obj(m), Obj(n)) { SameMembersSortEqually(m, n); }
  }

  // ---------- canonical text ----------

  lemma {:induction false} SortKeysPrintable(v: Value)
    requires WellFormed(v)
    ensures Printable(SortKeys(v))
    decreases v
  {
    match v
    case Arr(items) =>
      forall x | x in SortItems(items) ensures Printable(x) {
        var i :| 0 <= i < |items| && SortItems(items)[i] == x;
        SortItemsAt(items, i);
        SortKeysPrintable(items[i]);
      }
    case Obj(ms) =>
      forall e | e in SortMembers(ms) ensures Printable(e.value) {
        SortMembersContents(ms, e);
        var m :| m in ms && e == SortMember(m);
        SortKeysPrintable(m.value);
      }
    case _ =>
  }

  /** No string of the value, key or not, holds a split surrogate pair. */
  ghost predicate Unsplit(v: Value) {
    match v
    case Str(s) => !HasSplitPair(s)
    case Arr(items) => forall x :: x in items ==> Unsplit(x)
    case Obj(ms) => forall m :: m in ms ==> !HasSplitPair(m.key) && Unsplit(m.value)
    case _ => true
  }

  lemma {:induction false} SortKeysUnsplit(v: Value)
    requires Unsplit(v)
    ensures Unsplit(SortKeys(v))
    decreases v
  {
    match v
    case Arr(items) =>
      forall x | x in SortItems(items) ensures Unsplit(x) {
        var i :| 0 <= i < |items| && SortItems(items)[i] == x;
        SortItemsAt(items, i);
        SortKeysUnsplit(items[i]);
      }
    case Obj(ms) =>
      forall e | e in SortMembers(ms) ensures !HasSplitPair(e.key) && Unsplit(e.value) {
        SortMembersContents(ms, e);
        var m :| m in ms && e == SortMember(m);
        SortKeysUnsplit(m.value);
      }
    case _ =>
  }

  lemma {:induction false} RejoinedUnsplit(v: Value)
    requires Unsplit(v)
    ensures Rejoined(v) == v
    decreases v, 1
  {
    match v
    case Str(s) => RoundTripIffUnsplit(s);
    case Arr(items) => RejoinedItemsUnsplit(items);
    case Obj(ms) => RejoinedMembersUnsplit(ms);
    case _ =>
  }

  lemma {:induction false} RejoinedItemsUnsplit(items: seq<Value>)
    requires forall x :: x in items ==> Unsplit(x)
    ensures RejoinedItems(items) == items
    decreases items, 0
  {
    if items != [] {
      RejoinedUnsplit(items[0]);
      RejoinedItemsUnsplit(items[1..]);
    }
  }

  lemma {:induction false} RejoinedMembersUnsplit(ms: seq<Member>)
    requires forall m :: m in ms ==> !HasSplitPair(m.key) && Unsplit(m.value)
    ensures RejoinedMembers(ms) == ms
    decreases ms, 0
  {
    if ms != [] {
      RoundTripIffUnsplit(ms[0].key);
      assert ms[0] in ms;
      RejoinedUnsplit(ms[0].value);
      RejoinedMembersUnsplit(ms[1..]);
    }
  }

  /** A canonical text reads back as the sorted value. */
  lemma CanonicalReadsBack(v: Value)
    requires WellFormed(v)
    ensures Parse(Canonical(v)) == Some(Rejoined(SortKeys(v)))
    ensures Unsplit(v) ==> Parse(Canonical(v)) == Some(SortKeys(v))
  {
    SortKeysPrintable(v);
    ParseWritten(SortKeys(v));
    if Unsplit(v) {
      SortKeysUnsplit(v);
      RejoinedUnsplit(SortKeys(v));
    }
  }

  /** Printing does not tell a string from its joined form. */
  lemma WriteJoined(s: seq<CodePoint>)
    ensures WriteString(Joined(s)) == WriteString(s)
  {
    Utf16RoundTrip(Utf16(s));
  }

  lemma {:induction false} WriteRejoined(v: Value)
    ensures Write(Rejoined(v)) == Write(v)
    decreases v, 1
  {
    match v
    case Str(s) => WriteJoined(s);
    case Arr(items) => ItemTextsRejoined(items);
    case Obj(ms) => MemberTextsRejoined(ms);
    case _ =>
  }

  lemma {:induction false} ItemTextsRejoined(items: seq<Value>)
    ensures ItemTexts(RejoinedItems(items)) == ItemTexts(items)
    decreases items, 0
  {
    if items != [] {
      WriteRejoined(items[0]);
      ItemTextsRejoined(items[1..]);
      assert RejoinedItems(items)[1..] == RejoinedItems(items[1..]);
    }
  }

  lemma {:induction false} MemberTextsRejoined(ms: seq<Member>)
    ensures MemberTexts(RejoinedMembers(ms)) == MemberTexts(ms)
    decreases ms, 0
  {
    if ms != [] {
      WriteJoined(ms[0].key);
      assert ms[0] in ms;
      WriteRejoined(ms[0].value);
      MemberTextsRejoined(ms[1..]);
      assert RejoinedMembers(ms)[1..] == RejoinedMembers(ms[1..]);
    }
  }

  /** Equal once members stand in key order and every string is joined. */
  ghost predicate Alike(a: Value, b: Value) {
    Rejoined(SortKeys(a)) == Rejoined(SortKeys(b))
  }

  /** Two values print to one canonical text exactly when they are equal up to the order of
      members and the joining of split pairs. */
  lemma CanonicalIffAlike(a: Value, b: Value)
    requires WellFormed(a) && WellFormed(b)
    ensures Canonical(a) == Canonical(b) <==> Alike(a, b)
  {
    CanonicalReadsBack(a);
    CanonicalReadsBack(b);
    WriteRejoined(SortKeys(a));
    WriteRejoined(SortKeys(b));
  }

  /** Without split pairs that is being equal up to the order of members. */
  lemma UnsplitAlikeIsSame(a: Value, b: Value)
    requires WellFormed(a) && WellFormed(b)
    ensures Same(a, b) ==> Alike(a, b)
    ensures Unsplit(a) && Unsplit(b) ==> (Alike(a, b) <==> Same(a, b))
  {
    SortKeysCanonical(a, b);
    if Unsplit(a) && Unsplit(b) {
      SortKeysUnsplit(a);
      SortKeysUnsplit(b);
      RejoinedUnsplit(SortKeys(a));
      RejoinedUnsplit(SortKeys(b));
    }
  }

  /** Two values without split pairs print to one canonical text exactly when they are equal
      up to the order of object members. */
  lemma CanonicalIsIdentity(a: Value, b: Value)
    requires WellFormed(a) && WellFormed(b) && Unsplit(a) && Unsplit(b)
    ensures Canonical(a) == Canonical(b) <==> Same(a, b)
  {
    CanonicalIffAlike(a, b);
    UnsplitAlikeIsSame(a, b);
  }

  /** A split pair defeats it: the string and its joined form are different values with one text. */
  lemma SplitPairsCollide(s: seq<CodePoint>)
    requires HasSplitPair(s)
    ensures Joined(s) != s && !HasSplitPair(Joined(s))
    ensures Canonical(Str(s)) == Canonical(Str(Joined(s)))
  {
    RoundTripIffUnsplit(s);
    ReadIsUnsplit(Utf16(s));
    Utf16RoundTrip(Utf16(s));
  }

  // ---------- the text is ASCII ----------

  lemma DigitsAscii(i: int)
    ensures IsAscii(Decimal(i))
  {
    DecimalRoundTrip(i);
  }

  lemma {:induction false} JoinAscii(texts: seq<Text>)
    requires forall t :: t in texts ==> IsAscii(t)
    ensures IsAscii(Join(texts))
  {
    if texts != [] {
      assert IsAscii(texts[0]);
      JoinAscii(texts[1..]);
    }
  }

  lemma {:induction false} WriteAscii(v: Value)
    requires Printable(v)
    ensures IsAscii(Write(v))
    decreases v, 1
  {
    match v
    case Int(i) => DigitsAscii(i);
    case Str(s) => EscapesAreAscii(Utf16(s));
    case Arr(items) =>
      ItemTextsAscii(items);
      JoinAscii(ItemTexts(items));
    case Obj(ms) =>
      MemberTextsAscii(ms);
      JoinAscii(MemberTexts(ms));
    case _ =>
  }

  lemma {:induction false} ItemTextsAscii(items: seq<Value>)
    requires forall x :: x in items ==> Printable(x)
    ensures forall t :: t in ItemTexts(items) ==> IsAscii(t)
    decreases items, 0
  {
    if items != [] {
      WriteAscii(items[0]);
      ItemTextsAscii(items[1..]);
    }
  }

  lemma {:induction false} MemberTextsAscii(ms: seq<Member>)
    requires forall m :: m in ms ==> Printable(m.value)
    ensures forall t :: t in MemberTexts(ms) ==> IsAscii(t)
    decreases ms, 0
  {
    if ms != [] {
      assert ms[0] in ms;
      WriteAscii(ms[0].value);
      EscapesAreAscii(Utf16(ms[0].key));
      MemberTextsAscii(ms[1..]);
    }
  }

  lemma CanonicalIsAscii(v: Value)
    requires WellFormed(v)
    ensures IsAscii(Canonical(v)) && Canonical(v) != []
  {
    SortKeysPrintable(v);
    WriteAscii(SortKeys(v));
    WrittenHead(SortKeys(v));
  }
}
