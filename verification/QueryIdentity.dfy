/**
  The canonical identity of a request: which requests share one query id.
 */
module QueryIdentity {
  import opened JsonText
  import opened Json
  import opened JsonCanonical

  /** ASCII names as code points. */
  function Ascii(name: string): (s: seq<CodePoint>)
    requires forall i :: 0 <= i < |name| ==> name[i] as int < 0x80
    ensures |s| == |name|
    ensures forall i :: 0 <= i < |name| ==> s[i] == name[i] as int
  {
    seq(|name|, i requires 0 <= i < |name| => name[i] as int)
  }

  const ACT_DATE := Ascii("act_date")
  const KNOWN_AT := Ascii("known_at")
  const CURSOR := Ascii("cursor")
  const OFFSET := Ascii("offset")
  const ORDER_KEY := Ascii("order_key")
  const POSITION := Ascii("position")
  const QUERY_ID := Ascii("query_id")
  const INTEGRITY := Ascii("integrity")

  /** Paging state, pinned elsewhere, is no part of the query. */
  const PAGING: set<seq<CodePoint>> := {ACT_DATE, KNOWN_AT, CURSOR, OFFSET}

  /** The fields that count: those with a value, outside the paging state. */
  function IdentityFields(fields: seq<Member>, paging: set<seq<CodePoint>>): seq<Member> {
    if fields == [] then []
    else if fields[0].value == Null || fields[0].key in paging then IdentityFields(fields[1..], paging)
    else [fields[0]] + IdentityFields(fields[1..], paging)
  }

  function IdentityText(fields: seq<Member>): Text {
    Canonical(Obj(IdentityFields(fields, PAGING)))
  }

  /** A hexadecimal SHA-256 digest. */
  type Digest = s: seq<CodePoint> | |s| == 64 && IsAscii(s)
    witness seq(64, i => 0x30)

  /** The hash tells the two texts apart. */
  predicate NoCollision(t: Text, u: Text, hash: Text -> Digest) {
    hash(t) == hash(u) ==> t == u
  }

  function QueryId(fields: seq<Member>, hash: Text -> Digest): Digest {
    hash(IdentityText(fields))
  }

  /** The value of a field; an absent field counts as null. */
  function Lookup(fields: seq<Member>, name: seq<CodePoint>): Value {
    if fields == [] then Null
    else if fields[0].key == name then fields[0].value
    else Lookup(fields[1..], name)
  }

  /** The two requests agree on every field but the paging state. */
  ghost predicate Agree(p: seq<Member>, q: seq<Member>, paging: set<seq<CodePoint>>) {
    forall name :: name !in paging ==> Same(Lookup(p, name), Lookup(q, name))
  }

  /** The two requests agree on every field but the paging state, up to split pairs. */
  ghost predicate AgreeAlike(p: seq<Member>, q: seq<Member>, paging: set<seq<CodePoint>>) {
    forall name :: name !in paging ==> Alike(Lookup(p, name), Lookup(q, name))
  }

  /** A request: distinct field names over well-formed values. */
  ghost predicate Request(fields: seq<Member>) {
    WellFormed(Obj(fields))
  }

  /** No name holds a split pair; the fields of a request model never do. */
  ghost predicate PlainNames(fields: seq<Member>) {
    forall m :: m in fields ==> !HasSplitPair(m.key)
  }

  lemma {:induction false} LookupFinds(fields: seq<Member>, m: Member)
    requires UniqueKeys(fields)
    ensures m in fields ==> Lookup(fields, m.key) == m.value
    ensures Lookup(fields, m.key) != Null ==> Member(m.key, Lookup(fields, m.key)) in fields
  {
    if fields != [] {
      LookupFinds(fields[1..], m);
      assert fields == [fields[0]] + fields[1..];
    }
  }

  lemma {:induction false} IdentityFieldsContents(fields: seq<Member>, paging: set<seq<CodePoint>>, m: Member)
    ensures m in IdentityFields(fields, paging) <==> m in fields && m.value != Null && m.key !in paging
  {
    if fields != [] {
      IdentityFieldsContents(fields[1..], paging, m);
      assert m in fields <==> m == fields[0] || m in fields[1..];
    }
  }

  lemma {:induction false} IdentityFieldsUnique(fields: seq<Member>, paging: set<seq<CodePoint>>)
    requires UniqueKeys(fields)
    ensures UniqueKeys(IdentityFields(fields, paging))
  {
    if fields != [] {
      IdentityFieldsUnique(fields[1..], paging);
      forall m | m in IdentityFields(fields[1..], paging) ensures m.key != fields[0].key {
        IdentityFieldsContents(fields[1..], paging, m);
      }
    }
  }

  lemma IdentityIsRequest(fields: seq<Member>, paging: set<seq<CodePoint>>)
    requires Request(fields)
    ensures Request(IdentityFields(fields, paging))
    ensures PlainNames(fields) ==> PlainNames(IdentityFields(fields, paging))
    ensures Unsplit(Obj(fields)) ==> Unsplit(Obj(IdentityFields(fields, paging)))
  {
    IdentityFieldsUnique(fields, paging);
    forall m | m in IdentityFields(fields, paging) ensures m in fields {
      IdentityFieldsContents(fields, paging, m);
    }
  }

  // ---------- agreement, for any equality of values ----------

  type Equality = (Value, Value) -> bool

  /** Null equals nothing but itself. */
  ghost predicate NullAlone(same: Equality) {
    forall v :: (same(Null, v) <==> v == Null) && (same(v, Null) <==> v == Null)
  }

  ghost predicate Partner(m: Member, n: Member, same: Equality) {
    m.key == n.key && same(m.value, n.value)
  }

  ghost predicate HasPartner(m: Member, ns: seq<Member>, same: Equality) {
    exists n :: n in ns && Partner(m, n, same)
  }

  ghost predicate IsPartner(n: Member, ms: seq<Member>, same: Equality) {
    exists m :: m in ms && Partner(m, n, same)
  }

  ghost predicate Matched(ms: seq<Member>, ns: seq<Member>, same: Equality) {
    && (forall m {:trigger HasPartner(m, ns, same)} :: m in ms ==> HasPartner(m, ns, same))
    && (forall n {:trigger IsPartner(n, ms, same)} :: n in ns ==> IsPartner(n, ms, same))
  }

  ghost predicate AgreeOn(p: seq<Member>, q: seq<Member>, name: seq<CodePoint>, same: Equality) {
    same(Lookup(p, name), Lookup(q, name))
  }

  /** The identity fields hold exactly the fields outside the paging state that have a value. */
  lemma IdentityFieldIsLookup(fields: seq<Member>, paging: set<seq<CodePoint>>, name: seq<CodePoint>, v: Value)
    requires UniqueKeys(fields)
    ensures Member(name, v) in IdentityFields(fields, paging) <==>
      v != Null && name !in paging && Lookup(fields, name) == v
  {
    IdentityFieldsContents(fields, paging, Member(name, v));
    LookupFinds(fields, Member(name, v));
  }

  lemma AgreementMatches(p: seq<Member>, q: seq<Member>, paging: set<seq<CodePoint>>, same: Equality)
    requires UniqueKeys(p) && UniqueKeys(q) && NullAlone(same)
    requires forall name :: name !in paging ==> AgreeOn(p, q, name, same)
    ensures Matched(IdentityFields(p, paging), IdentityFields(q, paging), same)
  {
    forall m | m in IdentityFields(p, paging)
      ensures HasPartner(m, IdentityFields(q, paging), same)
    {
      var n := Member(m.key, Lookup(q, m.key));
      IdentityFieldIsLookup(p, paging, m.key, m.value);
      assert AgreeOn(p, q, m.key, same);
      IdentityFieldIsLookup(q, paging, n.key, n.value);
      assert Partner(m, n, same);
    }
    forall n | n in IdentityFields(q, paging)
      ensures IsPartner(n, IdentityFields(p, paging), same)
    {
      var m := Member(n.key, Lookup(p, n.key));
      IdentityFieldIsLookup(q, paging, n.key, n.value);
      assert AgreeOn(p, q, n.key, same);
      IdentityFieldIsLookup(p, paging, m.key, m.value);
      assert Partner(m, n, same);
    }
  }

  lemma PartnerIsLookup(m: Member, q: seq<Member>, paging: set<seq<CodePoint>>, same: Equality)
    requires UniqueKeys(q)
    requires HasPartner(m, IdentityFields(q, paging), same)
    ensures same(m.value, Lookup(q, m.key))
  {
    var n :| n in IdentityFields(q, paging) && Partner(m, n, same);
    IdentityFieldIsLookup(q, paging, n.key, n.value);
  }

  lemma LookupIsPartner(p: seq<Member>, n: Member, paging: set<seq<CodePoint>>, same: Equality)
    requires UniqueKeys(p)
    requires IsPartner(n, IdentityFields(p, paging), same)
    ensures Lookup(p, n.key) != Null
  {
    var m :| m in IdentityFields(p, paging) && Partner(m, n, same);
    IdentityFieldIsLookup(p, paging, m.key, m.value);
  }

  lemma MatchingAgrees(p: seq<Member>, q: seq<Member>, paging: set<seq<CodePoint>>, same: Equality,
                       name: seq<CodePoint>)
    requires UniqueKeys(p) && UniqueKeys(q) && NullAlone(same) && name !in paging
    requires Matched(IdentityFields(p, paging), IdentityFields(q, paging), same)
    ensures AgreeOn(p, q, name, same)
  {
    var v, w := Lookup(p, name), Lookup(q, name);
    IdentityFieldIsLookup(p, paging, name, v);
    IdentityFieldIsLookup(q, paging, name, w);
    if v != Null {
      PartnerIsLookup(Member(name, v), q, paging, same);
    } else if w != Null {
      LookupIsPartner(p, Member(name, w), paging, same);
    }
  }

  // ---------- the text of a query, spelled out ----------

  lemma {:induction false} JoinMore(texts: seq<Text>, last: Text)
    ensures Join(texts + [last]) == if texts == [] then last else Join(texts) + Ascii(",") + last
  {
    assert Ascii(",") == [COMMA];
    if texts != [] {
      JoinMore(texts[1..], last);
      assert (texts + [last])[1..] == texts[1..] + [last];
      if |texts| > 1 {
        var rest := Join(texts[1..]);
        assert texts[0] + [COMMA] + (rest + [COMMA] + last) == texts[0] + [COMMA] + rest + [COMMA] + last;
      }
    }
  }

  /** The words of the text. */
  lemma WordsSpelled()
    ensures Write(Null) == Ascii("null") && Write(Bool(true)) == Ascii("true") && Write(Bool(false)) == Ascii("false")
  {
  }

  /** The marks around arrays, objects, names and strings. */
  lemma MarksSpelled(items: seq<Value>, ms: seq<Member>, m: Member)
    ensures Write(Arr(items)) == Ascii("[") + Join(ItemTexts(items)) + Ascii("]")
    ensures Write(Obj(ms)) == Ascii("{") + Join(MemberTexts(ms)) + Ascii("}")
    ensures WriteMember(m) == WriteString(m.key) + Ascii(":") + Write(m.value)
    ensures WriteString(m.key) == Ascii("\"") + EscapeUnits(Utf16(m.key)) + Ascii("\"")
  {
    assert Ascii("[") == [LBRACKET] && Ascii("]") == [RBRACKET] && Ascii("{") == [LBRACE] && Ascii("}") == [RBRACE];
    assert Ascii(":") == [COLON] && Ascii("\"") == [QUOTE];
  }

  // ---------- the query id ----------

  lemma SameNull(v: Value)
    ensures Same(Null, v) <==> v == Null
    ensures Same(v, Null) <==> v == Null
  {
  }

  lemma SameObjectsAreMatched(ms: seq<Member>, ns: seq<Member>, same: Equality)
    requires forall v, w :: same(v, w) <==> Same(v, w)
    ensures Same(Obj(ms), Obj(ns)) <==> Matched(ms, ns, same)
  {
    forall m | m in ms
      ensures HasPartner(m, ns, same) <==> exists n :: n in ns && n.key == m.key && Same(m.value, n.value)
    {
      forall n | n in ns ensures Partner(m, n, same) <==> n.key == m.key && Same(m.value, n.value) { }
    }
    forall n | n in ns
      ensures IsPartner(n, ms, same) <==> exists m :: m in ms && n.key == m.key && Same(m.value, n.value)
    {
      forall m | m in ms ensures Partner(m, n, same) <==> n.key == m.key && Same(m.value, n.value) { }
    }
  }

  lemma AgreeingFieldsAreSame(p: seq<Member>, q: seq<Member>, paging: set<seq<CodePoint>>)
    requires UniqueKeys(p) && UniqueKeys(q)
    ensures Agree(p, q, paging) <==> Same(Obj(IdentityFields(p, paging)), Obj(IdentityFields(q, paging)))
  {
    ghost var same := (a, b) => Same(a, b);
    forall v ensures (same(Null, v) <==> v == Null) && (same(v, Null) <==> v == Null) {
      SameNull(v);
    }
    SameObjectsAreMatched(IdentityFields(p, paging), IdentityFields(q, paging), same);
    if Agree(p, q, paging) {
      AgreementMatches(p, q, paging, same);
    }
    if Matched(IdentityFields(p, paging), IdentityFields(q, paging), same) {
      forall name | name !in paging ensures AgreeOn(p, q, name, same) {
        MatchingAgrees(p, q, paging, same, name);
      }
    }
  }

  // ---------- objects that print alike ----------

  lemma {:induction false} RejoinedMembersContents(ms: seq<Member>, e: Member)
    ensures e in RejoinedMembers(ms) <==> exists m :: m in ms && e == Member(Joined(m.key), Rejoined(m.value))
  {
    if ms != [] {
      RejoinedMembersContents(ms[1..], e);
      assert ms[0] in ms && forall m :: m in ms <==> m == ms[0] || m in ms[1..];
    }
  }

  lemma {:induction false} RejoinedMembersKeepKeys(ms: seq<Member>)
    requires PlainNames(ms)
    ensures forall i :: 0 <= i < |ms| ==> RejoinedMembers(ms)[i].key == ms[i].key
  {
    if ms != [] {
      assert ms[0] in ms;
      RoundTripIffUnsplit(ms[0].key);
      RejoinedMembersKeepKeys(ms[1..]);
    }
  }

  /** A member as it stands in the canonical text. */
  function Printed(m: Member): Member {
    Member(m.key, Rejoined(SortKeys(m.value)))
  }

  function PrintedMembers(ms: seq<Member>): seq<Member> {
    RejoinedMembers(SortMembers(ms))
  }

  lemma PrintedMembersContents(ms: seq<Member>, e: Member)
    requires PlainNames(ms)
    ensures e in PrintedMembers(ms) <==> exists m :: m in ms && e == Printed(m)
  {
    RejoinedMembersContents(SortMembers(ms), e);
    forall m | m in ms ensures SortMember(m) in SortMembers(ms) && Joined(m.key) == m.key {
      SortMembersContents(ms, SortMember(m));
      RoundTripIffUnsplit(m.key);
    }
    forall n | n in SortMembers(ms) ensures exists m :: m in ms && n == SortMember(m) {
      SortMembersContents(ms, n);
    }
  }

  lemma PrintedMembersSorted(ms: seq<Member>)
    requires UniqueKeys(ms) && PlainNames(ms)
    ensures Sorted(PrintedMembers(ms)) && UniqueKeys(PrintedMembers(ms))
  {
    SortMembersSorted(ms);
    forall n | n in SortMembers(ms) ensures !HasSplitPair(n.key) {
      SortMembersContents(ms, n);
    }
    RejoinedMembersKeepKeys(SortMembers(ms));
  }

  lemma AlikePartners(m: Member, n: Member, same: Equality)
    requires forall v, w :: same(v, w) <==> Alike(v, w)
    ensures Partner(m, n, same) <==> Printed(m) == Printed(n)
  {
    assert same(m.value, n.value) <==> Alike(m.value, n.value);
  }

  /** Objects with plain names print alike exactly when their members match up, value by value. */
  lemma AlikeObjectsAreMatched(ms: seq<Member>, ns: seq<Member>, same: Equality)
    requires forall v, w :: same(v, w) <==> Alike(v, w)
    requires UniqueKeys(ms) && UniqueKeys(ns) && PlainNames(ms) && PlainNames(ns)
    ensures Alike(Obj(ms), Obj(ns)) <==> Matched(ms, ns, same)
  {
    forall m, n ensures Partner(m, n, same) <==> Printed(m) == Printed(n) {
      AlikePartners(m, n, same);
    }
    if Alike(Obj(ms), Obj(ns)) {
      forall m | m in ms ensures HasPartner(m, ns, same) {
        PrintedMembersContents(ms, Printed(m));
        PrintedMembersContents(ns, Printed(m));
      }
      forall n | n in ns ensures IsPartner(n, ms, same) {
        PrintedMembersContents(ms, Printed(n));
        PrintedMembersContents(ns, Printed(n));
      }
    }
    if Matched(ms, ns, same) {
      forall e ensures e in PrintedMembers(ms) <==> e in PrintedMembers(ns) {
        PrintedMembersContents(ms, e);
        PrintedMembersContents(ns, e);
        if m :| m in ms && e == Printed(m) { assert HasPartner(m, ns, same); }
        if n :| n in ns && e == Printed(n) { assert IsPartner(n, ms, same); }
      }
      PrintedMembersSorted(ms);
      PrintedMembersSorted(ns);
      SortedIsUnique(PrintedMembers(ms), PrintedMembers(ns));
    }
  }

  lemma {:induction false} PrintsNull(v: Value)
    ensures Rejoined(SortKeys(v)) == Null <==> v == Null
  {
  }

  /** The printed payloads are alike exactly when the requests agree, field by field and up to
      split pairs, outside the paging state. */
  lemma AgreeingFieldsAreAlike(p: seq<Member>, q: seq<Member>, paging: set<seq<CodePoint>>)
    requires Request(p) && Request(q) && PlainNames(p) && PlainNames(q)
    ensures AgreeAlike(p, q, paging) <==> Alike(Obj(IdentityFields(p, paging)), Obj(IdentityFields(q, paging)))
  {
    ghost var same := (a, b) => Alike(a, b);
    forall v ensures (same(Null, v) <==> v == Null) && (same(v, Null) <==> v == Null) {
      PrintsNull(v);
    }
    IdentityIsRequest(p, paging);
    IdentityIsRequest(q, paging);
    AlikeObjectsAreMatched(IdentityFields(p, paging), IdentityFields(q, paging), same);
    if AgreeAlike(p, q, paging) {
      AgreementMatches(p, q, paging, same);
    }
    if Matched(IdentityFields(p, paging), IdentityFields(q, paging), same) {
      forall name | name !in paging ensures AgreeOn(p, q, name, same) {
        MatchingAgrees(p, q, paging, same, name);
      }
    }
  }

  // ---------- which requests share a query id ----------

  /** Unless their two texts collide under the hash, any two requests share a query id exactly
      when their identity fields are equal up to member order and the joining of split pairs. */
  lemma QueryIdIffAlike(p: seq<Member>, q: seq<Member>, hash: Text -> Digest)
    requires Request(p) && Request(q)
    requires NoCollision(IdentityText(p), IdentityText(q), hash)
    ensures QueryId(p, hash) == QueryId(q, hash) <==>
      Alike(Obj(IdentityFields(p, PAGING)), Obj(IdentityFields(q, PAGING)))
  {
    IdentityIsRequest(p, PAGING);
    IdentityIsRequest(q, PAGING);
    CanonicalIffAlike(Obj(IdentityFields(p, PAGING)), Obj(IdentityFields(q, PAGING)));
  }

  /** With plain names that is an agreement field by field: the values under every name outside
      the paging state are equal up to member order and the joining of split pairs. */
  lemma QueryIdIffFieldsAlike(p: seq<Member>, q: seq<Member>, hash: Text -> Digest)
    requires Request(p) && Request(q) && PlainNames(p) && PlainNames(q)
    requires NoCollision(IdentityText(p), IdentityText(q), hash)
    ensures QueryId(p, hash) == QueryId(q, hash) <==> AgreeAlike(p, q, PAGING)
  {
    QueryIdIffAlike(p, q, hash);
    AgreeingFieldsAreAlike(p, q, PAGING);
  }

  /** Where no string holds a split pair, two requests share a query id exactly when they agree
      on every field other than the paging state. */
  lemma QueryIdIsIdentity(p: seq<Member>, q: seq<Member>, hash: Text -> Digest)
    requires Request(p) && Request(q) && Unsplit(Obj(p)) && Unsplit(Obj(q))
    requires NoCollision(IdentityText(p), IdentityText(q), hash)
    ensures QueryId(p, hash) == QueryId(q, hash) <==> Agree(p, q, PAGING)
  {
    QueryIdIffAlike(p, q, hash);
    IdentityIsRequest(p, PAGING);
    IdentityIsRequest(q, PAGING);
    UnsplitAlikeIsSame(Obj(IdentityFields(p, PAGING)), Obj(IdentityFields(q, PAGING)));
    AgreeingFieldsAreSame(p, q, PAGING);
  }

  /** The same two laws by name: a query id leaves out just the two bounds, the cursor and the
      offset.  Any other field tells requests apart. */
  lemma QueryIdLeavesOutFourNames(p: seq<Member>, q: seq<Member>, hash: Text -> Digest)
    requires Request(p) && Request(q) && PlainNames(p) && PlainNames(q)
    requires NoCollision(IdentityText(p), IdentityText(q), hash)
    ensures QueryId(p, hash) == QueryId(q, hash) <==>
      AgreeAlike(p, q, {Ascii("act_date"), Ascii("known_at"), Ascii("cursor"), Ascii("offset")})
    ensures Unsplit(Obj(p)) && Unsplit(Obj(q)) ==>
      (QueryId(p, hash) == QueryId(q, hash) <==>
       Agree(p, q, {Ascii("act_date"), Ascii("known_at"), Ascii("cursor"), Ascii("offset")}))
  {
    QueryIdIffFieldsAlike(p, q, hash);
    if Unsplit(Obj(p)) && Unsplit(Obj(q)) { QueryIdIsIdentity(p, q, hash); }
  }

  lemma {:induction false} LookupAfterSwap(fields: seq<Member>, i: nat, v: Value, name: seq<CodePoint>)
    requires UniqueKeys(fields) && i < |fields|
    ensures Lookup(fields[i := Member(fields[i].key, v)], name) ==
      if name == fields[i].key then v else Lookup(fields, name)
    ensures Lookup(fields, fields[i].key) == fields[i].value
  {
    LookupFinds(fields, fields[i]);
    if i > 0 {
      LookupAfterSwap(fields[1..], i - 1, v, name);
      assert fields[i := Member(fields[i].key, v)][1..] == fields[1..][i - 1 := Member(fields[i].key, v)];
    }
  }

  /** Under every hash a request with a split string in a field that counts shares its id with a
      request that disagrees with it: the one that holds the joined string instead. */
  lemma SplitFieldSharesId(p: seq<Member>, i: nat, s: seq<CodePoint>, hash: Text -> Digest)
    requires Request(p) && PlainNames(p) && i < |p|
    requires p[i].value == Str(s) && HasSplitPair(s) && p[i].key !in PAGING
    ensures var q := p[i := Member(p[i].key, Str(Joined(s)))];
      Request(q) && !Agree(p, q, PAGING) && QueryId(p, hash) == QueryId(q, hash)
  {
    var q := p[i := Member(p[i].key, Str(Joined(s)))];
    SplitPairsCollide(s);
    RoundTripIffUnsplit(Joined(s));
    forall m | m in q ensures WellFormed(m.value) && !HasSplitPair(m.key) {
      assert m in p || m == q[i];
    }
    forall name ensures Alike(Lookup(p, name), Lookup(q, name)) {
      LookupAfterSwap(p, i, Str(Joined(s)), name);
    }
    LookupAfterSwap(p, i, Str(Joined(s)), p[i].key);
    assert !Same(Lookup(p, p[i].key), Lookup(q, p[i].key));
    AgreeingFieldsAreAlike(p, q, PAGING);
    IdentityIsRequest(p, PAGING);
    IdentityIsRequest(q, PAGING);
    CanonicalIffAlike(Obj(IdentityFields(p, PAGING)), Obj(IdentityFields(q, PAGING)));
  }
}
