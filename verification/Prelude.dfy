/** Shared vocabulary: optional values, identities and instants. */
module Prelude {

  datatype Option<+T> = None | Some(value: T)

  /** A UUID; only its identity matters to the tables that carry it. */
  type Uuid = int

  /** An aware UTC instant on one totally ordered axis. */
  type Instant = int

  /** The characters that stripping a text removes from its ends. */
  predicate Whitespace(c: int) {
    || 0x09 <= c <= 0x0D || 0x1C <= c <= 0x20 || c == 0x85 || c == 0xA0 || c == 0x1680
    || 0x2000 <= c <= 0x200A || c == 0x2028 || c == 0x2029 || c == 0x202F || c == 0x205F || c == 0x3000
  }

  lemma WhitespaceListed(c: int)
    ensures Whitespace(c) <==> c in [
      0x09, 0x0A, 0x0B, 0x0C, 0x0D, 0x1C, 0x1D, 0x1E, 0x1F, 0x20, 0x85, 0xA0, 0x1680, 0x2000, 0x2001, 0x2002, 0x2003,
      0x2004, 0x2005, 0x2006, 0x2007, 0x2008, 0x2009, 0x200A, 0x2028, 0x2029, 0x202F, 0x205F, 0x3000]
  {
  }

  /** A set that is not empty has a member to pick. */
  lemma AnyMember<T>(s: set<T>) returns (x: T)
    requires s != {}
    ensures x in s
  {
    var empty: set<T> := {};
    assert s == empty || exists y :: y in s;
    x :| x in s;
  }
}
