/**
  Child rows read back in any order and put in place by their ordinal.
 */
module OrderedRows {
  import opened Prelude

  /** Every row stands at the position its ordinal names. */
  ghost predicate Arranged<T>(rows: multiset<T>, r: seq<T>, ordinal: T -> int) {
    multiset(r) == rows && forall i :: 0 <= i < |r| ==> ordinal(r[i]) == i
  }

  /** The one arrangement of the rows by ordinal, if there is one. */
  ghost function Arrangement<T(!new)>(rows: multiset<T>, ordinal: T -> int): Option<seq<T>> {
    if exists r :: Arranged(rows, r, ordinal) then
      var r :| Arranged(rows, r, ordinal);
      Some(r)
    else None
  }

  function Ordinals<T>(rows: seq<T>, ordinal: T -> int): (os: seq<int>)
    ensures |os| == |rows| && forall i :: 0 <= i < |rows| ==> os[i] == ordinal(rows[i])
  {
    seq(|rows|, i requires 0 <= i < |rows| => ordinal(rows[i]))
  }

  function Range(n: nat): (r: seq<int>)
    ensures |r| == n && forall i :: 0 <= i < n ==> r[i] == i
  {
    seq(n, i => i)
  }

  lemma ArrangementIsUnique<T(!new)>(rows: multiset<T>, r: seq<T>, ordinal: T -> int)
    requires Arranged(rows, r, ordinal)
    ensures Arrangement(rows, ordinal) == Some(r)
  {
    var s := Arrangement(rows, ordinal).value;
    assert |s| == |multiset(s)| == |multiset(r)| == |r|;
    forall i | 0 <= i < |r| ensures s[i] == r[i] {
      assert s[i] in multiset(r);
      var j :| 0 <= j < |r| && r[j] == s[i];
    }
    assert s == r;
  }

  // ---------- sorting ----------

  ghost predicate Sorted<T>(rows: seq<T>, ordinal: T -> int) {
    forall i, j :: 0 <= i < j < |rows| ==> ordinal(rows[i]) <= ordinal(rows[j])
  }

  function Insert<T>(row: T, rows: seq<T>, ordinal: T -> int): seq<T> {
    if rows == [] || ordinal(row) <= ordinal(rows[0]) then [row] + rows
    else [rows[0]] + Insert(row, rows[1..], ordinal)
  }

  function Sort<T>(rows: seq<T>, ordinal: T -> int): seq<T> {
    if rows == [] then [] else Insert(rows[0], Sort(rows[1..], ordinal), ordinal)
  }

  lemma {:induction false} InsertContents<T>(row: T, rows: seq<T>, ordinal: T -> int)
    ensures multiset(Insert(row, rows, ordinal)) == multiset(rows) + multiset{row}
  {
    if !(rows == [] || ordinal(row) <= ordinal(rows[0])) {
      InsertContents(row, rows[1..], ordinal);
      assert rows == [rows[0]] + rows[1..];
    }
  }

  lemma {:induction false} InsertSorts<T>(row: T, rows: seq<T>, ordinal: T -> int)
    requires Sorted(rows, ordinal)
    ensures Sorted(Insert(row, rows, ordinal), ordinal)
  {
    if !(rows == [] || ordinal(row) <= ordinal(rows[0])) {
      InsertSorts(row, rows[1..], ordinal);
      var tail := Insert(row, rows[1..], ordinal);
      forall j | 0 <= j < |tail| ensures ordinal(rows[0]) <= ordinal(tail[j]) {
        InsertContents(row, rows[1..], ordinal);
        assert tail[j] in multiset(tail);
        assert tail[j] in rows[1..] || tail[j] == row;
      }
    }
  }

  lemma {:induction false} SortSorts<T>(rows: seq<T>, ordinal: T -> int)
    ensures Sorted(Sort(rows, ordinal), ordinal)
    ensures multiset(Sort(rows, ordinal)) == multiset(rows)
  {
    if rows != [] {
      SortSorts(rows[1..], ordinal);
      InsertSorts(rows[0], Sort(rows[1..], ordinal), ordinal);
      InsertContents(rows[0], Sort(rows[1..], ordinal), ordinal);
      assert rows == [rows[0]] + rows[1..];
    }
  }

  // ---------- when the ordinals fit ----------

  function Without<T>(s: seq<T>, k: nat): seq<T>
    requires k < |s|
  {
    s[..k] + s[k + 1..]
  }

  lemma WithoutContents<T>(s: seq<T>, k: nat)
    requires k < |s|
    ensures multiset(s) == multiset(Without(s, k)) + multiset{s[k]}
    ensures multiset(Without(s, k)) == multiset(s) - multiset{s[k]}
    ensures s[1..] == Without(s, 0)
  {
    assert s == s[..k] + [s[k]] + s[k + 1..];
  }

  lemma WithoutOrdinals<T>(rows: seq<T>, k: nat, ordinal: T -> int)
    requires k < |rows|
    ensures Ordinals(Without(rows, k), ordinal) == Without(Ordinals(rows, ordinal), k)
  {
  }

  lemma {:induction false} SameRowsSameOrdinals<T>(rows: seq<T>, r: seq<T>, ordinal: T -> int)
    requires multiset(rows) == multiset(r)
    ensures multiset(Ordinals(rows, ordinal)) == multiset(Ordinals(r, ordinal))
    decreases |rows|
  {
    if rows == [] {
      assert |r| == |multiset(r)| == 0;
    } else {
      assert rows[0] in multiset(r);
      var k :| 0 <= k < |r| && r[k] == rows[0];
      WithoutContents(rows, 0);
      WithoutContents(r, k);
      SameRowsSameOrdinals(Without(rows, 0), Without(r, k), ordinal);
      WithoutOrdinals(rows, 0, ordinal);
      WithoutOrdinals(r, k, ordinal);
      WithoutContents(Ordinals(rows, ordinal), 0);
      WithoutContents(Ordinals(r, ordinal), k);
    }
  }

  ghost predicate Ascending(s: seq<int>) {
    forall i, j :: 0 <= i < j < |s| ==> s[i] <= s[j]
  }

  lemma SmallestFirst(s: seq<int>, t: seq<int>)
    requires multiset(s) == multiset(t) && Ascending(s) && Ascending(t) && s != [] && t != []
    ensures s[0] == t[0]
  {
    assert s[0] in multiset(t) && t[0] in multiset(s);
  }

  lemma SameContentsSameLength<T>(s: seq<T>, t: seq<T>)
    requires multiset(s) == multiset(t)
    ensures |s| == |t|
  {
    assert |s| == |multiset(s)| == |multiset(t)| == |t|;
  }

  lemma SameTails(s: seq<int>, t: seq<int>)
    requires multiset(s) == multiset(t) && s != [] && t != [] && s[0] == t[0]
    ensures multiset(s[1..]) == multiset(t[1..])
    ensures s[1..] == t[1..] ==> s == t
  {
    WithoutContents(s, 0);
    WithoutContents(t, 0);
    assert s == [s[0]] + s[1..] && t == [t[0]] + t[1..];
  }

  /** A sorted sequence is determined by its contents. */
  lemma {:induction false} SortedIsUnique(s: seq<int>, t: seq<int>)
    requires multiset(s) == multiset(t) && Ascending(s) && Ascending(t)
    ensures s == t
  {
    SameContentsSameLength(s, t);
    if s != [] {
      SmallestFirst(s, t);
      SameTails(s, t);
      SortedIsUnique(s[1..], t[1..]);
    }
  }

  /** Rows can be arranged exactly when their ordinals are 0 to n-1, each once, in some order;
      sorting then arranges them. */
  lemma ArrangementIffPermutation<T(!new)>(rows: seq<T>, ordinal: T -> int)
    ensures Arrangement(multiset(rows), ordinal).Some? <==>
      multiset(Ordinals(rows, ordinal)) == multiset(Range(|rows|))
    ensures Arrangement(multiset(rows), ordinal).Some? ==>
      Arrangement(multiset(rows), ordinal) == Some(Sort(rows, ordinal))
  {
    var r := Sort(rows, ordinal);
    SortSorts(rows, ordinal);
    assert |r| == |multiset(r)| == |multiset(rows)| == |rows|;
    SameRowsSameOrdinals(rows, r, ordinal);
    if multiset(Ordinals(rows, ordinal)) == multiset(Range(|rows|)) {
      SortedIsUnique(Ordinals(r, ordinal), Range(|rows|));
      assert forall i :: 0 <= i < |r| ==> Ordinals(r, ordinal)[i] == i;
      ArrangementIsUnique(multiset(rows), r, ordinal);
    }
    if Arrangement(multiset(rows), ordinal).Some? {
      var s := Arrangement(multiset(rows), ordinal).value;
      SameRowsSameOrdinals(rows, s, ordinal);
      assert |s| == |multiset(s)| == |rows|;
      assert Ordinals(s, ordinal) == Range(|rows|);
    }
  }

  lemma RepeatsDoNotFit(os: seq<int>, n: nat, i: nat, j: nat)
    requires i < j < |os| && os[i] == os[j]
    ensures multiset(os) != multiset(Range(n))
  {
    assert os == os[..i] + [os[i]] + os[i + 1..j] + [os[j]] + os[j + 1..];
    assert multiset(os)[os[i]] >= 2;
    RangeHoldsEachOnce(n, os[i]);
  }

  lemma {:induction false} RangeHoldsEachOnce(n: nat, k: int)
    ensures multiset(Range(n))[k] == if 0 <= k < n then 1 else 0
  {
    if n > 0 {
      assert Range(n) == Range(n - 1) + [n - 1];
      RangeHoldsEachOnce(n - 1, k);
    }
  }

  /** The rows in order; a negative, repeated or skipped ordinal is refused. */
  method Order<T(!new)>(rows: seq<T>, ordinal: T -> int) returns (r: Option<seq<T>>)
    ensures r == Arrangement(multiset(rows), ordinal)
  {
    var seen: set<int> := {};
    ArrangementIffPermutation(rows, ordinal);
    ghost var os := Ordinals(rows, ordinal);
    for n := 0 to |rows|
      invariant seen == set i | 0 <= i < n :: ordinal(rows[i])
    {
      var o := ordinal(rows[n]);
      if o < 0 || o in seen {
        if o < 0 {
          RangeHoldsEachOnce(|rows|, o);
          assert os[n] in multiset(os);
        } else {
          ghost var i :| 0 <= i < n && ordinal(rows[i]) == o;
          RepeatsDoNotFit(os, |rows|, i, n);
        }
        return None;
      }
      seen := seen + {o};
    }
    var values := Sort(rows, ordinal);
    SortSorts(rows, ordinal);
    if exists i :: 0 <= i < |values| && ordinal(values[i]) != i { return None; }
    ArrangementIsUnique(multiset(rows), values, ordinal);
    return Some(values);
  }
}
