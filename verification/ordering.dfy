/**
 Ordering the primary keys of the table: the order in which the list
 endpoint returns rows, and one admissible fresh-key allocator (SQLite's
 default rowid rule).
 */
module Ordering {

  /** `m` is the least element of `s`. */
  predicate IsLeast(m: int, s: set<int>) {
    m in s && forall k :: k in s ==> m <= k
  }

  /** Strictly ascending, hence free of duplicates. */
  ghost predicate Ascending(ids: seq<int>) {
    forall i, j :: 0 <= i < j < |ids| ==> ids[i] < ids[j]
  }

  /** A non-empty set has a member. */
  lemma HasMember(s: set<int>)
    requires s != {}
    ensures exists k :: k in s
  {
    if forall k :: k !in s {
      assert false;
    }
  }

  /** Every non-empty finite set of integers has a least element. */
  lemma {:induction false} LeastExists(s: set<int>)
    requires s != {}
    ensures exists m :: IsLeast(m, s)
    decreases s
  {
    HasMember(s);
    var x :| x in s;
    var rest := s - {x};
    if s == {x} {
      assert IsLeast(x, s);
    } else {
      assert rest != {} by {
        if rest == {} {
          assert false;
        }
      }
      LeastExists(rest);
      var m :| IsLeast(m, rest);
      var least := if x <= m then x else m;
      forall k | k in s
        ensures least <= k
      {
        if k != x {
          assert k in rest;
        }
      }
      assert IsLeast(least, s);
    }
  }

  /** The elements of `s` in ascending order. */
  function SortedIds(s: set<int>): (ids: seq<int>)
    ensures |ids| == |s|
    ensures forall i :: 0 <= i < |ids| ==> ids[i] in s
    ensures forall k :: k in s ==> k in ids
    ensures Ascending(ids)
    decreases s
  {
    if s == {} then []
    else
      LeastExists(s);
      var m :| IsLeast(m, s);
      [m] + SortedIds(s - {m})
  }

  /** One admissible fresh-key allocator, SQLite's default rowid rule: one
      more than the largest key in use, or 1 for an empty table. It reuses the
      key of a deleted largest row. */
  function NextId(s: set<int>): (n: int)
    ensures n !in s
    ensures forall k :: k in s ==> k < n
  {
    var ids := SortedIds(s);
    if |ids| == 0 then 1
    else
      assert forall k :: k in s ==> k <= ids[|ids| - 1] by {
        forall k | k in s ensures k <= ids[|ids| - 1] {
          var i :| 0 <= i < |ids| && ids[i] == k;
          assert i == |ids| - 1 || ids[i] < ids[|ids| - 1];
        }
      }
      ids[|ids| - 1] + 1
  }
}
