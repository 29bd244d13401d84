/** The two association tables: `counter_category`, which counters serve which
    categories, and `user_counters`, which counter a staff member works at.
    Both hold pairs (owner id, linked id) — (counter_id, category_id) and
    (user_id, counter_id) — and both are read and cleared by owner, so one
    definition serves both. Rows are kept in insertion order; the reads return
    the linked ids in that order, and the deletes remove every row of one owner. */
module Associations {
  /** One association row: the owner's id and the id it is linked to — a
      `counter_category` row is (counter_id, category_id), a `user_counters`
      row is (user_id, counter_id). */
  datatype Association = Association(owner: int, linked: int)

  /** `SELECT category_id FROM counter_category WHERE counter_id = $1`, and
      `SELECT counter_id FROM user_counters WHERE user_id = $1`: the linked ids
      of one owner in row order. */
  function LinkedIds(rows: seq<Association>, owner: int): (ids: seq<int>)
    ensures |ids| <= |rows|
  {
    if |rows| == 0 then []
    else
      var last := rows[|rows| - 1];
      LinkedIds(rows[..|rows| - 1], owner) + (if last.owner == owner then [last.linked] else [])
  }

  /** Every id read for an owner comes from one of its rows. */
  lemma {:induction false} LinkedIdsFromRows(rows: seq<Association>, owner: int)
    ensures forall k | k in LinkedIds(rows, owner) :: Association(owner, k) in rows
  {
    if |rows| > 0 {
      var n := |rows| - 1;
      LinkedIdsFromRows(rows[..n], owner);
      assert rows == rows[..n] + [rows[n]];
    }
  }

  /** `DELETE FROM counter_category WHERE counter_id = $1`, and
      `DELETE FROM user_counters WHERE user_id = $1`. */
  function WithoutOwner(rows: seq<Association>, owner: int): (r: seq<Association>)
    ensures |r| <= |rows|
  {
    if |rows| == 0 then []
    else
      var last := rows[|rows| - 1];
      WithoutOwner(rows[..|rows| - 1], owner) + (if last.owner == owner then [] else [last])
  }

  /** The delete keeps exactly the rows of the other owners. */
  lemma {:induction false} WithoutOwnerRows(rows: seq<Association>, owner: int)
    ensures forall x | x in WithoutOwner(rows, owner) :: x in rows && x.owner != owner
    ensures forall x | x in rows && x.owner != owner :: x in WithoutOwner(rows, owner)
  {
    if |rows| > 0 {
      var n := |rows| - 1;
      WithoutOwnerRows(rows[..n], owner);
      assert rows == rows[..n] + [rows[n]];
    }
  }

  /** The rows one owner gets for a list of ids, in list order. */
  function Links(owner: int, ids: seq<int>): (r: seq<Association>)
    ensures |r| == |ids|
    ensures forall j | 0 <= j < |r| :: r[j] == Association(owner, ids[j])
  {
    seq(|ids|, j requires 0 <= j < |ids| => Association(owner, ids[j]))
  }

  lemma LinksAppend(owner: int, ids: seq<int>, i: int)
    requires 0 <= i < |ids|
    ensures Links(owner, ids[..i + 1]) == Links(owner, ids[..i]) + [Association(owner, ids[i])]
  {
  }

  /** Reading the ids of a concatenation reads each part in turn. */
  lemma {:induction false} LinkedIdsConcat(a: seq<Association>, b: seq<Association>, owner: int)
    ensures LinkedIds(a + b, owner) == LinkedIds(a, owner) + LinkedIds(b, owner)
  {
    if |b| > 0 {
      var n := |b| - 1;
      assert (a + b)[..|a + b| - 1] == a + b[..n];
      assert (a + b)[|a + b| - 1] == b[n];
      LinkedIdsConcat(a, b[..n], owner);
    } else {
      assert a + b == a;
    }
  }

  lemma {:induction false} WithoutOwnerConcat(a: seq<Association>, b: seq<Association>, owner: int)
    ensures WithoutOwner(a + b, owner) == WithoutOwner(a, owner) + WithoutOwner(b, owner)
  {
    if |b| > 0 {
      var n := |b| - 1;
      assert (a + b)[..|a + b| - 1] == a + b[..n];
      assert (a + b)[|a + b| - 1] == b[n];
      WithoutOwnerConcat(a, b[..n], owner);
    } else {
      assert a + b == a;
    }
  }

  /** The rows written for a list read back as that list, and as nothing for any other owner. */
  lemma {:induction false} LinksReadBack(owner: int, ids: seq<int>, other: int)
    requires other != owner
    ensures LinkedIds(Links(owner, ids), owner) == ids
    ensures LinkedIds(Links(owner, ids), other) == []
    ensures WithoutOwner(Links(owner, ids), owner) == []
  {
    var r := Links(owner, ids);
    if |ids| > 0 {
      var n := |ids| - 1;
      var front := Links(owner, ids[..n]);
      assert r[..n] == front;
      assert r[n] == Association(owner, ids[n]);
      LinksReadBack(owner, ids[..n], other);
      assert LinkedIds(r, owner) == LinkedIds(front, owner) + [ids[n]];
      assert LinkedIds(r, other) == LinkedIds(front, other);
      assert WithoutOwner(r, owner) == WithoutOwner(front, owner);
      assert ids[..n] + [ids[n]] == ids;
    }
  }

  lemma LinkedIdsAppend(rows: seq<Association>, row: Association, owner: int)
    ensures LinkedIds(rows + [row], owner)
      == LinkedIds(rows, owner) + (if row.owner == owner then [row.linked] else [])
  {
    assert (rows + [row])[..|rows|] == rows;
  }

  /** After the delete the owner has no linked id. */
  lemma {:induction false} WithoutOwnerClears(rows: seq<Association>, owner: int)
    ensures LinkedIds(WithoutOwner(rows, owner), owner) == []
  {
    if |rows| > 0 {
      var n := |rows| - 1;
      var kept := WithoutOwner(rows[..n], owner);
      WithoutOwnerClears(rows[..n], owner);
      if rows[n].owner != owner {
        assert WithoutOwner(rows, owner) == kept + [rows[n]];
        LinkedIdsAppend(kept, rows[n], owner);
      } else {
        assert WithoutOwner(rows, owner) == kept;
      }
    }
  }

  /** The delete leaves every other owner's list as it was. */
  lemma {:induction false} WithoutOwnerKeepsOthers(rows: seq<Association>, owner: int, other: int)
    requires other != owner
    ensures LinkedIds(WithoutOwner(rows, owner), other) == LinkedIds(rows, other)
  {
    if |rows| > 0 {
      var n := |rows| - 1;
      var kept := WithoutOwner(rows[..n], owner);
      WithoutOwnerKeepsOthers(rows[..n], owner, other);
      if rows[n].owner != owner {
        assert WithoutOwner(rows, owner) == kept + [rows[n]];
        LinkedIdsAppend(kept, rows[n], other);
      } else {
        assert WithoutOwner(rows, owner) == kept;
        assert LinkedIds(rows, other) == LinkedIds(rows[..n], other);
      }
    }
  }

  /** After the delete the owner has no linked id, and every other owner keeps its list. */
  lemma WithoutOwnerReads(rows: seq<Association>, owner: int, other: int)
    requires other != owner
    ensures LinkedIds(WithoutOwner(rows, owner), owner) == []
    ensures LinkedIds(WithoutOwner(rows, owner), other) == LinkedIds(rows, other)
  {
    WithoutOwnerClears(rows, owner);
    WithoutOwnerKeepsOthers(rows, owner, other);
  }

  /** Deleting the rows of an owner that has none changes nothing. */
  lemma {:induction false} WithoutAbsentOwner(rows: seq<Association>, owner: int)
    requires forall i | 0 <= i < |rows| :: rows[i].owner != owner
    ensures WithoutOwner(rows, owner) == rows
  {
    if |rows| > 0 {
      var n := |rows| - 1;
      WithoutAbsentOwner(rows[..n], owner);
      assert rows[..n] + [rows[n]] == rows;
    }
  }

  /** Deleting twice deletes no more than once. */
  lemma WithoutOwnerIdempotent(rows: seq<Association>, owner: int)
    ensures WithoutOwner(WithoutOwner(rows, owner), owner) == WithoutOwner(rows, owner)
  {
    var kept := WithoutOwner(rows, owner);
    WithoutOwnerRows(rows, owner);
    assert forall i | 0 <= i < |kept| :: kept[i] in kept;
    WithoutAbsentOwner(kept, owner);
  }
}
