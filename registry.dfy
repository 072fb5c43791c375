/** Queries on the `vps` table, seen as a map from row id to row. */
module Registry {
  import opened Types

  type Table = map<int, Vps>

  /** `get_vps_by_id`: the row with that id, if any. */
  function Lookup(t: Table, id: int): (r: Option<Vps>)
    ensures r.Some? <==> id in t
    ensures r.Some? ==> r.value == t[id]
  {
    if id in t then Some(t[id]) else None
  }

  /** `get_user_vps`: the rows owned by `owner`, with their ids. The query has
      no ORDER BY, so the result is a map and promises no order. */
  function ByOwner(t: Table, owner: UserId): (r: Table)
    ensures forall id :: id in r <==> id in t && t[id].owner == owner
    ensures forall id :: id in r ==> r[id] == t[id]
  {
    map id | id in t && t[id].owner == owner :: t[id]
  }

  /** Removing one of an owner's rows shrinks that owner's listing by one. */
  lemma ByOwnerAfterRemove(t: Table, id: int, owner: UserId)
    requires id in t && t[id].owner == owner
    ensures |ByOwner(t - {id}, owner)| == |ByOwner(t, owner)| - 1
  {
    var before, after := ByOwner(t, owner), ByOwner(t - {id}, owner);
    assert after.Keys == before.Keys - {id} by {
      forall k ensures k in after.Keys <==> k in before.Keys - {id} {
      }
    }
  }

  /** Removing a row leaves every other owner's listing as it was. */
  lemma ByOwnerAfterRemoveOther(t: Table, id: int, owner: UserId)
    requires id in t && t[id].owner != owner
    ensures ByOwner(t - {id}, owner) == ByOwner(t, owner)
  {
  }

  /** Adding a row under a fresh id grows its owner's listing by one. */
  lemma ByOwnerAfterInsert(t: Table, id: int, row: Vps)
    requires id !in t
    ensures |ByOwner(t[id := row], row.owner)| == |ByOwner(t, row.owner)| + 1
  {
    var before, after := ByOwner(t, row.owner), ByOwner(t[id := row], row.owner);
    assert after.Keys == before.Keys + {id} by {
      forall k ensures k in after.Keys <==> k in before.Keys + {id} {
        if k != id {
          assert k in t[id := row] <==> k in t;
        }
      }
    }
  }

  /** Adding a row leaves every other owner's listing as it was. */
  lemma ByOwnerAfterInsertOther(t: Table, id: int, row: Vps, owner: UserId)
    requires id !in t && row.owner != owner
    ensures ByOwner(t[id := row], owner) == ByOwner(t, owner)
  {
  }
}
