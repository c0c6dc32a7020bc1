/**
 `ACLGetCommandID` (acl.c): sequential command ids, one per name whatever its case,
 never the reserved bit.
 */
module AclIds {
  import opened AclText
  import opened AclRules

  class CommandIds {
    var ids: map<string, nat>
    var nextId: nat

    ghost predicate Valid()
      reads this
    {
      && nextId != RESERVED_BIT
      && (forall n :: n in ids ==> Lower(n) == n && ids[n] < nextId && ids[n] != RESERVED_BIT)
      && (forall n, m :: n in ids && m in ids && ids[n] == ids[m] ==> n == m)
    }

    constructor ()
      ensures Valid() && ids == map[]
    {
      ids := map[];
      nextId := 0;
    }

    method GetCommandId(name: string) returns (id: nat)
      requires Valid()
      modifies this
      ensures Valid() && id != RESERVED_BIT
      ensures Lower(name) in ids && ids[Lower(name)] == id
      ensures Lower(name) in old(ids) ==> ids == old(ids)
      ensures Lower(name) !in old(ids) ==> ids == old(ids)[Lower(name) := id] && id !in old(ids).Values
    {
      var low := Lower(name);
      if low in ids { return ids[low]; }
      LowerIdempotent(name);
      id := nextId;
      ids := ids[low := id];
      nextId := nextId + 1;
      if nextId == RESERVED_BIT { nextId := nextId + 1; }
    }
  }
}
