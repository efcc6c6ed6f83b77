/** A request to whoever owns the bus: asked by any thread, taken by the owner. The two steps of
    a take that other threads can come between are in BusOwnership. */
module BusRequest {

  class BusRequest {
    var asked: bool

    /** Groups of requests: opened by one that finds none pending, carried out by a take that
        finds one, dropped by a clear. */
    ghost var groups: nat
    ghost var carried: nat
    ghost var dropped: nat

    /** No group is lost and none is carried out twice. */
    ghost predicate Valid()
      reads this
    {
      groups == carried + dropped + (if asked then 1 else 0)
    }

    constructor ()
      ensures Valid() && !asked && groups == 0
    {
      asked, groups, carried, dropped := false, 0, 0, 0;
    }

    method Request()
      requires Valid()
      modifies this
      ensures Valid() && asked && carried == old(carried) && dropped == old(dropped)
      ensures groups == old(groups) + (if old(asked) then 0 else 1)
    {
      if !asked { groups := groups + 1; }
      asked := true;
    }

    method Take() returns (taken: bool)
      requires Valid()
      modifies this
      ensures Valid() && !asked && taken == old(asked) && groups == old(groups) && dropped == old(dropped)
      ensures carried == old(carried) + (if taken then 1 else 0)
    {
      if !asked { return false; }
      taken, asked := asked, false;
      carried := carried + 1;
    }

    method Clear()
      requires Valid()
      modifies this
      ensures Valid() && !asked && groups == old(groups) && carried == old(carried)
      ensures dropped == old(dropped) + (if old(asked) then 1 else 0)
    {
      if asked { dropped := dropped + 1; }
      asked := false;
    }
  }
}
