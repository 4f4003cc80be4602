/** The lock that a timer's client shares with its delegates. The atomic counter is
    updated in place; TimerSystem.dfy has its runs. */
module LocSharedLock {
  import TimerSystem

  class LocSharedLock {
    var mRef: int
    var freed: bool
    /** Who may still use the lock. */
    ghost var holders: nat

    /** The count is the number of holders, and the lock is there while it has any. */
    ghost predicate Valid()
      reads this
    {
      mRef == holders && (freed <==> holders == 0)
    }

    /** The first client. */
    constructor ()
      ensures Valid() && holders == 1
    {
      mRef, freed, holders := 1, false, 1;
    }

    /** The count as one entry of the table of locks, absent once freed. */
    ghost function InTable(c: nat): map<nat, int>
      reads this
    {
      var none: map<nat, int> := map[];
      if freed then none else none[c := mRef]
    }

    method Share(ghost c: nat)
      requires Valid() && holders > 0
      modifies this
      ensures Valid() && holders == old(holders) + 1 && !freed
      ensures InTable(c) == TimerSystem.Share(old(InTable(c)), c)
    {
      mRef := mRef + 1;
      holders := holders + 1;
    }

    /** The holder that drops the lock last frees it. */
    method Drop(ghost c: nat)
      requires Valid() && holders > 0
      modifies this
      ensures Valid() && holders == old(holders) - 1
      ensures freed <==> old(holders) == 1
      ensures InTable(c) == TimerSystem.DropLock(old(InTable(c)), c)
    {
      var before := mRef;
      mRef := mRef - 1;
      holders := holders - 1;
      if before == 1 {
        freed := true;
      }
    }
  }
}
