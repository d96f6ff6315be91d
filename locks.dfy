/**
 * InventoryLockListener: the registry of players whose inventory is being
 * loaded or saved, and the four event handlers that keep such a player
 * from touching items in the meantime. Every name is lower-cased on the
 * way in, so locking is case-insensitive.
 */
module Locks {
  import opened JavaStrings

  class InventoryLockListener {
    /** `locked`: the lower-cased names of the locked players. */
    var locked: set<string>

    /** Only lower-cased names are ever stored. */
    ghost predicate Valid()
      reads this
    {
      forall n :: n in locked ==> Lower(n) == n
    }

    constructor()
      ensures locked == {} && Valid()
    {
      locked := {};
    }

    /** `isLocked(name)`. */
    predicate IsLocked(name: string)
      reads this
    {
      Lower(name) in locked
    }

    /** `addLock(name)`: true iff the name was not locked yet; afterwards it is. */
    method AddLock(name: string) returns (added: bool)
      requires Valid()
      modifies this
      ensures Valid()
      ensures added <==> !old(IsLocked(name))
      ensures locked == old(locked) + {Lower(name)}
      ensures IsLocked(name)
    {
      added := Lower(name) !in locked;
      LowerIdempotent(name);
      locked := locked + {Lower(name)};
    }

    /** `removeLock(name)`: true iff the name was locked; afterwards it is not. */
    method RemoveLock(name: string) returns (removed: bool)
      requires Valid()
      modifies this
      ensures Valid()
      ensures removed <==> old(IsLocked(name))
      ensures locked == old(locked) - {Lower(name)}
      ensures !IsLocked(name)
    {
      removed := Lower(name) in locked;
      locked := locked - {Lower(name)};
    }

    /**
     * The common body of `onInventoryOpen`, `onInventoryInteract`,
     * `onPlayerDropItemEvent` and `onPlayerPickupItemEvent`: the event ends
     * cancelled iff it already was or the player is locked. (The first three
     * are not called for an event that is already cancelled, which comes to
     * the same.)
     */
    method CancelIfLocked(name: string, alreadyCancelled: bool) returns (cancelled: bool)
      ensures cancelled <==> alreadyCancelled || IsLocked(name)
    {
      cancelled := alreadyCancelled;
      if Lower(name) in locked {
        cancelled := true;
      }
    }

    /** `onPlayerQuitEvent`: drops the player's lock (the method carries no @EventHandler). */
    method OnPlayerQuitEvent(name: string)
      requires Valid()
      modifies this
      ensures Valid()
      ensures locked == old(locked) - {Lower(name)}
    {
      locked := locked - {Lower(name)};
    }

    /** `shutdown()`: empties the registry. */
    method Shutdown()
      modifies this
      ensures locked == {} && Valid()
    {
      locked := {};
    }
  }
}
