/**
 * What the `com.yahoo` PlayerListener (package root) and the `com.gmail`
 * PlayerListener do alike with the per-player InventoryPair: stash the worn
 * set under the mode being left, take out the set of the mode being
 * entered, dress a player from a loaded pair, and time out a server-switch
 * request after 2000 ms.
 */
module InventorySwap {
  import opened Common
  import opened YahooStorage
  import opened GmailStorage
  import opened Players

  /** `ServerChangeRequest`: where the player asked to go and when (in milliseconds). */
  datatype ServerChangeRequest = ServerChangeRequest(destination: string, requestAt: int)

  /** A quit saves unless a switch was requested at most 2000 ms ago. */
  predicate QuitSaves(request: Option<ServerChangeRequest>, now: int)
  {
    request.None? || now - request.value.requestAt > 2000
  }

  /** The pair's slot for a mode that owns an inventory; the other modes have none. */
  function SlotFor(pair: PairState, m: GameMode): Option<SavedInventory>
  {
    match m
    case Survival => pair.survival
    case Creative => pair.creative
    case _ => None
  }

  /** Modes that own an inventory. */
  predicate OwnsInventory(m: GameMode)
  {
    m == Survival || m == Creative
  }

  /** Store the worn set under the mode being left. */
  function Stash(pair: PairState, from: GameMode, worn: SavedInventory): PairState
  {
    match from
    case Survival => pair.(survival := Some(worn))
    case Creative => pair.(creative := Some(worn))
    case _ => pair
  }

  /** What the player wears after entering a mode, and what stays cached. */
  datatype Dressed = Dressed(worn: SavedInventory, pair: PairState)

  /** Take the set of the mode being entered out of the pair; the other modes wear an empty set. */
  function Unstash(pair: PairState, to: GameMode): (r: Dressed)
    ensures OwnsInventory(to) ==> r.worn == OrEmpty(SlotFor(pair, to)) && SlotFor(r.pair, to) == None
    ensures !OwnsInventory(to) ==> r == Dressed(EMPTY, pair)
    ensures forall m :: m != to ==> SlotFor(r.pair, m) == SlotFor(pair, m)
  {
    match to
    case Survival => Dressed(OrEmpty(pair.survival), pair.(survival := None))
    case Creative => Dressed(OrEmpty(pair.creative), pair.(creative := None))
    case _ => Dressed(EMPTY, pair)
  }

  /** The swap of an existing pair: stash under the old mode, then take out the new mode's set. */
  function SwapSpec(worn: SavedInventory, pair: PairState, from: GameMode, to: GameMode): (r: Dressed)
    requires from != to
    ensures OwnsInventory(from) ==> SlotFor(r.pair, from) == Some(worn)
    ensures OwnsInventory(to) ==> r.worn == OrEmpty(SlotFor(pair, to)) && SlotFor(r.pair, to) == None
    ensures !OwnsInventory(to) ==> r.worn == EMPTY
    ensures forall m :: m != from && m != to ==> SlotFor(r.pair, m) == SlotFor(pair, m)
  {
    Unstash(Stash(pair, from, worn), to)
  }

  /** Dress a player from a loaded pair: a single-inventory player always wears survival and nothing stays cached. */
  function Dress<E>(p: Player<E>, stored: PairState): (r: Dressed)
    ensures p.perms.singleInv ==> r == Dressed(OrEmpty(stored.survival), PairState(None, None))
    ensures !p.perms.singleInv ==> r == Unstash(stored, p.state.mode)
  {
    if p.perms.singleInv then Dressed(OrEmpty(stored.survival), PairState(None, None))
    else Unstash(stored, p.state.mode)
  }

  /** Swapping away from an inventory-owning mode and back gives the worn set back. */
  lemma SwapThereAndBack(worn: SavedInventory, pair: PairState, a: GameMode, b: GameMode)
    requires OwnsInventory(a) && a != b
    ensures var there := SwapSpec(worn, pair, a, b);
            var back := SwapSpec(there.worn, there.pair, b, a);
            back.worn == worn && SlotFor(back.pair, a) == None &&
            OrEmpty(SlotFor(back.pair, b)) == OrEmpty(SlotFor(pair, b))
  {
  }

  /** A full pair is what stashing gives back after unstashing. */
  lemma StashUnstash(pair: PairState, m: GameMode)
    requires pair.survival.Some? && pair.creative.Some?
    ensures Stash(Unstash(pair, m).pair, m, Unstash(pair, m).worn) == pair
  {
  }

  /** Each pair in `pairs` was created for the name it is cached under, so no two names share one. */
  predicate Owned(pairs: map<string, GmailStorage.InventoryPair>, owner: map<GmailStorage.InventoryPair, string>)
  {
    forall k :: k in pairs ==> pairs[k] in owner && owner[pairs[k]] == k
  }

  /** What each cached pair holds. */
  function PairStates(pairs: map<string, GmailStorage.InventoryPair>): (r: map<string, PairState>)
    reads pairs.Values
  {
    map k | k in pairs :: pairs[k].State()
  }

  /** The dressing step of `loadFromEntry` on the new pair. */
  method DressFrom<E>(pair: GmailStorage.InventoryPair, p: Player<E>) returns (q: Player<E>)
    modifies pair
    ensures q == Wear(p, Dress(p, old(pair.State())).worn)
    ensures pair.State() == Dress(p, old(pair.State())).pair
  {
    if p.perms.singleInv {
      q := Wear(p, pair.GetSurvival());
      pair.SetSurvival(None);
      pair.SetCreative(None);
    } else if p.state.mode == Survival {
      q := Wear(p, pair.GetSurvival());
      pair.SetSurvival(None);
    } else if p.state.mode == Creative {
      q := Wear(p, pair.GetCreative());
      pair.SetCreative(None);
    } else {
      q := Wear(p, EMPTY);
    }
  }

  /** The swap step of `onPlayerGameModeChange` on an existing pair; returns the set to wear. */
  method SwapPair(pair: GmailStorage.InventoryPair, inventory: SavedInventory, originalMode: GameMode, newMode: GameMode)
    returns (worn: SavedInventory)
    requires originalMode != newMode
    modifies pair
    ensures Dressed(worn, pair.State()) == SwapSpec(inventory, old(pair.State()), originalMode, newMode)
  {
    if originalMode == Survival {
      pair.SetSurvival(Some(inventory));
    } else if originalMode == Creative {
      pair.SetCreative(Some(inventory));
    }
    if newMode == Survival {
      worn := pair.GetSurvival();
      pair.SetSurvival(None);
    } else if newMode == Creative {
      worn := pair.GetCreative();
      pair.SetCreative(None);
    } else {
      worn := EMPTY;
    }
  }
}
