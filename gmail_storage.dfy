/**
 * The storage containers of the `com.gmail` package: the InventoryPair that
 * caches the SavedInventory of the mode a player is not in, and the
 * PlayerEntry handed to the save task, both with getters that never
 * return null.
 */
module GmailStorage {
  import opened Common
  import opened YahooStorage
  import PotionEffectUtils

  type Effect = PotionEffectUtils.PotionEffect

  /** The value held by an InventoryPair: its two nullable fields. */
  datatype PairState = PairState(survival: Option<SavedInventory>, creative: Option<SavedInventory>)

  /** `InventoryPair`: one cached SavedInventory per inventory-owning game mode. */
  class InventoryPair {
    var survival: Option<SavedInventory>
    var creative: Option<SavedInventory>

    /** `new InventoryPair()`: both sides null. */
    constructor()
      ensures State() == PairState(None, None)
    {
      survival := None;
      creative := None;
    }

    function State(): PairState
      reads this
    {
      PairState(survival, creative)
    }

    /** `getSurvival()`: never null; a null field reads as EMPTY. */
    function GetSurvival(): (r: SavedInventory)
      reads this
      ensures survival.Some? ==> r == survival.value
      ensures survival.None? ==> r == EMPTY
    {
      OrEmpty(survival)
    }

    /** `getCreative()`: never null; a null field reads as EMPTY. */
    function GetCreative(): (r: SavedInventory)
      reads this
      ensures creative.Some? ==> r == creative.value
      ensures creative.None? ==> r == EMPTY
    {
      OrEmpty(creative)
    }

    /** `setSurvival(s)`: survival becomes s; what getCreative returns does not change. */
    method SetSurvival(s: Option<SavedInventory>)
      modifies this
      ensures State() == old(State()).(survival := s)
      ensures s.Some? ==> GetSurvival() == s.value
      ensures GetCreative() == old(GetCreative())
    {
      survival := s;
    }

    /** `setCreative(c)`: creative becomes c; what getSurvival returns does not change. */
    method SetCreative(c: Option<SavedInventory>)
      modifies this
      ensures State() == old(State()).(creative := c)
      ensures c.Some? ==> GetCreative() == c.value
      ensures GetSurvival() == old(GetSurvival())
    {
      creative := c;
    }
  }

  /** Every field of a PlayerEntry, as the setters leave it (null as None). */
  datatype EntryState = EntryState(
    name: string,
    health: real,
    foodLevel: int,
    xpLevel: int,
    xpProgress: real,
    gameMode: Option<GameMode>,
    potionEffects: Option<seq<Effect>>,
    survival: Option<SavedInventory>,
    creative: Option<SavedInventory>,
    enderChest: Option<seq<Slot>>)
  {
    /** `getPotionEffects()`: an unset collection reads as empty. */
    function GetPotionEffects(): (r: seq<Effect>)
      ensures potionEffects.Some? ==> r == potionEffects.value
      ensures potionEffects.None? ==> r == []
    {
      if potionEffects.None? then [] else potionEffects.value
    }

    /** `getSurvival()`: an unset inventory reads as EMPTY. */
    function GetSurvival(): (r: SavedInventory)
      ensures survival.Some? ==> r == survival.value
      ensures survival.None? ==> r == EMPTY
    {
      OrEmpty(survival)
    }

    /** `getCreative()`: an unset inventory reads as EMPTY. */
    function GetCreative(): (r: SavedInventory)
      ensures creative.Some? ==> r == creative.value
      ensures creative.None? ==> r == EMPTY
    {
      OrEmpty(creative)
    }

    /** `getEnderChest()`: an unset ender chest reads as 27 null slots. */
    function GetEnderChest(): (r: seq<Slot>)
      ensures enderChest.Some? ==> r == enderChest.value
      ensures enderChest.None? ==> r == EmptySlots(ENDER_SIZE)
    {
      if enderChest.None? then EmptySlots(ENDER_SIZE) else enderChest.value
    }
  }

  /** The fields of a freshly constructed entry: Java's defaults. */
  function FreshEntry(name: string): EntryState
  {
    EntryState(name, 0.0, 0, 0, 0.0, None, None, None, None, None)
  }

  /** `PlayerEntry`: the record saved for a player; the name is final. */
  class PlayerEntry {
    const name: string
    var health: real
    var foodLevel: int
    var xpLevel: int
    var xpProgress: real
    var gameMode: Option<GameMode>
    var potionEffects: Option<seq<Effect>>
    var survival: Option<SavedInventory>
    var creative: Option<SavedInventory>
    var enderChest: Option<seq<Slot>>

    function State(): EntryState
      reads this
    {
      EntryState(name, health, foodLevel, xpLevel, xpProgress, gameMode,
        potionEffects, survival, creative, enderChest)
    }

    /** `new PlayerEntry(name)` once the null check has passed. */
    constructor(name: string)
      ensures State() == FreshEntry(name)
    {
      this.name := name;
      health := 0.0;
      foodLevel := 0;
      xpLevel := 0;
      xpProgress := 0.0;
      gameMode := None;
      potionEffects := None;
      survival := None;
      creative := None;
      enderChest := None;
    }

    /** `new PlayerEntry(name)`: a null name throws NullPointerException (None here). */
    static method Create(name: Option<string>) returns (r: Option<PlayerEntry>)
      ensures r.Some? <==> name.Some?
      ensures r.Some? ==> fresh(r.value) && r.value.State() == FreshEntry(name.value)
    {
      if name.None? {
        return None;
      }
      var e := new PlayerEntry(name.value);
      return Some(e);
    }

    /** `getPotionEffects()`: an unset collection reads as empty. */
    function GetPotionEffects(): (r: seq<Effect>)
      reads this
      ensures potionEffects.Some? ==> r == potionEffects.value
      ensures potionEffects.None? ==> r == []
    {
      State().GetPotionEffects()
    }

    /** `getSurvival()`: an unset inventory reads as EMPTY. */
    function GetSurvival(): (r: SavedInventory)
      reads this
      ensures survival.Some? ==> r == survival.value
      ensures survival.None? ==> r == EMPTY
    {
      State().GetSurvival()
    }

    /** `getCreative()`: an unset inventory reads as EMPTY. */
    function GetCreative(): (r: SavedInventory)
      reads this
      ensures creative.Some? ==> r == creative.value
      ensures creative.None? ==> r == EMPTY
    {
      State().GetCreative()
    }

    /** `getEnderChest()`: an unset ender chest reads as 27 null slots. */
    function GetEnderChest(): (r: seq<Slot>)
      reads this
      ensures enderChest.Some? ==> r == enderChest.value
      ensures enderChest.None? ==> r == EmptySlots(ENDER_SIZE)
    {
      State().GetEnderChest()
    }

    method SetHealth(v: real)
      modifies this
      ensures State() == old(State()).(health := v)
    {
      health := v;
    }

    method SetFoodLevel(v: int)
      modifies this
      ensures State() == old(State()).(foodLevel := v)
    {
      foodLevel := v;
    }

    method SetXpLevel(v: int)
      modifies this
      ensures State() == old(State()).(xpLevel := v)
    {
      xpLevel := v;
    }

    method SetXpProgress(v: real)
      modifies this
      ensures State() == old(State()).(xpProgress := v)
    {
      xpProgress := v;
    }

    method SetGameMode(v: Option<GameMode>)
      modifies this
      ensures State() == old(State()).(gameMode := v)
    {
      gameMode := v;
    }

    method SetPotionEffects(v: Option<seq<Effect>>)
      modifies this
      ensures State() == old(State()).(potionEffects := v)
      ensures v.Some? ==> GetPotionEffects() == v.value
    {
      potionEffects := v;
    }

    method SetSurvival(v: Option<SavedInventory>)
      modifies this
      ensures State() == old(State()).(survival := v)
      ensures v.Some? ==> GetSurvival() == v.value
    {
      survival := v;
    }

    method SetCreative(v: Option<SavedInventory>)
      modifies this
      ensures State() == old(State()).(creative := v)
      ensures v.Some? ==> GetCreative() == v.value
    {
      creative := v;
    }

    method SetEnderChest(v: Option<seq<Slot>>)
      modifies this
      ensures State() == old(State()).(enderChest := v)
      ensures v.Some? ==> GetEnderChest() == v.value
    {
      enderChest := v;
    }
  }
}
