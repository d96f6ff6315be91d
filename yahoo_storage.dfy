/**
 * The storage containers of the `com.yahoo` packages: SavedInventory (an
 * armor array and a contents array, checked on construction) and the
 * InventoryPair that caches one contents array per game mode.
 */
module YahooStorage {
  import opened Common

  /** `SavedInventory`: the two arrays, immutable once constructed. */
  datatype SavedInventory = SavedInventory(armor: seq<Slot>, contents: seq<Slot>)

  /** `SavedInventory.EMPTY`: 4 null armor slots and 36 null content slots. */
  const EMPTY: SavedInventory := SavedInventory(EmptySlots(ARMOR_SIZE), EmptySlots(CONTENTS_SIZE))

  /** The sizes the array constructor insists on. */
  predicate WellSized(s: SavedInventory)
  {
    |s.armor| == ARMOR_SIZE && |s.contents| == CONTENTS_SIZE
  }

  /** The four argument checks of the array constructor, in the order it makes them. */
  datatype ConstructionError = NullArmor | NullContents | ArmorSizeNot4 | ContentsSizeNot36

  /**
   * `new SavedInventory(armor, contents)`: a null argument throws
   * NullPointerException and a wrong length IllegalArgumentException;
   * otherwise the getters return exactly the given arrays.
   */
  function Make(armor: Option<seq<Slot>>, contents: Option<seq<Slot>>): (r: Result<SavedInventory, ConstructionError>)
    ensures r.Ok? <==> armor.Some? && contents.Some? && |armor.value| == ARMOR_SIZE && |contents.value| == CONTENTS_SIZE
    ensures r.Ok? ==> r.value.armor == armor.value && r.value.contents == contents.value && WellSized(r.value)
    ensures armor.None? ==> r == Err(NullArmor)
    ensures armor.Some? && contents.None? ==> r == Err(NullContents)
  {
    if armor.None? then Err(NullArmor)
    else if contents.None? then Err(NullContents)
    else if |armor.value| != ARMOR_SIZE then Err(ArmorSizeNot4)
    else if |contents.value| != CONTENTS_SIZE then Err(ContentsSizeNot36)
    else Ok(SavedInventory(armor.value, contents.value))
  }

  /**
   * `new SavedInventory(player)`, given what the player's inventory returns
   * for its armor and contents: a null array is replaced by an empty one of
   * the standard size; no size is checked.
   */
  function OfPlayer(armor: Option<seq<Slot>>, contents: Option<seq<Slot>>): (r: SavedInventory)
    ensures armor.Some? ==> r.armor == armor.value
    ensures armor.None? ==> r.armor == EMPTY.armor
    ensures contents.Some? ==> r.contents == contents.value
    ensures contents.None? ==> r.contents == EMPTY.contents
  {
    SavedInventory(
      if armor.Some? then armor.value else EmptySlots(ARMOR_SIZE),
      if contents.Some? then contents.value else EmptySlots(CONTENTS_SIZE))
  }

  /** EMPTY passes the array constructor's checks and holds nothing. */
  lemma EmptyIsWellFormed()
    ensures Make(Some(EMPTY.armor), Some(EMPTY.contents)) == Ok(EMPTY)
    ensures WellSized(EMPTY)
    ensures forall i :: 0 <= i < |EMPTY.armor| ==> EMPTY.armor[i] == None
    ensures forall i :: 0 <= i < |EMPTY.contents| ==> EMPTY.contents[i] == None
  {
  }

  /** A player whose inventory returns standard-size arrays yields a SavedInventory the array constructor accepts. */
  lemma OfPlayerWellSized(armor: seq<Slot>, contents: seq<Slot>)
    requires |armor| == ARMOR_SIZE && |contents| == CONTENTS_SIZE
    ensures Make(Some(armor), Some(contents)) == Ok(OfPlayer(Some(armor), Some(contents)))
  {
  }

  /** The default-on-read rule shared by the pair and entry getters: null reads as EMPTY. */
  function OrEmpty(s: Option<SavedInventory>): (r: SavedInventory)
    ensures s.Some? ==> r == s.value
    ensures s.None? ==> r == EMPTY && WellSized(r)
  {
    if s.Some? then s.value else EMPTY
  }

  /** What an `InventoryPair` of this package holds: one contents array per side, either of which may be null. */
  datatype ContentsPair = ContentsPair(survival: Option<seq<Slot>>, creative: Option<seq<Slot>>)

  /** The pair getters' rule: a null array reads as 36 null slots. */
  function OrFresh(s: Option<seq<Slot>>): (r: seq<Slot>)
    ensures s.Some? ==> r == s.value
    ensures s.None? ==> r == EmptySlots(CONTENTS_SIZE)
  {
    if s.Some? then s.value else EmptySlots(CONTENTS_SIZE)
  }

  /**
   * `Storage.InventoryPair` of this package: the contents array cached for
   * survival and for creative; a null side reads as a fresh 36-slot array.
   */
  class InventoryPair {
    var survival: Option<seq<Slot>>
    var creative: Option<seq<Slot>>

    /** `new InventoryPair()`: both sides null. */
    constructor()
      ensures survival == None && creative == None
    {
      survival := None;
      creative := None;
    }

    function State(): ContentsPair
      reads this
    {
      ContentsPair(survival, creative)
    }

    /** `getSurvival()`: the stored array, or 36 null slots when the field is null. */
    function GetSurvival(): (r: seq<Slot>)
      reads this
      ensures survival.Some? ==> r == survival.value
      ensures survival.None? ==> r == EmptySlots(CONTENTS_SIZE)
    {
      if survival.None? then EmptySlots(CONTENTS_SIZE) else survival.value
    }

    /** `getCreative()`: the stored array, or 36 null slots when the field is null. */
    function GetCreative(): (r: seq<Slot>)
      reads this
      ensures creative.Some? ==> r == creative.value
      ensures creative.None? ==> r == EmptySlots(CONTENTS_SIZE)
    {
      if creative.None? then EmptySlots(CONTENTS_SIZE) else creative.value
    }

    /** `setSurvival(s)`: later reads of survival see s (or the default); creative is untouched. */
    method SetSurvival(s: Option<seq<Slot>>)
      modifies this
      ensures survival == s && creative == old(creative)
      ensures s.Some? ==> GetSurvival() == s.value
      ensures GetCreative() == old(GetCreative())
    {
      survival := s;
    }

    /** `setCreative(c)`: later reads of creative see c (or the default); survival is untouched. */
    method SetCreative(c: Option<seq<Slot>>)
      modifies this
      ensures creative == c && survival == old(survival)
      ensures c.Some? ==> GetCreative() == c.value
      ensures GetSurvival() == old(GetSurvival())
    {
      creative := c;
    }
  }
}
