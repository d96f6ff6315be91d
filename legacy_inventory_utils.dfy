/**
 * The item-array codec of the earlier revision (InventoryUtils.java in the
 * package root). It writes the same five index-keyed sections as
 * Utils/InventoryUtils.java, but a null inventory or ender chest is
 * skipped instead of read through a defaulting getter, and the arrays of a
 * PlayerInventory are not checked for null or size.
 */
module LegacyInventoryUtils {
  import opened Common
  import opened YamlConfig
  import opened YahooStorage
  import opened InventoryUtils

  /** `Storage.PlayerInventory`: two arrays, either of which may be null. */
  datatype PlayerInventory = PlayerInventory(armor: Option<seq<Slot>>, contents: Option<seq<Slot>>)

  /** The NullPointerException a null array throws in `itemStacks.length`. */
  datatype SerializeError = NullArray

  /** An inventory whose two arrays are present. */
  predicate HasArrays(inv: PlayerInventory)
  {
    inv.armor.Some? && inv.contents.Some?
  }

  /** The armor written for a possibly null inventory: nothing when it is null. */
  function ArmorOf(inv: Option<PlayerInventory>): seq<Slot>
    requires inv.Some? ==> HasArrays(inv.value)
  {
    if inv.Some? then inv.value.armor.value else []
  }

  function ContentsOf(inv: Option<PlayerInventory>): seq<Slot>
    requires inv.Some? ==> HasArrays(inv.value)
  {
    if inv.Some? then inv.value.contents.value else []
  }

  function SlotsOf(slots: Option<seq<Slot>>): seq<Slot>
  {
    if slots.Some? then slots.value else []
  }

  /**
   * `serialize(entry)` given the entry's survival inventory, creative
   * inventory and ender chest. A null one writes nothing; a present
   * inventory with a null array throws.
   */
  function SerializeSpec(survival: Option<PlayerInventory>, creative: Option<PlayerInventory>,
                         enderChest: Option<seq<Slot>>): (r: Result<seq<Entry>, SerializeError>)
    ensures r.Err? <==> (survival.Some? && !HasArrays(survival.value)) || (creative.Some? && !HasArrays(creative.value))
  {
    if (survival.Some? && !HasArrays(survival.value)) || (creative.Some? && !HasArrays(creative.value)) then
      Err(NullArray)
    else
      Ok(WriteAll(ArmorOf(survival), ContentsOf(survival), ArmorOf(creative), ContentsOf(creative), SlotsOf(enderChest)))
  }

  /** `serialize(entry)`: each non-null part is written with the loop of `writeItemStacks`. */
  method Serialize(survival: Option<PlayerInventory>, creative: Option<PlayerInventory>,
                   enderChest: Option<seq<Slot>>) returns (r: Result<seq<Entry>, SerializeError>)
    ensures r == SerializeSpec(survival, creative, enderChest)
  {
    var configuration: seq<Entry> := [];
    if survival.Some? {
      var playerInv := survival.value;
      if playerInv.armor.None? {
        return Err(NullArray);
      }
      configuration := WriteItemStacks(configuration, SURVIVAL_ARMOR, playerInv.armor.value);
      if playerInv.contents.None? {
        return Err(NullArray);
      }
      configuration := WriteItemStacks(configuration, SURVIVAL_INV, playerInv.contents.value);
    }
    if creative.Some? {
      var playerInv := creative.value;
      if playerInv.armor.None? {
        return Err(NullArray);
      }
      configuration := WriteItemStacks(configuration, CREATIVE_ARMOR, playerInv.armor.value);
      if playerInv.contents.None? {
        return Err(NullArray);
      }
      configuration := WriteItemStacks(configuration, CREATIVE_INV, playerInv.contents.value);
    }
    if enderChest.Some? {
      configuration := WriteItemStacks(configuration, ENDER_CHEST, enderChest.value);
    }
    return Ok(configuration);
  }

  /** `readPlayerInventory(section)`: a null section gives 4 and 36 null slots. */
  function ReadPlayerInventory(section: Option<seq<Entry>>): (r: Result<PlayerInventory, ReadError>)
    ensures section.None? ==> r == Ok(PlayerInventory(Some(EmptySlots(ARMOR_SIZE)), Some(EmptySlots(CONTENTS_SIZE))))
    ensures r.Ok? ==> HasArrays(r.value)
    ensures r.Ok? ==> |r.value.armor.value| == ARMOR_SIZE && |r.value.contents.value| == CONTENTS_SIZE
  {
    match ReadSavedInventorySpec(section)
    case Err(e) => Err(e)
    case Ok(s) => Ok(PlayerInventory(Some(s.armor), Some(s.contents)))
  }

  /** What `deserialize` stores through the three setters of the entry. */
  datatype LegacyInventories = LegacyInventories(survival: PlayerInventory, creative: PlayerInventory, enderChest: seq<Slot>)

  function DeserializeSpec(config: seq<Entry>): (r: Result<LegacyInventories, ReadError>)
    ensures r.Ok? ==> HasArrays(r.value.survival) && HasArrays(r.value.creative) && |r.value.enderChest| == ENDER_SIZE
  {
    match ReadPlayerInventory(GetSection(config, "Survival"))
    case Err(e) => Err(e)
    case Ok(survival) =>
      match ReadPlayerInventory(GetSection(config, "Creative"))
      case Err(e) => Err(e)
      case Ok(creative) =>
        match ReadSpec(GetSection(config, "EnderChest"), ENDER_SIZE)
        case Err(e) => Err(e)
        case Ok(ender) => Ok(LegacyInventories(survival, creative, ender))
  }

  /** `deserialize(bytes, entry)`: the three values it hands to the entry's setters. */
  method Deserialize(config: seq<Entry>) returns (r: Result<LegacyInventories, ReadError>)
    ensures r == DeserializeSpec(config)
  {
    var survival := ReadSavedInventory(GetSection(config, "Survival"));
    if survival.Err? {
      return Err(survival.error);
    }
    var creative := ReadSavedInventory(GetSection(config, "Creative"));
    if creative.Err? {
      return Err(creative.error);
    }
    var ender := ReadItemStacks(GetSection(config, "EnderChest"), ENDER_SIZE);
    if ender.Err? {
      return Err(ender.error);
    }
    return Ok(LegacyInventories(
      PlayerInventory(Some(survival.value.armor), Some(survival.value.contents)),
      PlayerInventory(Some(creative.value.armor), Some(creative.value.contents)),
      ender.value));
  }

  /** An inventory that fits the arrays `readPlayerInventory` reads into. */
  predicate Fits(inv: Option<PlayerInventory>)
  {
    inv.Some? ==>
      HasArrays(inv.value) && |inv.value.armor.value| <= ARMOR_SIZE && |inv.value.contents.value| <= CONTENTS_SIZE
  }

  /** What an inventory reads back as: its real items in place, and a null inventory as an empty one. */
  function ReadBackAs(inv: Option<PlayerInventory>): PlayerInventory
    requires Fits(inv)
  {
    PlayerInventory(Some(Padded(ArmorOf(inv), ARMOR_SIZE)), Some(Padded(ContentsOf(inv), CONTENTS_SIZE)))
  }

  /**
   * `deserialize(serialize(entry))`: every real item comes back in its slot,
   * and a part that was null comes back as empty arrays of 4, 36 or 27.
   */
  lemma RoundTrip(survival: Option<PlayerInventory>, creative: Option<PlayerInventory>, enderChest: Option<seq<Slot>>)
    requires Fits(survival) && Fits(creative)
    requires enderChest.Some? ==> |enderChest.value| <= ENDER_SIZE
    ensures SerializeSpec(survival, creative, enderChest).Ok?
    ensures DeserializeSpec(SerializeSpec(survival, creative, enderChest).value)
         == Ok(LegacyInventories(ReadBackAs(survival), ReadBackAs(creative), Padded(SlotsOf(enderChest), ENDER_SIZE)))
  {
    var sa, si := ArmorOf(survival), ContentsOf(survival);
    var ca, ci := ArmorOf(creative), ContentsOf(creative);
    var e := SlotsOf(enderChest);
    var c := WriteAll(sa, si, ca, ci, e);
    WriteAllSections(sa, si, ca, ci, e);
    ReadInventoryBack(c, "Survival", sa, si);
    ReadInventoryBack(c, "Creative", ca, ci);
    ReadEnderBack(c, e);
  }

  /** A null survival inventory is read back as an empty one. */
  lemma NullSurvivalReadsEmpty(creative: Option<PlayerInventory>, enderChest: Option<seq<Slot>>)
    requires Fits(creative)
    requires enderChest.Some? ==> |enderChest.value| <= ENDER_SIZE
    ensures var d := DeserializeSpec(SerializeSpec(None, creative, enderChest).value);
            d.Ok? && d.value.survival == PlayerInventory(Some(EmptySlots(ARMOR_SIZE)), Some(EmptySlots(CONTENTS_SIZE)))
  {
    RoundTrip(None, creative, enderChest);
    assert Padded([], ARMOR_SIZE) == EmptySlots(ARMOR_SIZE);
    assert Padded([], CONTENTS_SIZE) == EmptySlots(CONTENTS_SIZE);
  }
}
