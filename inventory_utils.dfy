/**
 * The item-array codec of Utils/InventoryUtils.java: item arrays become
 * index-keyed entries of a YAML configuration (null and AIR slots are
 * skipped) and are read back into fixed-size arrays: 4 armor slots,
 * 36 content slots, 27 ender-chest slots.
 *
 * The source reads and writes the `com.yahoo` `IPlayerEntry`/`PlayerEntry`,
 * which is not part of this model; the `com.gmail` `PlayerEntry` of
 * GmailStorage stands in for it: the survival, creative and ender-chest
 * getters and setters are the only members these codecs call.
 */
module InventoryUtils {
  import opened Common
  import opened JavaStrings
  import opened YamlConfig
  import opened YahooStorage
  import opened GmailStorage

  /** The five prefixes `serialize` writes under. */
  const SURVIVAL_ARMOR: Path := ["Survival", "Armor"]
  const SURVIVAL_INV: Path := ["Survival", "Inv"]
  const CREATIVE_ARMOR: Path := ["Creative", "Armor"]
  const CREATIVE_INV: Path := ["Creative", "Inv"]
  const ENDER_CHEST: Path := ["EnderChest"]

  // ---------------------------------------------------------------------
  // writeItemStacks
  // ---------------------------------------------------------------------

  /** The configuration after `writeItemStacks(configuration, prefix, slots)`. */
  function WriteSpec(config: seq<Entry>, prefix: Path, slots: seq<Slot>): seq<Entry>
    decreases |slots|
  {
    if slots == [] then config
    else
      var n := |slots| - 1;
      var c := WriteSpec(config, prefix, slots[..n]);
      if IsRealItem(slots[n]) then Set(c, prefix + [IntToString(n)], Item(slots[n].value)) else c
  }

  /** `writeItemStacks`: sets `prefix.i` for every slot holding a real item. */
  method WriteItemStacks(config: seq<Entry>, prefix: Path, itemStacks: seq<Slot>) returns (c: seq<Entry>)
    ensures c == WriteSpec(config, prefix, itemStacks)
  {
    c := config;
    for i := 0 to |itemStacks|
      invariant c == WriteSpec(config, prefix, itemStacks[..i])
    {
      assert itemStacks[..i + 1][..i] == itemStacks[..i];
      if itemStacks[i].Some? && itemStacks[i].value.material != Air {
        c := Set(c, prefix + [IntToString(i)], Item(itemStacks[i].value));
      }
    }
    assert itemStacks[..|itemStacks|] == itemStacks;
  }

  /** The entries a write leaves in a section that was empty: one per real item, in index order. */
  function Written(slots: seq<Slot>): seq<Entry>
    decreases |slots|
  {
    if slots == [] then []
    else
      var n := |slots| - 1;
      Written(slots[..n]) + if IsRealItem(slots[n]) then [Entry(IntToString(n), Item(slots[n].value))] else []
  }

  /** Key i is written exactly when slot i holds a real item, and it holds that item. */
  lemma {:induction false} WrittenKeys(slots: seq<Slot>, i: nat)
    ensures Lookup(Written(slots), IntToString(i))
         == if i < |slots| && IsRealItem(slots[i]) then Some(Item(slots[i].value)) else None
    decreases |slots|
  {
    if slots != [] {
      var n := |slots| - 1;
      var tail := if IsRealItem(slots[n]) then [Entry(IntToString(n), Item(slots[n].value))] else [];
      WrittenKeys(slots[..n], i);
      LookupAppend(Written(slots[..n]), tail, IntToString(i));
      if i != n {
        NatToDigitsInjective(i, n);
      }
    }
  }

  /** Writing into an empty section leaves exactly the written entries there. */
  lemma {:induction false} WriteSection(config: seq<Entry>, prefix: Path, slots: seq<Slot>)
    requires SectionAt(config, prefix) == []
    ensures SectionAt(WriteSpec(config, prefix, slots), prefix) == Written(slots)
    decreases |slots|
  {
    if slots != [] {
      var n := |slots| - 1;
      var c := WriteSpec(config, prefix, slots[..n]);
      WriteSection(config, prefix, slots[..n]);
      if IsRealItem(slots[n]) {
        SectionAtSet(c, prefix, IntToString(n), Item(slots[n].value));
        WrittenKeys(slots[..n], n);
        PutFresh(Written(slots[..n]), IntToString(n), Item(slots[n].value));
      }
    }
  }

  /** Writing under one prefix leaves every section it parts ways with alone. */
  lemma {:induction false} WriteElsewhere(config: seq<Entry>, prefix: Path, slots: seq<Slot>, p: Path)
    requires Diverge(p, prefix)
    ensures SectionAt(WriteSpec(config, prefix, slots), p) == SectionAt(config, p)
    decreases |slots|
  {
    if slots != [] {
      var n := |slots| - 1;
      WriteElsewhere(config, prefix, slots[..n], p);
      if IsRealItem(slots[n]) {
        DivergeExtend(p, prefix, IntToString(n));
        SectionAtSetElsewhere(WriteSpec(config, prefix, slots[..n]), prefix + [IntToString(n)], Item(slots[n].value), p);
      }
    }
  }

  // ---------------------------------------------------------------------
  // readItemStacks
  // ---------------------------------------------------------------------

  /** The ArrayIndexOutOfBoundsException `destination[keyAsInt]` throws; nothing catches it. */
  datatype ReadError = IndexOutOfRange(index: int)

  /**
   * One iteration of readItemStacks: a key that is not an int is skipped
   * (the NumberFormatException is caught), an int key inside the array
   * stores the item under it (null if the value is no item stack), and an
   * int key outside the array throws.
   */
  function Place(dest: seq<Slot>, e: Entry): (r: Result<seq<Slot>, ReadError>)
    ensures r.Ok? ==> |r.value| == |dest|
  {
    match ParseInt(e.key)
    case None => Ok(dest)
    case Some(k) =>
      if 0 <= k < |dest| then Ok(dest[k := ItemOf(e.value)]) else Err(IndexOutOfRange(k))
  }

  /** The array after the loop over the section's entries, or the exception that stopped it. */
  function ReadInto(dest: seq<Slot>, entries: seq<Entry>): (r: Result<seq<Slot>, ReadError>)
    ensures r.Ok? ==> |r.value| == |dest|
    decreases |entries|
  {
    if entries == [] then Ok(dest)
    else
      var r := ReadInto(dest, entries[..|entries| - 1]);
      if r.Err? then r else Place(r.value, entries[|entries| - 1])
  }

  /** `readItemStacks(section, maxSize)`: a null section gives maxSize null slots. */
  function ReadSpec(section: Option<seq<Entry>>, maxSize: nat): (r: Result<seq<Slot>, ReadError>)
    ensures r.Ok? ==> |r.value| == maxSize
    ensures section.None? ==> r == Ok(EmptySlots(maxSize))
  {
    ReadInto(EmptySlots(maxSize), if section.Some? then section.value else [])
  }

  /** `readItemStacks`: fills a fresh array of maxSize slots from the section's entries. */
  method ReadItemStacks(section: Option<seq<Entry>>, maxSize: nat) returns (r: Result<seq<Slot>, ReadError>)
    ensures r == ReadSpec(section, maxSize)
  {
    var destination := new Slot[maxSize](_ => None);
    assert destination[..] == EmptySlots(maxSize);
    if section.Some? {
      var entries := section.value;
      for i := 0 to |entries|
        invariant ReadInto(EmptySlots(maxSize), entries[..i]) == Ok(destination[..])
      {
        assert entries[..i + 1][..i] == entries[..i];
        var key := entries[i].key;
        var keyAsInt := ParseInt(key);
        if keyAsInt.Some? {
          var k := keyAsInt.value;
          if 0 <= k < maxSize {
            destination[k] := ItemOf(entries[i].value);
          } else {
            OutOfRangeKeyThrows(EmptySlots(maxSize), entries[..i], entries[i], entries[i + 1..]);
            assert entries == entries[..i] + [entries[i]] + entries[i + 1..];
            return Err(IndexOutOfRange(k));
          }
        }
      }
      assert entries[..|entries|] == entries;
    }
    return Ok(destination[..]);
  }

  /** A key that is not an int leaves the array as it was. */
  lemma NonNumericKeySkipped(dest: seq<Slot>, entries: seq<Entry>, e: Entry)
    requires ParseInt(e.key).None?
    ensures ReadInto(dest, entries + [e]) == ReadInto(dest, entries)
  {
    assert (entries + [e])[..|entries|] == entries;
  }

  /** An int key outside the array aborts the read, whatever follows it. */
  lemma {:induction false} OutOfRangeKeyThrows(dest: seq<Slot>, entries: seq<Entry>, e: Entry, rest: seq<Entry>)
    requires ReadInto(dest, entries).Ok?
    requires ParseInt(e.key).Some? && !(0 <= ParseInt(e.key).value < |dest|)
    ensures ReadInto(dest, entries + [e] + rest) == Err(IndexOutOfRange(ParseInt(e.key).value))
    decreases |rest|
  {
    if rest == [] {
      assert entries + [e] + rest == entries + [e];
      assert (entries + [e])[..|entries|] == entries;
    } else {
      var init := rest[..|rest| - 1];
      assert (entries + [e] + rest)[..|entries + [e] + rest| - 1] == entries + [e] + init;
      OutOfRangeKeyThrows(dest, entries, e, init);
    }
  }

  /** Reading back what a write left: real items in place, null everywhere else. */
  lemma {:induction false} ReadWritten(slots: seq<Slot>, maxSize: nat)
    requires |slots| <= maxSize <= INT_MAX
    ensures ReadInto(EmptySlots(maxSize), Written(slots)) == Ok(CleanedAll(slots) + EmptySlots(maxSize - |slots|))
    decreases |slots|
  {
    if slots == [] {
      assert CleanedAll(slots) + EmptySlots(maxSize) == EmptySlots(maxSize);
    } else {
      var n := |slots| - 1;
      var init := slots[..n];
      var tail := if IsRealItem(slots[n]) then [Entry(IntToString(n), Item(slots[n].value))] else [];
      assert Written(slots) == Written(init) + tail;
      ReadWritten(init, maxSize);
      var before := CleanedAll(init) + EmptySlots(maxSize - n);
      ReadIntoAppend(EmptySlots(maxSize), Written(init), tail);
      CleanedStep(slots, maxSize);
      if IsRealItem(slots[n]) {
        ParseIntToString(n);
        assert tail[..0] == [];
        assert Place(before, tail[0]) == Ok(before[n := Some(slots[n].value)]);
      }
    }
  }

  /** The array before and after the last slot is read. */
  lemma CleanedStep(slots: seq<Slot>, maxSize: nat)
    requires 0 < |slots| <= maxSize
    ensures var n := |slots| - 1;
            var before := CleanedAll(slots[..n]) + EmptySlots(maxSize - n);
            CleanedAll(slots) + EmptySlots(maxSize - |slots|) == if IsRealItem(slots[n]) then before[n := slots[n]] else before
  {
    var n := |slots| - 1;
    var before := CleanedAll(slots[..n]) + EmptySlots(maxSize - n);
    var after := CleanedAll(slots) + EmptySlots(maxSize - |slots|);
    var expected := if IsRealItem(slots[n]) then before[n := slots[n]] else before;
    assert |after| == |expected|;
    forall i | 0 <= i < |after|
      ensures after[i] == expected[i]
    {
      if i < n {
        assert after[i] == Cleaned(slots[i]) && before[i] == Cleaned(slots[..n][i]);
      } else if i > n {
        assert after[i] == None && before[i] == None;
      } else {
        assert after[i] == Cleaned(slots[n]) && before[i] == None;
      }
    }
  }

  /** Reading two lists of entries one after the other. */
  lemma {:induction false} ReadIntoAppend(dest: seq<Slot>, a: seq<Entry>, b: seq<Entry>)
    requires ReadInto(dest, a).Ok?
    ensures ReadInto(dest, a + b) == ReadInto(ReadInto(dest, a).value, b)
    decreases |b|
  {
    if b == [] {
      assert a + b == a;
    } else {
      var init := b[..|b| - 1];
      assert (a + b)[..|a + b| - 1] == a + init;
      ReadIntoAppend(dest, a, init);
    }
  }

  // ---------------------------------------------------------------------
  // readSavedInventory, serialize, deserialize
  // ---------------------------------------------------------------------

  /** `readSavedInventory(section)`: EMPTY for a null section, else 4 armor and 36 content slots. */
  function ReadSavedInventorySpec(section: Option<seq<Entry>>): (r: Result<SavedInventory, ReadError>)
    ensures section.None? ==> r == Ok(EMPTY)
    ensures r.Ok? ==> WellSized(r.value)
  {
    if section.None? then Ok(EMPTY)
    else
      match ReadSpec(GetSection(section.value, "Armor"), ARMOR_SIZE)
      case Err(e) => Err(e)
      case Ok(armor) =>
        match ReadSpec(GetSection(section.value, "Inv"), CONTENTS_SIZE)
        case Err(e) => Err(e)
        case Ok(inventory) => Ok(SavedInventory(armor, inventory))
  }

  /** `readSavedInventory`; the arrays it reads always pass SavedInventory's size checks. */
  method ReadSavedInventory(section: Option<seq<Entry>>) returns (r: Result<SavedInventory, ReadError>)
    ensures r == ReadSavedInventorySpec(section)
    ensures r.Ok? ==> Make(Some(r.value.armor), Some(r.value.contents)) == Ok(r.value)
  {
    if section.None? {
      return Ok(EMPTY);
    }
    var armor := ReadItemStacks(GetSection(section.value, "Armor"), ARMOR_SIZE);
    if armor.Err? {
      return Err(armor.error);
    }
    var inventory := ReadItemStacks(GetSection(section.value, "Inv"), CONTENTS_SIZE);
    if inventory.Err? {
      return Err(inventory.error);
    }
    return Ok(SavedInventory(armor.value, inventory.value));
  }

  /** The five writes of `serialize`, in its order, starting from an empty configuration. */
  function WriteAll(survivalArmor: seq<Slot>, survivalInv: seq<Slot>,
                    creativeArmor: seq<Slot>, creativeInv: seq<Slot>, enderChest: seq<Slot>): seq<Entry>
  {
    var c1 := WriteSpec([], SURVIVAL_ARMOR, survivalArmor);
    var c2 := WriteSpec(c1, SURVIVAL_INV, survivalInv);
    var c3 := WriteSpec(c2, CREATIVE_ARMOR, creativeArmor);
    var c4 := WriteSpec(c3, CREATIVE_INV, creativeInv);
    WriteSpec(c4, ENDER_CHEST, enderChest)
  }

  /** The configuration `serialize` builds from an entry's two inventories and ender chest. */
  function SerializeSpec(survival: SavedInventory, creative: SavedInventory, enderChest: seq<Slot>): seq<Entry>
  {
    WriteAll(survival.armor, survival.contents, creative.armor, creative.contents, enderChest)
  }

  /**
   * `serialize(entry)`: the five writes, in the source's order, on the
   * entry's never-null getters. The YAML text and its compression are not
   * modelled: the configuration stands for the bytes.
   */
  method Serialize(entry: PlayerEntry) returns (config: seq<Entry>)
    ensures config == SerializeSpec(entry.GetSurvival(), entry.GetCreative(), entry.GetEnderChest())
  {
    config := [];
    var playerInv := entry.GetSurvival();
    config := WriteItemStacks(config, SURVIVAL_ARMOR, playerInv.armor);
    config := WriteItemStacks(config, SURVIVAL_INV, playerInv.contents);
    playerInv := entry.GetCreative();
    config := WriteItemStacks(config, CREATIVE_ARMOR, playerInv.armor);
    config := WriteItemStacks(config, CREATIVE_INV, playerInv.contents);
    config := WriteItemStacks(config, ENDER_CHEST, entry.GetEnderChest());
  }

  /** What `deserialize` stores into the entry. */
  datatype Inventories = Inventories(survival: SavedInventory, creative: SavedInventory, enderChest: seq<Slot>)

  function DeserializeSpec(config: seq<Entry>): (r: Result<Inventories, ReadError>)
    ensures r.Ok? ==> WellSized(r.value.survival) && WellSized(r.value.creative) && |r.value.enderChest| == ENDER_SIZE
  {
    match ReadSavedInventorySpec(GetSection(config, "Survival"))
    case Err(e) => Err(e)
    case Ok(survival) =>
      match ReadSavedInventorySpec(GetSection(config, "Creative"))
      case Err(e) => Err(e)
      case Ok(creative) =>
        match ReadSpec(GetSection(config, "EnderChest"), ENDER_SIZE)
        case Err(e) => Err(e)
        case Ok(ender) => Ok(Inventories(survival, creative, ender))
  }

  /**
   * `deserialize(bytes, entry)`: sets survival, then creative, then a
   * 27-slot ender chest; an exception part way leaves the earlier setters'
   * effects in place.
   */
  method Deserialize(config: seq<Entry>, entry: PlayerEntry) returns (error: Option<ReadError>)
    modifies entry
    ensures var s := ReadSavedInventorySpec(GetSection(config, "Survival"));
            var c := ReadSavedInventorySpec(GetSection(config, "Creative"));
            var e := ReadSpec(GetSection(config, "EnderChest"), ENDER_SIZE);
            && (s.Err? ==> error == Some(s.error) && entry.State() == old(entry.State()))
            && (s.Ok? && c.Err? ==>
                  error == Some(c.error)
                  && entry.State() == old(entry.State()).(survival := Some(s.value)))
            && (s.Ok? && c.Ok? && e.Err? ==>
                  error == Some(e.error)
                  && entry.State() == old(entry.State()).(survival := Some(s.value), creative := Some(c.value)))
    ensures var d := DeserializeSpec(config);
            d.Ok? ==> error == None && entry.State() == old(entry.State()).(
              survival := Some(d.value.survival), creative := Some(d.value.creative),
              enderChest := Some(d.value.enderChest))
  {
    var survival := ReadSavedInventory(GetSection(config, "Survival"));
    if survival.Err? {
      return Some(survival.error);
    }
    entry.SetSurvival(Some(survival.value));
    var creative := ReadSavedInventory(GetSection(config, "Creative"));
    if creative.Err? {
      return Some(creative.error);
    }
    entry.SetCreative(Some(creative.value));
    var ender := ReadItemStacks(GetSection(config, "EnderChest"), ENDER_SIZE);
    if ender.Err? {
      return Some(ender.error);
    }
    entry.SetEnderChest(Some(ender.value));
    return None;
  }

  // ---------------------------------------------------------------------
  // Round trip
  // ---------------------------------------------------------------------

  /** What a write-then-read of `slots` into an array of m slots gives: the real items in place, null elsewhere. */
  function Padded(slots: seq<Slot>, m: nat): (r: seq<Slot>)
    requires |slots| <= m
    ensures |r| == m
    ensures forall i :: 0 <= i < |slots| ==> r[i] == Cleaned(slots[i])
    ensures forall i :: |slots| <= i < m ==> r[i] == None
  {
    CleanedAll(slots) + EmptySlots(m - |slots|)
  }

  /** What survives a write-then-read of a SavedInventory: its real items, in place. */
  function CleanedInventory(s: SavedInventory): SavedInventory
  {
    SavedInventory(CleanedAll(s.armor), CleanedAll(s.contents))
  }

  /** A missing section reads like an empty one. */
  lemma ReadSpecChild(es: seq<Entry>, key: string, maxSize: nat)
    ensures ReadSpec(GetSection(es, key), maxSize) == ReadInto(EmptySlots(maxSize), Child(es, key))
  {
  }

  lemma ReadSavedChild(config: seq<Entry>, key: string)
    ensures ReadSavedInventorySpec(GetSection(config, key)) == ReadSavedInventorySpec(Some(Child(config, key)))
  {
    if GetSection(config, key).None? {
      assert Child(config, key) == [];
      assert EMPTY == SavedInventory(EmptySlots(ARMOR_SIZE), EmptySlots(CONTENTS_SIZE));
    }
  }

  lemma SectionAtPair(config: seq<Entry>, outer: string, inner: string)
    ensures SectionAt(config, [outer, inner]) == Child(Child(config, outer), inner)
  {
    var p: Path := [outer, inner];
    assert p[0] == outer && p[1..] == [inner];
    var q: Path := [inner];
    assert q[0] == inner && q[1..] == [];
    assert SectionAt(Child(config, outer), q) == SectionAt(Child(Child(config, outer), inner), []);
  }

  lemma SectionAtSingle(config: seq<Entry>, key: string)
    ensures SectionAt(config, [key]) == Child(config, key)
  {
    var q: Path := [key];
    assert q[0] == key && q[1..] == [];
  }

  /** Reading one array back from a written section into an array at least as long. */
  lemma ReadBack(config: seq<Entry>, outer: string, inner: string, slots: seq<Slot>, m: nat)
    requires SectionAt(config, [outer, inner]) == Written(slots)
    requires |slots| <= m <= INT_MAX
    ensures ReadSpec(GetSection(Child(config, outer), inner), m) == Ok(Padded(slots, m))
  {
    SectionAtPair(config, outer, inner);
    ReadSpecChild(Child(config, outer), inner, m);
    ReadWritten(slots, m);
  }

  /** Each of the five writes lands in its own section and no other write disturbs it. */
  lemma WriteAllSections(sa: seq<Slot>, si: seq<Slot>, ca: seq<Slot>, ci: seq<Slot>, e: seq<Slot>)
    ensures var c := WriteAll(sa, si, ca, ci, e);
            && SectionAt(c, SURVIVAL_ARMOR) == Written(sa)
            && SectionAt(c, SURVIVAL_INV) == Written(si)
            && SectionAt(c, CREATIVE_ARMOR) == Written(ca)
            && SectionAt(c, CREATIVE_INV) == Written(ci)
            && SectionAt(c, ENDER_CHEST) == Written(e)
  {
    var c1 := WriteSpec([], SURVIVAL_ARMOR, sa);
    var c2 := WriteSpec(c1, SURVIVAL_INV, si);
    var c3 := WriteSpec(c2, CREATIVE_ARMOR, ca);
    var c4 := WriteSpec(c3, CREATIVE_INV, ci);
    SectionAtEmpty(SURVIVAL_ARMOR);
    SectionAtEmpty(SURVIVAL_INV);
    SectionAtEmpty(CREATIVE_ARMOR);
    SectionAtEmpty(CREATIVE_INV);
    SectionAtEmpty(ENDER_CHEST);
    // Survival.Armor
    WriteSection([], SURVIVAL_ARMOR, sa);
    WriteElsewhere(c1, SURVIVAL_INV, si, SURVIVAL_ARMOR);
    WriteElsewhere(c2, CREATIVE_ARMOR, ca, SURVIVAL_ARMOR);
    WriteElsewhere(c3, CREATIVE_INV, ci, SURVIVAL_ARMOR);
    WriteElsewhere(c4, ENDER_CHEST, e, SURVIVAL_ARMOR);
    // Survival.Inv
    WriteElsewhere([], SURVIVAL_ARMOR, sa, SURVIVAL_INV);
    WriteSection(c1, SURVIVAL_INV, si);
    WriteElsewhere(c2, CREATIVE_ARMOR, ca, SURVIVAL_INV);
    WriteElsewhere(c3, CREATIVE_INV, ci, SURVIVAL_INV);
    WriteElsewhere(c4, ENDER_CHEST, e, SURVIVAL_INV);
    // Creative.Armor
    WriteElsewhere([], SURVIVAL_ARMOR, sa, CREATIVE_ARMOR);
    WriteElsewhere(c1, SURVIVAL_INV, si, CREATIVE_ARMOR);
    WriteSection(c2, CREATIVE_ARMOR, ca);
    WriteElsewhere(c3, CREATIVE_INV, ci, CREATIVE_ARMOR);
    WriteElsewhere(c4, ENDER_CHEST, e, CREATIVE_ARMOR);
    // Creative.Inv
    WriteElsewhere([], SURVIVAL_ARMOR, sa, CREATIVE_INV);
    WriteElsewhere(c1, SURVIVAL_INV, si, CREATIVE_INV);
    WriteElsewhere(c2, CREATIVE_ARMOR, ca, CREATIVE_INV);
    WriteSection(c3, CREATIVE_INV, ci);
    WriteElsewhere(c4, ENDER_CHEST, e, CREATIVE_INV);
    // EnderChest
    WriteElsewhere([], SURVIVAL_ARMOR, sa, ENDER_CHEST);
    WriteElsewhere(c1, SURVIVAL_INV, si, ENDER_CHEST);
    WriteElsewhere(c2, CREATIVE_ARMOR, ca, ENDER_CHEST);
    WriteElsewhere(c3, CREATIVE_INV, ci, ENDER_CHEST);
    WriteSection(c4, ENDER_CHEST, e);
  }

  /**
   * Reading the inventory section `key` of a written configuration whose
   * armor and contents sections hold what was written from `armor` and
   * `contents`.
   */
  lemma ReadInventoryBack(config: seq<Entry>, key: string, armor: seq<Slot>, contents: seq<Slot>)
    requires SectionAt(config, [key, "Armor"]) == Written(armor) && |armor| <= ARMOR_SIZE
    requires SectionAt(config, [key, "Inv"]) == Written(contents) && |contents| <= CONTENTS_SIZE
    ensures ReadSavedInventorySpec(GetSection(config, key))
         == Ok(SavedInventory(Padded(armor, ARMOR_SIZE), Padded(contents, CONTENTS_SIZE)))
  {
    ReadSavedChild(config, key);
    ReadBack(config, key, "Armor", armor, ARMOR_SIZE);
    ReadBack(config, key, "Inv", contents, CONTENTS_SIZE);
  }

  /** Reading the ender chest of a written configuration. */
  lemma ReadEnderBack(config: seq<Entry>, e: seq<Slot>)
    requires SectionAt(config, ENDER_CHEST) == Written(e) && |e| <= ENDER_SIZE
    ensures ReadSpec(GetSection(config, "EnderChest"), ENDER_SIZE) == Ok(Padded(e, ENDER_SIZE))
  {
    SectionAtSingle(config, "EnderChest");
    ReadSpecChild(config, "EnderChest", ENDER_SIZE);
    ReadWritten(e, ENDER_SIZE);
  }

  lemma PaddedFull(slots: seq<Slot>)
    ensures Padded(slots, |slots|) == CleanedAll(slots)
  {
    assert CleanedAll(slots) + EmptySlots(0) == CleanedAll(slots);
  }

  /**
   * `deserialize(serialize(entry))` gives back every real item of both
   * inventories and the ender chest in its slot, and null for null and AIR
   * slots, when the arrays have the standard sizes.
   */
  lemma RoundTrip(survival: SavedInventory, creative: SavedInventory, enderChest: seq<Slot>)
    requires WellSized(survival) && WellSized(creative) && |enderChest| == ENDER_SIZE
    ensures DeserializeSpec(SerializeSpec(survival, creative, enderChest))
         == Ok(Inventories(CleanedInventory(survival), CleanedInventory(creative), CleanedAll(enderChest)))
  {
    var c := SerializeSpec(survival, creative, enderChest);
    WriteAllSections(survival.armor, survival.contents, creative.armor, creative.contents, enderChest);
    ReadInventoryBack(c, "Survival", survival.armor, survival.contents);
    ReadInventoryBack(c, "Creative", creative.armor, creative.contents);
    ReadEnderBack(c, enderChest);
    PaddedFull(survival.armor);
    PaddedFull(survival.contents);
    PaddedFull(creative.armor);
    PaddedFull(creative.contents);
    PaddedFull(enderChest);
  }
}
