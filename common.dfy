/**
 * Values shared by every part of the model: optional values (Java's nullable
 * references), 32-bit integers, game modes and item slots.
 */
module Common {

  /** A nullable reference: None plays the part of Java's null. */
  datatype Option<+T> = None | Some(value: T)

  /** A computation that either yields a value or fails the way the source throws. */
  datatype Result<+T, +E> = Ok(value: T) | Err(error: E)

  /** Java's `int`. */
  const INT_MIN: int := -0x8000_0000
  const INT_MAX: int := 0x7fff_ffff
  type Int32 = x: int | INT_MIN <= x <= INT_MAX

  /** Bukkit's four game modes. */
  datatype GameMode = Survival | Creative | Adventure | Spectator

  /** The material of an item stack; only AIR is told apart from the rest. */
  datatype Material = Air | Solid(id: nat)

  /**
   * An item stack as an opaque payload. Nothing in the core looks inside
   * it except for its material.
   */
  datatype ItemStack = ItemStack(material: Material, payload: int)

  /** One slot of an `ItemStack[]` array: None is a null slot. */
  type Slot = Option<ItemStack>

  /** Slot counts of Bukkit's player inventory and ender chest. */
  const ARMOR_SIZE: nat := 4
  const CONTENTS_SIZE: nat := 36
  const ENDER_SIZE: nat := 27

  /** `new ItemStack[n]`: n null slots. */
  function EmptySlots(n: nat): (r: seq<Slot>)
    ensures |r| == n
    ensures forall i :: 0 <= i < n ==> r[i] == None
  {
    seq(n, _ => None)
  }

  /** A slot that holds something worth writing: not null and not AIR. */
  predicate IsRealItem(s: Slot)
  {
    s.Some? && s.value.material != Air
  }

  /** What survives a write-then-read of one slot: real items, and null for the rest. */
  function Cleaned(s: Slot): Slot
  {
    if IsRealItem(s) then s else None
  }

  /** Cleaned applied to every slot. */
  function CleanedAll(slots: seq<Slot>): (r: seq<Slot>)
    ensures |r| == |slots|
    ensures forall i :: 0 <= i < |slots| ==> r[i] == Cleaned(slots[i])
  {
    seq(|slots|, i requires 0 <= i < |slots| => Cleaned(slots[i]))
  }
}
