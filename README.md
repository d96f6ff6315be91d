# DeltaInventory, modelled in Dafny

DeltaInventory is a Bukkit plugin for a network of Minecraft servers that
share one player database. A player keeps one inventory per game mode.
Survival and creative each have their own worn set, and adventure and
spectator wear an empty one. The inventory follows the player from server
to server. A coordinator, the `PlayerListener`, reacts to server events:

- on login it locks the player and schedules a load;
- when the load arrives it applies the saved entry;
- on a game-mode change it swaps the worn set with the one cached for the
  other mode;
- on a server switch it cancels the switch, saves, and sends the player on
  once the save is through;
- on quit it saves, unless the quit is the tail of a switch;
- on shutdown it saves every online player whose entry can be built (the
  earliest revision stops at the first player without a cached pair).

While a load or save is in flight the player is locked, and the
`InventoryLockListener` cancels every inventory interaction.

The project models three revisions of the coordinator:

- `LegacyPlayerListener`: the earliest, `com.yahoo` `Listeners/PlayerListener`. It swaps the
  contents only, keeps the lock set itself, and stores modes as integer codes.
- `YahooPlayerListener`: the `com.yahoo` `PlayerListener` in the package root. It adds
  authentication tracking, a forced game mode with a one-off exemption,
  pre-save listeners, and swaps armor too.
- `GmailPlayerListener`: the newest, `com.gmail`. It keeps its locks in the lock listener,
  has disabled game modes and configurable effect clearing, and saves
  synchronously on shutdown.

It also models the storage containers (`SavedInventory` and both
`InventoryPair` classes in `YahooStorage` and `GmailStorage`, the `com.gmail`
`PlayerEntry`), the lock listener (`Locks`), both revisions of the
YAML inventory codec (`InventoryUtils`, `LegacyInventoryUtils`), and both
revisions of the potion-effect string codec (`PotionEffectUtils`,
`LegacyPotionEffectUtils`). The Java library behaviour they rely on
(`toLowerCase`, `Integer.parseInt`, `Pattern.split`, `String.valueOf(int)`,
`YamlConfiguration` paths) is in `JavaStrings` and `YamlConfig`.

Each coordinator comes twice:

- as pure functions over a `ListenerState` value, about which the lemmas
  prove the protocol properties (round trips of a mode change and of a
  server hand-over, the switch-then-quit protocol, row ids reaching the next
  save, what shutdown does);
- as a `PlayerListener` class whose fields are the source's maps and sets,
  with the cached `InventoryPair` objects updated in place.

Each handler method's contract ties the new state to the function. A call
of `setGameMode` inside a handler runs the class's own game-mode handler,
as Bukkit does. Java exceptions (a null pair dereferenced, a missing game
mode in a `switch`) are modelled: the handler stops where the source
throws, with every earlier update in place, and reports `aborted`.

Things outside the core are passed in as parameters:

- Bukkit's `getPlayer` lookup is an `Option<Player>` argument;
- `isOnline` is a boolean;
- the clock is a `now` argument;
- pre-save listeners are a function on the player's live state;
- the outcome of a synchronous write is a function of the entry name.

What the listener hands to others is appended to an `outbox`: load and
save tasks, `sendToServer`, and the loaded and saved events.

Where the source itself seems odd, the model follows it as written:

- the earliest `onNoInventoryFound` fills a pair it then drops and caches a new
  empty one;
- it caches under the name as given but unlocks the lower-cased name;
- the earliest `onInventorySaved` sends an offline player (a null player) on.

## Model

| member | source | states |
|---|---|---|
| Common.EmptySlots | src/main/java/com/yahoo/tracebachi/DeltaInventory/Utils/InventoryUtils.java:107 | `new ItemStack[n]` is n slots, every one of them null |
| Common.CleanedAll | src/main/java/com/yahoo/tracebachi/DeltaInventory/Utils/InventoryUtils.java:96-103 | each slot keeps a real item and turns null or AIR into null, the slot count unchanged |
| JavaStrings.Lower | src/main/java/com/gmail/tracebachi/DeltaInventory/Listeners/PlayerListener.java:445 | lower-casing keeps the length and maps every character on its own |
| JavaStrings.LowerIdempotent | src/main/java/com/yahoo/tracebachi/DeltaInventory/Listeners/InventoryLockListener.java:45-58 | lower-casing an already lower-cased name changes nothing, so the lock registry may lower-case twice |
| JavaStrings.NatToDigits | src/main/java/com/yahoo/tracebachi/DeltaInventory/Utils/PotionEffectUtils.java:65 | a number prints as a non-empty run of decimal digits |
| JavaStrings.DigitsRoundTrip | src/main/java/com/yahoo/tracebachi/DeltaInventory/Utils/PotionEffectUtils.java:71-72 | the printed digits of n read back as n |
| JavaStrings.ParseInt | src/main/java/com/yahoo/tracebachi/DeltaInventory/Utils/InventoryUtils.java:115 | a successful `Integer.parseInt` needs a non-empty string |
| JavaStrings.ParseIntToString | src/main/java/com/yahoo/tracebachi/DeltaInventory/Utils/PotionEffectUtils.java:63-72 | printing any 32-bit `int` and parsing the text back gives the same `int` |
| JavaStrings.NatToDigitsInjective | src/main/java/com/yahoo/tracebachi/DeltaInventory/PotionEffectUtils.java:50-53 | two different numbers never print alike |
| JavaStrings.IntToStringHasNo | src/main/java/com/yahoo/tracebachi/DeltaInventory/PotionEffectUtils.java:50-53 | a printed `int` contains no character other than a sign and digits, so no `,` or `;` |
| JavaStrings.IndexOf | src/main/java/com/yahoo/tracebachi/DeltaInventory/PotionEffectUtils.java:57 | the position found holds the separator and none comes before it |
| JavaStrings.SplitLimit | src/main/java/com/yahoo/tracebachi/DeltaInventory/Utils/PotionEffectUtils.java:70 | splitting with a limit yields between one and `limit` pieces |
| JavaStrings.SplitAll | src/main/java/com/yahoo/tracebachi/DeltaInventory/PotionEffectUtils.java:34 | splitting on every separator yields at least one piece |
| JavaStrings.DropTrailingEmpty | src/main/java/com/yahoo/tracebachi/DeltaInventory/PotionEffectUtils.java:34 | `Pattern.split` drops trailing empty pieces: the result is a prefix of the pieces and does not end in an empty one |
| JavaStrings.SplitLimitStep | src/main/java/com/yahoo/tracebachi/DeltaInventory/PotionEffectUtils.java:57 | a piece free of the separator is split off as the first piece, the rest is split with one piece less |
| JavaStrings.SplitAllStep | src/main/java/com/yahoo/tracebachi/DeltaInventory/PotionEffectUtils.java:34 | a piece free of the separator is split off as the first piece and the rest is split alike |
| JavaStrings.FirstSeparator | src/main/java/com/yahoo/tracebachi/DeltaInventory/PotionEffectUtils.java:57 | the first separator of `a + d + b`, with none in a, sits right after a, with a before it and b after it |
| YamlConfig.Lookup | src/main/java/com/yahoo/tracebachi/DeltaInventory/Utils/InventoryUtils.java:116 | a key reads nothing exactly when no entry of the section carries it |
| YamlConfig.LookupPut | src/main/java/com/yahoo/tracebachi/DeltaInventory/Utils/InventoryUtils.java:100 | `set(key, v)` makes key read v and leaves every other key as it read |
| YamlConfig.PutFresh | src/main/java/com/yahoo/tracebachi/DeltaInventory/Utils/InventoryUtils.java:96-103 | setting a key the section lacks appends it after the existing keys, so `getKeys` keeps write order |
| YamlConfig.LookupAppend | src/main/java/com/yahoo/tracebachi/DeltaInventory/Utils/InventoryUtils.java:111-122 | a key is looked up in the earlier entries first |
| YamlConfig.ChildPut | src/main/java/com/yahoo/tracebachi/DeltaInventory/Utils/InventoryUtils.java:87-88 | after setting one key the child sections under all other keys are unchanged, and the set key holds the new section, if any |
| YamlConfig.SectionAtEmpty | src/main/java/com/yahoo/tracebachi/DeltaInventory/Utils/InventoryUtils.java:109 | an empty configuration has only empty sections |
| YamlConfig.SectionAtSet | src/main/java/com/yahoo/tracebachi/DeltaInventory/Utils/InventoryUtils.java:100 | setting the dotted path `p.k` puts k into the section at p, whatever was on the path |
| YamlConfig.SectionAtSetElsewhere | src/main/java/com/yahoo/tracebachi/DeltaInventory/Utils/InventoryUtils.java:45-56 | setting a path that parts ways with p leaves the section at p unchanged, so the five writes of `serialize` do not disturb each other |
| YamlConfig.DivergeExtend | src/main/java/com/yahoo/tracebachi/DeltaInventory/Utils/InventoryUtils.java:100 | a path that parts ways with q also parts ways with any extension of q |
| YahooStorage.Make | src/main/java/com/yahoo/tracebachi/DeltaInventory/Storage/SavedInventory.java:42-51 | the array constructor succeeds exactly for two non-null arrays of 4 and 36 slots and then holds them unchanged; a null armor or null contents fails with that error |
| YahooStorage.OfPlayer | src/main/java/com/yahoo/tracebachi/DeltaInventory/Storage/SavedInventory.java:33-40 | the player constructor keeps each non-null array as given and replaces a null one by an empty array of 4 or 36 slots |
| YahooStorage.EmptyIsWellFormed | src/main/java/com/yahoo/tracebachi/DeltaInventory/Storage/SavedInventory.java:28 | `EMPTY` passes the array constructor, has the standard sizes and holds only null slots |
| YahooStorage.OfPlayerWellSized | src/main/java/com/yahoo/tracebachi/DeltaInventory/Storage/SavedInventory.java:33-51 | a player whose arrays have the standard sizes gives the same value through either constructor |
| YahooStorage.OrEmpty | src/main/java/com/gmail/tracebachi/DeltaInventory/Storage/InventoryPair.java:27-40 | a null saved inventory reads as `EMPTY`, which has the standard sizes; any other reads as itself |
| YahooStorage.OrFresh | src/main/java/com/yahoo/tracebachi/DeltaInventory/Storage/InventoryPair.java:29-42 | a null array reads as 36 null slots; any other reads as itself |
| YahooStorage.InventoryPair.constructor | src/main/java/com/yahoo/tracebachi/DeltaInventory/Storage/InventoryPair.java:26-27 | a new pair holds no array on either side |
| YahooStorage.InventoryPair.GetSurvival | src/main/java/com/yahoo/tracebachi/DeltaInventory/Storage/InventoryPair.java:29-32 | the stored survival array, or 36 null slots when none is stored |
| YahooStorage.InventoryPair.GetCreative | src/main/java/com/yahoo/tracebachi/DeltaInventory/Storage/InventoryPair.java:39-42 | the stored creative array, or 36 null slots when none is stored |
| YahooStorage.InventoryPair.SetSurvival | src/main/java/com/yahoo/tracebachi/DeltaInventory/Storage/InventoryPair.java:34-37 | survival becomes the argument, creative and what `getCreative` returns stay the same |
| YahooStorage.InventoryPair.SetCreative | src/main/java/com/yahoo/tracebachi/DeltaInventory/Storage/InventoryPair.java:44-47 | creative becomes the argument, survival and what `getSurvival` returns stay the same |
| GmailStorage.InventoryPair.constructor | src/main/java/com/gmail/tracebachi/DeltaInventory/Storage/InventoryPair.java:24-25 | a new pair holds no saved inventory on either side |
| GmailStorage.InventoryPair.GetSurvival | src/main/java/com/gmail/tracebachi/DeltaInventory/Storage/InventoryPair.java:27-30 | never null: the stored survival inventory, or `EMPTY` |
| GmailStorage.InventoryPair.GetCreative | src/main/java/com/gmail/tracebachi/DeltaInventory/Storage/InventoryPair.java:37-40 | never null: the stored creative inventory, or `EMPTY` |
| GmailStorage.InventoryPair.SetSurvival | src/main/java/com/gmail/tracebachi/DeltaInventory/Storage/InventoryPair.java:32-35 | survival becomes the argument and reads back as it; what `getCreative` returns is unchanged |
| GmailStorage.InventoryPair.SetCreative | src/main/java/com/gmail/tracebachi/DeltaInventory/Storage/InventoryPair.java:42-45 | creative becomes the argument and reads back as it; what `getSurvival` returns is unchanged |
| GmailStorage.EntryState.GetPotionEffects | src/main/java/com/gmail/tracebachi/DeltaInventory/Storage/PlayerEntry.java:110-114 | an unset effect collection reads as empty, a set one as itself |
| GmailStorage.EntryState.GetSurvival | src/main/java/com/gmail/tracebachi/DeltaInventory/Storage/PlayerEntry.java:121-125 | an unset survival inventory reads as `EMPTY`, a set one as itself |
| GmailStorage.EntryState.GetCreative | src/main/java/com/gmail/tracebachi/DeltaInventory/Storage/PlayerEntry.java:132-136 | an unset creative inventory reads as `EMPTY`, a set one as itself |
| GmailStorage.EntryState.GetEnderChest | src/main/java/com/gmail/tracebachi/DeltaInventory/Storage/PlayerEntry.java:143-147 | an unset ender chest reads as 27 null slots, a set one as itself |
| GmailStorage.PlayerEntry.constructor | src/main/java/com/gmail/tracebachi/DeltaInventory/Storage/PlayerEntry.java:43-47 | a new entry carries the name and Java's default for every other field |
| GmailStorage.PlayerEntry.Create | src/main/java/com/gmail/tracebachi/DeltaInventory/Storage/PlayerEntry.java:43-47 | a null name throws (no entry); any other name gives a fresh entry with defaults |
| GmailStorage.PlayerEntry.GetPotionEffects | src/main/java/com/gmail/tracebachi/DeltaInventory/Storage/PlayerEntry.java:110-114 | never null: the stored effects, or an empty collection |
| GmailStorage.PlayerEntry.GetSurvival | src/main/java/com/gmail/tracebachi/DeltaInventory/Storage/PlayerEntry.java:121-125 | never null: the stored survival inventory, or `EMPTY` |
| GmailStorage.PlayerEntry.GetCreative | src/main/java/com/gmail/tracebachi/DeltaInventory/Storage/PlayerEntry.java:132-136 | never null: the stored creative inventory, or `EMPTY` |
| GmailStorage.PlayerEntry.GetEnderChest | src/main/java/com/gmail/tracebachi/DeltaInventory/Storage/PlayerEntry.java:143-147 | never null: the stored ender chest, or 27 null slots |
| GmailStorage.PlayerEntry.SetHealth | src/main/java/com/gmail/tracebachi/DeltaInventory/Storage/PlayerEntry.java:55-64 | health becomes the argument; no other field changes |
| GmailStorage.PlayerEntry.SetFoodLevel | src/main/java/com/gmail/tracebachi/DeltaInventory/Storage/PlayerEntry.java:66-75 | the food level becomes the argument; no other field changes |
| GmailStorage.PlayerEntry.SetXpLevel | src/main/java/com/gmail/tracebachi/DeltaInventory/Storage/PlayerEntry.java:77-86 | the level becomes the argument; no other field changes |
| GmailStorage.PlayerEntry.SetXpProgress | src/main/java/com/gmail/tracebachi/DeltaInventory/Storage/PlayerEntry.java:88-97 | the experience progress becomes the argument; no other field changes |
| GmailStorage.PlayerEntry.SetGameMode | src/main/java/com/gmail/tracebachi/DeltaInventory/Storage/PlayerEntry.java:99-108 | the game mode becomes the argument; no other field changes |
| GmailStorage.PlayerEntry.SetPotionEffects | src/main/java/com/gmail/tracebachi/DeltaInventory/Storage/PlayerEntry.java:116-119 | the effects become the argument and a set value reads back as itself; no other field changes |
| GmailStorage.PlayerEntry.SetSurvival | src/main/java/com/gmail/tracebachi/DeltaInventory/Storage/PlayerEntry.java:127-130 | survival becomes the argument and a set value reads back as itself; no other field changes |
| GmailStorage.PlayerEntry.SetCreative | src/main/java/com/gmail/tracebachi/DeltaInventory/Storage/PlayerEntry.java:138-141 | creative becomes the argument and a set value reads back as itself; no other field changes |
| GmailStorage.PlayerEntry.SetEnderChest | src/main/java/com/gmail/tracebachi/DeltaInventory/Storage/PlayerEntry.java:149-152 | the ender chest becomes the argument and a set value reads back as itself; no other field changes |
| Locks.InventoryLockListener.constructor | src/main/java/com/yahoo/tracebachi/DeltaInventory/Listeners/InventoryLockListener.java:39-43 | a new registry locks nobody |
| Locks.InventoryLockListener.AddLock | src/main/java/com/yahoo/tracebachi/DeltaInventory/Listeners/InventoryLockListener.java:45-48 | true exactly when the name was not locked before; afterwards its lower-cased form is locked and nothing else changed |
| Locks.InventoryLockListener.RemoveLock | src/main/java/com/yahoo/tracebachi/DeltaInventory/Listeners/InventoryLockListener.java:50-53 | true exactly when the name was locked before; afterwards it is not, and nothing else changed |
| Locks.InventoryLockListener.CancelIfLocked | src/main/java/com/yahoo/tracebachi/DeltaInventory/Listeners/InventoryLockListener.java:68-140 | inventory open, inventory interaction, item drop and item pickup end cancelled exactly when already cancelled or the player is locked |
| Locks.InventoryLockListener.OnPlayerQuitEvent | src/main/java/com/yahoo/tracebachi/DeltaInventory/Listeners/InventoryLockListener.java:142-145 | a quitting player's lock is dropped and no other |
| Locks.InventoryLockListener.Shutdown | src/main/java/com/yahoo/tracebachi/DeltaInventory/Listeners/InventoryLockListener.java:39-43 | shutdown leaves nobody locked |
| Players.Wear | src/main/java/com/gmail/tracebachi/DeltaInventory/Listeners/PlayerListener.java:506-507 | setting the contents and armor of a saved inventory makes the player wear exactly it, and changes nothing else about them |
| Players.WithMode | src/main/java/com/gmail/tracebachi/DeltaInventory/Listeners/PlayerListener.java:671-686 | an uncancelled `setGameMode` changes the mode only; the worn set is untouched |
| Players.Hooked | src/main/java/com/gmail/tracebachi/DeltaInventory/Listeners/PlayerListener.java:534-536 | a pre-save listener may change the live state but never the player's name or permissions |
| InventorySwap.Unstash | src/main/java/com/gmail/tracebachi/DeltaInventory/Listeners/PlayerListener.java:503-521 | entering survival or creative wears that side of the pair (`EMPTY` if missing) and empties it; other modes wear `EMPTY`; the other sides are untouched |
| InventorySwap.SwapSpec | src/main/java/com/gmail/tracebachi/DeltaInventory/Listeners/PlayerListener.java:490-521 | after a swap the old mode's side holds what was worn, the new mode's set is worn and taken out, and any other side is untouched |
| InventorySwap.Dress | src/main/java/com/gmail/tracebachi/DeltaInventory/Listeners/PlayerListener.java:641-669 | a single-inventory player always wears the survival set and nothing stays cached; any other player is dressed as a swap into the current mode |
| InventorySwap.SwapThereAndBack | src/main/java/com/gmail/tracebachi/DeltaInventory/Listeners/PlayerListener.java:490-521 | swapping from survival or creative to another mode and back gives back exactly the worn set, and the other side reads as before |
| InventorySwap.StashUnstash | src/main/java/com/gmail/tracebachi/DeltaInventory/Listeners/PlayerListener.java:490-521 | for a full pair, stashing what unstashing gave out restores the pair |
| InventorySwap.DressFrom | src/main/java/com/gmail/tracebachi/DeltaInventory/Listeners/PlayerListener.java:641-669 | the imperative dressing of a new pair agrees with `Dress`: the player wears its set and the pair holds what it says |
| InventorySwap.SwapPair | src/main/java/com/gmail/tracebachi/DeltaInventory/Listeners/PlayerListener.java:490-521 | the imperative swap on the cached pair agrees with `SwapSpec` |
| InventoryUtils.WriteItemStacks | src/main/java/com/yahoo/tracebachi/DeltaInventory/Utils/InventoryUtils.java:94-103 | the loop writes the configuration the specification of `writeItemStacks` gives |
| InventoryUtils.WrittenKeys | src/main/java/com/yahoo/tracebachi/DeltaInventory/Utils/InventoryUtils.java:96-101 | after writing, key i holds slot i exactly when slot i holds a real item (not null, not AIR) |
| InventoryUtils.WriteSection | src/main/java/com/yahoo/tracebachi/DeltaInventory/Utils/InventoryUtils.java:94-103 | writing slots into an empty section leaves exactly the written entries in it |
| InventoryUtils.WriteElsewhere | src/main/java/com/yahoo/tracebachi/DeltaInventory/Utils/InventoryUtils.java:45-56 | writing under one prefix leaves every section on a diverging path unchanged |
| InventoryUtils.Place | src/main/java/com/yahoo/tracebachi/DeltaInventory/Utils/InventoryUtils.java:113-121 | one key read into the array keeps the array length: a non-numeric key is skipped, an in-range key stores the item, an out-of-range key throws |
| InventoryUtils.ReadInto | src/main/java/com/yahoo/tracebachi/DeltaInventory/Utils/InventoryUtils.java:111-122 | reading entries one after another keeps the array length or stops with the exception |
| InventoryUtils.ReadSpec | src/main/java/com/yahoo/tracebachi/DeltaInventory/Utils/InventoryUtils.java:105-125 | `readItemStacks` returns `maxSize` slots, and a null section gives `maxSize` null slots |
| InventoryUtils.ReadItemStacks | src/main/java/com/yahoo/tracebachi/DeltaInventory/Utils/InventoryUtils.java:105-125 | the imperative loop over the section's keys returns what `ReadSpec` gives |
| InventoryUtils.NonNumericKeySkipped | src/main/java/com/yahoo/tracebachi/DeltaInventory/Utils/InventoryUtils.java:118-121 | a key that is not an `int` changes nothing, because the NumberFormatException is caught |
| InventoryUtils.OutOfRangeKeyThrows | src/main/java/com/yahoo/tracebachi/DeltaInventory/Utils/InventoryUtils.java:115-116 | an `int` key outside the array aborts the whole read, whatever keys come after it |
| InventoryUtils.ReadWritten | src/main/java/com/yahoo/tracebachi/DeltaInventory/Utils/InventoryUtils.java:94-125 | reading back written slots into an array at least as long gives each real item in its slot and null everywhere else |
| InventoryUtils.CleanedStep | src/main/java/com/yahoo/tracebachi/DeltaInventory/Utils/InventoryUtils.java:111-122 | reading the last written slot changes exactly that slot of the array, if it held a real item |
| InventoryUtils.ReadIntoAppend | src/main/java/com/yahoo/tracebachi/DeltaInventory/Utils/InventoryUtils.java:111-122 | reading two lists of entries one after the other is reading the second into the result of the first |
| InventoryUtils.ReadSavedInventorySpec | src/main/java/com/yahoo/tracebachi/DeltaInventory/Utils/InventoryUtils.java:83-92 | a null section reads as `EMPTY`; a successful read has 4 armor and 36 content slots |
| InventoryUtils.ReadSavedInventory | src/main/java/com/yahoo/tracebachi/DeltaInventory/Utils/InventoryUtils.java:83-92 | the method agrees with `ReadSavedInventorySpec`, and what it reads always passes the size checks of SavedInventory's array constructor |
| InventoryUtils.Serialize | src/main/java/com/yahoo/tracebachi/DeltaInventory/Utils/InventoryUtils.java:37-60 | the configuration built is the five writes of survival armor, survival contents, creative armor, creative contents and ender chest, in that order |
| InventoryUtils.DeserializeSpec | src/main/java/com/yahoo/tracebachi/DeltaInventory/Utils/InventoryUtils.java:62-81 | a successful read gives inventories of the standard sizes and a 27-slot ender chest |
| InventoryUtils.Deserialize | src/main/java/com/yahoo/tracebachi/DeltaInventory/Utils/InventoryUtils.java:62-81 | the entry ends up with the three values read; a read that throws leaves the setters before it applied and the later ones not |
| InventoryUtils.Padded | src/main/java/com/yahoo/tracebachi/DeltaInventory/Utils/InventoryUtils.java:107-125 | a write-then-read into m slots keeps the real items, nulls the rest and pads with nulls to m |
| InventoryUtils.ReadSpecChild | src/main/java/com/yahoo/tracebachi/DeltaInventory/Utils/InventoryUtils.java:87-88 | a missing child section reads like an empty one |
| InventoryUtils.ReadSavedChild | src/main/java/com/yahoo/tracebachi/DeltaInventory/Utils/InventoryUtils.java:73-77 | reading an inventory section from the configuration is reading its child section |
| InventoryUtils.SectionAtPair | src/main/java/com/yahoo/tracebachi/DeltaInventory/Utils/InventoryUtils.java:47-48 | the section at `outer.inner` is the child `inner` of the child `outer` |
| InventoryUtils.SectionAtSingle | src/main/java/com/yahoo/tracebachi/DeltaInventory/Utils/InventoryUtils.java:56 | the section at a one-part path is the child under that key |
| InventoryUtils.ReadBack | src/main/java/com/yahoo/tracebachi/DeltaInventory/Utils/InventoryUtils.java:87-88 | a written array section reads back padded into any array at least as long |
| InventoryUtils.WriteAllSections | src/main/java/com/yahoo/tracebachi/DeltaInventory/Utils/InventoryUtils.java:45-56 | each of the five writes lands in its own section and none disturbs another |
| InventoryUtils.ReadInventoryBack | src/main/java/com/yahoo/tracebachi/DeltaInventory/Utils/InventoryUtils.java:83-92 | an inventory section written from armor and contents reads back as their padded real items |
| InventoryUtils.ReadEnderBack | src/main/java/com/yahoo/tracebachi/DeltaInventory/Utils/InventoryUtils.java:79-80 | a written ender chest reads back as its padded real items |
| InventoryUtils.PaddedFull | src/main/java/com/yahoo/tracebachi/DeltaInventory/Utils/InventoryUtils.java:107-125 | padding to the array's own length only nulls out non-items |
| InventoryUtils.RoundTrip | src/main/java/com/yahoo/tracebachi/DeltaInventory/Utils/InventoryUtils.java:37-81 | `deserialize(serialize(entry))` gives back every real item of both inventories and the ender chest in its slot, and null for null and AIR, for standard-size arrays |
| LegacyInventoryUtils.SerializeSpec | src/main/java/com/yahoo/tracebachi/DeltaInventory/InventoryUtils.java:42-121 | serializing fails exactly when a present inventory has a null array; a null inventory writes nothing |
| LegacyInventoryUtils.Serialize | src/main/java/com/yahoo/tracebachi/DeltaInventory/InventoryUtils.java:42-104 | the three guarded write loops produce what `SerializeSpec` gives |
| LegacyInventoryUtils.ReadPlayerInventory | src/main/java/com/yahoo/tracebachi/DeltaInventory/InventoryUtils.java:153-165 | a null section gives 4 and 36 null slots; every result has both arrays, of those sizes |
| LegacyInventoryUtils.DeserializeSpec | src/main/java/com/yahoo/tracebachi/DeltaInventory/InventoryUtils.java:123-151 | a successful read gives two inventories with both arrays and a 27-slot ender chest |
| LegacyInventoryUtils.Deserialize | src/main/java/com/yahoo/tracebachi/DeltaInventory/InventoryUtils.java:123-151 | the method computes the three values `DeserializeSpec` gives, in the source's order |
| LegacyInventoryUtils.RoundTrip | src/main/java/com/yahoo/tracebachi/DeltaInventory/InventoryUtils.java:42-187 | `deserialize(serialize(entry))` succeeds and gives every real item back in its slot; a null part reads back as empty arrays of 4, 36 or 27 |
| LegacyInventoryUtils.NullSurvivalReadsEmpty | src/main/java/com/yahoo/tracebachi/DeltaInventory/InventoryUtils.java:161-164 | a null survival inventory comes back as empty arrays of 4 and 36 slots |
| PotionEffectUtils.Deserialize | src/main/java/com/yahoo/tracebachi/DeltaInventory/Utils/PotionEffectUtils.java:68-75 | a parsed effect carries the text before the first comma as its type name; a string without a comma is rejected |
| PotionEffectUtils.RoundTrip | src/main/java/com/yahoo/tracebachi/DeltaInventory/Utils/PotionEffectUtils.java:63-75 | for a type name without a comma, `deserialize(serialize(e))` gives back the same type name, amplifier and duration |
| PotionEffectUtils.BadAmplifierRejected | src/main/java/com/yahoo/tracebachi/DeltaInventory/Utils/PotionEffectUtils.java:71 | a non-numeric amplifier field makes the string unreadable |
| PotionEffectUtils.Strings | src/main/java/com/yahoo/tracebachi/DeltaInventory/Utils/PotionEffectUtils.java:34-44 | one serialized string per effect |
| PotionEffectUtils.ParsedSnoc | src/main/java/com/yahoo/tracebachi/DeltaInventory/Utils/PotionEffectUtils.java:50-58 | parsing one more string appends its effect, or nothing if it is malformed |
| PotionEffectUtils.ToStringList | src/main/java/com/yahoo/tracebachi/DeltaInventory/Utils/PotionEffectUtils.java:34-44 | `toStringList` keeps length and order: element i is the serialization of effect i |
| PotionEffectUtils.ToEffectList | src/main/java/com/yahoo/tracebachi/DeltaInventory/Utils/PotionEffectUtils.java:46-61 | `toEffectList` returns the parsed effects with the malformed strings skipped, never more than it was given |
| PotionEffectUtils.ParsedShorter | src/main/java/com/yahoo/tracebachi/DeltaInventory/Utils/PotionEffectUtils.java:46-61 | the parsed list is never longer than the strings it came from |
| PotionEffectUtils.ParsedAppend | src/main/java/com/yahoo/tracebachi/DeltaInventory/Utils/PotionEffectUtils.java:46-61 | parsing a concatenation of string lists is concatenating the parsed lists |
| PotionEffectUtils.MalformedDropped | src/main/java/com/yahoo/tracebachi/DeltaInventory/Utils/PotionEffectUtils.java:57 | a malformed string contributes nothing and disturbs nothing around it |
| PotionEffectUtils.StringsSnoc | src/main/java/com/yahoo/tracebachi/DeltaInventory/Utils/PotionEffectUtils.java:38-41 | serializing one more effect appends its string |
| PotionEffectUtils.ListRoundTrip | src/main/java/com/yahoo/tracebachi/DeltaInventory/Utils/PotionEffectUtils.java:34-61 | `toEffectList(toStringList(effects))` gives every effect back, in order, when no type name holds a comma |
| LegacyPotionEffectUtils.DeserializePotionEffect | src/main/java/com/yahoo/tracebachi/DeltaInventory/PotionEffectUtils.java:55-63 | a non-numeric type id in the first field makes the piece unreadable |
| LegacyPotionEffectUtils.Pieces | src/main/java/com/yahoo/tracebachi/DeltaInventory/PotionEffectUtils.java:23-27 | one printed piece per effect |
| LegacyPotionEffectUtils.TerminatedSnoc | src/main/java/com/yahoo/tracebachi/DeltaInventory/PotionEffectUtils.java:23-27 | one more piece adds that piece and a `;` at the end |
| LegacyPotionEffectUtils.SerializeSnoc | src/main/java/com/yahoo/tracebachi/DeltaInventory/PotionEffectUtils.java:19-30 | serializing one more effect appends its piece and a `;` |
| LegacyPotionEffectUtils.SerializePrefix | src/main/java/com/yahoo/tracebachi/DeltaInventory/PotionEffectUtils.java:23-27 | each iteration of the builder loop extends the string by one piece and a `;` |
| LegacyPotionEffectUtils.Serialize | src/main/java/com/yahoo/tracebachi/DeltaInventory/PotionEffectUtils.java:19-30 | the builder loop gives `SerializeSpec(effects)`, which is empty exactly when there are no effects |
| LegacyPotionEffectUtils.SerializeEmptyIff | src/main/java/com/yahoo/tracebachi/DeltaInventory/PotionEffectUtils.java:19-30 | only an empty collection serializes to the empty string |
| LegacyPotionEffectUtils.Deserialize | src/main/java/com/yahoo/tracebachi/DeltaInventory/PotionEffectUtils.java:32-48 | the loop over the `;` pieces gives `DeserializeSpec(source)` |
| LegacyPotionEffectUtils.PieceRoundTrip | src/main/java/com/yahoo/tracebachi/DeltaInventory/PotionEffectUtils.java:50-63 | one printed effect reads back as itself |
| LegacyPotionEffectUtils.PieceHasNoSeparator | src/main/java/com/yahoo/tracebachi/DeltaInventory/PotionEffectUtils.java:50-53 | a printed effect holds no `;` |
| LegacyPotionEffectUtils.SplitTerminated | src/main/java/com/yahoo/tracebachi/DeltaInventory/PotionEffectUtils.java:34 | splitting `;`-terminated pieces that hold no `;` on every `;` gives the pieces and one empty tail |
| LegacyPotionEffectUtils.SplitSerialized | src/main/java/com/yahoo/tracebachi/DeltaInventory/PotionEffectUtils.java:19-34 | splitting a serialized list on every `;` gives its pieces and one empty tail |
| LegacyPotionEffectUtils.CollectSnoc | src/main/java/com/yahoo/tracebachi/DeltaInventory/PotionEffectUtils.java:37-45 | reading one more piece appends its effect, or nothing if it does not parse |
| LegacyPotionEffectUtils.KeptPiece | src/main/java/com/yahoo/tracebachi/DeltaInventory/PotionEffectUtils.java:39-44 | a printed effect read inside the loop contributes exactly itself |
| LegacyPotionEffectUtils.PiecesSnoc | src/main/java/com/yahoo/tracebachi/DeltaInventory/PotionEffectUtils.java:23-27 | one more effect adds one more piece |
| LegacyPotionEffectUtils.CollectPieces | src/main/java/com/yahoo/tracebachi/DeltaInventory/PotionEffectUtils.java:32-63 | reading the printed pieces of a list gives the list back |
| LegacyPotionEffectUtils.SplitSerializedNonEmpty | src/main/java/com/yahoo/tracebachi/DeltaInventory/PotionEffectUtils.java:34 | `Pattern.split` on a non-empty serialized list drops the trailing empty piece and gives exactly the pieces |
| LegacyPotionEffectUtils.RoundTrip | src/main/java/com/yahoo/tracebachi/DeltaInventory/PotionEffectUtils.java:19-63 | `deserialize(serialize(effects))` yields the same id, amplifier and duration triples in the same order |
| LegacyPotionEffectUtils.NothingToRead | src/main/java/com/yahoo/tracebachi/DeltaInventory/PotionEffectUtils.java:32-48 | the empty string, and any string without `;` that is not an effect, reads as no effects |
| GmailPlayerListener.ModeNamedIgnoresCase | src/main/java/com/gmail/tracebachi/DeltaInventory/Listeners/PlayerListener.java:103-134 | a configured mode name is recognised however it is capitalised |
| GmailPlayerListener.DisabledModesOf | src/main/java/com/gmail/tracebachi/DeltaInventory/Listeners/PlayerListener.java:103-115 | a mode is disabled exactly when some configured name names it; unknown names are skipped |
| GmailPlayerListener.Lock | src/main/java/com/yahoo/tracebachi/DeltaInventory/Listeners/InventoryLockListener.java:45-48 | after `addLock` the name is locked and nothing else in the listener changed |
| GmailPlayerListener.Unlock | src/main/java/com/yahoo/tracebachi/DeltaInventory/Listeners/InventoryLockListener.java:50-53 | after `removeLock` the name is unlocked and nothing else in the listener changed |
| GmailPlayerListener.Decide | src/main/java/com/gmail/tracebachi/DeltaInventory/Listeners/PlayerListener.java:448-488 | a mode change is cancelled exactly when the mode differs, the player is authenticated and the mode is disabled for them, they are locked, or a forced mode holds them; it swaps exactly when none of these holds and the player keeps two inventories |
| GmailPlayerListener.ModeChange | src/main/java/com/gmail/tracebachi/DeltaInventory/Listeners/PlayerListener.java:442-522 | the one-off exemption is consumed whatever happens; cancelled exactly as `Decide` says; throws exactly when a swap needs a pair that is not cached; without a swap nothing else changes; only the worn set and the cached pair can change |
| GmailPlayerListener.ModeChangeShape | src/main/java/com/gmail/tracebachi/DeltaInventory/Listeners/PlayerListener.java:442-522 | the handler's three shapes: no swap, a swap without a cached pair, and a swap through the cached pair |
| GmailPlayerListener.SetMode | src/main/java/com/gmail/tracebachi/DeltaInventory/Listeners/PlayerListener.java:442-522 | `setGameMode` fires nothing when the mode is already set; otherwise the mode changes unless the handler cancels; name, permissions and the cached names stay |
| GmailPlayerListener.Snapshot | src/main/java/com/gmail/tracebachi/DeltaInventory/Listeners/PlayerListener.java:564-611 | the entry is keyed by the lower-cased name and copies the statistics, mode, effects and ender chest; a single-inventory player saves the worn set as survival and no creative; any other saves the worn set under the current mode and the cached set of the other; a missing pair throws exactly when it is read |
| GmailPlayerListener.Unpack | src/main/java/com/gmail/tracebachi/DeltaInventory/Listeners/PlayerListener.java:613-669 | statistics, ender chest and effects (cleared when configured) are applied, the cached pair is what dressing leaves, and the player wears what dressing gives; mode, name and permissions stay |
| GmailPlayerListener.LoadSpec | src/main/java/com/gmail/tracebachi/DeltaInventory/Listeners/PlayerListener.java:613-687 | a pair is always cached; the load throws exactly when no forced mode applies and the entry has no mode; when no mode is forced or the player may bypass it, the player ends in the entry's mode unless a guard of the mode handler refuses it; under a forced mode without the bypass it never throws and the player ends in the forced mode unless that mode is disabled for them or they are locked |
| GmailPlayerListener.LoadSpecShape | src/main/java/com/gmail/tracebachi/DeltaInventory/Listeners/PlayerListener.java:613-687 | `loadFromEntry` case by case: entry mode, missing mode, forced mode with a one-off exemption, or nothing to change |
| GmailPlayerListener.StartLoad | src/main/java/com/gmail/tracebachi/DeltaInventory/Listeners/PlayerListener.java:295-311 | the player is locked, marked authenticated and a load task is issued; nothing else changes |
| GmailPlayerListener.Authenticate | src/main/java/com/gmail/tracebachi/DeltaInventory/Listeners/PlayerListener.java:295-337 | only an authenticated status for an online player starts a load; otherwise nothing changes |
| GmailPlayerListener.Register | src/main/java/com/gmail/tracebachi/DeltaInventory/Listeners/PlayerListener.java:347-368 | no name, an already authenticated name, an unregistered player or an offline one changes nothing; any change is a load of the lower-cased event name |
| GmailPlayerListener.OnLoaded | src/main/java/com/gmail/tracebachi/DeltaInventory/Listeners/PlayerListener.java:168-184 | the lower-cased name is always unlocked, even when loading the entry throws; an offline player gets nothing more; an online one keeps their name, and a load that does not throw ends with `PlayerLoadedEvent` |
| GmailPlayerListener.OnNotFound | src/main/java/com/gmail/tracebachi/DeltaInventory/Listeners/PlayerListener.java:193-213 | the lower-cased name is unlocked, a pair cached under the name and the handler never throws; an offline player gets the empty pair; an online one ends with `PlayerLoadedEvent`, and one already in survival is left as is, with the empty pair cached |
| GmailPlayerListener.OnSaved | src/main/java/com/gmail/tracebachi/DeltaInventory/Listeners/PlayerListener.java:242-267 | the request is taken out and the lock dropped; an online player with a request gets it renewed with the current time, is re-locked and is sent to the destination; the saved event is always fired; no other lock changes |
| GmailPlayerListener.OnSaveFailure | src/main/java/com/gmail/tracebachi/DeltaInventory/Listeners/PlayerListener.java:274-286 | only the lock is dropped |
| GmailPlayerListener.Save | src/main/java/com/gmail/tracebachi/DeltaInventory/Listeners/PlayerListener.java:532-562 | the pre-save hook runs first; the save throws exactly when the snapshot does, and then changes nothing; otherwise the entry name is locked and exactly one save task carrying the snapshot is issued |
| GmailPlayerListener.Quit | src/main/java/com/gmail/tracebachi/DeltaInventory/Listeners/PlayerListener.java:381-401 | an unauthenticated player changes nothing; otherwise the request is gone, the pair and authentication are gone unless the save throws, no save follows a switch at most 2000 ms old, and any other quit issues exactly one asynchronous save |
| GmailPlayerListener.QuitShape | src/main/java/com/gmail/tracebachi/DeltaInventory/Listeners/PlayerListener.java:381-401 | `onPlayerQuit` case by case: a quit right after a switch, a save that throws, and a save that completes |
| GmailPlayerListener.Switch | src/main/java/com/gmail/tracebachi/DeltaInventory/Listeners/PlayerListener.java:413-428 | the request is recorded with the current time whatever happens; the pre-save hook runs and the save throws exactly when the hooked player's snapshot cannot be built; otherwise exactly one save task carrying that snapshot is queued and the player is locked |
| GmailPlayerListener.ShutdownOne | src/main/java/com/gmail/tracebachi/DeltaInventory/Listeners/PlayerListener.java:139-152 | one player of the shutdown loop: a player whose snapshot works gets its synchronous save as the next command and ends unlocked; one whose snapshot throws only loses the request; no lock is added, the outbox only grows, no player is sent anywhere, and pairs and authentication stay |
| GmailPlayerListener.ShutdownLoop | src/main/java/com/gmail/tracebachi/DeltaInventory/Listeners/PlayerListener.java:139-152 | the loop keeps the pairs and authentication and never adds a lock |
| GmailPlayerListener.ModeRoundTrip | src/main/java/com/gmail/tracebachi/DeltaInventory/Listeners/PlayerListener.java:442-522 | a player free to change modes who leaves survival or creative and comes back wears exactly what they wore, and the other side of the pair reads as before |
| GmailPlayerListener.LoadWearsEntryMode | src/main/java/com/gmail/tracebachi/DeltaInventory/Listeners/PlayerListener.java:613-687 | a load into a player free to change modes ends in the entry's mode, wearing the entry's set for it with the other cached, and with the entry's statistics, ender chest and effects |
| GmailPlayerListener.TransferRoundTrip | src/main/java/com/gmail/tracebachi/DeltaInventory/Listeners/PlayerListener.java:564-687 | the entry taken from a player, loaded into the same player elsewhere, restores mode, worn set, statistics and ender chest, and caches the other mode's set as it was |
| GmailPlayerListener.ShutdownSendsNobody | src/main/java/com/gmail/tracebachi/DeltaInventory/Listeners/PlayerListener.java:137-160 | shutdown only appends to the outbox and sends nobody to another server |
| GmailPlayerListener.ShutdownSavesEveryone | src/main/java/com/gmail/tracebachi/DeltaInventory/Listeners/PlayerListener.java:139-152 | every player whose snapshot could be taken has its synchronous save issued, whatever happened to the players before |
| GmailPlayerListener.ShutdownUnlocks | src/main/java/com/gmail/tracebachi/DeltaInventory/Runnables/PlayerSave.java:127-155 | every player whose snapshot could be taken is unlocked once shutdown is through, whether the save succeeded or failed |
| GmailPlayerListener.NotFoundEntersSurvival | src/main/java/com/gmail/tracebachi/DeltaInventory/Listeners/PlayerListener.java:193-213 | a new online player ends in survival, unlocked; with two inventories they wear an empty set and their creative set is cached |
| GmailPlayerListener.SwitchThenQuit | src/main/java/com/gmail/tracebachi/DeltaInventory/Listeners/PlayerListener.java:242-267 | after a switch and its completed save the player is re-locked and sent, and a quit within 2000 ms neither saves nor keeps the request |
| GmailPlayerListener.NewPairOf | src/main/java/com/gmail/tracebachi/DeltaInventory/Listeners/PlayerListener.java:615-620 | a fresh pair holding both sets of the entry |
| GmailPlayerListener.PlayerListener.constructor | src/main/java/com/gmail/tracebachi/DeltaInventory/Listeners/PlayerListener.java:95-135 | the configuration is read from the three settings; nobody is authenticated, exempt, requesting or cached, and the outbox is empty |
| GmailPlayerListener.PlayerListener.OnPlayerGameModeChange | src/main/java/com/gmail/tracebachi/DeltaInventory/Listeners/PlayerListener.java:442-522 | the handler on the live objects agrees with `ModeChange` |
| GmailPlayerListener.PlayerListener.SwapInventories | src/main/java/com/gmail/tracebachi/DeltaInventory/Listeners/PlayerListener.java:490-521 | without a cached pair the swap throws exactly when a mode owns an inventory; with one it agrees with `SwapSpec` and only that pair changes |
| GmailPlayerListener.PlayerListener.SetGameMode | src/main/java/com/gmail/tracebachi/DeltaInventory/Listeners/PlayerListener.java:671-686 | `setGameMode` on the live objects agrees with `SetMode` |
| GmailPlayerListener.PlayerListener.LoadFromEntry | src/main/java/com/gmail/tracebachi/DeltaInventory/Listeners/PlayerListener.java:613-687 | `loadFromEntry` on the live objects agrees with `LoadSpec` |
| GmailPlayerListener.PlayerListener.UnpackEntry | src/main/java/com/gmail/tracebachi/DeltaInventory/Listeners/PlayerListener.java:613-669 | the part before the mode agrees with `Unpack` and caches a fresh pair |
| GmailPlayerListener.PlayerListener.Install | src/main/java/com/gmail/tracebachi/DeltaInventory/Listeners/PlayerListener.java:620 | `inventoryMap.put` caches the pair under the name and changes nothing else |
| GmailPlayerListener.PlayerListener.CreatePlayerEntry | src/main/java/com/gmail/tracebachi/DeltaInventory/Listeners/PlayerListener.java:564-611 | the entry exists exactly when `Snapshot` gives one, and is a fresh object holding it |
| GmailPlayerListener.PlayerListener.SaveInventory | src/main/java/com/gmail/tracebachi/DeltaInventory/Listeners/PlayerListener.java:532-562 | the save on the live objects agrees with `Save` |
| GmailPlayerListener.PlayerListener.OnPlayerQuit | src/main/java/com/gmail/tracebachi/DeltaInventory/Listeners/PlayerListener.java:381-401 | the handler on the live objects agrees with `Quit` |
| GmailPlayerListener.PlayerListener.Forget | src/main/java/com/gmail/tracebachi/DeltaInventory/Listeners/PlayerListener.java:399-400 | the pair and the authentication of the name are dropped and nothing else |
| GmailPlayerListener.PlayerListener.OnPlayerServerSwitch | src/main/java/com/gmail/tracebachi/DeltaInventory/Listeners/PlayerListener.java:413-428 | the event always ends cancelled, and the handler agrees with `Switch` |
| GmailPlayerListener.PlayerListener.OnInventoryLoaded | src/main/java/com/gmail/tracebachi/DeltaInventory/Listeners/PlayerListener.java:168-184 | the handler on the live objects agrees with `OnLoaded` |
| GmailPlayerListener.PlayerListener.Acquire | src/main/java/com/yahoo/tracebachi/DeltaInventory/Listeners/InventoryLockListener.java:45-48 | the lock call agrees with `Lock` |
| GmailPlayerListener.PlayerListener.Release | src/main/java/com/yahoo/tracebachi/DeltaInventory/Listeners/InventoryLockListener.java:50-53 | the unlock call agrees with `Unlock` |
| GmailPlayerListener.PlayerListener.Send | src/main/java/com/gmail/tracebachi/DeltaInventory/Listeners/PlayerListener.java:265 | the outbox gains the command and nothing else changes |
| GmailPlayerListener.PlayerListener.OnInventoryLoadFailure | src/main/java/com/gmail/tracebachi/DeltaInventory/Listeners/PlayerListener.java:223-234 | a failed load changes nothing, so the lock taken for the load stays |
| GmailPlayerListener.PlayerListener.OnInventoryNotFound | src/main/java/com/gmail/tracebachi/DeltaInventory/Listeners/PlayerListener.java:193-213 | the handler on the live objects agrees with `OnNotFound` |
| GmailPlayerListener.PlayerListener.InstallEmptyPair | src/main/java/com/gmail/tracebachi/DeltaInventory/Listeners/PlayerListener.java:195-202 | the name is unlocked and a fresh empty pair cached, nothing else |
| GmailPlayerListener.PlayerListener.OnInventorySaved | src/main/java/com/gmail/tracebachi/DeltaInventory/Listeners/PlayerListener.java:242-267 | the handler on the live objects agrees with `OnSaved` |
| GmailPlayerListener.PlayerListener.Reroute | src/main/java/com/gmail/tracebachi/DeltaInventory/Listeners/PlayerListener.java:254-266 | the request is renewed with the current time, the name re-locked and the switch sent |
| GmailPlayerListener.PlayerListener.OnInventorySaveFailure | src/main/java/com/gmail/tracebachi/DeltaInventory/Listeners/PlayerListener.java:274-286 | the handler on the live objects agrees with `OnSaveFailure` |
| GmailPlayerListener.PlayerListener.OnAuthenticated | src/main/java/com/gmail/tracebachi/DeltaInventory/Listeners/PlayerListener.java:295-337 | the login and join handlers agree with `Authenticate` |
| GmailPlayerListener.PlayerListener.OnPlayerRegister | src/main/java/com/gmail/tracebachi/DeltaInventory/Listeners/PlayerListener.java:347-368 | the register handler agrees with `Register` |
| GmailPlayerListener.PlayerListener.ShutdownPlayer | src/main/java/com/gmail/tracebachi/DeltaInventory/Listeners/PlayerListener.java:141-146 | one iteration of the shutdown loop agrees with `ShutdownOne` |
| GmailPlayerListener.PlayerListener.Shutdown | src/main/java/com/gmail/tracebachi/DeltaInventory/Listeners/PlayerListener.java:137-160 | shutdown on the live objects agrees with `ShutdownSpec` |
| YahooPlayerListener.Decide | src/main/java/com/yahoo/tracebachi/DeltaInventory/PlayerListener.java:376-401 | a mode change is cancelled exactly when the mode differs, the player keeps two inventories, is authenticated, and is locked or held by a forced mode without exemption or bypass; it swaps exactly when none of the guards stops it |
| YahooPlayerListener.ModeChange | src/main/java/com/yahoo/tracebachi/DeltaInventory/PlayerListener.java:369-441 | the exemption is consumed only when the forced-mode guard is reached; cancelled exactly as `Decide` says; throws exactly when a swap needs a pair that is not cached; otherwise only the worn set and the cached pair change |
| YahooPlayerListener.ModeChangeShape | src/main/java/com/yahoo/tracebachi/DeltaInventory/PlayerListener.java:369-441 | the handler's shapes: a guard stops it, a swap without a cached pair, or a swap through the cached pair |
| YahooPlayerListener.SetMode | src/main/java/com/yahoo/tracebachi/DeltaInventory/PlayerListener.java:369-441 | `setGameMode` fires nothing for the same mode; a cancelled change keeps the old mode; without a forced mode no exemption changes; only mode, worn set, exemptions and the cached pair can change |
| YahooPlayerListener.Snapshot | src/main/java/com/yahoo/tracebachi/DeltaInventory/PlayerListener.java:483-532 | the entry carries the row id, the lower-cased name, the statistics, the mode, the effects as one string and the ender chest; a single-inventory player saves the worn set as survival only; any other saves the worn set under the current mode and the pair's set for the other; reading a missing pair throws |
| YahooPlayerListener.Unpack | src/main/java/com/yahoo/tracebachi/DeltaInventory/PlayerListener.java:536-586 | a null effects string throws after the four statistics are set, with the cache and the worn set untouched; otherwise the entry's effects are added after the player's own, the pair is cached as dressing leaves it and the player wears what dressing gives |
| YahooPlayerListener.RefreshFrom | src/main/java/com/yahoo/tracebachi/DeltaInventory/PlayerListener.java:539-552 | the statistics, effects and ender chest steps agree with `Refreshed` |
| YahooPlayerListener.Settle | src/main/java/com/yahoo/tracebachi/DeltaInventory/PlayerListener.java:588-627 | the mode step throws exactly when no forced mode applies and the entry has no mode; otherwise the player ends in the entry's mode, or under a forced mode without the bypass in the forced mode, unless they are locked; it changes only mode, worn set, exemptions and the cached pair |
| YahooPlayerListener.LoadSpec | src/main/java/com/yahoo/tracebachi/DeltaInventory/PlayerListener.java:534-628 | `copyFromEntry` throws exactly when the effects string is null or the entry has no mode where it is needed; a load that does not throw caches a pair |
| YahooPlayerListener.Authenticate | src/main/java/com/yahoo/tracebachi/DeltaInventory/PlayerListener.java:230-275 | an authenticated online player is locked, authenticated and loaded by name and the recorded row id; anything else changes nothing |
| YahooPlayerListener.OnLoaded | src/main/java/com/yahoo/tracebachi/DeltaInventory/PlayerListener.java:118-136 | `PlayerLoadedEvent` goes out first, online or not; the row id is recorded and the lock dropped; an offline player gets nothing more |
| YahooPlayerListener.OnSaved | src/main/java/com/yahoo/tracebachi/DeltaInventory/PlayerListener.java:147-166 | the saved event, the row id and the dropped lock always; an online player with a request keeps it, renewed with the current time, and is sent on without a re-lock; nothing else changes |
| YahooPlayerListener.OnNotFound | src/main/java/com/yahoo/tracebachi/DeltaInventory/PlayerListener.java:175-202 | the lock is always dropped and the handler never throws; an offline player gets nothing more; an online one gets a cached pair, survival mode (the change is never cancelled), and `PlayerLoadedEvent` last; one already in survival keeps everything and gets the empty pair |
| YahooPlayerListener.NotFoundEntersSurvival | src/main/java/com/yahoo/tracebachi/DeltaInventory/PlayerListener.java:175-202 | leaving another mode for survival with an empty pair: a swapped player stashes the worn set under the mode left and wears an empty set; a single-inventory or unauthenticated player only changes mode and the pair stays empty |
| YahooPlayerListener.OnSaveFailure | src/main/java/com/yahoo/tracebachi/DeltaInventory/PlayerListener.java:209-222 | only the lock is dropped |
| YahooPlayerListener.Quit | src/main/java/com/yahoo/tracebachi/DeltaInventory/PlayerListener.java:287-318 | an unauthenticated player changes nothing; otherwise the request is gone; pair, lock and authentication go unless the snapshot throws; no save follows a switch at most 2000 ms old, and any other quit issues exactly one normal save |
| YahooPlayerListener.Switch | src/main/java/com/yahoo/tracebachi/DeltaInventory/PlayerListener.java:329-356 | the request is recorded with the current time; the switch throws exactly when the snapshot does and then changes nothing else; otherwise the player is locked and one save carrying the snapshot is issued |
| YahooPlayerListener.ShutdownOne | src/main/java/com/yahoo/tracebachi/DeltaInventory/PlayerListener.java:80-102 | one iteration changes only requests and outbox; a player whose snapshot works loses the request and gets exactly one shutdown save appended; one whose snapshot throws changes nothing |
| YahooPlayerListener.ShutdownLoop | src/main/java/com/yahoo/tracebachi/DeltaInventory/PlayerListener.java:80-102 | the loop changes only requests and outbox |
| YahooPlayerListener.ShutdownSpec | src/main/java/com/yahoo/tracebachi/DeltaInventory/PlayerListener.java:78-110 | after shutdown locks, row ids, requests and pairs are gone, while authentication and exemptions are kept |
| YahooPlayerListener.NoExemptionWithoutForcedMode | src/main/java/com/yahoo/tracebachi/DeltaInventory/PlayerListener.java:588-627 | without a forced mode neither a load nor a not-found touches the exemptions |
| YahooPlayerListener.ModeRoundTrip | src/main/java/com/yahoo/tracebachi/DeltaInventory/PlayerListener.java:369-441 | a player free to change modes who leaves survival or creative and comes back wears exactly what they wore, and the other side of the pair reads as before |
| YahooPlayerListener.TransferRoundTrip | src/main/java/com/yahoo/tracebachi/DeltaInventory/PlayerListener.java:483-628 | the entry taken from a player, loaded into the same player on a server without a forced mode, restores mode, worn set, statistics and ender chest, and adds the carried effects after the player's own |
| YahooPlayerListener.TransferCachesOtherMode | src/main/java/com/yahoo/tracebachi/DeltaInventory/PlayerListener.java:483-628 | after the hand-over the other mode's set is cached as the snapshot carried it |
| YahooPlayerListener.TransferLoads | src/main/java/com/yahoo/tracebachi/DeltaInventory/PlayerListener.java:534-628 | a complete entry of mode m loads into a player free to change modes as mode m, wearing m's set with the rest cached |
| YahooPlayerListener.SwitchThenQuit | src/main/java/com/yahoo/tracebachi/DeltaInventory/PlayerListener.java:147-166 | after a switch and its completed save the player is sent, and the request still holds the save time, so a quit within 2000 ms neither saves nor keeps the request |
| YahooPlayerListener.SavedIdReachesNextSave | src/main/java/com/yahoo/tracebachi/DeltaInventory/PlayerListener.java:157 | a completed save records its row id, so the next save of the player carries it |
| YahooPlayerListener.LoadedIdReachesNextSave | src/main/java/com/yahoo/tracebachi/DeltaInventory/PlayerListener.java:128 | a completed load records its row id, so the next save of the player carries it |
| YahooPlayerListener.ShutdownSavesEveryone | src/main/java/com/yahoo/tracebachi/DeltaInventory/PlayerListener.java:80-102 | every player whose snapshot could be taken has its shutdown save issued, carrying its row id |
| YahooPlayerListener.ShutdownOnlySaves | src/main/java/com/yahoo/tracebachi/DeltaInventory/PlayerListener.java:78-110 | shutdown appends at most one shutdown save per player and sends nobody to another server |
| YahooPlayerListener.NewPairOf | src/main/java/com/yahoo/tracebachi/DeltaInventory/PlayerListener.java:536-555 | a fresh pair holding both inventories of the entry |
| YahooPlayerListener.PlayerListener.constructor | src/main/java/com/yahoo/tracebachi/DeltaInventory/PlayerListener.java:66-76 | with `ForcedGameMode.Enable` the forced mode is the named game mode, otherwise none; the listener starts empty |
| YahooPlayerListener.PlayerListener.OnPlayerGameModeChange | src/main/java/com/yahoo/tracebachi/DeltaInventory/PlayerListener.java:369-441 | the handler on the live objects agrees with `ModeChange` |
| YahooPlayerListener.PlayerListener.Guard | src/main/java/com/yahoo/tracebachi/DeltaInventory/PlayerListener.java:376-401 | the guards in their order give the outcome `Decide` states, and consume the exemption only when the forced-mode guard is reached |
| YahooPlayerListener.PlayerListener.SwapInventories | src/main/java/com/yahoo/tracebachi/DeltaInventory/PlayerListener.java:403-440 | without a cached pair the swap throws exactly when a mode owns an inventory; with one it agrees with `SwapSpec` and only that pair changes |
| YahooPlayerListener.PlayerListener.SetGameMode | src/main/java/com/yahoo/tracebachi/DeltaInventory/PlayerListener.java:594-626 | `setGameMode` on the live objects agrees with `SetMode` |
| YahooPlayerListener.PlayerListener.CopyFromEntry | src/main/java/com/yahoo/tracebachi/DeltaInventory/PlayerListener.java:534-628 | `copyFromEntry` on the live objects agrees with `LoadSpec` |
| YahooPlayerListener.PlayerListener.SettleMode | src/main/java/com/yahoo/tracebachi/DeltaInventory/PlayerListener.java:588-627 | the mode step on the live objects agrees with `Settle` |
| YahooPlayerListener.PlayerListener.UnpackEntry | src/main/java/com/yahoo/tracebachi/DeltaInventory/PlayerListener.java:536-586 | the part before the mode agrees with `Unpack` |
| YahooPlayerListener.PlayerListener.Install | src/main/java/com/yahoo/tracebachi/DeltaInventory/PlayerListener.java:556 | `inventoryMap.put` caches the pair under the name and changes nothing else |
| YahooPlayerListener.PlayerListener.CreatePlayerEntry | src/main/java/com/yahoo/tracebachi/DeltaInventory/PlayerListener.java:483-532 | the entry is what `Snapshot` gives for the recorded row id and the cached pair |
| YahooPlayerListener.PlayerListener.Send | src/main/java/com/yahoo/tracebachi/DeltaInventory/PlayerListener.java:164 | the outbox gains the command and nothing else changes |
| YahooPlayerListener.PlayerListener.OnInventoryLoaded | src/main/java/com/yahoo/tracebachi/DeltaInventory/PlayerListener.java:118-136 | the handler on the live objects agrees with `OnLoaded` |
| YahooPlayerListener.PlayerListener.OnInventorySaved | src/main/java/com/yahoo/tracebachi/DeltaInventory/PlayerListener.java:147-166 | the handler on the live objects agrees with `OnSaved` |
| YahooPlayerListener.PlayerListener.Renew | src/main/java/com/yahoo/tracebachi/DeltaInventory/PlayerListener.java:161-165 | the stored request's time is updated in place and the switch sent |
| YahooPlayerListener.PlayerListener.Record | src/main/java/com/yahoo/tracebachi/DeltaInventory/PlayerListener.java:125-129 | the event, the row id recorded and the lock dropped |
| YahooPlayerListener.PlayerListener.OnInventoryNotFound | src/main/java/com/yahoo/tracebachi/DeltaInventory/PlayerListener.java:175-202 | the handler on the live objects agrees with `OnNotFound` |
| YahooPlayerListener.PlayerListener.InstallEmptyPair | src/main/java/com/yahoo/tracebachi/DeltaInventory/PlayerListener.java:187 | a fresh empty pair is cached under the name and nothing else changes |
| YahooPlayerListener.PlayerListener.EnterSurvival | src/main/java/com/yahoo/tracebachi/DeltaInventory/PlayerListener.java:189-197 | the exemption is added when a mode is forced, then the mode set to survival |
| YahooPlayerListener.PlayerListener.OnInventorySaveFailure | src/main/java/com/yahoo/tracebachi/DeltaInventory/PlayerListener.java:209-222 | the handler on the live objects agrees with `OnSaveFailure` |
| YahooPlayerListener.PlayerListener.OnAuthenticated | src/main/java/com/yahoo/tracebachi/DeltaInventory/PlayerListener.java:230-275 | the login and join handlers agree with `Authenticate` |
| YahooPlayerListener.PlayerListener.OnPlayerQuit | src/main/java/com/yahoo/tracebachi/DeltaInventory/PlayerListener.java:287-318 | the handler on the live objects agrees with `Quit` |
| YahooPlayerListener.PlayerListener.Forget | src/main/java/com/yahoo/tracebachi/DeltaInventory/PlayerListener.java:315-317 | the pair, lock and authentication of the name are dropped and nothing else |
| YahooPlayerListener.PlayerListener.OnPlayerServerSwitch | src/main/java/com/yahoo/tracebachi/DeltaInventory/PlayerListener.java:329-356 | the event always ends cancelled, and the handler agrees with `Switch` |
| YahooPlayerListener.PlayerListener.CancelIfLocked | src/main/java/com/yahoo/tracebachi/DeltaInventory/PlayerListener.java:451-481 | inventory open and interaction end cancelled exactly when already cancelled or the player is locked |
| YahooPlayerListener.PlayerListener.ShutdownPlayer | src/main/java/com/yahoo/tracebachi/DeltaInventory/PlayerListener.java:82-101 | one iteration of the shutdown loop agrees with `ShutdownOne` |
| YahooPlayerListener.PlayerListener.Shutdown | src/main/java/com/yahoo/tracebachi/DeltaInventory/PlayerListener.java:78-110 | shutdown on the live objects agrees with `ShutdownSpec` |
| LegacyPlayerListener.CodeOf | src/main/java/com/yahoo/tracebachi/DeltaInventory/Storage/PlayerEntry.java:26-29 | each game mode is stored as its own code from 0 to 3, and the code reads back as the same mode |
| LegacyPlayerListener.UnstashContents | src/main/java/com/yahoo/tracebachi/DeltaInventory/Listeners/PlayerListener.java:246-271 | entering survival or creative wears that side's contents (36 null slots if missing) and empties it; other modes wear 36 empty slots; the other sides are untouched |
| LegacyPlayerListener.SwapContents | src/main/java/com/yahoo/tracebachi/DeltaInventory/Listeners/PlayerListener.java:246-271 | after a swap the old mode's side holds the worn contents, the new mode's contents are worn and taken out, and any other side is untouched |
| LegacyPlayerListener.WithContents | src/main/java/com/yahoo/tracebachi/DeltaInventory/Listeners/PlayerListener.java:246-271 | only the contents change; armor, statistics, name and permissions stay |
| LegacyPlayerListener.ModeChange | src/main/java/com/yahoo/tracebachi/DeltaInventory/Listeners/PlayerListener.java:236-274 | nothing happens for a single-inventory player or an unchanged mode; the change is never cancelled; it throws exactly when a swap needs a pair that is not cached; only the worn contents and the cached pair can change, never the armor |
| LegacyPlayerListener.SetMode | src/main/java/com/yahoo/tracebachi/DeltaInventory/Listeners/PlayerListener.java:236-274 | since the handler never cancels, `setGameMode` always ends in the requested mode, changing only the contents and the cached pair besides |
| LegacyPlayerListener.Snapshot | src/main/java/com/yahoo/tracebachi/DeltaInventory/Listeners/PlayerListener.java:300-338 | the entry exists exactly when a pair is given; it carries the row id, lower-cased name, health, level, experience, the mode's code, the worn armor and ender chest, the worn contents under the current mode and the pair's array for the other |
| LegacyPlayerListener.Refreshed | src/main/java/com/yahoo/tracebachi/DeltaInventory/Listeners/PlayerListener.java:345-356 | health, level and exp come from the entry; armor and ender chest too when the entry has them, else the player's own stay; contents, effects, food level, name, permissions and mode stay |
| LegacyPlayerListener.Unpack | src/main/java/com/yahoo/tracebachi/DeltaInventory/Listeners/PlayerListener.java:342-376 | the entry's pair is cached under the lower-cased name with the current mode's array taken out, which the player now wears, whatever their permissions |
| LegacyPlayerListener.LoadSpec | src/main/java/com/yahoo/tracebachi/DeltaInventory/Listeners/PlayerListener.java:340-406 | the player ends in the mode the entry's code names; an unknown code leaves the mode as unpacking left it; a pair is always cached |
| LegacyPlayerListener.Authenticate | src/main/java/com/yahoo/tracebachi/DeltaInventory/Listeners/PlayerListener.java:86-124 | an authenticated online player is locked and loaded by name and the recorded row id; anything else changes nothing |
| LegacyPlayerListener.Quit | src/main/java/com/yahoo/tracebachi/DeltaInventory/Listeners/PlayerListener.java:126-150 | for any player the request is gone; the quit throws exactly when a save is due and no pair is cached; otherwise pair and lock go; no save follows a switch at most 2000 ms old, and any other quit issues the snapshot's save |
| LegacyPlayerListener.Switch | src/main/java/com/yahoo/tracebachi/DeltaInventory/Listeners/PlayerListener.java:152-173 | the snapshot comes first: without a cached pair the handler throws and changes nothing; otherwise the request is recorded, the player locked and one save issued |
| LegacyPlayerListener.OnLoaded | src/main/java/com/yahoo/tracebachi/DeltaInventory/Listeners/PlayerListener.java:175-194 | the lock is dropped for any player; only an online player gets the row id recorded and the entry loaded |
| LegacyPlayerListener.OnSaved | src/main/java/com/yahoo/tracebachi/DeltaInventory/Listeners/PlayerListener.java:196-215 | the row id is recorded and the lock dropped; with a request its time is renewed in place and the player is sent, online or not (with no player when offline); without a request nothing more |
| LegacyPlayerListener.OnNotFound | src/main/java/com/yahoo/tracebachi/DeltaInventory/Listeners/PlayerListener.java:217-234 | an offline player changes nothing; an online one gets a new empty pair under the name as given (replacing any earlier one), the lower-cased name unlocked and survival mode; in survival already nothing else changes; from another mode the current contents are stashed into the new pair and the player wears 36 empty slots |
| LegacyPlayerListener.ShutdownOne | src/main/java/com/yahoo/tracebachi/DeltaInventory/Listeners/PlayerListener.java:65-84 | one iteration throws exactly when the player has no cached pair; otherwise it drops the request and issues one immediate save |
| LegacyPlayerListener.ShutdownLoop | src/main/java/com/yahoo/tracebachi/DeltaInventory/Listeners/PlayerListener.java:65-84 | the loop changes only requests and outbox, and never adds a request |
| LegacyPlayerListener.ShutdownSpec | src/main/java/com/yahoo/tracebachi/DeltaInventory/Listeners/PlayerListener.java:65-84 | a shutdown that does not throw clears locks, row ids, requests and pairs; one that throws keeps locks, row ids and pairs, and no request is added (which requests are gone is `ShutdownDropsRequests`) |
| LegacyPlayerListener.ShutdownStopsAtMissingPair | src/main/java/com/yahoo/tracebachi/DeltaInventory/Listeners/PlayerListener.java:65-84 | shutdown throws exactly when some online player has no cached pair; until then it issues one immediate save per player and nothing else |
| LegacyPlayerListener.ShutdownDropsRequests | src/main/java/com/yahoo/tracebachi/DeltaInventory/Listeners/PlayerListener.java:67-76 | a player reached before any missing pair has its request dropped, so after a throw the requests of the players saved before it are gone |
| LegacyPlayerListener.AbortSticks | src/main/java/com/yahoo/tracebachi/DeltaInventory/Listeners/PlayerListener.java:65-84 | once the loop has thrown the remaining players change nothing |
| LegacyPlayerListener.ModeRoundTrip | src/main/java/com/yahoo/tracebachi/DeltaInventory/Listeners/PlayerListener.java:236-274 | with a cached pair and two inventories, leaving survival or creative and coming back restores the player exactly, and the other side reads as before |
| LegacyPlayerListener.TransferRoundTrip | src/main/java/com/yahoo/tracebachi/DeltaInventory/Listeners/PlayerListener.java:300-406 | the entry taken from a player, loaded into the same player, restores mode, contents (empty for adventure and spectator), armor, statistics and ender chest, and caches the other mode's array as the snapshot read it |
| LegacyPlayerListener.SwitchThenQuit | src/main/java/com/yahoo/tracebachi/DeltaInventory/Listeners/PlayerListener.java:126-215 | after a switch and its completed save the player is sent with the request renewed, so a quit within 2000 ms issues no second save and leaves no request |
| LegacyPlayerListener.SavedIdReachesNextSave | src/main/java/com/yahoo/tracebachi/DeltaInventory/Listeners/PlayerListener.java:196-215 | a completed save records its row id, so the next switch's save carries it |
| LegacyPlayerListener.LoadedIdReachesNextSave | src/main/java/com/yahoo/tracebachi/DeltaInventory/Listeners/PlayerListener.java:175-194 | a completed load of an online player caches a pair, so the next switch saves, carrying the loaded row id |
| LegacyPlayerListener.NotFoundThenQuitSaves | src/main/java/com/yahoo/tracebachi/DeltaInventory/Listeners/PlayerListener.java:217-234 | after not-found for an online player under a lower-cased name, quitting issues exactly one save, in survival |
| LegacyPlayerListener.SwapPairContents | src/main/java/com/yahoo/tracebachi/DeltaInventory/Listeners/PlayerListener.java:246-271 | the imperative swap on the cached pair agrees with `SwapContents` |
| LegacyPlayerListener.NewPairOf | src/main/java/com/yahoo/tracebachi/DeltaInventory/Listeners/PlayerListener.java:342-359 | a fresh pair holding both arrays of the entry |
| LegacyPlayerListener.UnstashFrom | src/main/java/com/yahoo/tracebachi/DeltaInventory/Listeners/PlayerListener.java:362-376 | the first `switch` of `copyFromEntry` agrees with `UnstashContents` |
| LegacyPlayerListener.PlayerListener.constructor | src/main/java/com/yahoo/tracebachi/DeltaInventory/Listeners/PlayerListener.java:53-63 | a new listener holds nothing |
| LegacyPlayerListener.PlayerListener.OnPlayerGameModeChange | src/main/java/com/yahoo/tracebachi/DeltaInventory/Listeners/PlayerListener.java:236-274 | the handler on the live objects agrees with `ModeChange` |
| LegacyPlayerListener.PlayerListener.SetGameMode | src/main/java/com/yahoo/tracebachi/DeltaInventory/Listeners/PlayerListener.java:379-405 | `setGameMode` on the live objects agrees with `SetMode` |
| LegacyPlayerListener.PlayerListener.CopyFromEntry | src/main/java/com/yahoo/tracebachi/DeltaInventory/Listeners/PlayerListener.java:340-406 | `copyFromEntry` on the live objects agrees with `LoadSpec` |
| LegacyPlayerListener.PlayerListener.UnpackEntry | src/main/java/com/yahoo/tracebachi/DeltaInventory/Listeners/PlayerListener.java:342-376 | the part before the mode agrees with `Unpack` |
| LegacyPlayerListener.PlayerListener.Install | src/main/java/com/yahoo/tracebachi/DeltaInventory/Listeners/PlayerListener.java:360 | `inventoryMap.put` caches the pair under the name and changes nothing else |
| LegacyPlayerListener.PlayerListener.CreatePlayerEntry | src/main/java/com/yahoo/tracebachi/DeltaInventory/Listeners/PlayerListener.java:300-338 | the entry is what `Snapshot` gives for the recorded row id and the cached pair |
| LegacyPlayerListener.PlayerListener.Send | src/main/java/com/yahoo/tracebachi/DeltaInventory/Listeners/PlayerListener.java:106-124 | the outbox gains the command and nothing else changes |
| LegacyPlayerListener.PlayerListener.OnInventoryLoaded | src/main/java/com/yahoo/tracebachi/DeltaInventory/Listeners/PlayerListener.java:175-194 | the handler on the live objects agrees with `OnLoaded` |
| LegacyPlayerListener.PlayerListener.Unlock | src/main/java/com/yahoo/tracebachi/DeltaInventory/Listeners/PlayerListener.java:175-194 | the name is unlocked and nothing else changes |
| LegacyPlayerListener.PlayerListener.OnInventorySaved | src/main/java/com/yahoo/tracebachi/DeltaInventory/Listeners/PlayerListener.java:196-215 | the handler on the live objects agrees with `OnSaved` |
| LegacyPlayerListener.PlayerListener.Record | src/main/java/com/yahoo/tracebachi/DeltaInventory/Listeners/PlayerListener.java:196-215 | the row id is recorded and the lock dropped |
| LegacyPlayerListener.PlayerListener.Renew | src/main/java/com/yahoo/tracebachi/DeltaInventory/Listeners/PlayerListener.java:196-215 | the stored request's time is updated in place and the switch sent |
| LegacyPlayerListener.PlayerListener.OnNoInventoryFound | src/main/java/com/yahoo/tracebachi/DeltaInventory/Listeners/PlayerListener.java:217-234 | the handler on the live objects agrees with `OnNotFound` |
| LegacyPlayerListener.PlayerListener.InstallEmptyPair | src/main/java/com/yahoo/tracebachi/DeltaInventory/Listeners/PlayerListener.java:217-234 | a fresh empty pair is cached under the name and nothing else changes |
| LegacyPlayerListener.PlayerListener.OnAuthenticated | src/main/java/com/yahoo/tracebachi/DeltaInventory/Listeners/PlayerListener.java:86-124 | the login and join handlers agree with `Authenticate` |
| LegacyPlayerListener.PlayerListener.OnPlayerQuit | src/main/java/com/yahoo/tracebachi/DeltaInventory/Listeners/PlayerListener.java:126-150 | the handler on the live objects agrees with `Quit` |
| LegacyPlayerListener.PlayerListener.Forget | src/main/java/com/yahoo/tracebachi/DeltaInventory/Listeners/PlayerListener.java:126-150 | the pair and the lock of the name are dropped and nothing else |
| LegacyPlayerListener.PlayerListener.OnPlayerServerSwitch | src/main/java/com/yahoo/tracebachi/DeltaInventory/Listeners/PlayerListener.java:152-173 | the event ends cancelled exactly when the handler does not throw, and the handler agrees with `Switch` |
| LegacyPlayerListener.PlayerListener.CancelIfLocked | src/main/java/com/yahoo/tracebachi/DeltaInventory/Listeners/PlayerListener.java:276-298 | inventory open and interaction end cancelled exactly when already cancelled or the player is locked |
| LegacyPlayerListener.PlayerListener.ShutdownPlayer | src/main/java/com/yahoo/tracebachi/DeltaInventory/Listeners/PlayerListener.java:65-84 | one iteration of the shutdown loop agrees with `ShutdownOne` |
| LegacyPlayerListener.PlayerListener.Shutdown | src/main/java/com/yahoo/tracebachi/DeltaInventory/Listeners/PlayerListener.java:65-84 | shutdown on the live objects agrees with `ShutdownSpec` |

## Left out

- Compression and YAML text: the codecs produce and read a configuration tree (`YamlConfig`). GZIP, the UTF-8 text and its parser are not modelled, so a configuration stands for the bytes.
- `CompressionUtils`, the load and save runnables, and the JDBC storage are not part of this model. They are represented by the load and save commands in the outbox, and by the `saved` outcome of a synchronous write at shutdown.
- Messages sent to players and log output carry no state and are not modelled.
- Health and experience are `real`. Java's `double` and `float` rounding is not modelled.
- Case mapping covers ASCII letters only; `toLowerCase` of other characters is left as the identity.
- `Bukkit.getPlayer` matches name prefixes. The model takes the looked-up player as an argument instead.
- `PotionEffect.apply` is modelled as appending the effect to the player's list. Bukkit's replacement of an effect of the same type is not modelled.
- `PotionEffectType.getByName` and `getById` are not modelled. An effect carries its type name or id as read. So an unknown type name, which makes `new PotionEffect(null, …)` throw an IllegalArgumentException that the catch of `NumberFormatException` and `ArrayIndexOutOfBoundsException` does not handle, is kept as an effect here. In the source it aborts the whole `toEffectList`.
- LegacyInventoryUtils.Deserialize: returns the three arrays, or the failure, instead of calling the entry's setters one by one. So the partly filled entry that an out-of-range key leaves behind (survival set, creative not) is not modelled. No caller uses the entry after the exception.
- The `com.gmail` `onPlayerGameModeChange` and `onPlayerServerSwitch` are registered with `ignoreCancelled = true`. The model starts from an uncancelled event.
- The `com.gmail` register handler reads the player name by reflection (`getPlayerNameFromRegisterEvent`). The model takes its result as the `rawName` argument.
- The `com.gmail` `InventoryLockListener` and the `IPlayerEntry` interface are not part of this model. The `com.gmail` coordinator uses the `com.yahoo` lock listener, and its `PlayerEntry` stands for `IPlayerEntry`.
- The `com.gmail` `Storage.SavedInventory` held by the `com.gmail` `InventoryPair` and `PlayerEntry` is not part of this model. It is modelled by the `com.yahoo` `SavedInventory` (`YahooStorage`), with its `EMPTY` of 4 and 36 null slots.
- The `InventoryPair` of the package-root `com.yahoo` revision holds `PlayerInventory` values; that version is not part of this model. It is modelled by the `com.gmail` pair of `SavedInventory` values, whose getters also never return null.
- `UnmodifiablePlayerEntry`, `InventorySaveEvent` and `NoInventoryFoundEvent` of the earliest revision are not part of this model. The entry they carry is the `LegacyEntry` datatype.
- YahooPlayerListener.PlayerListener.constructor: requires that an enabled forced mode names a game mode. `GameMode.valueOf` throwing during plugin start-up is not modelled.
- The lock listener's and the coordinators' `plugin = null` and `locked = null` after shutdown are not modelled. A handler called after shutdown would throw in the source.
- Java's `PlayerInventory.clear()` is taken to empty the 36 content slots and leave the armor, as in the server version of the source's time.
- GmailPlayerListener.PlayerListener.UnpackEntry: dresses the player from the new pair before caching it. The source caches the pair first and only then sets health, the other statistics, effects and the worn set. With `setHealth`'s range check left out (next line), nothing in between can throw, so the order is not observable in the model. In the other two revisions the pair is cached after the statistics, with nothing that can throw between caching and dressing.
- Bukkit's `Player.setHealth` range check is not modelled in any revision. Health is carried as a value the setter always accepts. In the source, a stored health below 0 or above the player's maximum makes `setHealth` throw. In the `com.gmail` `loadFromEntry` the lock is then already released and the pair already cached. But the player gets none of the other statistics, effects, ender chest or worn set. The player is not moved to the entry's mode, and no `PlayerLoadedEvent` fires. The model applies all of these. In the `com.yahoo` revisions `setHealth` is the first step of `copyFromEntry`, so there the throw would leave the pair uncached as well.
- Exceptions thrown by a game-mode handler that runs inside `setGameMode` are caught by Bukkit's event bus, which also does not cancel the change. The model keeps the updates made before the throw.
- Concurrency is not modelled. The asynchronous tasks are commands in the outbox, and their completion is a later call of the matching handler.
- The `com.gmail` `onInventoryLoadFailure` only messages the player. It is modelled as a method that changes nothing and reports that the lock stays.
