/**
 * The live player as the coordinators see it: a name, the permissions they
 * test, and the state they read and write. The effect type is a parameter
 * because each revision describes potion effects its own way.
 */
module Players {
  import opened Common
  import opened YahooStorage

  /**
   * `DeltaInv.SingleInv`, the forced-mode bypass, and the game modes for
   * which the player holds `DeltaInv.Disabled.Bypass.<MODE>`.
   */
  datatype Permissions = Permissions(singleInv: bool, forcedBypass: bool, disabledBypass: set<GameMode>)

  /** The parts of a Bukkit player the coordinators touch. */
  datatype LiveState<E> = LiveState(
    mode: GameMode,
    armor: seq<Slot>,
    contents: seq<Slot>,
    enderChest: seq<Slot>,
    health: real,
    foodLevel: int,
    level: int,
    exp: real,
    effects: seq<E>)

  datatype Player<E> = Player(name: string, perms: Permissions, state: LiveState<E>)

  /** `new SavedInventory(player)`: Bukkit's arrays are never null, so this is the worn armor and contents. */
  function Worn<E>(p: Player<E>): SavedInventory
  {
    SavedInventory(p.state.armor, p.state.contents)
  }

  /** `setContents(s.getContents())` then `setArmorContents(s.getArmor())`: only the worn set changes. */
  function Wear<E>(p: Player<E>, s: SavedInventory): (r: Player<E>)
    ensures Worn(r) == s
    ensures r.name == p.name && r.perms == p.perms
    ensures r.state.(armor := p.state.armor, contents := p.state.contents) == p.state
  {
    p.(state := p.state.(armor := s.armor, contents := s.contents))
  }

  /** Bukkit's `setGameMode` once the change event was not cancelled. */
  function WithMode<E>(p: Player<E>, m: GameMode): (r: Player<E>)
    ensures r.state.mode == m && Worn(r) == Worn(p)
    ensures r.name == p.name && r.perms == p.perms
    ensures r.state.(mode := p.state.mode) == p.state
  {
    p.(state := p.state.(mode := m))
  }

  /** The state after a pre-save listener ran; it cannot rename the player or change permissions. */
  function Hooked<E>(p: Player<E>, hook: LiveState<E> -> LiveState<E>): (r: Player<E>)
    ensures r.name == p.name && r.perms == p.perms
  {
    p.(state := hook(p.state))
  }
}
