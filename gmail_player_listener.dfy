/**
 * The inventory lifecycle coordinator of the `com.gmail` revision
 * (Listeners/PlayerListener.java). It keeps one InventoryPair per player for
 * the game mode the player is not in, swaps inventories on a game-mode
 * change, snapshots a player into a PlayerEntry for saving, applies a loaded
 * entry, and holds a server switch back until the save has completed.
 *
 * The listener is a class whose fields the handlers update; its value view,
 * `ListenerState`, is what each handler's specification function maps to
 * the next value. Work the listener hands to others (a load or save task,
 * a server switch, an event for other plugins) is appended to `outbox`.
 * A Java exception that escapes a handler is `aborted`: the state is what
 * the handler had done so far.
 */
module GmailPlayerListener {
  import opened Common
  import opened JavaStrings
  import opened YahooStorage
  import opened GmailStorage
  import opened Players
  import opened Locks
  import opened InventorySwap

  type GPlayer = Player<Effect>

  /** A PlayerPreSaveEvent listener: it may change anything about the player before the snapshot. */
  type Hook = LiveState<Effect> -> LiveState<Effect>

  // ---------------------------------------------------------------------
  // Configuration
  // ---------------------------------------------------------------------

  datatype Config = Config(clearEffectsOnLogin: bool, disabledGameModes: set<GameMode>, forcedGameMode: Option<GameMode>)

  /**
   * The game mode a configured name stands for, ignoring case (`ForcedGameMode`
   * is matched in lower case, `DisabledGameModes` through `GameMode.valueOf`
   * in upper case; for ASCII names the two agree).
   */
  function ModeNamed(s: string): Option<GameMode>
  {
    var n := Lower(s);
    if n == "survival" then Some(Survival)
    else if n == "creative" then Some(Creative)
    else if n == "adventure" then Some(Adventure)
    else if n == "spectator" then Some(Spectator)
    else None
  }

  /** A mode name is recognised however it is capitalised. */
  lemma ModeNamedIgnoresCase(s: string)
    ensures ModeNamed(Lower(s)) == ModeNamed(s)
  {
    LowerIdempotent(s);
  }

  /** The modes of `DisabledGameModes`; an unknown name is skipped. */
  function DisabledModesOf(names: seq<string>): (r: set<GameMode>)
    ensures forall m :: m in r <==> exists i :: 0 <= i < |names| && ModeNamed(names[i]) == Some(m)
  {
    if names == [] then {}
    else
      var init := DisabledModesOf(names[..|names| - 1]);
      assert forall i :: 0 <= i < |names| - 1 ==> names[..|names| - 1][i] == names[i];
      match ModeNamed(names[|names| - 1])
      case Some(m) => init + {m}
      case None => init
  }

  // ---------------------------------------------------------------------
  // The listener's state as a value
  // ---------------------------------------------------------------------

  /** Work handed to others: tasks, events and the server switch. */
  datatype Command =
    | LoadTask(name: string)
    | SaveTask(entry: EntryState, sync: bool)
    | SendToServer(name: string, destination: string)
    | PlayerLoadedEvent(name: string)
    | PlayerSavedEvent(name: string)

  datatype ListenerState = ListenerState(
    authenticated: set<string>,
    ignoreModeChangeOnce: set<string>,
    requests: map<string, ServerChangeRequest>,
    cache: map<string, PairState>,
    locked: set<string>,
    outbox: seq<Command>)

  /** `inventoryLockListener.addLock(name)`. */
  function Lock(v: ListenerState, name: string): (r: ListenerState)
    ensures Lower(name) in r.locked && r.(locked := v.locked) == v
  {
    v.(locked := v.locked + {Lower(name)})
  }

  /** `inventoryLockListener.removeLock(name)`. */
  function Unlock(v: ListenerState, name: string): (r: ListenerState)
    ensures Lower(name) !in r.locked && r.(locked := v.locked) == v
  {
    v.(locked := v.locked - {Lower(name)})
  }

  function Emit(v: ListenerState, c: Command): ListenerState
  {
    v.(outbox := v.outbox + [c])
  }

  /** `inventoryMap.get(name)`, null as None. */
  function CacheOf(v: ListenerState, name: string): Option<PairState>
  {
    if name in v.cache then Some(v.cache[name]) else None
  }

  // ---------------------------------------------------------------------
  // Game-mode change
  // ---------------------------------------------------------------------

  /** The target mode is disabled and the player lacks its bypass permission. */
  predicate DisabledFor(cfg: Config, p: GPlayer, m: GameMode)
  {
    m in cfg.disabledGameModes && m !in p.perms.disabledBypass
  }

  /** A forced mode holds the player: no one-off exemption and no bypass. */
  predicate HeldByForcedMode(cfg: Config, v: ListenerState, p: GPlayer)
  {
    cfg.forcedGameMode.Some? && Lower(p.name) !in v.ignoreModeChangeOnce && !p.perms.forcedBypass
  }

  /**
   * Which branch `onPlayerGameModeChange` takes: `Unhandled` when the mode
   * does not change or the player is not authenticated, `Cancelled` by one
   * of the three guards, `SingleInventory` for a player who keeps one
   * inventory, `Swapped` otherwise.
   */
  datatype ModeOutcome = Unhandled | Cancelled | SingleInventory | Swapped

  function Decide(cfg: Config, v: ListenerState, p: GPlayer, newMode: GameMode): (r: ModeOutcome)
    ensures r == Cancelled <==>
      p.state.mode != newMode && Lower(p.name) in v.authenticated &&
      (DisabledFor(cfg, p, newMode) || Lower(p.name) in v.locked || HeldByForcedMode(cfg, v, p))
    ensures r == Swapped <==>
      p.state.mode != newMode && Lower(p.name) in v.authenticated &&
      !DisabledFor(cfg, p, newMode) && Lower(p.name) !in v.locked && !HeldByForcedMode(cfg, v, p) &&
      !p.perms.singleInv
  {
    var name := Lower(p.name);
    if p.state.mode == newMode then Unhandled
    else if name !in v.authenticated then Unhandled
    else if DisabledFor(cfg, p, newMode) then Cancelled
    else if name in v.locked then Cancelled
    else if HeldByForcedMode(cfg, v, p) then Cancelled
    else if p.perms.singleInv then SingleInventory
    else Swapped
  }

  datatype ModeStep = ModeStep(view: ListenerState, player: GPlayer, cancelled: bool, aborted: bool)

  /**
   * `onPlayerGameModeChange`: the one-off exemption is consumed first
   * whatever happens; a swap without a cached pair throws as soon as it
   * touches the pair, which it does unless both modes own no inventory.
   */
  function ModeChange(cfg: Config, v: ListenerState, p: GPlayer, newMode: GameMode): (r: ModeStep)
    ensures r.view.ignoreModeChangeOnce == v.ignoreModeChangeOnce - {Lower(p.name)}
    ensures r.view.(ignoreModeChangeOnce := v.ignoreModeChangeOnce, cache := v.cache) == v
    ensures r.cancelled <==> Decide(cfg, v, p, newMode) == Cancelled
    ensures r.aborted <==>
      Decide(cfg, v, p, newMode) == Swapped && Lower(p.name) !in v.cache &&
      (OwnsInventory(p.state.mode) || OwnsInventory(newMode))
    ensures Decide(cfg, v, p, newMode) != Swapped || r.aborted ==> r.view.cache == v.cache && r.player == p
    ensures r.player == Wear(p, Worn(r.player))
    ensures r.view.cache.Keys == v.cache.Keys
  {
    var name := Lower(p.name);
    var v1 := v.(ignoreModeChangeOnce := v.ignoreModeChangeOnce - {name});
    match Decide(cfg, v, p, newMode)
    case Unhandled => ModeStep(v1, p, false, false)
    case Cancelled => ModeStep(v1, p, true, false)
    case SingleInventory => ModeStep(v1, p, false, false)
    case Swapped =>
      if name !in v.cache then
        if OwnsInventory(p.state.mode) || OwnsInventory(newMode) then ModeStep(v1, p, false, true)
        else ModeStep(v1, Wear(p, EMPTY), false, false)
      else
        var d := SwapSpec(Worn(p), v.cache[name], p.state.mode, newMode);
        ModeStep(v1.(cache := v.cache[name := d.pair]), Wear(p, d.worn), false, false)
  }

  /** The two shapes of a mode change: without a swap only the exemption goes; with one, the pair is used. */
  lemma ModeChangeShape(cfg: Config, v: ListenerState, p: GPlayer, newMode: GameMode)
    ensures var v1 := v.(ignoreModeChangeOnce := v.ignoreModeChangeOnce - {Lower(p.name)});
      var o := Decide(cfg, v, p, newMode);
      o != Swapped ==> ModeChange(cfg, v, p, newMode) == ModeStep(v1, p, o == Cancelled, false)
    ensures var v1 := v.(ignoreModeChangeOnce := v.ignoreModeChangeOnce - {Lower(p.name)});
      var name := Lower(p.name);
      Decide(cfg, v, p, newMode) == Swapped && name !in v.cache ==>
        ModeChange(cfg, v, p, newMode) ==
        if OwnsInventory(p.state.mode) || OwnsInventory(newMode) then ModeStep(v1, p, false, true)
        else ModeStep(v1, Wear(p, EMPTY), false, false)
    ensures var v1 := v.(ignoreModeChangeOnce := v.ignoreModeChangeOnce - {Lower(p.name)});
      var name := Lower(p.name);
      Decide(cfg, v, p, newMode) == Swapped && name in v.cache ==>
        var d := SwapSpec(Worn(p), v.cache[name], p.state.mode, newMode);
        ModeChange(cfg, v, p, newMode) == ModeStep(v1.(cache := v.cache[name := d.pair]), Wear(p, d.worn), false, false)
  {
  }

  datatype ModeSet = ModeSet(view: ListenerState, player: GPlayer)

  /**
   * `player.setGameMode(m)`: no event when the mode is already m; otherwise
   * the change event runs, and the mode becomes m unless the event was
   * cancelled (an exception in the handler is caught by the server and does
   * not cancel it).
   */
  function SetMode(cfg: Config, v: ListenerState, p: GPlayer, m: GameMode): (r: ModeSet)
    ensures p.state.mode == m ==> r == ModeSet(v, p)
    ensures r.player.state.mode == if p.state.mode != m && Decide(cfg, v, p, m) == Cancelled then p.state.mode else m
    ensures r.player.name == p.name && r.player.perms == p.perms
    ensures r.view.cache.Keys == v.cache.Keys
  {
    if p.state.mode == m then ModeSet(v, p)
    else
      var s := ModeChange(cfg, v, p, m);
      ModeSet(s.view, if s.cancelled then s.player else WithMode(s.player, m))
  }

  // ---------------------------------------------------------------------
  // Snapshot and load
  // ---------------------------------------------------------------------

  /**
   * `createPlayerEntry(player)`: the entry is keyed by the lower-cased name
   * and carries the worn set under the current mode and the cached set of
   * the other mode. Without the single-inventory permission the pair is
   * read, so a missing pair throws (None).
   */
  function Snapshot(p: GPlayer, pair: Option<PairState>): (r: Option<EntryState>)
    ensures r.None? <==> !p.perms.singleInv && pair.None?
    ensures r.Some? ==>
      r.value.(survival := None, creative := None) == EntryState(Lower(p.name), p.state.health, p.state.foodLevel, p.state.level, p.state.exp,
          Some(p.state.mode), Some(p.state.effects), None, None, Some(p.state.enderChest))
    ensures r.Some? && p.perms.singleInv ==> r.value.survival == Some(Worn(p)) && r.value.creative == None
    ensures r.Some? && !p.perms.singleInv ==>
      r.value.survival == Some(if p.state.mode == Survival then Worn(p) else OrEmpty(pair.value.survival)) &&
      r.value.creative == Some(if p.state.mode == Creative then Worn(p) else OrEmpty(pair.value.creative))
  {
    var base := EntryState(Lower(p.name), p.state.health, p.state.foodLevel, p.state.level, p.state.exp,
      Some(p.state.mode), Some(p.state.effects), None, None, Some(p.state.enderChest));
    if p.perms.singleInv then Some(base.(survival := Some(Worn(p))))
    else if pair.None? then None
    else match p.state.mode
      case Survival => Some(base.(survival := Some(Worn(p)), creative := Some(OrEmpty(pair.value.creative))))
      case Creative => Some(base.(creative := Some(Worn(p)), survival := Some(OrEmpty(pair.value.survival))))
      case _ => Some(base.(survival := Some(OrEmpty(pair.value.survival)), creative := Some(OrEmpty(pair.value.creative))))
  }

  /** The pair `loadFromEntry` builds: both getters of the entry, never null. */
  function PairOfEntry(e: EntryState): PairState
  {
    PairState(Some(e.GetSurvival()), Some(e.GetCreative()))
  }

  datatype Step = Step(view: ListenerState, player: GPlayer, aborted: bool)

  /** The first half of `loadFromEntry`: everything up to the game mode. */
  function Unpack(cfg: Config, v: ListenerState, p: GPlayer, e: EntryState): (r: ModeSet)
    ensures r.player.name == p.name && r.player.perms == p.perms && r.player.state.mode == p.state.mode
    ensures r.view == v.(cache := v.cache[Lower(p.name) := Dress(p, PairOfEntry(e)).pair])
    ensures Worn(r.player) == Dress(p, PairOfEntry(e)).worn
  {
    var st := p.state.(health := e.health, foodLevel := e.foodLevel, level := e.xpLevel, exp := e.xpProgress,
      enderChest := e.GetEnderChest(), effects := if cfg.clearEffectsOnLogin then [] else e.GetPotionEffects());
    var d := Dress(p, PairOfEntry(e));
    ModeSet(v.(cache := v.cache[Lower(p.name) := d.pair]), Wear(p.(state := st), d.worn))
  }

  /**
   * `loadFromEntry(player, entry)`: statistics, ender chest and effects are
   * applied, the pair is cached, the player is dressed for the current mode,
   * and then the mode is set: to the entry's mode when no mode is forced or
   * the player may bypass it (a missing mode throws), else to the forced
   * mode with a one-off exemption.
   */
  function LoadSpec(cfg: Config, v: ListenerState, p: GPlayer, e: EntryState): (r: Step)
    ensures r.player.name == p.name && r.player.perms == p.perms
    ensures Lower(p.name) in r.view.cache
    ensures r.aborted <==>
      (cfg.forcedGameMode.None? || p.perms.forcedBypass) && e.gameMode.None?
    ensures (cfg.forcedGameMode.None? || p.perms.forcedBypass) && e.gameMode.Some? ==>
      r.player.state.mode == e.gameMode.value || DisabledFor(cfg, p, e.gameMode.value) ||
      Lower(p.name) in v.locked || HeldByForcedMode(cfg, v, p)
    ensures cfg.forcedGameMode.Some? && !p.perms.forcedBypass ==>
      !r.aborted &&
      (r.player.state.mode == cfg.forcedGameMode.value || DisabledFor(cfg, p, cfg.forcedGameMode.value) ||
       Lower(p.name) in v.locked)
  {
    var name := Lower(p.name);
    var u := Unpack(cfg, v, p, e);
    var v1, p1 := u.view, u.player;
    if cfg.forcedGameMode.None? || p.perms.forcedBypass then
      if e.gameMode == Some(p1.state.mode) then Step(v1, p1, false)
      else if e.gameMode.None? then Step(v1, p1, true)
      else
        var m := SetMode(cfg, v1, p1, e.gameMode.value);
        Step(m.view, m.player, false)
    else if p1.state.mode != cfg.forcedGameMode.value then
      var m := SetMode(cfg, v1.(ignoreModeChangeOnce := v1.ignoreModeChangeOnce + {name}), p1, cfg.forcedGameMode.value);
      Step(m.view, m.player, false)
    else Step(v1, p1, false)
  }

  /** The cases of `LoadSpec`, each in terms of `Unpack` and `SetMode`. */
  lemma LoadSpecShape(cfg: Config, v: ListenerState, p: GPlayer, e: EntryState)
    ensures var u := Unpack(cfg, v, p, e);
      LoadSpec(cfg, v, p, e) ==
        if cfg.forcedGameMode.None? || p.perms.forcedBypass then
          if e.gameMode == Some(u.player.state.mode) then Step(u.view, u.player, false)
          else if e.gameMode.None? then Step(u.view, u.player, true)
          else var m := SetMode(cfg, u.view, u.player, e.gameMode.value); Step(m.view, m.player, false)
        else if u.player.state.mode != cfg.forcedGameMode.value then
          var m := SetMode(cfg, u.view.(ignoreModeChangeOnce := u.view.ignoreModeChangeOnce + {Lower(p.name)}), u.player, cfg.forcedGameMode.value);
          Step(m.view, m.player, false)
        else Step(u.view, u.player, false)
  {
  }

  // ---------------------------------------------------------------------
  // The handlers
  // ---------------------------------------------------------------------

  /** Lock, authenticate and schedule a load: the common tail of the login, join and register handlers. */
  function StartLoad(v: ListenerState, name: string): (r: ListenerState)
    ensures Lower(name) in r.locked && name in r.authenticated
    ensures r.outbox == v.outbox + [LoadTask(name)]
    ensures r.(locked := v.locked, authenticated := v.authenticated, outbox := v.outbox) == v
  {
    Emit(Lock(v, name).(authenticated := v.authenticated + {name}), LoadTask(name))
  }

  /** `onCommandLoginEvent` and `onPlayerJoinEvent`: only an authenticated, online player is loaded. */
  function Authenticate(v: ListenerState, status: bool, player: Option<GPlayer>): (r: ListenerState)
    ensures !(status && player.Some?) ==> r == v
    ensures status && player.Some? ==> r == StartLoad(v, Lower(player.value.name))
  {
    if status && player.Some? then StartLoad(v, Lower(player.value.name)) else v
  }

  /**
   * `onPlayerRegisterEvent`: the name comes lower-cased from the event, or
   * not at all; an already authenticated player is not loaded twice.
   */
  function Register(v: ListenerState, rawName: Option<string>, registered: bool, online: bool): (r: ListenerState)
    ensures rawName.None? || Lower(rawName.value) in v.authenticated || !registered || !online ==> r == v
    ensures r != v ==> rawName.Some? && r == StartLoad(v, Lower(rawName.value))
  {
    if rawName.None? then v
    else
      var name := Lower(rawName.value);
      if name in v.authenticated then v
      else if registered && online then StartLoad(v, name)
      else v
  }

  /** `onInventoryLoaded(entry)`: the lock goes first; an online player gets the entry, then PlayerLoadedEvent. */
  datatype Outcome = Outcome(view: ListenerState, player: Option<GPlayer>, aborted: bool)

  function OnLoaded(cfg: Config, v: ListenerState, e: EntryState, player: Option<GPlayer>): (r: Outcome)
    ensures player.None? ==> r == Outcome(Unlock(v, e.name), None, false)
    ensures player.Some? ==> r.player.Some? && r.player.value.name == player.value.name
    ensures Lower(e.name) !in r.view.locked
    ensures player.Some? && !r.aborted ==> |r.view.outbox| > 0 && r.view.outbox[|r.view.outbox| - 1] == PlayerLoadedEvent(e.name)
  {
    var v1 := Unlock(v, e.name);
    if player.None? then Outcome(v1, None, false)
    else
      var s := LoadSpec(cfg, v1, player.value, e);
      if s.aborted then Outcome(s.view, Some(s.player), true)
      else Outcome(Emit(s.view, PlayerLoadedEvent(e.name)), Some(s.player), false)
  }

  /**
   * `onInventoryNotFound(name)`: unlocks, caches an empty pair, and moves an
   * online player who is not in survival into survival with a one-off
   * exemption from the forced mode.
   */
  function OnNotFound(cfg: Config, v: ListenerState, name: string, player: Option<GPlayer>): (r: Outcome)
    ensures name in r.view.cache && !r.aborted
    ensures player.None? ==> r.view == Unlock(v, name).(cache := v.cache[name := PairState(None, None)])
    ensures player.Some? ==> r.player.Some? && |r.view.outbox| > 0 && r.view.outbox[|r.view.outbox| - 1] == PlayerLoadedEvent(name)
    ensures Lower(name) !in r.view.locked
    ensures player.Some? && player.value.state.mode == Survival ==>
      r.view == Emit(Unlock(v, name).(cache := v.cache[name := PairState(None, None)]), PlayerLoadedEvent(name)) &&
      r.player == player
  {
    var v1 := Unlock(v, name).(cache := v.cache[name := PairState(None, None)]);
    if player.None? then Outcome(v1, None, false)
    else
      var p := player.value;
      if p.state.mode != Survival then
        var m := SetMode(cfg, v1.(ignoreModeChangeOnce := v1.ignoreModeChangeOnce + {name}), p, Survival);
        Outcome(Emit(m.view, PlayerLoadedEvent(name)), Some(m.player), false)
      else Outcome(Emit(v1, PlayerLoadedEvent(name)), Some(p), false)
  }

  /**
   * `onInventorySaved(name)`: the request is taken out and PlayerSavedEvent
   * fired, the lock dropped; an online player with a request is re-locked,
   * the request renewed with the current time, and the switch sent.
   */
  function OnSaved(v: ListenerState, name: string, online: bool, now: int): (r: ListenerState)
    ensures r.authenticated == v.authenticated && r.ignoreModeChangeOnce == v.ignoreModeChangeOnce && r.cache == v.cache
    ensures online && name in v.requests ==>
      r.requests == v.requests[name := ServerChangeRequest(v.requests[name].destination, now)] &&
      Lower(name) in r.locked &&
      r.outbox == v.outbox + [PlayerSavedEvent(name), SendToServer(name, v.requests[name].destination)]
    ensures !(online && name in v.requests) ==>
      r.requests == v.requests - {name} && Lower(name) !in r.locked && r.outbox == v.outbox + [PlayerSavedEvent(name)]
    ensures r.locked - {Lower(name)} == v.locked - {Lower(name)}
  {
    var v1 := Unlock(Emit(v.(requests := v.requests - {name}), PlayerSavedEvent(name)), name);
    if online && name in v.requests then
      var request := v.requests[name];
      var v2 := Lock(v1.(requests := v1.requests[name := ServerChangeRequest(request.destination, now)]), name);
      Emit(v2, SendToServer(name, request.destination))
    else v1
  }

  /** `onInventorySaveFailure(name)`: only the lock is dropped. */
  function OnSaveFailure(v: ListenerState, name: string): (r: ListenerState)
    ensures Lower(name) !in r.locked && r.(locked := v.locked) == v
  {
    Unlock(v, name)
  }

  /**
   * `saveInventoryAsync` / `saveInventorySync`: the pre-save hook runs,
   * then the snapshot is taken, and only then the entry's name is locked
   * and the save issued.
   */
  function Save(v: ListenerState, p: GPlayer, hook: Hook, sync: bool): (r: Step)
    ensures r.player == Hooked(p, hook)
    ensures r.aborted <==> Snapshot(r.player, CacheOf(v, Lower(p.name))).None?
    ensures r.aborted ==> r.view == v
    ensures !r.aborted ==>
      var e := Snapshot(r.player, CacheOf(v, Lower(p.name))).value;
      Lower(p.name) in r.view.locked && r.view.outbox == v.outbox + [SaveTask(e, sync)] &&
      r.view.(locked := v.locked, outbox := v.outbox) == v
    ensures r.view.locked - {Lower(p.name)} == v.locked - {Lower(p.name)}
  {
    var p1 := Hooked(p, hook);
    var e := Snapshot(p1, CacheOf(v, Lower(p1.name)));
    if e.None? then Step(v, p1, true)
    else
      LowerIdempotent(p.name);
      Step(Emit(Lock(v, e.value.name), SaveTask(e.value, sync)), p1, false)
  }

  /**
   * `onPlayerQuit`: an unauthenticated player is left alone; otherwise the
   * request is taken out, the inventory saved unless the quit follows a
   * fresh switch, and the pair and authentication dropped (the save
   * throwing skips that last step).
   */
  function Quit(v: ListenerState, p: GPlayer, now: int, hook: Hook): (r: Step)
    ensures Lower(p.name) !in v.authenticated ==> r == Step(v, p, false)
    ensures Lower(p.name) in v.authenticated ==> Lower(p.name) !in r.view.requests
    ensures Lower(p.name) in v.authenticated && !r.aborted ==>
      Lower(p.name) !in r.view.cache && Lower(p.name) !in r.view.authenticated
    ensures Lower(p.name) in v.authenticated && !QuitSaves(RequestOf(v, Lower(p.name)), now) ==>
      !r.aborted && r.view.outbox == v.outbox
    ensures Lower(p.name) in v.authenticated && QuitSaves(RequestOf(v, Lower(p.name)), now) && !r.aborted ==>
      |r.view.outbox| == |v.outbox| + 1 && r.view.outbox[|v.outbox|].SaveTask? &&
      !r.view.outbox[|v.outbox|].sync
  {
    var name := Lower(p.name);
    if name !in v.authenticated then Step(v, p, false)
    else
      var v1 := v.(requests := v.requests - {name});
      if QuitSaves(RequestOf(v, name), now) then
        var s := Save(v1, p, hook, false);
        if s.aborted then s
        else Step(s.view.(cache := s.view.cache - {name}, authenticated := s.view.authenticated - {name}), s.player, false)
      else Step(v1.(cache := v1.cache - {name}, authenticated := v1.authenticated - {name}), p, false)
  }

  /** `onPlayerQuit` by cases. */
  lemma QuitShape(v: ListenerState, p: GPlayer, now: int, hook: Hook)
    ensures var name := Lower(p.name);
      var v1 := v.(requests := v.requests - {name});
      var s := Save(v1, p, hook, false);
      name in v.authenticated ==>
        Quit(v, p, now, hook) ==
        if !QuitSaves(RequestOf(v, name), now) then
          Step(v1.(cache := v1.cache - {name}, authenticated := v1.authenticated - {name}), p, false)
        else if s.aborted then s
        else Step(s.view.(cache := s.view.cache - {name}, authenticated := s.view.authenticated - {name}), s.player, false)
  {
  }

  /** `serverChangeRequests.get(name)`, null as None. */
  function RequestOf(v: ListenerState, name: string): Option<ServerChangeRequest>
  {
    if name in v.requests then Some(v.requests[name]) else None
  }

  /**
   * `onPlayerServerSwitch`: the switch is always cancelled and recorded
   * with the current time before the save is issued.
   */
  function Switch(v: ListenerState, p: GPlayer, destination: string, now: int, hook: Hook): (r: Step)
    ensures r.view.requests == v.requests[Lower(p.name) := ServerChangeRequest(destination, now)]
    ensures !r.aborted ==> Lower(p.name) in r.view.locked
    ensures r.player == Hooked(p, hook)
    ensures r.aborted <==> Snapshot(Hooked(p, hook), CacheOf(v, Lower(p.name))).None?
    ensures !r.aborted ==>
      r.view.outbox == v.outbox + [SaveTask(Snapshot(Hooked(p, hook), CacheOf(v, Lower(p.name))).value, false)]
  {
    var name := Lower(p.name);
    Save(v.(requests := v.requests[name := ServerChangeRequest(destination, now)]), p, hook, false)
  }

  /**
   * One player of `shutdown()`: the request is dropped and the inventory
   * saved synchronously; the outcome of the write (`saved`) calls the saved
   * or failure handler at once. A throw is caught and the loop goes on.
   */
  function ShutdownOne(v: ListenerState, p: GPlayer, hook: Hook, saved: string -> bool, now: int): (r: ListenerState)
    ensures r.locked <= v.locked
    ensures Snapshot(Hooked(p, hook), CacheOf(v, Lower(p.name))).Some? ==> Lower(p.name) !in r.locked
    ensures forall i :: |v.outbox| <= i < |r.outbox| ==> !r.outbox[i].SendToServer?
    ensures |v.outbox| <= |r.outbox| && r.outbox[..|v.outbox|] == v.outbox
    ensures r.cache == v.cache && r.authenticated == v.authenticated
    ensures var e := Snapshot(Hooked(p, hook), CacheOf(v, Lower(p.name)));
            e.Some? ==> |r.outbox| > |v.outbox| && r.outbox[|v.outbox|] == SaveTask(e.value, true)
    ensures Snapshot(Hooked(p, hook), CacheOf(v, Lower(p.name))).None? ==> r == v.(requests := v.requests - {Lower(p.name)})
  {
    var name := Lower(p.name);
    var v1 := v.(requests := v.requests - {name});
    var s := Save(v1, p, hook, true);
    assert s.view.requests == v1.requests;
    LowerIdempotent(p.name);
    if s.aborted then v1
    else if saved(name) then OnSaved(s.view, name, true, now)
    else OnSaveFailure(s.view, name)
  }

  function ShutdownLoop(v: ListenerState, players: seq<GPlayer>, hook: Hook, saved: string -> bool, now: int): (r: ListenerState)
    ensures r.cache == v.cache && r.authenticated == v.authenticated
    ensures r.locked <= v.locked
  {
    if players == [] then v
    else ShutdownOne(ShutdownLoop(v, players[..|players| - 1], hook, saved, now), players[|players| - 1], hook, saved, now)
  }

  /** `shutdown()`: every online player in turn, then the pairs and requests are forgotten. */
  function ShutdownSpec(v: ListenerState, players: seq<GPlayer>, hook: Hook, saved: string -> bool, now: int): ListenerState
  {
    ShutdownLoop(v, players, hook, saved, now).(cache := map[], requests := map[])
  }

  // ---------------------------------------------------------------------
  // Properties
  // ---------------------------------------------------------------------

  /**
   * A player free to change modes who leaves survival or creative and comes
   * back wears exactly what they wore before, and the other mode's set is
   * cached as it was.
   */
  lemma ModeRoundTrip(cfg: Config, v: ListenerState, p: GPlayer, b: GameMode)
    requires Lower(p.name) in v.authenticated && Lower(p.name) !in v.locked && Lower(p.name) in v.cache
    requires !p.perms.singleInv && (cfg.forcedGameMode.None? || p.perms.forcedBypass)
    requires OwnsInventory(p.state.mode) && b != p.state.mode
    requires !DisabledFor(cfg, p, b) && !DisabledFor(cfg, p, p.state.mode)
    ensures var there := SetMode(cfg, v, p, b);
            var back := SetMode(cfg, there.view, there.player, p.state.mode);
            back.player.state.mode == p.state.mode && Worn(back.player) == Worn(p) &&
            OrEmpty(SlotFor(back.view.cache[Lower(p.name)], b)) == OrEmpty(SlotFor(v.cache[Lower(p.name)], b))
  {
    var name := Lower(p.name);
    var a := p.state.mode;
    var d1 := SwapSpec(Worn(p), v.cache[name], a, b);
    var there := SetMode(cfg, v, p, b);
    assert there.view.cache[name] == d1.pair && Worn(there.player) == d1.worn;
    assert there.player.state.mode == b;
    SwapThereAndBack(Worn(p), v.cache[name], a, b);
  }

  /**
   * Loading an entry into a player free to change modes leaves them in the
   * entry's mode, wearing the entry's set for that mode (an empty one for
   * adventure and spectator) with the other set cached, whatever mode they
   * were in when the load arrived.
   */
  lemma LoadWearsEntryMode(cfg: Config, v: ListenerState, p: GPlayer, e: EntryState)
    requires Lower(p.name) in v.authenticated && Lower(p.name) !in v.locked
    requires !p.perms.singleInv && (cfg.forcedGameMode.None? || p.perms.forcedBypass)
    requires e.gameMode.Some? && !DisabledFor(cfg, p, e.gameMode.value)
    ensures var r := LoadSpec(cfg, v, p, e);
            var d := Unstash(PairOfEntry(e), e.gameMode.value);
            !r.aborted && r.player.state.mode == e.gameMode.value && Worn(r.player) == d.worn &&
            r.view.cache[Lower(p.name)] == d.pair
    ensures var r := LoadSpec(cfg, v, p, e);
            r.player.state.health == e.health && r.player.state.foodLevel == e.foodLevel &&
            r.player.state.level == e.xpLevel && r.player.state.exp == e.xpProgress &&
            r.player.state.enderChest == e.GetEnderChest() &&
            r.player.state.effects == if cfg.clearEffectsOnLogin then [] else e.GetPotionEffects()
  {
    var name := Lower(p.name);
    var m := e.gameMode.value;
    var d0 := Unstash(PairOfEntry(e), p.state.mode);
    StashUnstash(PairOfEntry(e), p.state.mode);
    if p.state.mode != m {
      assert SwapSpec(d0.worn, d0.pair, p.state.mode, m) == Unstash(PairOfEntry(e), m);
    }
  }

  /**
   * The hand-over between servers: the entry taken from a player, loaded
   * into the same player elsewhere, puts them back in the same mode with the
   * same worn set, statistics and ender chest, and caches the set of the
   * other inventory-owning mode as the first server had it.
   */
  lemma TransferRoundTrip(cfg: Config, pair: PairState, p: GPlayer, v: ListenerState, q: GPlayer)
    requires q.name == p.name && q.perms == p.perms
    requires !p.perms.singleInv && (cfg.forcedGameMode.None? || p.perms.forcedBypass)
    requires Lower(q.name) in v.authenticated && Lower(q.name) !in v.locked
    requires !DisabledFor(cfg, q, p.state.mode)
    ensures var e := Snapshot(p, Some(pair)).value;
            var r := LoadSpec(cfg, v, q, e);
            !r.aborted && r.player.state.mode == p.state.mode &&
            Worn(r.player) == (if OwnsInventory(p.state.mode) then Worn(p) else EMPTY) &&
            r.player.state.health == p.state.health && r.player.state.foodLevel == p.state.foodLevel &&
            r.player.state.level == p.state.level && r.player.state.exp == p.state.exp &&
            r.player.state.enderChest == p.state.enderChest &&
            r.player.state.effects == (if cfg.clearEffectsOnLogin then [] else p.state.effects)
    ensures var e := Snapshot(p, Some(pair)).value;
            var r := LoadSpec(cfg, v, q, e);
            forall m :: OwnsInventory(m) && m != p.state.mode ==>
              SlotFor(r.view.cache[Lower(p.name)], m) == Some(OrEmpty(SlotFor(pair, m)))
  {
    var e := Snapshot(p, Some(pair)).value;
    LoadWearsEntryMode(cfg, v, q, e);
    var d := Unstash(PairOfEntry(e), p.state.mode);
    forall m | OwnsInventory(m) && m != p.state.mode
      ensures SlotFor(d.pair, m) == Some(OrEmpty(SlotFor(pair, m)))
    {
      assert SlotFor(d.pair, m) == SlotFor(PairOfEntry(e), m);
    }
  }

  /** No player is sent to another server during shutdown. */
  lemma {:induction false} ShutdownSendsNobody(v: ListenerState, players: seq<GPlayer>, hook: Hook,
                                               saved: string -> bool, now: int)
    ensures var r := ShutdownLoop(v, players, hook, saved, now);
            |v.outbox| <= |r.outbox| && r.outbox[..|v.outbox|] == v.outbox &&
            forall i :: |v.outbox| <= i < |r.outbox| ==> !r.outbox[i].SendToServer?
    decreases |players|
  {
    if players != [] {
      var init := players[..|players| - 1];
      ShutdownSendsNobody(v, init, hook, saved, now);
      var mid := ShutdownLoop(v, init, hook, saved, now);
      var r := ShutdownLoop(v, players, hook, saved, now);
      assert r == ShutdownOne(mid, players[|players| - 1], hook, saved, now);
      assert r.outbox[..|mid.outbox|] == mid.outbox;
      assert r.outbox[..|v.outbox|] == mid.outbox[..|v.outbox|];
    }
  }

  /** Every player whose snapshot could be taken is unlocked once shutdown is through. */
  lemma {:induction false} ShutdownUnlocks(v: ListenerState, players: seq<GPlayer>, hook: Hook,
                                           saved: string -> bool, now: int, j: nat)
    requires j < |players|
    requires Snapshot(Hooked(players[j], hook), CacheOf(v, Lower(players[j].name))).Some?
    ensures Lower(players[j].name) !in ShutdownLoop(v, players, hook, saved, now).locked
    decreases |players|
  {
    var init := players[..|players| - 1];
    var mid := ShutdownLoop(v, init, hook, saved, now);
    if j < |players| - 1 {
      assert init[j] == players[j];
      ShutdownUnlocks(v, init, hook, saved, now, j);
    }
  }

  /** Every player whose snapshot could be taken has its shutdown save issued, in the order of the players. */
  lemma {:induction false} ShutdownSavesEveryone(v: ListenerState, players: seq<GPlayer>, hook: Hook,
                                                 saved: string -> bool, now: int, j: nat)
    requires j < |players|
    requires Snapshot(Hooked(players[j], hook), CacheOf(v, Lower(players[j].name))).Some?
    ensures SaveTask(Snapshot(Hooked(players[j], hook), CacheOf(v, Lower(players[j].name))).value, true)
              in ShutdownLoop(v, players, hook, saved, now).outbox
    decreases |players|
  {
    var init := players[..|players| - 1];
    var mid := ShutdownLoop(v, init, hook, saved, now);
    var r := ShutdownLoop(v, players, hook, saved, now);
    assert r == ShutdownOne(mid, players[|players| - 1], hook, saved, now);
    var task := SaveTask(Snapshot(Hooked(players[j], hook), CacheOf(v, Lower(players[j].name))).value, true);
    if j < |players| - 1 {
      assert init[j] == players[j];
      ShutdownSavesEveryone(v, init, hook, saved, now, j);
      assert r.outbox[..|mid.outbox|] == mid.outbox;
      var k :| 0 <= k < |mid.outbox| && mid.outbox[k] == task;
      assert r.outbox[k] == task;
    } else {
      assert r.outbox[|mid.outbox|] == task;
    }
  }

  /**
   * A new player who is online and free of a disabled survival ends in
   * survival: unless they keep one inventory, they wear an empty set and
   * what they wore in creative is cached.
   */
  lemma NotFoundEntersSurvival(cfg: Config, v: ListenerState, name: string, p: GPlayer)
    requires Lower(p.name) == name && name in v.authenticated && !DisabledFor(cfg, p, Survival)
    ensures var r := OnNotFound(cfg, v, name, Some(p));
            r.player.value.state.mode == Survival && Lower(name) !in r.view.locked
    ensures var r := OnNotFound(cfg, v, name, Some(p));
            !p.perms.singleInv && p.state.mode != Survival ==>
              Worn(r.player.value) == EMPTY &&
              (p.state.mode == Creative ==> r.view.cache[name].creative == Some(Worn(p)))
  {
    LowerIdempotent(p.name);
  }

  /**
   * The switch protocol: once the save for a switch completes, the player
   * is re-locked and sent, and a quit within 2000 ms of that neither saves
   * again nor keeps the request.
   */
  lemma SwitchThenQuit(v: ListenerState, p: GPlayer, destination: string, hook: Hook,
                       requested: int, savedAt: int, quitAt: int)
    requires Lower(p.name) in v.authenticated
    requires !Switch(v, p, destination, requested, hook).aborted
    requires quitAt - savedAt <= 2000
    ensures var s := Switch(v, p, destination, requested, hook);
            var w := OnSaved(s.view, Lower(p.name), true, savedAt);
            Lower(p.name) in w.locked && w.outbox == s.view.outbox + [PlayerSavedEvent(Lower(p.name)), SendToServer(Lower(p.name), destination)]
    ensures var s := Switch(v, p, destination, requested, hook);
            var w := OnSaved(s.view, Lower(p.name), true, savedAt);
            var q := Quit(w, s.player, quitAt, hook);
            !q.aborted && q.view.outbox == w.outbox && Lower(p.name) !in q.view.requests &&
            Lower(p.name) !in q.view.authenticated
  {
    LowerIdempotent(p.name);
  }

  // ---------------------------------------------------------------------
  // The listener
  // ---------------------------------------------------------------------

  /** The first lines of `loadFromEntry`: a new pair holding both sets of the entry. */
  method NewPairOf(entry: PlayerEntry) returns (pair: GmailStorage.InventoryPair)
    ensures fresh(pair) && pair.State() == PairOfEntry(entry.State())
  {
    pair := new GmailStorage.InventoryPair();
    pair.SetSurvival(Some(entry.GetSurvival()));
    pair.SetCreative(Some(entry.GetCreative()));
  }

  class PlayerListener {
    const locks: InventoryLockListener
    const config: Config
    var authenticated: set<string>
    var ignoreModeChangeOnce: set<string>
    var serverChangeRequests: map<string, ServerChangeRequest>
    var inventoryMap: map<string, GmailStorage.InventoryPair>
    /** What the listener has handed to others so far. */
    var outbox: seq<Command>

    /** The name each cached pair was created for; it shows that no two names share a pair. */
    ghost var owner: map<GmailStorage.InventoryPair, string>

    /** Every cached pair belongs to its own name, and the lock registry keeps its invariant. */
    ghost predicate Valid()
      reads this, locks
    {
      locks.Valid() && Owned(inventoryMap, owner)
    }

    function State(): ListenerState
      reads this, locks, inventoryMap.Values
    {
      ListenerState(authenticated, ignoreModeChangeOnce, serverChangeRequests, PairStates(inventoryMap), locks.locked, outbox)
    }

    /** The constructor reads `ClearEffectsOnLogin`, `DisabledGameModes` and `ForcedGameMode`. */
    constructor(locks: InventoryLockListener, clearEffectsOnLogin: bool, disabledNames: seq<string>, forcedName: string)
      requires locks.Valid()
      ensures Valid() && this.locks == locks
      ensures config == Config(clearEffectsOnLogin, DisabledModesOf(disabledNames), ModeNamed(forcedName))
      ensures State() == ListenerState({}, {}, map[], map[], locks.locked, [])
    {
      var disabled: set<GameMode> := {};
      for i := 0 to |disabledNames|
        invariant disabled == DisabledModesOf(disabledNames[..i])
      {
        assert disabledNames[..i + 1][..i] == disabledNames[..i];
        match ModeNamed(disabledNames[i]) {
          case Some(m) => disabled := disabled + {m};
          case None =>
        }
      }
      assert disabledNames[..|disabledNames|] == disabledNames;
      this.locks := locks;
      config := Config(clearEffectsOnLogin, disabled, ModeNamed(forcedName));
      authenticated := {};
      ignoreModeChangeOnce := {};
      serverChangeRequests := map[];
      inventoryMap := map[];
      owner := map[];
      outbox := [];
    }

    /** `onPlayerGameModeChange(event)`. */
    method OnPlayerGameModeChange(p: GPlayer, newMode: GameMode) returns (q: GPlayer, cancelled: bool, aborted: bool)
      requires Valid()
      modifies this, inventoryMap.Values
      ensures Valid() && inventoryMap == old(inventoryMap)
      ensures ModeStep(State(), q, cancelled, aborted) == ModeChange(config, old(State()), p, newMode)
    {
      ghost var v := State();
      ModeChangeShape(config, v, p, newMode);
      var name := Lower(p.name);
      var originalMode := p.state.mode;
      var isIgnoringChangeOnce := name in ignoreModeChangeOnce;
      ignoreModeChangeOnce := ignoreModeChangeOnce - {name};
      ghost var v1 := v.(ignoreModeChangeOnce := v.ignoreModeChangeOnce - {name});
      assert State() == v1;
      q, cancelled, aborted := p, false, false;
      if originalMode == newMode {
        return;
      }
      if name !in authenticated {
        return;
      }
      if newMode in config.disabledGameModes && newMode !in p.perms.disabledBypass {
        cancelled := true;
        return;
      }
      LowerIdempotent(p.name);
      if locks.IsLocked(name) {
        cancelled := true;
        return;
      }
      if config.forcedGameMode.Some? && !isIgnoringChangeOnce && !p.perms.forcedBypass {
        cancelled := true;
        return;
      }
      if p.perms.singleInv {
        return;
      }
      assert Decide(config, v, p, newMode) == Swapped;
      q, aborted := SwapInventories(p, newMode);
    }

    /** The second half of `onPlayerGameModeChange`, once every guard has let the change through. */
    method SwapInventories(p: GPlayer, newMode: GameMode) returns (q: GPlayer, aborted: bool)
      requires Valid() && p.state.mode != newMode
      modifies inventoryMap.Values
      ensures Valid()
      ensures var name := Lower(p.name);
        if name !in old(inventoryMap) then
          (aborted <==> OwnsInventory(p.state.mode) || OwnsInventory(newMode)) &&
          q == (if aborted then p else Wear(p, EMPTY)) && PairStates(inventoryMap) == old(PairStates(inventoryMap))
        else
          var d := SwapSpec(Worn(p), old(PairStates(inventoryMap))[name], p.state.mode, newMode);
          !aborted && q == Wear(p, d.worn) && PairStates(inventoryMap) == old(PairStates(inventoryMap))[name := d.pair]
    {
      var name := Lower(p.name);
      var inventory := Worn(p);
      q, aborted := p, false;
      if name !in inventoryMap {
        // `pair` is null: the first use of it throws
        if OwnsInventory(p.state.mode) || OwnsInventory(newMode) {
          aborted := true;
          return;
        }
        q := Wear(p, EMPTY);
        return;
      }
      var pair := inventoryMap[name];
      var worn := SwapPair(pair, inventory, p.state.mode, newMode);
      q := Wear(p, worn);
      assert forall k :: k in inventoryMap && k != name ==> inventoryMap[k] != pair;
      assert PairStates(inventoryMap) == old(PairStates(inventoryMap))[name := pair.State()];
    }

    /** `player.setGameMode(m)`, which runs the handler above when the mode changes. */
    method SetGameMode(p: GPlayer, m: GameMode) returns (q: GPlayer)
      requires Valid()
      modifies this, inventoryMap.Values
      ensures Valid() && inventoryMap == old(inventoryMap)
      ensures ModeSet(State(), q) == SetMode(config, old(State()), p, m)
    {
      if p.state.mode == m {
        return p;
      }
      var r, cancelled, aborted := OnPlayerGameModeChange(p, m);
      q := if cancelled then r else WithMode(r, m);
    }

    /** `loadFromEntry(player, entry)`. */
    method LoadFromEntry(p: GPlayer, entry: PlayerEntry) returns (q: GPlayer, aborted: bool)
      requires Valid()
      modifies this, inventoryMap.Values
      ensures Valid()
      ensures Step(State(), q, aborted) == LoadSpec(config, old(State()), p, old(entry.State()))
    {
      ghost var e := entry.State();
      ghost var u := Unpack(config, State(), p, e);
      LoadSpecShape(config, State(), p, e);
      var name := Lower(p.name);
      var mode := entry.gameMode;
      q := UnpackEntry(p, entry);
      assert State() == u.view && q == u.player;
      aborted := false;
      if config.forcedGameMode.None? || p.perms.forcedBypass {
        if mode != Some(q.state.mode) {
          if mode.None? {
            // `setGameMode(null)` throws
            aborted := true;
            return;
          }
          ghost var m := SetMode(config, u.view, u.player, mode.value);
          q := SetGameMode(q, mode.value);
          assert State() == m.view && q == m.player;
        }
      } else if q.state.mode != config.forcedGameMode.value {
        ignoreModeChangeOnce := ignoreModeChangeOnce + {name};
        ghost var m := SetMode(config, u.view.(ignoreModeChangeOnce := u.view.ignoreModeChangeOnce + {name}), u.player, config.forcedGameMode.value);
        assert State() == u.view.(ignoreModeChangeOnce := u.view.ignoreModeChangeOnce + {name});
        q := SetGameMode(q, config.forcedGameMode.value);
        assert State() == m.view && q == m.player;
      }
    }

    /** The part of `loadFromEntry` before the game mode is set. */
    method UnpackEntry(p: GPlayer, entry: PlayerEntry) returns (q: GPlayer)
      requires Valid()
      modifies this
      ensures Valid() && fresh(inventoryMap.Values - old(inventoryMap.Values))
      ensures ModeSet(State(), q) == Unpack(config, old(State()), p, old(entry.State()))
    {
      ghost var v := State();
      var name := Lower(p.name);
      var pair := NewPairOf(entry);
      q := p.(state := p.state.(health := entry.health, foodLevel := entry.foodLevel, level := entry.xpLevel,
        exp := entry.xpProgress, enderChest := entry.GetEnderChest(), effects := []));
      if !config.clearEffectsOnLogin {
        q := q.(state := q.state.(effects := entry.GetPotionEffects()));
      }
      q := DressFrom(pair, q);
      // the source caches the pair before setting the statistics and dressing; with `setHealth`'s range check
      // left out of the model nothing in between can throw, so the order is not observable here
      Install(name, pair);
    }

    /** `inventoryMap.put(name, pair)` for a pair no name held before. */
    method Install(name: string, pair: GmailStorage.InventoryPair)
      requires Valid() && pair !in owner
      modifies this
      ensures Valid() && inventoryMap == old(inventoryMap)[name := pair]
      ensures State() == old(State()).(cache := old(PairStates(inventoryMap))[name := pair.State()])
    {
      ghost var before := PairStates(inventoryMap);
      inventoryMap := inventoryMap[name := pair];
      owner := owner[pair := name];
      assert PairStates(inventoryMap) == before[name := pair.State()];
    }

    /** `createPlayerEntry(player)`: a new entry, or None when the missing pair is dereferenced. */
    method CreatePlayerEntry(p: GPlayer) returns (entry: Option<PlayerEntry>)
      ensures entry.None? <==> Snapshot(p, CacheOf(State(), Lower(p.name))).None?
      ensures entry.Some? ==> fresh(entry.value) && entry.value.State() == Snapshot(p, CacheOf(State(), Lower(p.name))).value
    {
      var name := Lower(p.name);
      var e := new PlayerEntry(name);
      var inventory := Worn(p);
      e.SetHealth(p.state.health);
      e.SetFoodLevel(p.state.foodLevel);
      e.SetXpLevel(p.state.level);
      e.SetXpProgress(p.state.exp);
      e.SetPotionEffects(Some(p.state.effects));
      e.SetEnderChest(Some(p.state.enderChest));
      if p.perms.singleInv {
        e.SetGameMode(Some(p.state.mode));
        e.SetSurvival(Some(inventory));
        e.SetCreative(None);
        return Some(e);
      }
      if name !in inventoryMap {
        return None;
      }
      var pair := inventoryMap[name];
      match p.state.mode {
        case Survival =>
          e.SetGameMode(Some(Survival));
          e.SetSurvival(Some(inventory));
          e.SetCreative(Some(pair.GetCreative()));
        case Creative =>
          e.SetGameMode(Some(Creative));
          e.SetCreative(Some(inventory));
          e.SetSurvival(Some(pair.GetSurvival()));
        case Adventure =>
          e.SetGameMode(Some(Adventure));
          e.SetSurvival(Some(pair.GetSurvival()));
          e.SetCreative(Some(pair.GetCreative()));
        case Spectator =>
          e.SetGameMode(Some(Spectator));
          e.SetSurvival(Some(pair.GetSurvival()));
          e.SetCreative(Some(pair.GetCreative()));
      }
      return Some(e);
    }

    /** `saveInventoryAsync(player)` (sync false) and `saveInventorySync(player)` (sync true). */
    method SaveInventory(p: GPlayer, hook: Hook, sync: bool) returns (q: GPlayer, aborted: bool)
      requires Valid()
      modifies this, locks
      ensures Valid() && inventoryMap == old(inventoryMap)
      ensures Step(State(), q, aborted) == Save(old(State()), p, hook, sync)
    {
      q := Hooked(p, hook);
      var entry := CreatePlayerEntry(q);
      if entry.None? {
        return q, true;
      }
      Acquire(entry.value.name);
      outbox := outbox + [SaveTask(entry.value.State(), sync)];
      aborted := false;
    }

    /** `onPlayerQuit(event)`. */
    method OnPlayerQuit(p: GPlayer, now: int, hook: Hook) returns (q: GPlayer, aborted: bool)
      requires Valid()
      modifies this, locks
      ensures Valid()
      ensures Step(State(), q, aborted) == Quit(old(State()), p, now, hook)
    {
      ghost var v := State();
      QuitShape(v, p, now, hook);
      var name := Lower(p.name);
      q, aborted := p, false;
      if name !in authenticated {
        return;
      }
      var request := if name in serverChangeRequests then Some(serverChangeRequests[name]) else None;
      serverChangeRequests := serverChangeRequests - {name};
      ghost var v1 := v.(requests := v.requests - {name});
      assert State() == v1;
      ghost var w := v1;
      if request.None? || now - request.value.requestAt > 2000 {
        q, aborted := SaveInventory(p, hook, false);
        if aborted {
          return;
        }
        w := Save(v1, p, hook, false).view;
      }
      assert State() == w;
      Forget(name);
    }

    /** `inventoryMap.remove(name)` and `authenticated.remove(name)`. */
    method Forget(name: string)
      requires Valid()
      modifies this
      ensures Valid()
      ensures State() == old(State()).(cache := old(State()).cache - {name}, authenticated := old(authenticated) - {name})
    {
      ghost var before := PairStates(inventoryMap);
      inventoryMap := inventoryMap - {name};
      assert PairStates(inventoryMap) == before - {name};
      authenticated := authenticated - {name};
    }

    /** `onPlayerServerSwitch(event)`: returns whether the event ends cancelled, which it always does. */
    method OnPlayerServerSwitch(p: GPlayer, destination: string, now: int, hook: Hook)
      returns (q: GPlayer, cancelled: bool, aborted: bool)
      requires Valid()
      modifies this, locks
      ensures Valid()
      ensures cancelled
      ensures Step(State(), q, aborted) == Switch(old(State()), p, destination, now, hook)
    {
      var name := Lower(p.name);
      cancelled := true;
      serverChangeRequests := serverChangeRequests[name := ServerChangeRequest(destination, now)];
      q, aborted := SaveInventory(p, hook, false);
    }

    /** `onInventoryLoaded(entry)`; `player` is the online player of that name, if any. */
    method OnInventoryLoaded(entry: PlayerEntry, player: Option<GPlayer>) returns (q: Option<GPlayer>, aborted: bool)
      requires Valid()
      modifies this, locks, inventoryMap.Values
      ensures Valid()
      ensures Outcome(State(), q, aborted) == OnLoaded(config, old(State()), old(entry.State()), player)
    {
      ghost var v := State();
      ghost var e := entry.State();
      var name := entry.name;
      Release(name);
      assert State() == Unlock(v, name);
      q, aborted := None, false;
      if player.Some? {
        ghost var s := LoadSpec(config, Unlock(v, name), player.value, e);
        var p;
        p, aborted := LoadFromEntry(player.value, entry);
        assert State() == s.view && p == s.player && aborted == s.aborted;
        q := Some(p);
        if !aborted {
          Send(PlayerLoadedEvent(name));
        }
      }
    }

    /** `lockListener.addLock(name)`. */
    method Acquire(name: string)
      requires Valid()
      modifies locks
      ensures Valid()
      ensures State() == Lock(old(State()), name)
    {
      var added := locks.AddLock(name);
    }

    /** `lockListener.removeLock(name)`. */
    method Release(name: string)
      requires Valid()
      modifies locks
      ensures Valid()
      ensures State() == Unlock(old(State()), name)
    {
      var removed := locks.RemoveLock(name);
    }

    /** Hands `c` to the scheduler, the server or the event bus. */
    method Send(c: Command)
      requires Valid()
      modifies this
      ensures Valid() && inventoryMap == old(inventoryMap)
      ensures State() == Emit(old(State()), c)
    {
      outbox := outbox + [c];
    }

    /**
     * `onInventoryLoadFailure(name)`: only a message to the player, if online.
     * The lock taken when the load was dispatched stays, on purpose.
     */
    method OnInventoryLoadFailure(name: string) returns (stillLocked: bool)
      requires Valid()
      ensures Valid() && State() == old(State())
      ensures stillLocked <==> Lower(name) in State().locked
    {
      stillLocked := locks.IsLocked(name);
    }

    /** `onInventoryNotFound(name)`. */
    method OnInventoryNotFound(name: string, player: Option<GPlayer>) returns (q: Option<GPlayer>)
      requires Valid()
      modifies this, locks, inventoryMap.Values
      ensures Valid()
      ensures Outcome(State(), q, false) == OnNotFound(config, old(State()), name, player)
    {
      ghost var v1 := Unlock(old(State()), name).(cache := old(PairStates(inventoryMap))[name := PairState(None, None)]);
      InstallEmptyPair(name);
      q := player;
      if player.Some? {
        var p := player.value;
        if p.state.mode != Survival {
          ignoreModeChangeOnce := ignoreModeChangeOnce + {name};
          ghost var m := SetMode(config, v1.(ignoreModeChangeOnce := v1.ignoreModeChangeOnce + {name}), p, Survival);
          assert State() == v1.(ignoreModeChangeOnce := v1.ignoreModeChangeOnce + {name});
          var r := SetGameMode(p, Survival);
          assert State() == m.view && r == m.player;
          q := Some(r);
        }
        Send(PlayerLoadedEvent(name));
      }
    }

    /** The first two steps of `onInventoryNotFound`: unlock, and cache a new empty pair. */
    method InstallEmptyPair(name: string)
      requires Valid()
      modifies this, locks
      ensures Valid() && fresh(inventoryMap.Values - old(inventoryMap.Values))
      ensures State() == Unlock(old(State()), name).(cache := old(PairStates(inventoryMap))[name := PairState(None, None)])
    {
      Release(name);
      var pair := new GmailStorage.InventoryPair();
      Install(name, pair);
    }

    /** `onInventorySaved(name)`; `online` tells whether the player of that name is online. */
    method OnInventorySaved(name: string, online: bool, now: int)
      requires Valid()
      modifies this, locks
      ensures Valid() && inventoryMap == old(inventoryMap)
      ensures State() == OnSaved(old(State()), name, online, now)
    {
      ghost var v := State();
      var request := if name in serverChangeRequests then Some(serverChangeRequests[name]) else None;
      serverChangeRequests := serverChangeRequests - {name};
      Send(PlayerSavedEvent(name));
      Release(name);
      ghost var v1 := Unlock(Emit(v.(requests := v.requests - {name}), PlayerSavedEvent(name)), name);
      assert State() == v1;
      if online && request.Some? {
        Reroute(name, request.value.destination, now);
      }
    }

    /** The tail of `onInventorySaved` for an online player with a request: renew it, re-lock, and send the player on. */
    method Reroute(name: string, destination: string, now: int)
      requires Valid()
      modifies this, locks
      ensures Valid() && inventoryMap == old(inventoryMap)
      ensures State() == Emit(Lock(old(State()).(requests := old(serverChangeRequests)[name := ServerChangeRequest(destination, now)]), name),
        SendToServer(name, destination))
    {
      serverChangeRequests := serverChangeRequests[name := ServerChangeRequest(destination, now)];
      Acquire(name);
      Send(SendToServer(name, destination));
    }

    /** `onInventorySaveFailure(name)`. */
    method OnInventorySaveFailure(name: string)
      requires Valid()
      modifies locks
      ensures Valid()
      ensures State() == OnSaveFailure(old(State()), name)
    {
      Release(name);
    }

    /** `onCommandLoginEvent` and `onPlayerJoinEvent`; `status` is whether xAuth reports the player authenticated. */
    method OnAuthenticated(status: bool, player: Option<GPlayer>)
      requires Valid()
      modifies this, locks
      ensures Valid()
      ensures State() == Authenticate(old(State()), status, player)
    {
      if status && player.Some? {
        var name := Lower(player.value.name);
        Acquire(name);
        authenticated := authenticated + {name};
        outbox := outbox + [LoadTask(name)];
      }
    }

    /** `onPlayerRegisterEvent`; `rawName` is the name read from the event, if any. */
    method OnPlayerRegister(rawName: Option<string>, registered: bool, online: bool)
      requires Valid()
      modifies this, locks
      ensures Valid()
      ensures State() == Register(old(State()), rawName, registered, online)
    {
      if rawName.None? {
        return;
      }
      var name := Lower(rawName.value);
      if name in authenticated {
        return;
      }
      if registered && online {
        Acquire(name);
        authenticated := authenticated + {name};
        outbox := outbox + [LoadTask(name)];
      }
    }

    /** The body of the loop in `shutdown()`, for one online player. */
    method ShutdownPlayer(p: GPlayer, hook: Hook, saved: string -> bool, now: int)
      requires Valid()
      modifies this, locks
      ensures Valid() && inventoryMap == old(inventoryMap)
      ensures State() == ShutdownOne(old(State()), p, hook, saved, now)
    {
      var name := Lower(p.name);
      serverChangeRequests := serverChangeRequests - {name};
      var q, aborted := SaveInventory(p, hook, true);
      if !aborted {
        if saved(name) {
          OnInventorySaved(name, true, now);
        } else {
          OnInventorySaveFailure(name);
        }
      }
    }

    /**
     * `shutdown()` over the online players; `saved` is the outcome of each
     * synchronous write, by entry name.
     */
    method Shutdown(players: seq<GPlayer>, hook: Hook, saved: string -> bool, now: int)
      requires Valid()
      modifies this, locks
      ensures Valid()
      ensures State() == ShutdownSpec(old(State()), players, hook, saved, now)
    {
      for i := 0 to |players|
        invariant Valid() && inventoryMap == old(inventoryMap)
        invariant State() == ShutdownLoop(old(State()), players[..i], hook, saved, now)
      {
        assert players[..i + 1][..i] == players[..i];
        ShutdownPlayer(players[i], hook, saved, now);
      }
      assert players[..|players|] == players;
      inventoryMap := map[];
      serverChangeRequests := map[];
    }
  }
}
