/**
 * The inventory lifecycle coordinator of the `com.yahoo` revision in the
 * package root (PlayerListener.java). It does what the `com.gmail`
 * coordinator does, but keeps its own lock set instead of a lock listener,
 * remembers the database row id of every player (`idMap`), stores potion
 * effects as one string, and has no disabled game modes.
 *
 * As for the other revisions, the listener is a class whose fields the
 * handlers update, `ListenerState` is its value, and work handed to others
 * is appended to `outbox`. A Java exception that escapes a handler is
 * `aborted`: the state is what the handler had done so far.
 */
module YahooPlayerListener {
  import opened Common
  import opened JavaStrings
  import opened YahooStorage
  import opened GmailStorage
  import opened Players
  import opened InventorySwap
  import LegacyPotionEffectUtils

  type LEffect = LegacyPotionEffectUtils.PotionEffect

  type YPlayer = Player<LEffect>

  /** A PlayerPreSaveEvent listener: it may change anything about the player before the snapshot. */
  type Hook = LiveState<LEffect> -> LiveState<LEffect>

  /** `GameMode.valueOf(s)`: the exact constant name, or nothing (the call throws). */
  function ValueOf(s: string): Option<GameMode>
  {
    if s == "SURVIVAL" then Some(Survival)
    else if s == "CREATIVE" then Some(Creative)
    else if s == "ADVENTURE" then Some(Adventure)
    else if s == "SPECTATOR" then Some(Spectator)
    else None
  }

  /**
   * `ModifiablePlayerEntry` as this listener fills it or receives it: the
   * row id (null for a player never saved), the lower-cased name, the
   * statistics, the game mode, the effects string, both inventories and the
   * ender chest, each of which may be null.
   */
  datatype ModifiablePlayerEntry = ModifiablePlayerEntry(
    id: Option<int>,
    name: string,
    health: real,
    foodLevel: int,
    xpLevel: int,
    xpProgress: real,
    gameMode: Option<GameMode>,
    potionEffects: Option<string>,
    survival: Option<SavedInventory>,
    creative: Option<SavedInventory>,
    enderChest: Option<seq<Slot>>)

  // ---------------------------------------------------------------------
  // The listener's state as a value
  // ---------------------------------------------------------------------

  /** Work handed to others: tasks, events and the server switch. */
  datatype Command =
    | LoadTask(name: string, id: Option<int>)
    | SaveTask(entry: ModifiablePlayerEntry, forShutdown: bool)
    | SendToServer(name: string, destination: string)
    | PlayerLoadedEvent(name: string)
    | PlayerSavedEvent(name: string)

  datatype ListenerState = ListenerState(
    idMap: map<string, Option<int>>,
    authenticated: set<string>,
    locked: set<string>,
    ignoreGameModeChange: set<string>,
    requests: map<string, ServerChangeRequest>,
    cache: map<string, PairState>,
    outbox: seq<Command>)

  function Emit(v: ListenerState, c: Command): ListenerState
  {
    v.(outbox := v.outbox + [c])
  }

  /** `idMap.get(name)`: an unknown name and a stored null both give null. */
  function IdOf(v: ListenerState, name: string): Option<int>
  {
    if name in v.idMap then v.idMap[name] else None
  }

  /** `inventoryMap.get(name)`, null as None. */
  function CacheOf(v: ListenerState, name: string): Option<PairState>
  {
    if name in v.cache then Some(v.cache[name]) else None
  }

  /** `serverChangeRequests.get(name)`, null as None. */
  function RequestOf(v: ListenerState, name: string): Option<ServerChangeRequest>
  {
    if name in v.requests then Some(v.requests[name]) else None
  }

  // ---------------------------------------------------------------------
  // Game-mode change
  // ---------------------------------------------------------------------

  /**
   * Which branch `onPlayerGameModeChange` takes. The single-inventory test
   * comes before the authentication test, and there are only two guards:
   * the lock and the forced mode.
   */
  datatype ModeOutcome = Unhandled | Cancelled | SingleInventory | Swapped

  /** The forced-mode guard is reached: only then is the one-off exemption looked at (and consumed). */
  predicate ReachesForcedGuard(forced: Option<GameMode>, v: ListenerState, p: YPlayer, newMode: GameMode)
  {
    p.state.mode != newMode && !p.perms.singleInv && Lower(p.name) in v.authenticated &&
    Lower(p.name) !in v.locked && forced.Some?
  }

  function Decide(forced: Option<GameMode>, v: ListenerState, p: YPlayer, newMode: GameMode): (r: ModeOutcome)
    ensures r == Cancelled <==>
      p.state.mode != newMode && !p.perms.singleInv && Lower(p.name) in v.authenticated &&
      (Lower(p.name) in v.locked ||
       (forced.Some? && Lower(p.name) !in v.ignoreGameModeChange && !p.perms.forcedBypass))
    ensures r == Swapped <==>
      p.state.mode != newMode && !p.perms.singleInv && Lower(p.name) in v.authenticated &&
      Lower(p.name) !in v.locked &&
      (forced.None? || Lower(p.name) in v.ignoreGameModeChange || p.perms.forcedBypass)
  {
    var name := Lower(p.name);
    if p.state.mode == newMode then Unhandled
    else if p.perms.singleInv then SingleInventory
    else if name !in v.authenticated then Unhandled
    else if name in v.locked then Cancelled
    else if forced.Some? && name !in v.ignoreGameModeChange && !p.perms.forcedBypass then Cancelled
    else Swapped
  }

  datatype ModeStep = ModeStep(view: ListenerState, player: YPlayer, cancelled: bool, aborted: bool)

  /**
   * `onPlayerGameModeChange`: the exemption is consumed only when the
   * forced-mode guard is reached; a swap without a cached pair throws as
   * soon as it touches the pair.
   */
  function ModeChange(forced: Option<GameMode>, v: ListenerState, p: YPlayer, newMode: GameMode): (r: ModeStep)
    ensures r.view.ignoreGameModeChange ==
      if ReachesForcedGuard(forced, v, p, newMode) then v.ignoreGameModeChange - {Lower(p.name)} else v.ignoreGameModeChange
    ensures r.view.(ignoreGameModeChange := v.ignoreGameModeChange, cache := v.cache) == v
    ensures r.cancelled <==> Decide(forced, v, p, newMode) == Cancelled
    ensures r.aborted <==>
      Decide(forced, v, p, newMode) == Swapped && Lower(p.name) !in v.cache &&
      (OwnsInventory(p.state.mode) || OwnsInventory(newMode))
    ensures Decide(forced, v, p, newMode) != Swapped || r.aborted ==> r.view.cache == v.cache && r.player == p
    ensures r.player == Wear(p, Worn(r.player))
    ensures r.view.cache.Keys == v.cache.Keys
  {
    var name := Lower(p.name);
    var v1 := if ReachesForcedGuard(forced, v, p, newMode)
              then v.(ignoreGameModeChange := v.ignoreGameModeChange - {name}) else v;
    match Decide(forced, v, p, newMode)
    case Unhandled => ModeStep(v1, p, false, false)
    case Cancelled => ModeStep(v1, p, true, false)
    case SingleInventory => ModeStep(v1, p, false, false)
    case Swapped =>
      if name !in v.cache then
        if OwnsInventory(p.state.mode) || OwnsInventory(newMode) then ModeStep(v1, p, false, true)
        else ModeStep(v1, Wear(p, EMPTY), false, false)
      else
        var d := SwapSpec(Worn(p), v.cache[name], p.state.mode, newMode);
        ModeStep(v1.(cache := v.cache[name := d.pair]), Wear(p, d.worn), false, false)
  }

  /** The exemption step of a mode change, and the three shapes that follow it. */
  lemma ModeChangeShape(forced: Option<GameMode>, v: ListenerState, p: YPlayer, newMode: GameMode)
    ensures var v1 := if ReachesForcedGuard(forced, v, p, newMode)
                      then v.(ignoreGameModeChange := v.ignoreGameModeChange - {Lower(p.name)}) else v;
      var o := Decide(forced, v, p, newMode);
      var name := Lower(p.name);
      ModeChange(forced, v, p, newMode) ==
        if o != Swapped then ModeStep(v1, p, o == Cancelled, false)
        else if name !in v.cache then
          if OwnsInventory(p.state.mode) || OwnsInventory(newMode) then ModeStep(v1, p, false, true)
          else ModeStep(v1, Wear(p, EMPTY), false, false)
        else
          var d := SwapSpec(Worn(p), v.cache[name], p.state.mode, newMode);
          ModeStep(v1.(cache := v.cache[name := d.pair]), Wear(p, d.worn), false, false)
  {
  }

  datatype ModeSet = ModeSet(view: ListenerState, player: YPlayer)

  /** `player.setGameMode(m)`: no event for the same mode; a cancelled change keeps the old one. */
  function SetMode(forced: Option<GameMode>, v: ListenerState, p: YPlayer, m: GameMode): (r: ModeSet)
    ensures p.state.mode == m ==> r == ModeSet(v, p)
    ensures r.player.state.mode == if p.state.mode != m && Decide(forced, v, p, m) == Cancelled then p.state.mode else m
    ensures r.player.name == p.name && r.player.perms == p.perms
    ensures r.view.cache.Keys == v.cache.Keys
    ensures forced.None? ==> r.view.ignoreGameModeChange == v.ignoreGameModeChange
    ensures r.view.(ignoreGameModeChange := v.ignoreGameModeChange, cache := v.cache) == v
    ensures r.player == WithMode(Wear(p, Worn(r.player)), r.player.state.mode)
  {
    if p.state.mode == m then ModeSet(v, p)
    else
      var s := ModeChange(forced, v, p, m);
      ModeSet(s.view, if s.cancelled then s.player else WithMode(s.player, m))
  }

  // ---------------------------------------------------------------------
  // Snapshot and load
  // ---------------------------------------------------------------------

  /**
   * `createPlayerEntry(player, pair)`: the row id from `idMap`, the
   * lower-cased name, the statistics, the effects as one string, the ender
   * chest, and the inventories: a single-inventory player's worn set as
   * survival and no creative; otherwise the worn set under the current mode
   * and, for any other mode, the pair's set, read through a null pair
   * (None).
   */
  function Snapshot(id: Option<int>, p: YPlayer, pair: Option<PairState>): (r: Option<ModifiablePlayerEntry>)
    ensures r.None? <==> !p.perms.singleInv && pair.None?
    ensures r.Some? ==>
      r.value.(survival := None, creative := None) ==
        ModifiablePlayerEntry(id, Lower(p.name), p.state.health, p.state.foodLevel, p.state.level, p.state.exp,
          Some(p.state.mode), Some(LegacyPotionEffectUtils.SerializeSpec(p.state.effects)), None, None,
          Some(p.state.enderChest))
    ensures r.Some? && p.perms.singleInv ==> r.value.survival == Some(Worn(p)) && r.value.creative == None
    ensures r.Some? && !p.perms.singleInv ==>
      r.value.survival == Some(if p.state.mode == Survival then Worn(p) else OrEmpty(pair.value.survival)) &&
      r.value.creative == Some(if p.state.mode == Creative then Worn(p) else OrEmpty(pair.value.creative))
  {
    var base := ModifiablePlayerEntry(id, Lower(p.name), p.state.health, p.state.foodLevel, p.state.level, p.state.exp,
      Some(p.state.mode), Some(LegacyPotionEffectUtils.SerializeSpec(p.state.effects)), None, None,
      Some(p.state.enderChest));
    if p.perms.singleInv then Some(base.(survival := Some(Worn(p))))
    else if pair.None? then None
    else match p.state.mode
      case Survival => Some(base.(survival := Some(Worn(p)), creative := Some(OrEmpty(pair.value.creative))))
      case Creative => Some(base.(creative := Some(Worn(p)), survival := Some(OrEmpty(pair.value.survival))))
      case _ => Some(base.(survival := Some(OrEmpty(pair.value.survival)), creative := Some(OrEmpty(pair.value.creative))))
  }

  /** The pair `copyFromEntry` builds: both inventories of the entry, null ones left null. */
  function PairOfEntry(e: ModifiablePlayerEntry): PairState
  {
    PairState(e.survival, e.creative)
  }

  datatype Step = Step(view: ListenerState, player: YPlayer, aborted: bool)

  /**
   * The first part of `copyFromEntry`: statistics; the entry's effects are
   * added to those the player has (a null effects string throws); the ender
   * chest unless the entry has none; then the pair is cached and the player
   * dressed for the current mode.
   */
  function Unpack(v: ListenerState, p: YPlayer, e: ModifiablePlayerEntry): (r: Step)
    ensures r.player.name == p.name && r.player.perms == p.perms && r.player.state.mode == p.state.mode
    ensures r.aborted <==> e.potionEffects.None?
    ensures r.aborted ==> r.view == v && r.player == WithStats(p, e) && Worn(r.player) == Worn(p)
    ensures !r.aborted ==>
      r.view == v.(cache := v.cache[Lower(p.name) := Dress(p, PairOfEntry(e)).pair]) &&
      Worn(r.player) == Dress(p, PairOfEntry(e)).worn &&
      r.player.state.effects == p.state.effects + LegacyPotionEffectUtils.DeserializeSpec(e.potionEffects.value)
  {
    if e.potionEffects.None? then Step(v, WithStats(p, e), true)
    else
      var d := Dress(p, PairOfEntry(e));
      Step(v.(cache := v.cache[Lower(p.name) := d.pair]), Wear(Refreshed(p, e), d.worn), false)
  }

  /** The four statistics `copyFromEntry` sets first. */
  function WithStats(p: YPlayer, e: ModifiablePlayerEntry): YPlayer
  {
    p.(state := p.state.(health := e.health, foodLevel := e.foodLevel, level := e.xpLevel, exp := e.xpProgress))
  }

  /** The player after the statistics, the entry's effects and its ender chest (if any) are applied. */
  function Refreshed(p: YPlayer, e: ModifiablePlayerEntry): YPlayer
    requires e.potionEffects.Some?
  {
    var q := WithStats(p, e);
    var q1 := q.(state := q.state.(effects := q.state.effects + LegacyPotionEffectUtils.DeserializeSpec(e.potionEffects.value)));
    if e.enderChest.Some? then q1.(state := q1.state.(enderChest := e.enderChest.value)) else q1
  }

  /** The statistics, effects and ender chest steps of `copyFromEntry`. */
  method RefreshFrom(p: YPlayer, e: ModifiablePlayerEntry) returns (q: YPlayer)
    requires e.potionEffects.Some?
    ensures q == Refreshed(p, e)
  {
    q := WithStats(p, e);
    var effects := LegacyPotionEffectUtils.Deserialize(e.potionEffects.value);
    q := q.(state := q.state.(effects := q.state.effects + effects));
    if e.enderChest.Some? {
      q := q.(state := q.state.(enderChest := e.enderChest.value));
    }
  }

  /**
   * The last part of `copyFromEntry`: the mode is set to the entry's when no
   * mode is forced or the player may bypass it (a missing mode throws in the
   * switch), else to the forced mode with a one-off exemption.
   */
  function Settle(forced: Option<GameMode>, v: ListenerState, p: YPlayer, e: ModifiablePlayerEntry): (r: Step)
    ensures r.player.name == p.name && r.player.perms == p.perms
    ensures r.aborted <==> (forced.None? || p.perms.forcedBypass) && e.gameMode.None?
    ensures r.view.cache.Keys == v.cache.Keys
    ensures r.view.(ignoreGameModeChange := v.ignoreGameModeChange, cache := v.cache) == v
    ensures r.player == WithMode(Wear(p, Worn(r.player)), r.player.state.mode)
    ensures (forced.None? || p.perms.forcedBypass) && e.gameMode.Some? ==>
      r.player.state.mode == e.gameMode.value || Lower(p.name) in v.locked
    ensures forced.Some? && !p.perms.forcedBypass ==>
      r.player.state.mode == forced.value || Lower(p.name) in v.locked
  {
    if forced.None? || p.perms.forcedBypass then
      if e.gameMode.None? then Step(v, p, true)
      else
        var m := SetMode(forced, v, p, e.gameMode.value);
        Step(m.view, m.player, false)
    else if p.state.mode != forced.value then
      var m := SetMode(forced, v.(ignoreGameModeChange := v.ignoreGameModeChange + {Lower(p.name)}), p, forced.value);
      Step(m.view, m.player, false)
    else Step(v, p, false)
  }

  /** `copyFromEntry(player, entry)`: unpack, then settle the game mode. */
  function LoadSpec(forced: Option<GameMode>, v: ListenerState, p: YPlayer, e: ModifiablePlayerEntry): (r: Step)
    ensures r.player.name == p.name && r.player.perms == p.perms
    ensures r.aborted <==> e.potionEffects.None? || ((forced.None? || p.perms.forcedBypass) && e.gameMode.None?)
    ensures !r.aborted ==> Lower(p.name) in r.view.cache
    ensures r.view.(ignoreGameModeChange := v.ignoreGameModeChange, cache := v.cache) == v
  {
    var u := Unpack(v, p, e);
    if u.aborted then u else Settle(forced, u.view, u.player, e)
  }

  // ---------------------------------------------------------------------
  // The handlers
  // ---------------------------------------------------------------------

  /**
   * `onCommandLoginEvent` and `onPlayerJoinEvent`: an authenticated, online
   * player is locked, marked authenticated and loaded by name and row id.
   */
  function Authenticate(v: ListenerState, status: bool, player: Option<YPlayer>): (r: ListenerState)
    ensures !(status && player.Some?) ==> r == v
    ensures status && player.Some? ==>
      var name := Lower(player.value.name);
      r == Emit(v.(locked := v.locked + {name}, authenticated := v.authenticated + {name}), LoadTask(name, IdOf(v, name)))
  {
    if status && player.Some? then
      var name := Lower(player.value.name);
      Emit(v.(locked := v.locked + {name}, authenticated := v.authenticated + {name}), LoadTask(name, IdOf(v, name)))
    else v
  }

  datatype Outcome = Outcome(view: ListenerState, player: Option<YPlayer>, aborted: bool)

  /**
   * `onInventoryLoaded(entry)`: PlayerLoadedEvent goes out first, online or
   * not; the row id is recorded and the lock dropped; an online player gets
   * the entry.
   */
  function OnLoaded(forced: Option<GameMode>, v: ListenerState, e: ModifiablePlayerEntry, player: Option<YPlayer>): (r: Outcome)
    ensures |r.view.outbox| > |v.outbox| && r.view.outbox[|v.outbox|] == PlayerLoadedEvent(e.name)
    ensures e.name !in r.view.locked
    ensures player.None? ==> r == Outcome(Emit(v, PlayerLoadedEvent(e.name)).(idMap := v.idMap[e.name := e.id], locked := v.locked - {e.name}), None, false)
    ensures r.view.idMap == v.idMap[e.name := e.id]
    ensures player.Some? ==> r.player.Some? && r.player.value.name == player.value.name
  {
    var v1 := Emit(v, PlayerLoadedEvent(e.name)).(idMap := v.idMap[e.name := e.id], locked := v.locked - {e.name});
    if player.None? then Outcome(v1, None, false)
    else
      var s := LoadSpec(forced, v1, player.value, e);
      Outcome(s.view, Some(s.player), s.aborted)
  }

  /**
   * `onInventorySaved(name, id)`: PlayerSavedEvent, the row id recorded, the
   * lock dropped; for an online player with a request the request stays,
   * its time renewed in place, and the switch is sent (without re-locking).
   */
  function OnSaved(v: ListenerState, name: string, id: Option<int>, online: bool, now: int): (r: ListenerState)
    ensures r.authenticated == v.authenticated && r.cache == v.cache && r.ignoreGameModeChange == v.ignoreGameModeChange
    ensures r.idMap == v.idMap[name := id] && r.locked == v.locked - {name}
    ensures r.requests.Keys == v.requests.Keys
    ensures online && name in v.requests ==>
      r.requests == v.requests[name := v.requests[name].(requestAt := now)] &&
      r.outbox == v.outbox + [PlayerSavedEvent(name), SendToServer(name, v.requests[name].destination)]
    ensures !(online && name in v.requests) ==> r.requests == v.requests && r.outbox == v.outbox + [PlayerSavedEvent(name)]
  {
    var v1 := Emit(v, PlayerSavedEvent(name)).(idMap := v.idMap[name := id], locked := v.locked - {name});
    if online && name in v.requests then
      var request := v.requests[name];
      Emit(v1.(requests := v1.requests[name := request.(requestAt := now)]), SendToServer(name, request.destination))
    else v1
  }

  /** `if(forcedGameMode != null) ignoreGameModeChange.add(name)`. */
  function ExemptIfForced(forced: Option<GameMode>, v: ListenerState, name: string): ListenerState
  {
    if forced.Some? then v.(ignoreGameModeChange := v.ignoreGameModeChange + {name}) else v
  }

  /**
   * `onInventoryNotFound(name)`: the lock is dropped; only for an online
   * player is an empty pair cached, the mode set to survival (with an
   * exemption only when a mode is forced) and PlayerLoadedEvent fired.
   * The exemption and the dropped lock mean the change to survival is never
   * cancelled, so the player always ends in survival.
   */
  function OnNotFound(forced: Option<GameMode>, v: ListenerState, name: string, player: Option<YPlayer>): (r: Outcome)
    ensures !r.aborted && name !in r.view.locked
    ensures player.None? ==> r == Outcome(v.(locked := v.locked - {name}), None, false)
    ensures player.Some? ==>
      name in r.view.cache && r.player.Some? &&
      |r.view.outbox| > 0 && r.view.outbox[|r.view.outbox| - 1] == PlayerLoadedEvent(name)
    ensures player.Some? && name == Lower(player.value.name) ==>
      r.player.value.state.mode == Survival && r.player.value.name == player.value.name
    ensures player.Some? && player.value.state.mode == Survival ==>
      r.view.cache == v.cache[name := PairState(None, None)] && r.player == player
  {
    var v1 := v.(locked := v.locked - {name});
    if player.None? then Outcome(v1, None, false)
    else
      var p := player.value;
      var v2 := v1.(cache := v1.cache[name := PairState(None, None)]);
      if p.state.mode != Survival then
        var m := SetMode(forced, ExemptIfForced(forced, v2, name), p, Survival);
        Outcome(Emit(m.view, PlayerLoadedEvent(name)), Some(m.player), false)
      else Outcome(Emit(v2, PlayerLoadedEvent(name)), Some(p), false)
  }

  /** `onInventorySaveFailure(name, message)`: only the lock is dropped (the message is not modelled). */
  function OnSaveFailure(v: ListenerState, name: string): (r: ListenerState)
    ensures name !in r.locked && r.(locked := v.locked) == v
  {
    v.(locked := v.locked - {name})
  }

  /**
   * `onPlayerQuit`: an unauthenticated player is left alone; otherwise the
   * request is taken out, the inventory saved unless the quit follows a
   * fresh switch, and the pair, lock and authentication dropped (the
   * snapshot throwing skips that last step).
   */
  function Quit(v: ListenerState, p: YPlayer, now: int, hook: Hook): (r: Step)
    ensures Lower(p.name) !in v.authenticated ==> r == Step(v, p, false)
    ensures Lower(p.name) in v.authenticated ==> Lower(p.name) !in r.view.requests
    ensures Lower(p.name) in v.authenticated && !r.aborted ==>
      Lower(p.name) !in r.view.cache && Lower(p.name) !in r.view.authenticated && Lower(p.name) !in r.view.locked
    ensures Lower(p.name) in v.authenticated && !QuitSaves(RequestOf(v, Lower(p.name)), now) ==>
      !r.aborted && r.view.outbox == v.outbox
    ensures Lower(p.name) in v.authenticated && QuitSaves(RequestOf(v, Lower(p.name)), now) && !r.aborted ==>
      |r.view.outbox| == |v.outbox| + 1 && r.view.outbox[|v.outbox|].SaveTask? &&
      !r.view.outbox[|v.outbox|].forShutdown
  {
    var name := Lower(p.name);
    if name !in v.authenticated then Step(v, p, false)
    else
      var v1 := v.(requests := v.requests - {name});
      if QuitSaves(RequestOf(v, name), now) then
        var p1 := Hooked(p, hook);
        var e := Snapshot(IdOf(v1, name), p1, CacheOf(v1, name));
        if e.None? then Step(v1, p1, true)
        else
          var v2 := Emit(v1, SaveTask(e.value, false));
          Step(v2.(cache := v2.cache - {name}, locked := v2.locked - {name}, authenticated := v2.authenticated - {name}), p1, false)
      else Step(v1.(cache := v1.cache - {name}, locked := v1.locked - {name}, authenticated := v1.authenticated - {name}), p, false)
  }

  /**
   * `onPlayerServerSwitch`: the switch is always cancelled and recorded
   * with the current time; the snapshot comes next, and only then is the
   * player locked and the save issued.
   */
  function Switch(v: ListenerState, p: YPlayer, destination: string, now: int, hook: Hook): (r: Step)
    ensures r.view.requests == v.requests[Lower(p.name) := ServerChangeRequest(destination, now)]
    ensures r.aborted <==> Snapshot(IdOf(v, Lower(p.name)), Hooked(p, hook), CacheOf(v, Lower(p.name))).None?
    ensures r.aborted ==> r.view == v.(requests := r.view.requests)
    ensures !r.aborted ==>
      r.view == Emit(v.(requests := r.view.requests, locked := v.locked + {Lower(p.name)}),
        SaveTask(Snapshot(IdOf(v, Lower(p.name)), Hooked(p, hook), CacheOf(v, Lower(p.name))).value, false))
    ensures r.player == Hooked(p, hook)
  {
    var name := Lower(p.name);
    var v1 := v.(requests := v.requests[name := ServerChangeRequest(destination, now)]);
    var p1 := Hooked(p, hook);
    var e := Snapshot(IdOf(v1, name), p1, CacheOf(v1, name));
    if e.None? then Step(v1, p1, true)
    else Step(Emit(v1.(locked := v1.locked + {name}), SaveTask(e.value, false)), p1, false)
  }

  /**
   * One player of `shutdown()`: the pre-save hook, the snapshot, then the
   * request dropped and the shutdown save issued; a throw is caught and the
   * loop goes on.
   */
  function ShutdownOne(v: ListenerState, p: YPlayer, hook: Hook): (r: ListenerState)
    ensures r.(requests := v.requests, outbox := v.outbox) == v
    ensures |v.outbox| <= |r.outbox| <= |v.outbox| + 1 && r.outbox[..|v.outbox|] == v.outbox
    ensures forall i :: |v.outbox| <= i < |r.outbox| ==> r.outbox[i].SaveTask? && r.outbox[i].forShutdown
    ensures var e := Snapshot(IdOf(v, Lower(p.name)), Hooked(p, hook), CacheOf(v, Lower(p.name)));
            (e.Some? ==> r.outbox == v.outbox + [SaveTask(e.value, true)] && r.requests == v.requests - {Lower(p.name)}) &&
            (e.None? ==> r == v)
  {
    var name := Lower(p.name);
    var e := Snapshot(IdOf(v, name), Hooked(p, hook), CacheOf(v, name));
    if e.None? then v
    else Emit(v.(requests := v.requests - {name}), SaveTask(e.value, true))
  }

  function ShutdownLoop(v: ListenerState, players: seq<YPlayer>, hook: Hook): (r: ListenerState)
    ensures r.(requests := v.requests, outbox := v.outbox) == v
  {
    if players == [] then v
    else ShutdownOne(ShutdownLoop(v, players[..|players| - 1], hook), players[|players| - 1], hook)
  }

  /**
   * `shutdown()`: every online player in turn, then the locks, ids,
   * requests and pairs are forgotten; the authenticated and exempted names
   * are kept.
   */
  function ShutdownSpec(v: ListenerState, players: seq<YPlayer>, hook: Hook): (r: ListenerState)
    ensures r.authenticated == v.authenticated && r.ignoreGameModeChange == v.ignoreGameModeChange
    ensures r.locked == {} && r.idMap == map[] && r.requests == map[] && r.cache == map[]
  {
    ShutdownLoop(v, players, hook).(locked := {}, idMap := map[], requests := map[], cache := map[])
  }

  // ---------------------------------------------------------------------
  // Properties
  // ---------------------------------------------------------------------

  /** Without a forced mode no handler ever adds or consumes an exemption. */
  lemma NoExemptionWithoutForcedMode(v: ListenerState, p: YPlayer, e: ModifiablePlayerEntry,
                                     name: string, player: Option<YPlayer>)
    ensures LoadSpec(None, v, p, e).view.ignoreGameModeChange == v.ignoreGameModeChange
    ensures OnNotFound(None, v, name, player).view.ignoreGameModeChange == v.ignoreGameModeChange
  {
    var u := Unpack(v, p, e);
    if !u.aborted && e.gameMode.Some? {
      assert SetMode(None, u.view, u.player, e.gameMode.value).view.ignoreGameModeChange == u.view.ignoreGameModeChange;
    }
  }

  /**
   * A player with nothing stored starts over in survival: a player the
   * handler swaps for stashes the worn set under the mode left and wears
   * an empty one; a single-inventory or unauthenticated player only changes
   * mode, and the new pair stays empty.
   */
  lemma {:induction false} NotFoundEntersSurvival(forced: Option<GameMode>, v: ListenerState, p: YPlayer)
    requires p.state.mode != Survival
    ensures var r := OnNotFound(forced, v, Lower(p.name), Some(p));
            p.perms.singleInv || Lower(p.name) !in v.authenticated ==>
              r.view.cache[Lower(p.name)] == PairState(None, None) && r.player == Some(WithMode(p, Survival))
    ensures var r := OnNotFound(forced, v, Lower(p.name), Some(p));
            !p.perms.singleInv && Lower(p.name) in v.authenticated ==>
              r.view.cache[Lower(p.name)] == Stash(PairState(None, None), p.state.mode, Worn(p)) &&
              Worn(r.player.value) == EMPTY
  {
    var name := Lower(p.name);
    var v2 := v.(locked := v.locked - {name}).(cache := v.cache[name := PairState(None, None)]);
    var v3 := ExemptIfForced(forced, v2, name);
    assert Decide(forced, v3, p, Survival) == if p.perms.singleInv then SingleInventory
      else if name !in v.authenticated then Unhandled else Swapped;
  }

  /**
   * A player free to change modes who leaves survival or creative and comes
   * back wears exactly what they wore before, and the other mode's set is
   * cached as it was.
   */
  lemma ModeRoundTrip(forced: Option<GameMode>, v: ListenerState, p: YPlayer, b: GameMode)
    requires Lower(p.name) in v.authenticated && Lower(p.name) !in v.locked && Lower(p.name) in v.cache
    requires !p.perms.singleInv && (forced.None? || p.perms.forcedBypass)
    requires OwnsInventory(p.state.mode) && b != p.state.mode
    ensures var there := SetMode(forced, v, p, b);
            var back := SetMode(forced, there.view, there.player, p.state.mode);
            back.player.state.mode == p.state.mode && Worn(back.player) == Worn(p) &&
            OrEmpty(SlotFor(back.view.cache[Lower(p.name)], b)) == OrEmpty(SlotFor(v.cache[Lower(p.name)], b))
  {
    var name := Lower(p.name);
    var a := p.state.mode;
    var d1 := SwapSpec(Worn(p), v.cache[name], a, b);
    var there := SetMode(forced, v, p, b);
    assert there.view.cache[name] == d1.pair && Worn(there.player) == d1.worn;
    assert there.player.state.mode == b;
    SwapThereAndBack(Worn(p), v.cache[name], a, b);
  }

  /**
   * The hand-over between servers: the entry taken from a player, loaded
   * into the same player on a server without a forced mode, puts them back
   * in the same mode with the same worn set, statistics and ender chest;
   * the effects the snapshot carried come back in order after those the
   * player already had.
   */
  lemma TransferRoundTrip(id: Option<int>, pair: PairState, p: YPlayer, v: ListenerState, q: YPlayer)
    requires q.name == p.name && q.perms == p.perms
    requires !p.perms.singleInv
    requires Lower(q.name) in v.authenticated && Lower(q.name) !in v.locked
    ensures var e := Snapshot(id, p, Some(pair)).value;
            var r := LoadSpec(None, v, q, e);
            !r.aborted && r.player.state.mode == p.state.mode &&
            Worn(r.player) == (if OwnsInventory(p.state.mode) then Worn(p) else EMPTY) &&
            r.player.state.health == p.state.health && r.player.state.foodLevel == p.state.foodLevel &&
            r.player.state.level == p.state.level && r.player.state.exp == p.state.exp &&
            r.player.state.enderChest == p.state.enderChest &&
            r.player.state.effects == q.state.effects + p.state.effects
  {
    var e := Snapshot(id, p, Some(pair)).value;
    LegacyPotionEffectUtils.RoundTrip(p.state.effects);
    TransferLoads(e, v, q, p.state.mode);
    var rq := Refreshed(q, e);
    assert rq.state.(mode := p.state.mode, armor := p.state.armor, contents := p.state.contents) ==
      p.state.(effects := q.state.effects + p.state.effects);
  }

  /** After the hand-over the other inventory-owning mode's set is cached as the snapshot carried it. */
  lemma TransferCachesOtherMode(id: Option<int>, pair: PairState, p: YPlayer, v: ListenerState, q: YPlayer)
    requires q.name == p.name && q.perms == p.perms
    requires !p.perms.singleInv
    requires Lower(q.name) in v.authenticated && Lower(q.name) !in v.locked
    ensures var e := Snapshot(id, p, Some(pair)).value;
            var r := LoadSpec(None, v, q, e);
            forall m :: OwnsInventory(m) && m != p.state.mode ==>
              SlotFor(r.view.cache[Lower(p.name)], m) == Some(OrEmpty(SlotFor(pair, m)))
  {
    var e := Snapshot(id, p, Some(pair)).value;
    TransferLoads(e, v, q, p.state.mode);
  }

  /**
   * Loading a complete entry of mode `m` into a player free to change modes
   * dresses them as `m` and caches what `m` does not wear.
   */
  lemma TransferLoads(e: ModifiablePlayerEntry, v: ListenerState, q: YPlayer, m: GameMode)
    requires e.gameMode == Some(m) && e.potionEffects.Some? && e.survival.Some? && e.creative.Some?
    requires !q.perms.singleInv && Lower(q.name) in v.authenticated && Lower(q.name) !in v.locked
    ensures var r := LoadSpec(None, v, q, e);
            var d := Unstash(PairOfEntry(e), m);
            !r.aborted && r.view.cache[Lower(q.name)] == d.pair &&
            r.player == WithMode(Wear(Refreshed(q, e), d.worn), m)
  {
    var name := Lower(q.name);
    var u := Unpack(v, q, e);
    var d0 := Unstash(PairOfEntry(e), q.state.mode);
    assert u.view.cache[name] == d0.pair && u.player == Wear(Refreshed(q, e), d0.worn);
    if q.state.mode != m {
      LowerIdempotent(q.name);
      StashUnstash(PairOfEntry(e), q.state.mode);
      assert SwapSpec(d0.worn, d0.pair, q.state.mode, m) == Unstash(PairOfEntry(e), m);
      assert Decide(None, u.view, u.player, m) == Swapped;
    }
  }

  /**
   * The switch protocol: once the save for a switch completes the player is
   * sent, and the request is still there with the time of the save, so a
   * quit within 2000 ms of it neither saves again nor keeps the request.
   */
  lemma SwitchThenQuit(v: ListenerState, p: YPlayer, destination: string, hook: Hook, id: Option<int>,
                       requested: int, savedAt: int, quitAt: int)
    requires Lower(p.name) in v.authenticated
    requires !Switch(v, p, destination, requested, hook).aborted
    requires quitAt - savedAt <= 2000
    ensures var s := Switch(v, p, destination, requested, hook);
            var w := OnSaved(s.view, Lower(p.name), id, true, savedAt);
            w.outbox == s.view.outbox + [PlayerSavedEvent(Lower(p.name)), SendToServer(Lower(p.name), destination)] &&
            w.requests[Lower(p.name)] == ServerChangeRequest(destination, savedAt)
    ensures var s := Switch(v, p, destination, requested, hook);
            var w := OnSaved(s.view, Lower(p.name), id, true, savedAt);
            var q := Quit(w, s.player, quitAt, hook);
            !q.aborted && q.view.outbox == w.outbox && Lower(p.name) !in q.view.requests &&
            Lower(p.name) !in q.view.authenticated
  {
    LowerIdempotent(p.name);
  }

  /**
   * A completed save records the row id it was given, so the next save of
   * that player (here the one a switch issues) carries it and updates the
   * same record.
   */
  lemma SavedIdReachesNextSave(v: ListenerState, p: YPlayer, hook: Hook, id: Option<int>, online: bool,
                               savedAt: int, destination: string, now: int)
    requires p.perms.singleInv || Lower(p.name) in v.cache
    ensures var w := OnSaved(v, Lower(p.name), id, online, savedAt);
            var s := Switch(w, p, destination, now, hook);
            !s.aborted && s.view.outbox[|s.view.outbox| - 1].SaveTask? &&
            s.view.outbox[|s.view.outbox| - 1].entry.id == id
  {
    var w := OnSaved(v, Lower(p.name), id, online, savedAt);
    assert IdOf(w, Lower(p.name)) == id;
  }

  /** Likewise a completed load: the next save of that player carries the loaded row id. */
  lemma LoadedIdReachesNextSave(forced: Option<GameMode>, v: ListenerState, e: ModifiablePlayerEntry, p: YPlayer,
                                hook: Hook, destination: string, now: int)
    requires e.name == Lower(p.name)
    ensures var o := OnLoaded(forced, v, e, Some(p));
            var s := Switch(o.view, o.player.value, destination, now, hook);
            !s.aborted ==>
              s.view.outbox[|s.view.outbox| - 1].SaveTask? && s.view.outbox[|s.view.outbox| - 1].entry.id == e.id
  {
    var o := OnLoaded(forced, v, e, Some(p));
    assert IdOf(o.view, Lower(o.player.value.name)) == e.id;
  }

  /** Shutdown sends no one to another server: it only appends shutdown saves. */
  lemma {:induction false} ShutdownOnlySaves(v: ListenerState, players: seq<YPlayer>, hook: Hook)
    ensures var r := ShutdownLoop(v, players, hook);
            |v.outbox| <= |r.outbox| <= |v.outbox| + |players| && r.outbox[..|v.outbox|] == v.outbox &&
            forall i :: |v.outbox| <= i < |r.outbox| ==> r.outbox[i].SaveTask? && r.outbox[i].forShutdown
    decreases |players|
  {
    if players != [] {
      var init := players[..|players| - 1];
      ShutdownOnlySaves(v, init, hook);
      var mid := ShutdownLoop(v, init, hook);
      var r := ShutdownLoop(v, players, hook);
      assert r == ShutdownOne(mid, players[|players| - 1], hook);
      assert r.outbox[..|mid.outbox|] == mid.outbox;
      assert r.outbox[..|v.outbox|] == mid.outbox[..|v.outbox|];
    }
  }

  /** Every player whose snapshot could be taken has its shutdown save issued, with the row id it had. */
  lemma {:induction false} ShutdownSavesEveryone(v: ListenerState, players: seq<YPlayer>, hook: Hook, j: nat)
    requires j < |players|
    requires Snapshot(IdOf(v, Lower(players[j].name)), Hooked(players[j], hook), CacheOf(v, Lower(players[j].name))).Some?
    ensures SaveTask(Snapshot(IdOf(v, Lower(players[j].name)), Hooked(players[j], hook),
                              CacheOf(v, Lower(players[j].name))).value, true) in ShutdownLoop(v, players, hook).outbox
    decreases |players|
  {
    var init := players[..|players| - 1];
    var mid := ShutdownLoop(v, init, hook);
    var r := ShutdownLoop(v, players, hook);
    assert r == ShutdownOne(mid, players[|players| - 1], hook);
    var task := SaveTask(Snapshot(IdOf(v, Lower(players[j].name)), Hooked(players[j], hook),
                                  CacheOf(v, Lower(players[j].name))).value, true);
    if j < |players| - 1 {
      assert init[j] == players[j];
      ShutdownSavesEveryone(v, init, hook, j);
      var k :| 0 <= k < |mid.outbox| && mid.outbox[k] == task;
      assert r.outbox[..|mid.outbox|] == mid.outbox;
      assert r.outbox[k] == task;
    } else {
      assert IdOf(mid, Lower(players[j].name)) == IdOf(v, Lower(players[j].name));
      assert CacheOf(mid, Lower(players[j].name)) == CacheOf(v, Lower(players[j].name));
      assert r.outbox[|mid.outbox|] == task;
    }
  }

  // ---------------------------------------------------------------------
  // The listener
  // ---------------------------------------------------------------------

  /** The first lines of `copyFromEntry`: a new pair holding both inventories of the entry. */
  method NewPairOf(e: ModifiablePlayerEntry) returns (pair: GmailStorage.InventoryPair)
    ensures fresh(pair) && pair.State() == PairOfEntry(e)
  {
    pair := new GmailStorage.InventoryPair();
    pair.SetSurvival(e.survival);
    pair.SetCreative(e.creative);
  }

  class PlayerListener {
    const forcedGameMode: Option<GameMode>
    var idMap: map<string, Option<int>>
    var authenticated: set<string>
    var locked: set<string>
    var ignoreGameModeChange: set<string>
    var serverChangeRequests: map<string, ServerChangeRequest>
    var inventoryMap: map<string, GmailStorage.InventoryPair>
    /** What the listener has handed to others so far. */
    var outbox: seq<Command>

    /** The name each cached pair was created for; it shows that no two names share a pair. */
    ghost var owner: map<GmailStorage.InventoryPair, string>

    /** Every cached pair belongs to its own name. */
    ghost predicate Valid()
      reads this
    {
      Owned(inventoryMap, owner)
    }

    function State(): ListenerState
      reads this, inventoryMap.Values
    {
      ListenerState(idMap, authenticated, locked, ignoreGameModeChange, serverChangeRequests, PairStates(inventoryMap), outbox)
    }

    /**
     * The constructor: with `ForcedGameMode.Enable` set, `ForcedGameMode.GameMode`
     * must name a game mode (`GameMode.valueOf` throws otherwise).
     */
    constructor(forcedEnabled: bool, forcedName: string)
      requires forcedEnabled ==> ValueOf(forcedName).Some?
      ensures Valid()
      ensures forcedGameMode == if forcedEnabled then ValueOf(forcedName) else None
      ensures State() == ListenerState(map[], {}, {}, {}, map[], map[], [])
    {
      forcedGameMode := if forcedEnabled then ValueOf(forcedName) else None;
      idMap := map[];
      authenticated := {};
      locked := {};
      ignoreGameModeChange := {};
      serverChangeRequests := map[];
      inventoryMap := map[];
      owner := map[];
      outbox := [];
    }

    /** `onPlayerGameModeChange(event)`. */
    method OnPlayerGameModeChange(p: YPlayer, newMode: GameMode) returns (q: YPlayer, cancelled: bool, aborted: bool)
      requires Valid()
      modifies this, inventoryMap.Values
      ensures Valid() && inventoryMap == old(inventoryMap)
      ensures ModeStep(State(), q, cancelled, aborted) == ModeChange(forcedGameMode, old(State()), p, newMode)
    {
      ModeChangeShape(forcedGameMode, State(), p, newMode);
      var outcome := Guard(p, newMode);
      q, cancelled, aborted := p, outcome == Cancelled, false;
      if outcome == Swapped {
        q, aborted := SwapInventories(p, newMode);
      }
    }

    /** The guards of `onPlayerGameModeChange`, in their order; reaching the forced-mode guard consumes the exemption. */
    method Guard(p: YPlayer, newMode: GameMode) returns (outcome: ModeOutcome)
      requires Valid()
      modifies this
      ensures Valid() && inventoryMap == old(inventoryMap)
      ensures outcome == Decide(forcedGameMode, old(State()), p, newMode)
      ensures State() == if ReachesForcedGuard(forcedGameMode, old(State()), p, newMode)
        then old(State()).(ignoreGameModeChange := old(ignoreGameModeChange) - {Lower(p.name)}) else old(State())
    {
      var name := Lower(p.name);
      if p.state.mode == newMode {
        return Unhandled;
      }
      if p.perms.singleInv {
        return SingleInventory;
      }
      if name !in authenticated {
        return Unhandled;
      }
      if name in locked {
        return Cancelled;
      }
      if forcedGameMode.None? {
        return Swapped;
      }
      var wasIgnored := name in ignoreGameModeChange;
      ignoreGameModeChange := ignoreGameModeChange - {name};
      if !wasIgnored && !p.perms.forcedBypass {
        return Cancelled;
      }
      return Swapped;
    }

    /** The second half of `onPlayerGameModeChange`, once every guard has let the change through. */
    method SwapInventories(p: YPlayer, newMode: GameMode) returns (q: YPlayer, aborted: bool)
      requires Valid() && p.state.mode != newMode
      modifies inventoryMap.Values
      ensures Valid()
      ensures var name := Lower(p.name);
        if name !in old(inventoryMap) then
          (aborted <==> OwnsInventory(p.state.mode) || OwnsInventory(newMode)) &&
          q == (if aborted then p else Wear(p, EMPTY)) && PairStates(inventoryMap) == old(PairStates(inventoryMap))
        else
          var d := SwapSpec(Worn(p), old(PairStates(inventoryMap))[name], p.state.mode, newMode);
          !aborted && q == Wear(p, d.worn) && PairStates(inventoryMap) == old(PairStates(inventoryMap))[name := d.pair]
    {
      var name := Lower(p.name);
      var inventory := Worn(p);
      q, aborted := p, false;
      if name !in inventoryMap {
        // `pair` is null: the first use of it throws
        if OwnsInventory(p.state.mode) || OwnsInventory(newMode) {
          aborted := true;
          return;
        }
        q := Wear(p, EMPTY);
        return;
      }
      var pair := inventoryMap[name];
      var worn := SwapPair(pair, inventory, p.state.mode, newMode);
      q := Wear(p, worn);
      assert forall k :: k in inventoryMap && k != name ==> inventoryMap[k] != pair;
      assert PairStates(inventoryMap) == old(PairStates(inventoryMap))[name := pair.State()];
    }

    /** `player.setGameMode(m)`, which runs the handler above when the mode changes. */
    method SetGameMode(p: YPlayer, m: GameMode) returns (q: YPlayer)
      requires Valid()
      modifies this, inventoryMap.Values
      ensures Valid() && inventoryMap == old(inventoryMap)
      ensures ModeSet(State(), q) == SetMode(forcedGameMode, old(State()), p, m)
    {
      if p.state.mode == m {
        return p;
      }
      var r, cancelled, aborted := OnPlayerGameModeChange(p, m);
      q := if cancelled then r else WithMode(r, m);
    }

    /** `copyFromEntry(player, entry)`. */
    method CopyFromEntry(p: YPlayer, e: ModifiablePlayerEntry) returns (q: YPlayer, aborted: bool)
      requires Valid()
      modifies this, inventoryMap.Values
      ensures Valid()
      ensures Step(State(), q, aborted) == LoadSpec(forcedGameMode, old(State()), p, e)
    {
      q, aborted := UnpackEntry(p, e);
      if !aborted {
        q, aborted := SettleMode(q, e);
      }
    }

    /** The part of `copyFromEntry` that sets the game mode. */
    method SettleMode(p: YPlayer, e: ModifiablePlayerEntry) returns (q: YPlayer, aborted: bool)
      requires Valid()
      modifies this, inventoryMap.Values
      ensures Valid() && inventoryMap == old(inventoryMap)
      ensures Step(State(), q, aborted) == Settle(forcedGameMode, old(State()), p, e)
    {
      ghost var v := State();
      var name := Lower(p.name);
      q, aborted := p, false;
      if forcedGameMode.None? || p.perms.forcedBypass {
        if e.gameMode.None? {
          // the switch on a null game mode throws
          aborted := true;
          return;
        }
        q := SetGameMode(p, e.gameMode.value);
      } else if p.state.mode != forcedGameMode.value {
        ignoreGameModeChange := ignoreGameModeChange + {name};
        assert State() == v.(ignoreGameModeChange := v.ignoreGameModeChange + {name});
        q := SetGameMode(p, forcedGameMode.value);
      }
    }

    /** The part of `copyFromEntry` before the game mode is set. */
    method UnpackEntry(p: YPlayer, e: ModifiablePlayerEntry) returns (q: YPlayer, aborted: bool)
      requires Valid()
      modifies this
      ensures Valid() && fresh(inventoryMap.Values - old(inventoryMap.Values))
      ensures Step(State(), q, aborted) == Unpack(old(State()), p, e)
    {
      var name := Lower(p.name);
      if e.potionEffects.None? {
        // `split(null)` throws once the statistics are set
        return WithStats(p, e), true;
      }
      q := RefreshFrom(p, e);
      var pair := NewPairOf(e);
      q := DressFrom(pair, q);
      // the source caches the pair before dressing from it; nothing in between can throw, so the order is not observable
      Install(name, pair);
      aborted := false;
    }

    /** `inventoryMap.put(name, pair)` for a pair no name held before. */
    method Install(name: string, pair: GmailStorage.InventoryPair)
      requires Valid() && pair !in owner
      modifies this
      ensures Valid() && inventoryMap == old(inventoryMap)[name := pair]
      ensures State() == old(State()).(cache := old(PairStates(inventoryMap))[name := pair.State()])
    {
      ghost var before := PairStates(inventoryMap);
      inventoryMap := inventoryMap[name := pair];
      owner := owner[pair := name];
      assert PairStates(inventoryMap) == before[name := pair.State()];
    }

    /** `createPlayerEntry(player, inventoryMap.get(name))`: the entry, or None when the missing pair is dereferenced. */
    method CreatePlayerEntry(p: YPlayer) returns (entry: Option<ModifiablePlayerEntry>)
      ensures entry == Snapshot(IdOf(State(), Lower(p.name)), p, CacheOf(State(), Lower(p.name)))
    {
      var name := Lower(p.name);
      var inventory := Worn(p);
      var id := if name in idMap then idMap[name] else None;
      var effects := LegacyPotionEffectUtils.Serialize(p.state.effects);
      var e := ModifiablePlayerEntry(id, name, p.state.health, p.state.foodLevel, p.state.level, p.state.exp,
        None, Some(effects), None, None, Some(p.state.enderChest));
      if p.perms.singleInv {
        return Some(e.(gameMode := Some(p.state.mode), survival := Some(inventory), creative := None));
      }
      if name !in inventoryMap {
        return None;
      }
      var pair := inventoryMap[name];
      match p.state.mode {
        case Survival =>
          e := e.(gameMode := Some(Survival), survival := Some(inventory), creative := Some(pair.GetCreative()));
        case Creative =>
          e := e.(gameMode := Some(Creative), creative := Some(inventory), survival := Some(pair.GetSurvival()));
        case Adventure =>
          e := e.(gameMode := Some(Adventure), survival := Some(pair.GetSurvival()), creative := Some(pair.GetCreative()));
        case Spectator =>
          e := e.(gameMode := Some(Spectator), survival := Some(pair.GetSurvival()), creative := Some(pair.GetCreative()));
      }
      return Some(e);
    }

    /** Hands `c` to the scheduler, the server or the event bus. */
    method Send(c: Command)
      requires Valid()
      modifies this
      ensures Valid() && inventoryMap == old(inventoryMap)
      ensures State() == Emit(old(State()), c)
    {
      outbox := outbox + [c];
    }

    /** `onInventoryLoaded(entry)`; `player` is the online player of that name, if any. */
    method OnInventoryLoaded(e: ModifiablePlayerEntry, player: Option<YPlayer>) returns (q: Option<YPlayer>, aborted: bool)
      requires Valid()
      modifies this, inventoryMap.Values
      ensures Valid()
      ensures Outcome(State(), q, aborted) == OnLoaded(forcedGameMode, old(State()), e, player)
    {
      ghost var v := State();
      Record(PlayerLoadedEvent(e.name), e.name, e.id);
      ghost var v1 := Emit(v, PlayerLoadedEvent(e.name)).(idMap := v.idMap[e.name := e.id], locked := v.locked - {e.name});
      q, aborted := None, false;
      if player.Some? {
        ghost var s := LoadSpec(forcedGameMode, v1, player.value, e);
        var p;
        p, aborted := CopyFromEntry(player.value, e);
        assert State() == s.view && p == s.player && aborted == s.aborted;
        q := Some(p);
      }
    }

    /** `onInventorySaved(name, id)`; `online` tells whether the player of that name is online. */
    method OnInventorySaved(name: string, id: Option<int>, online: bool, now: int)
      requires Valid()
      modifies this
      ensures Valid() && inventoryMap == old(inventoryMap)
      ensures State() == OnSaved(old(State()), name, id, online, now)
    {
      var request := if name in serverChangeRequests then Some(serverChangeRequests[name]) else None;
      Record(PlayerSavedEvent(name), name, id);
      if online && request.Some? {
        Renew(name, request.value, now);
      }
    }

    /**
     * The tail of `onInventorySaved` for an online player with a request:
     * `request.requestAt = System.currentTimeMillis()` updates the stored
     * request in place, and the player is sent on.
     */
    method Renew(name: string, request: ServerChangeRequest, now: int)
      requires Valid()
      modifies this
      ensures Valid() && inventoryMap == old(inventoryMap)
      ensures State() == Emit(old(State()).(requests := old(serverChangeRequests)[name := request.(requestAt := now)]),
        SendToServer(name, request.destination))
    {
      serverChangeRequests := serverChangeRequests[name := request.(requestAt := now)];
      Send(SendToServer(name, request.destination));
    }

    /** The common start of `onInventoryLoaded` and `onInventorySaved`: the event, the row id, the lock dropped. */
    method Record(event: Command, name: string, id: Option<int>)
      requires Valid()
      modifies this
      ensures Valid() && inventoryMap == old(inventoryMap)
      ensures State() == Emit(old(State()), event).(idMap := old(idMap)[name := id], locked := old(locked) - {name})
    {
      Send(event);
      idMap := idMap[name := id];
      locked := locked - {name};
    }

    /** `onInventoryNotFound(name)`. */
    method OnInventoryNotFound(name: string, player: Option<YPlayer>) returns (q: Option<YPlayer>)
      requires Valid()
      modifies this, inventoryMap.Values
      ensures Valid()
      ensures Outcome(State(), q, false) == OnNotFound(forcedGameMode, old(State()), name, player)
    {
      ghost var v1 := old(State()).(locked := old(locked) - {name});
      locked := locked - {name};
      assert State() == v1;
      q := player;
      if player.Some? {
        ghost var v2 := v1.(cache := v1.cache[name := PairState(None, None)]);
        InstallEmptyPair(name);
        var p := player.value;
        if p.state.mode != Survival {
          ghost var m := SetMode(forcedGameMode, ExemptIfForced(forcedGameMode, v2, name), p, Survival);
          var r := EnterSurvival(p, name);
          assert State() == m.view && r == m.player;
          q := Some(r);
        }
        Send(PlayerLoadedEvent(name));
      }
    }

    /** `inventoryMap.put(name, new InventoryPair())`. */
    method InstallEmptyPair(name: string)
      requires Valid()
      modifies this
      ensures Valid() && fresh(inventoryMap.Values - old(inventoryMap.Values))
      ensures State() == old(State()).(cache := old(PairStates(inventoryMap))[name := PairState(None, None)])
    {
      var pair := new GmailStorage.InventoryPair();
      Install(name, pair);
    }

    /** The mode step of `onInventoryNotFound`: the exemption when a mode is forced, then survival. */
    method EnterSurvival(p: YPlayer, name: string) returns (q: YPlayer)
      requires Valid()
      modifies this, inventoryMap.Values
      ensures Valid() && inventoryMap == old(inventoryMap)
      ensures ModeSet(State(), q) == SetMode(forcedGameMode, ExemptIfForced(forcedGameMode, old(State()), name), p, Survival)
    {
      if forcedGameMode.Some? {
        ignoreGameModeChange := ignoreGameModeChange + {name};
      }
      assert State() == ExemptIfForced(forcedGameMode, old(State()), name);
      q := SetGameMode(p, Survival);
    }

    /** `onInventorySaveFailure(name, message)`. */
    method OnInventorySaveFailure(name: string)
      requires Valid()
      modifies this
      ensures Valid() && inventoryMap == old(inventoryMap)
      ensures State() == OnSaveFailure(old(State()), name)
    {
      locked := locked - {name};
    }

    /** `onCommandLoginEvent` and `onPlayerJoinEvent`; `status` is whether xAuth reports the player authenticated. */
    method OnAuthenticated(status: bool, player: Option<YPlayer>)
      requires Valid()
      modifies this
      ensures Valid() && inventoryMap == old(inventoryMap)
      ensures State() == Authenticate(old(State()), status, player)
    {
      if status && player.Some? {
        var name := Lower(player.value.name);
        locked := locked + {name};
        authenticated := authenticated + {name};
        var id := if name in idMap then idMap[name] else None;
        Send(LoadTask(name, id));
      }
    }

    /** `onPlayerQuit(event)`. */
    method OnPlayerQuit(p: YPlayer, now: int, hook: Hook) returns (q: YPlayer, aborted: bool)
      requires Valid()
      modifies this
      ensures Valid()
      ensures Step(State(), q, aborted) == Quit(old(State()), p, now, hook)
    {
      var name := Lower(p.name);
      q, aborted := p, false;
      if name !in authenticated {
        return;
      }
      var request := if name in serverChangeRequests then Some(serverChangeRequests[name]) else None;
      serverChangeRequests := serverChangeRequests - {name};
      if request.None? || now - request.value.requestAt > 2000 {
        q := Hooked(p, hook);
        var entry := CreatePlayerEntry(q);
        if entry.None? {
          return q, true;
        }
        Send(SaveTask(entry.value, false));
      }
      Forget(name);
    }

    /** `inventoryMap.remove(name)`, `locked.remove(name)` and `authenticated.remove(name)`. */
    method Forget(name: string)
      requires Valid()
      modifies this
      ensures Valid()
      ensures State() == old(State()).(cache := old(State()).cache - {name}, locked := old(locked) - {name},
        authenticated := old(authenticated) - {name})
    {
      ghost var before := PairStates(inventoryMap);
      inventoryMap := inventoryMap - {name};
      assert PairStates(inventoryMap) == before - {name};
      locked := locked - {name};
      authenticated := authenticated - {name};
    }

    /** `onPlayerServerSwitch(event)`: returns whether the event ends cancelled, which it always does. */
    method OnPlayerServerSwitch(p: YPlayer, destination: string, now: int, hook: Hook)
      returns (q: YPlayer, cancelled: bool, aborted: bool)
      requires Valid()
      modifies this
      ensures Valid() && inventoryMap == old(inventoryMap)
      ensures cancelled
      ensures Step(State(), q, aborted) == Switch(old(State()), p, destination, now, hook)
    {
      var name := Lower(p.name);
      cancelled := true;
      ghost var v1 := old(State()).(requests := old(serverChangeRequests)[name := ServerChangeRequest(destination, now)]);
      serverChangeRequests := serverChangeRequests[name := ServerChangeRequest(destination, now)];
      assert State() == v1;
      q := Hooked(p, hook);
      var entry := CreatePlayerEntry(q);
      if entry.None? {
        return q, true, true;
      }
      locked := locked + {name};
      Send(SaveTask(entry.value, false));
      aborted := false;
    }

    /** `onInventoryOpen` and `onInventoryInteract`: the event ends cancelled iff it already was or the player is locked. */
    method CancelIfLocked(name: string, alreadyCancelled: bool) returns (cancelled: bool)
      ensures cancelled <==> alreadyCancelled || Lower(name) in locked
    {
      cancelled := alreadyCancelled;
      if Lower(name) in locked {
        cancelled := true;
      }
    }

    /** The body of the loop in `shutdown()`, for one online player. */
    method ShutdownPlayer(p: YPlayer, hook: Hook)
      requires Valid()
      modifies this
      ensures Valid() && inventoryMap == old(inventoryMap)
      ensures State() == ShutdownOne(old(State()), p, hook)
    {
      var name := Lower(p.name);
      var entry := CreatePlayerEntry(Hooked(p, hook));
      if entry.None? {
        // the exception is caught and the loop goes on
        return;
      }
      serverChangeRequests := serverChangeRequests - {name};
      Send(SaveTask(entry.value, true));
    }

    /** `shutdown()` over the online players. */
    method Shutdown(players: seq<YPlayer>, hook: Hook)
      requires Valid()
      modifies this
      ensures Valid()
      ensures State() == ShutdownSpec(old(State()), players, hook)
    {
      for i := 0 to |players|
        invariant Valid() && inventoryMap == old(inventoryMap)
        invariant State() == ShutdownLoop(old(State()), players[..i], hook)
      {
        assert players[..i + 1][..i] == players[..i];
        ShutdownPlayer(players[i], hook);
      }
      assert players[..|players|] == players;
      locked := {};
      idMap := map[];
      serverChangeRequests := map[];
      inventoryMap := map[];
    }
  }
}
