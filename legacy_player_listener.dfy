/**
 * The earliest inventory lifecycle coordinator of the `com.yahoo`
 * revision (Listeners/PlayerListener.java). It has no authentication set,
 * no forced game mode, no pre-save hook and no events of its own; the
 * cached pair holds one contents array per mode, armor travels with the
 * player, and the game mode is stored as an integer code.
 *
 * As for the later revisions, the listener is a class whose fields the
 * handlers update, `ListenerState` is its value, and work handed to others
 * is appended to `outbox`. A Java exception that escapes a handler is
 * `aborted`: the state is what the handler had done so far.
 */
module LegacyPlayerListener {
  import opened Common
  import opened JavaStrings
  import opened YahooStorage
  import opened Players
  import opened InventorySwap

  /** This revision neither saves nor restores potion effects. */
  datatype NoEffect = NoEffect

  type LPlayer = Player<NoEffect>

  /** The integer codes `PlayerEntry` stores for the four game modes. */
  const SURVIVAL: int := 0
  const CREATIVE: int := 1
  const ADVENTURE: int := 2
  const SPECTATOR: int := 3

  /** The mode a code stands for in the `switch` of `copyFromEntry`; any other code matches no case. */
  function ModeOfCode(c: int): Option<GameMode>
  {
    if c == SURVIVAL then Some(Survival)
    else if c == CREATIVE then Some(Creative)
    else if c == ADVENTURE then Some(Adventure)
    else if c == SPECTATOR then Some(Spectator)
    else None
  }

  /** The code `createPlayerEntry` stores for a mode: each mode has its own, and reads back as itself. */
  function CodeOf(m: GameMode): (r: int)
    ensures ModeOfCode(r) == Some(m)
    ensures 0 <= r <= 3
  {
    match m
    case Survival => SURVIVAL
    case Creative => CREATIVE
    case Adventure => ADVENTURE
    case Spectator => SPECTATOR
  }

  /**
   * `Storage.PlayerEntry` of this revision: the row id, the lower-cased
   * name, three statistics, the mode code, the worn armor, one contents
   * array per mode and the ender chest; the arrays may be null.
   */
  datatype LegacyEntry = LegacyEntry(
    id: Option<int>,
    name: string,
    health: real,
    xpLevel: int,
    xpProgress: real,
    gameMode: int,
    armor: Option<seq<Slot>>,
    survival: Option<seq<Slot>>,
    creative: Option<seq<Slot>>,
    enderChest: Option<seq<Slot>>)

  // ---------------------------------------------------------------------
  // The listener's state as a value
  // ---------------------------------------------------------------------

  /**
   * Work handed to others: `loadInventory`, `saveInventory`,
   * `saveInventoryNow` and `sendToServer`, whose player is null (None) when
   * the player is offline.
   */
  datatype Command =
    | LoadTask(name: string, id: Option<int>)
    | SaveTask(entry: LegacyEntry)
    | SaveNow(entry: LegacyEntry)
    | SendToServer(player: Option<string>, destination: string)

  datatype ListenerState = ListenerState(
    locked: set<string>,
    idMap: map<string, Option<int>>,
    requests: map<string, ServerChangeRequest>,
    cache: map<string, ContentsPair>,
    outbox: seq<Command>)

  function Emit(v: ListenerState, c: Command): ListenerState
  {
    v.(outbox := v.outbox + [c])
  }

  /** `idMap.get(name)`: an unknown name and a stored null both give null. */
  function IdOf(v: ListenerState, name: string): Option<int>
  {
    if name in v.idMap then v.idMap[name] else None
  }

  /** `inventoryMap.get(name)`, null as None. */
  function CacheOf(v: ListenerState, name: string): Option<ContentsPair>
  {
    if name in v.cache then Some(v.cache[name]) else None
  }

  /** `serverChangeRequests.get(name)`, null as None. */
  function RequestOf(v: ListenerState, name: string): Option<ServerChangeRequest>
  {
    if name in v.requests then Some(v.requests[name]) else None
  }

  // ---------------------------------------------------------------------
  // The contents swap
  // ---------------------------------------------------------------------

  /** The pair's array for a mode that owns one; the other modes have none. */
  function ContentsFor(pair: ContentsPair, m: GameMode): Option<seq<Slot>>
  {
    match m
    case Survival => pair.survival
    case Creative => pair.creative
    case _ => None
  }

  /** Store the worn contents under the mode being left. */
  function StashContents(pair: ContentsPair, from: GameMode, worn: seq<Slot>): ContentsPair
  {
    match from
    case Survival => pair.(survival := Some(worn))
    case Creative => pair.(creative := Some(worn))
    case _ => pair
  }

  /** What the player's contents become on entering a mode, and what stays cached. */
  datatype Unstashed = Unstashed(worn: seq<Slot>, pair: ContentsPair)

  /** Take the entered mode's array out of the pair; `clear()` leaves 36 empty slots for the other modes. */
  function UnstashContents(pair: ContentsPair, to: GameMode): (r: Unstashed)
    ensures OwnsInventory(to) ==> r.worn == OrFresh(ContentsFor(pair, to)) && ContentsFor(r.pair, to) == None
    ensures !OwnsInventory(to) ==> r == Unstashed(EmptySlots(CONTENTS_SIZE), pair)
    ensures forall m :: m != to ==> ContentsFor(r.pair, m) == ContentsFor(pair, m)
  {
    match to
    case Survival => Unstashed(OrFresh(pair.survival), pair.(survival := None))
    case Creative => Unstashed(OrFresh(pair.creative), pair.(creative := None))
    case _ => Unstashed(EmptySlots(CONTENTS_SIZE), pair)
  }

  /** The swap in `onPlayerGameModeChange`: stash under the old mode, then unstash the new one. */
  function SwapContents(worn: seq<Slot>, pair: ContentsPair, from: GameMode, to: GameMode): (r: Unstashed)
    requires from != to
    ensures OwnsInventory(from) ==> ContentsFor(r.pair, from) == Some(worn)
    ensures OwnsInventory(to) ==> r.worn == OrFresh(ContentsFor(pair, to)) && ContentsFor(r.pair, to) == None
    ensures !OwnsInventory(to) ==> r.worn == EmptySlots(CONTENTS_SIZE)
    ensures forall m :: m != from && m != to ==> ContentsFor(r.pair, m) == ContentsFor(pair, m)
  {
    UnstashContents(StashContents(pair, from, worn), to)
  }

  /** The player with new contents; armor and everything else stay. */
  function WithContents(p: LPlayer, c: seq<Slot>): (r: LPlayer)
    ensures r.state.contents == c && r.state.(contents := p.state.contents) == p.state
    ensures r.name == p.name && r.perms == p.perms
  {
    p.(state := p.state.(contents := c))
  }

  // ---------------------------------------------------------------------
  // Game-mode change
  // ---------------------------------------------------------------------

  datatype ModeStep = ModeStep(view: ListenerState, player: LPlayer, aborted: bool)

  /**
   * `onPlayerGameModeChange`: nothing for a single-inventory player or an
   * unchanged mode; otherwise the contents are swapped through the cached
   * pair, which throws when there is none and the swap touches it. The
   * change is never cancelled, and armor is never touched.
   */
  function ModeChange(v: ListenerState, p: LPlayer, newMode: GameMode): (r: ModeStep)
    ensures r.view.(cache := v.cache) == v && r.view.cache.Keys == v.cache.Keys
    ensures r.player == WithContents(p, r.player.state.contents)
    ensures p.perms.singleInv || p.state.mode == newMode ==> r == ModeStep(v, p, false)
    ensures r.aborted <==>
      !p.perms.singleInv && p.state.mode != newMode && Lower(p.name) !in v.cache &&
      (OwnsInventory(p.state.mode) || OwnsInventory(newMode))
    ensures r.aborted ==> r.view == v && r.player == p
  {
    var name := Lower(p.name);
    if p.perms.singleInv || p.state.mode == newMode then ModeStep(v, p, false)
    else if name !in v.cache then
      if OwnsInventory(p.state.mode) || OwnsInventory(newMode) then ModeStep(v, p, true)
      else ModeStep(v, WithContents(p, EmptySlots(CONTENTS_SIZE)), false)
    else
      var d := SwapContents(p.state.contents, v.cache[name], p.state.mode, newMode);
      ModeStep(v.(cache := v.cache[name := d.pair]), WithContents(p, d.worn), false)
  }

  datatype ModeSet = ModeSet(view: ListenerState, player: LPlayer)

  /**
   * `player.setGameMode(m)`: no event for the same mode; since the handler
   * never cancels, the mode always changes (an exception in the handler is
   * caught by the event bus).
   */
  function SetMode(v: ListenerState, p: LPlayer, m: GameMode): (r: ModeSet)
    ensures r.player.state.mode == m
    ensures r.player == WithMode(WithContents(p, r.player.state.contents), m)
    ensures r.view.(cache := v.cache) == v && r.view.cache.Keys == v.cache.Keys
  {
    if p.state.mode == m then ModeSet(v, p)
    else
      var s := ModeChange(v, p, m);
      ModeSet(s.view, WithMode(s.player, m))
  }

  // ---------------------------------------------------------------------
  // Snapshot and load
  // ---------------------------------------------------------------------

  /**
   * `createPlayerEntry(player, pair)`: every branch of the mode switch reads
   * the pair, so a null pair throws (None). The current mode's array is the
   * worn contents, any other comes from the pair; armor and ender chest are
   * the worn ones.
   */
  function Snapshot(id: Option<int>, p: LPlayer, pair: Option<ContentsPair>): (r: Option<LegacyEntry>)
    ensures r.None? <==> pair.None?
    ensures r.Some? ==>
      r.value.(survival := None, creative := None) ==
        LegacyEntry(id, Lower(p.name), p.state.health, p.state.level, p.state.exp, CodeOf(p.state.mode),
          Some(p.state.armor), None, None, Some(p.state.enderChest))
    ensures r.Some? ==>
      r.value.survival == Some(if p.state.mode == Survival then p.state.contents else OrFresh(pair.value.survival)) &&
      r.value.creative == Some(if p.state.mode == Creative then p.state.contents else OrFresh(pair.value.creative))
  {
    if pair.None? then None
    else
      var base := LegacyEntry(id, Lower(p.name), p.state.health, p.state.level, p.state.exp, CodeOf(p.state.mode),
        Some(p.state.armor), None, None, Some(p.state.enderChest));
      match p.state.mode
      case Survival => Some(base.(survival := Some(p.state.contents), creative := Some(OrFresh(pair.value.creative))))
      case Creative => Some(base.(creative := Some(p.state.contents), survival := Some(OrFresh(pair.value.survival))))
      case _ => Some(base.(survival := Some(OrFresh(pair.value.survival)), creative := Some(OrFresh(pair.value.creative))))
  }

  /** The pair `copyFromEntry` builds: both arrays of the entry, null ones left null. */
  function PairOfEntry(e: LegacyEntry): ContentsPair
  {
    ContentsPair(e.survival, e.creative)
  }

  /** The statistics, the armor and the ender chest `copyFromEntry` sets, the last two only when present. */
  function Refreshed(p: LPlayer, e: LegacyEntry): (r: LPlayer)
    ensures r.name == p.name && r.perms == p.perms && r.state.mode == p.state.mode
    ensures r.state.health == e.health && r.state.level == e.xpLevel && r.state.exp == e.xpProgress
    ensures r.state.armor == (if e.armor.Some? then e.armor.value else p.state.armor)
    ensures r.state.enderChest == (if e.enderChest.Some? then e.enderChest.value else p.state.enderChest)
    ensures r.state.contents == p.state.contents && r.state.effects == p.state.effects &&
            r.state.foodLevel == p.state.foodLevel
  {
    var q := p.(state := p.state.(health := e.health, level := e.xpLevel, exp := e.xpProgress));
    var q1 := if e.armor.Some? then q.(state := q.state.(armor := e.armor.value)) else q;
    if e.enderChest.Some? then q1.(state := q1.state.(enderChest := e.enderChest.value)) else q1
  }

  /**
   * The first part of `copyFromEntry`: the player refreshed, the entry's
   * pair cached under the lower-cased name and the contents of the current
   * mode taken out of it (whatever the player's permissions).
   */
  function Unpack(v: ListenerState, p: LPlayer, e: LegacyEntry): (r: ModeSet)
    ensures r.view == v.(cache := v.cache[Lower(p.name) := UnstashContents(PairOfEntry(e), p.state.mode).pair])
    ensures r.player == WithContents(Refreshed(p, e), UnstashContents(PairOfEntry(e), p.state.mode).worn)
  {
    var d := UnstashContents(PairOfEntry(e), p.state.mode);
    ModeSet(v.(cache := v.cache[Lower(p.name) := d.pair]), WithContents(Refreshed(p, e), d.worn))
  }

  /** `copyFromEntry(player, entry)`: unpack, then set the mode the code names (an unknown code sets none). */
  function LoadSpec(v: ListenerState, p: LPlayer, e: LegacyEntry): (r: ModeSet)
    ensures r.player.name == p.name && r.player.perms == p.perms
    ensures ModeOfCode(e.gameMode).Some? ==> r.player.state.mode == ModeOfCode(e.gameMode).value
    ensures ModeOfCode(e.gameMode).None? ==> r == Unpack(v, p, e)
    ensures r.view.(cache := v.cache) == v && Lower(p.name) in r.view.cache
  {
    var u := Unpack(v, p, e);
    match ModeOfCode(e.gameMode)
    case Some(m) => SetMode(u.view, u.player, m)
    case None => u
  }

  // ---------------------------------------------------------------------
  // The handlers
  // ---------------------------------------------------------------------

  /** `onCommandLoginEvent` and `onPlayerJoinEvent`: an online, authenticated player is locked and loaded. */
  function Authenticate(v: ListenerState, status: bool, player: Option<LPlayer>): (r: ListenerState)
    ensures !(status && player.Some?) ==> r == v
    ensures status && player.Some? ==>
      var name := Lower(player.value.name);
      r == Emit(v.(locked := v.locked + {name}), LoadTask(name, IdOf(v, name)))
  {
    if status && player.Some? then
      var name := Lower(player.value.name);
      Emit(v.(locked := v.locked + {name}), LoadTask(name, IdOf(v, name)))
    else v
  }

  datatype Step = Step(view: ListenerState, aborted: bool)

  /**
   * `onPlayerQuit`: for any player the request is taken out and the
   * inventory saved unless the quit follows a fresh switch; then the pair
   * and the lock are dropped (the snapshot throwing skips that step).
   */
  function Quit(v: ListenerState, p: LPlayer, now: int): (r: Step)
    ensures Lower(p.name) !in r.view.requests
    ensures r.aborted <==> QuitSaves(RequestOf(v, Lower(p.name)), now) && Lower(p.name) !in v.cache
    ensures !r.aborted ==> Lower(p.name) !in r.view.cache && Lower(p.name) !in r.view.locked
    ensures !QuitSaves(RequestOf(v, Lower(p.name)), now) ==> r.view.outbox == v.outbox
    ensures QuitSaves(RequestOf(v, Lower(p.name)), now) && !r.aborted ==>
      r.view.outbox == v.outbox + [SaveTask(Snapshot(IdOf(v, Lower(p.name)), p, CacheOf(v, Lower(p.name))).value)]
  {
    var name := Lower(p.name);
    var v1 := v.(requests := v.requests - {name});
    var v2 := if QuitSaves(RequestOf(v, name), now) then
                var e := Snapshot(IdOf(v1, name), p, CacheOf(v1, name));
                if e.None? then None else Some(Emit(v1, SaveTask(e.value)))
              else Some(v1);
    if v2.None? then Step(v1, true)
    else Step(v2.value.(cache := v2.value.cache - {name}, locked := v2.value.locked - {name}), false)
  }

  /**
   * `onPlayerServerSwitch`: the snapshot comes first, so a missing pair
   * throws before the event is cancelled; otherwise the event is cancelled,
   * the request recorded, the player locked and the save issued.
   */
  function Switch(v: ListenerState, p: LPlayer, destination: string, now: int): (r: Step)
    ensures r.aborted <==> Lower(p.name) !in v.cache
    ensures r.aborted ==> r.view == v
    ensures !r.aborted ==>
      var name := Lower(p.name);
      r.view == Emit(v.(requests := v.requests[name := ServerChangeRequest(destination, now)], locked := v.locked + {name}),
        SaveTask(Snapshot(IdOf(v, name), p, CacheOf(v, name)).value))
  {
    var name := Lower(p.name);
    var e := Snapshot(IdOf(v, name), p, CacheOf(v, name));
    if e.None? then Step(v, true)
    else Step(Emit(v.(requests := v.requests[name := ServerChangeRequest(destination, now)], locked := v.locked + {name}),
      SaveTask(e.value)), false)
  }

  /** A handler's new state and, when the player is online, what became of them. */
  datatype Outcome = Outcome(view: ListenerState, player: Option<LPlayer>)

  /**
   * `onInventoryLoaded(event)`: only for an online player is the row id
   * recorded and the entry applied; the lock is dropped either way.
   */
  function OnLoaded(v: ListenerState, e: LegacyEntry, player: Option<LPlayer>): (r: Outcome)
    ensures Lower(e.name) !in r.view.locked && r.view.requests == v.requests && r.view.outbox == v.outbox
    ensures player.None? ==> r == Outcome(v.(locked := v.locked - {Lower(e.name)}), None)
    ensures player.Some? ==> r.view.idMap == v.idMap[Lower(e.name) := e.id]
    ensures player.Some? ==> r.player == Some(LoadSpec(v.(idMap := v.idMap[Lower(e.name) := e.id]), player.value, e).player)
  {
    var name := Lower(e.name);
    if player.None? then Outcome(v.(locked := v.locked - {name}), None)
    else
      var s := LoadSpec(v.(idMap := v.idMap[name := e.id]), player.value, e);
      Outcome(s.view.(locked := s.view.locked - {name}), Some(s.player))
  }

  /**
   * `onInventorySaved(event)`: the row id recorded and the lock dropped;
   * with a request the time is renewed in place and the player sent, online
   * or not.
   */
  function OnSaved(v: ListenerState, eventName: string, id: Option<int>, online: bool, now: int): (r: ListenerState)
    ensures var name := Lower(eventName);
      r.idMap == v.idMap[name := id] && r.locked == v.locked - {name} && r.cache == v.cache &&
      r.requests.Keys == v.requests.Keys
    ensures var name := Lower(eventName);
      name in v.requests ==>
        r.requests == v.requests[name := v.requests[name].(requestAt := now)] &&
        r.outbox == v.outbox + [SendToServer(if online then Some(name) else None, v.requests[name].destination)]
    ensures Lower(eventName) !in v.requests ==> r.requests == v.requests && r.outbox == v.outbox
  {
    var name := Lower(eventName);
    var v1 := v.(idMap := v.idMap[name := id], locked := v.locked - {name});
    if name in v.requests then
      var request := v.requests[name];
      Emit(v1.(requests := v1.requests[name := request.(requestAt := now)]),
        SendToServer(if online then Some(name) else None, request.destination))
    else v1
  }

  /**
   * `onNoInventoryFound(event)`: only for an online player is an empty pair
   * cached (under the event's name as given), the lock of the lower-cased
   * name dropped and the mode set to survival.
   */
  function OnNotFound(v: ListenerState, name: string, player: Option<LPlayer>): (r: Outcome)
    ensures player.None? ==> r == Outcome(v, None)
    ensures player.Some? ==>
      r.view.cache.Keys == v.cache.Keys + {name} && Lower(name) !in r.view.locked &&
      r.player.Some? && r.player.value.state.mode == Survival && r.view.outbox == v.outbox
    ensures player.Some? ==> r.view.(cache := v.cache) == v.(locked := v.locked - {Lower(name)})
    ensures player.Some? && player.value.state.mode == Survival ==>
      r.view.cache == v.cache[name := ContentsPair(None, None)] && r.player == player
    ensures player.Some? && name != Lower(player.value.name) ==> r.view.cache[name] == ContentsPair(None, None)
    ensures player.Some? && name == Lower(player.value.name) && !player.value.perms.singleInv &&
            player.value.state.mode != Survival ==>
      r.view.cache[name] == StashContents(ContentsPair(None, None), player.value.state.mode, player.value.state.contents) &&
      r.player == Some(WithMode(WithContents(player.value, EmptySlots(CONTENTS_SIZE)), Survival))
  {
    if player.None? then Outcome(v, None)
    else
      var v1 := v.(cache := v.cache[name := ContentsPair(None, None)], locked := v.locked - {Lower(name)});
      var s := SetMode(v1, player.value, Survival);
      Outcome(s.view, Some(s.player))
  }

  /**
   * One player of `shutdown()`: the snapshot, then the request dropped and
   * `saveInventoryNow`; a missing pair throws out of the whole loop.
   */
  function ShutdownOne(v: ListenerState, p: LPlayer): (r: Step)
    ensures r.aborted <==> Lower(p.name) !in v.cache
    ensures r.view.(requests := v.requests, outbox := v.outbox) == v
    ensures !r.aborted ==> r.view.outbox == v.outbox + [SaveNow(Snapshot(IdOf(v, Lower(p.name)), p, CacheOf(v, Lower(p.name))).value)]
    ensures r.aborted ==> r.view == v
    ensures !r.aborted ==> r.view.requests == v.requests - {Lower(p.name)}
  {
    var name := Lower(p.name);
    var e := Snapshot(IdOf(v, name), p, CacheOf(v, name));
    if e.None? then Step(v, true)
    else Step(Emit(v.(requests := v.requests - {name}), SaveNow(e.value)), false)
  }

  /** The loop of `shutdown()`: it stops at the first exception. */
  function ShutdownLoop(v: ListenerState, players: seq<LPlayer>): (r: Step)
    ensures r.view.(requests := v.requests, outbox := v.outbox) == v
    ensures r.view.requests.Keys <= v.requests.Keys
  {
    if players == [] then Step(v, false)
    else
      var s := ShutdownLoop(v, players[..|players| - 1]);
      if s.aborted then s else ShutdownOne(s.view, players[|players| - 1])
  }

  /** `shutdown()`: the loop, and then, if it did not throw, every map and set cleared. */
  function ShutdownSpec(v: ListenerState, players: seq<LPlayer>): (r: Step)
    ensures !r.aborted ==> r.view.locked == {} && r.view.idMap == map[] && r.view.requests == map[] && r.view.cache == map[]
    ensures r.aborted ==> r.view.locked == v.locked && r.view.idMap == v.idMap && r.view.cache == v.cache
    ensures r.view.requests.Keys <= v.requests.Keys
  {
    var s := ShutdownLoop(v, players);
    if s.aborted then s
    else Step(s.view.(locked := {}, idMap := map[], requests := map[], cache := map[]), false)
  }

  // ---------------------------------------------------------------------
  // Properties
  // ---------------------------------------------------------------------

  /**
   * Shutdown throws exactly when some online player has no cached pair;
   * until then it issues one immediate save per player and nothing else.
   */
  lemma {:induction false} ShutdownStopsAtMissingPair(v: ListenerState, players: seq<LPlayer>)
    ensures var r := ShutdownLoop(v, players);
      r.aborted <==> exists i :: 0 <= i < |players| && Lower(players[i].name) !in v.cache
    ensures var r := ShutdownLoop(v, players);
      !r.aborted ==>
        |r.view.outbox| == |v.outbox| + |players| && r.view.outbox[..|v.outbox|] == v.outbox &&
        forall i :: |v.outbox| <= i < |r.view.outbox| ==> r.view.outbox[i].SaveNow?
    decreases |players|
  {
    if players != [] {
      var init := players[..|players| - 1];
      var last := players[|players| - 1];
      ShutdownStopsAtMissingPair(v, init);
      var s := ShutdownLoop(v, init);
      assert forall i :: 0 <= i < |init| ==> init[i] == players[i];
      if !s.aborted {
        var r := ShutdownOne(s.view, last);
        assert r.aborted <==> Lower(last.name) !in v.cache;
        if !r.aborted {
          assert r.view.outbox == s.view.outbox + [r.view.outbox[|r.view.outbox| - 1]];
          assert r.view.outbox[..|s.view.outbox|] == s.view.outbox;
          assert r.view.outbox[..|v.outbox|] == s.view.outbox[..|v.outbox|];
        }
      }
    }
  }

  /**
   * A player reached before any missing pair has its request dropped, so
   * after a throw the requests of the players saved before it are gone.
   */
  lemma {:induction false} ShutdownDropsRequests(v: ListenerState, players: seq<LPlayer>, j: nat)
    requires j < |players|
    requires forall i :: 0 <= i <= j ==> Lower(players[i].name) in v.cache
    ensures Lower(players[j].name) !in ShutdownLoop(v, players).view.requests
    decreases |players|
  {
    var init := players[..|players| - 1];
    var last := players[|players| - 1];
    var s := ShutdownLoop(v, init);
    if j < |players| - 1 {
      assert init[j] == players[j];
      assert forall i :: 0 <= i <= j ==> init[i] == players[i];
      ShutdownDropsRequests(v, init, j);
      if !s.aborted {
        assert ShutdownLoop(v, players) == ShutdownOne(s.view, last);
      }
    } else {
      assert forall i :: 0 <= i < |init| ==> init[i] == players[i];
      ShutdownStopsAtMissingPair(v, init);
      assert !s.aborted;
    }
  }

  /** Once the loop has thrown, the later players change nothing. */
  lemma {:induction false} AbortSticks(v: ListenerState, players: seq<LPlayer>, k: nat)
    requires k <= |players| && ShutdownLoop(v, players[..k]).aborted
    ensures ShutdownLoop(v, players) == ShutdownLoop(v, players[..k])
    decreases |players|
  {
    if k < |players| {
      var init := players[..|players| - 1];
      assert init[..k] == players[..k];
      AbortSticks(v, init, k);
    } else {
      assert players[..k] == players;
    }
  }

  /**
   * With a cached pair and no single-inventory permission, leaving
   * survival or creative and coming back restores the worn contents, and
   * the other mode's array reads as before.
   */
  lemma ModeRoundTrip(v: ListenerState, p: LPlayer, b: GameMode)
    requires Lower(p.name) in v.cache && !p.perms.singleInv
    requires OwnsInventory(p.state.mode) && b != p.state.mode
    ensures var there := SetMode(v, p, b);
            var back := SetMode(there.view, there.player, p.state.mode);
            back.player == p && back.view.outbox == v.outbox &&
            OrFresh(ContentsFor(back.view.cache[Lower(p.name)], b)) == OrFresh(ContentsFor(v.cache[Lower(p.name)], b))
  {
    var name := Lower(p.name);
    var a := p.state.mode;
    var d1 := SwapContents(p.state.contents, v.cache[name], a, b);
    var there := SetMode(v, p, b);
    assert there.view.cache[name] == d1.pair && there.player.state.contents == d1.worn;
    var d2 := SwapContents(d1.worn, d1.pair, b, a);
    assert d2.worn == p.state.contents;
  }

  /**
   * The hand-over between servers: the entry taken from a player, loaded
   * into the same player, puts them back in the same mode with the same
   * contents (empty for adventure and spectator), armor, statistics and
   * ender chest, and caches the other mode's array as the snapshot read it.
   */
  lemma TransferRoundTrip(id: Option<int>, pair: ContentsPair, p: LPlayer, v: ListenerState, q: LPlayer)
    requires q.name == p.name && q.perms == p.perms && !p.perms.singleInv
    ensures var e := Snapshot(id, p, Some(pair)).value;
            var r := LoadSpec(v, q, e);
            r.player.state.mode == p.state.mode &&
            r.player.state.contents == (if OwnsInventory(p.state.mode) then p.state.contents else EmptySlots(CONTENTS_SIZE)) &&
            r.player.state.armor == p.state.armor && r.player.state.health == p.state.health &&
            r.player.state.level == p.state.level && r.player.state.exp == p.state.exp &&
            r.player.state.enderChest == p.state.enderChest
    ensures var e := Snapshot(id, p, Some(pair)).value;
            var r := LoadSpec(v, q, e);
            forall m :: OwnsInventory(m) && m != p.state.mode ==>
              ContentsFor(r.view.cache[Lower(p.name)], m) == Some(OrFresh(ContentsFor(pair, m)))
  {
    var e := Snapshot(id, p, Some(pair)).value;
    var name := Lower(q.name);
    var m := p.state.mode;
    var u := Unpack(v, q, e);
    var d0 := UnstashContents(PairOfEntry(e), q.state.mode);
    var d := UnstashContents(PairOfEntry(e), m);
    if q.state.mode != m {
      assert StashContents(d0.pair, q.state.mode, d0.worn) == PairOfEntry(e);
      assert SwapContents(d0.worn, d0.pair, q.state.mode, m) == d;
      assert LoadSpec(v, q, e).view.cache[name] == d.pair;
    }
    forall k | OwnsInventory(k) && k != m
      ensures ContentsFor(d.pair, k) == Some(OrFresh(ContentsFor(pair, k)))
    {
      assert ContentsFor(d.pair, k) == ContentsFor(PairOfEntry(e), k);
    }
  }

  /**
   * The switch protocol: the save completes and the player is sent with
   * the request renewed, so a quit within 2000 ms of it issues no second
   * save and leaves no request.
   */
  lemma SwitchThenQuit(v: ListenerState, p: LPlayer, destination: string, id: Option<int>,
                       requested: int, savedAt: int, quitAt: int)
    requires Lower(p.name) in v.cache
    requires quitAt - savedAt <= 2000
    ensures var s := Switch(v, p, destination, requested);
            var w := OnSaved(s.view, p.name, id, true, savedAt);
            !s.aborted &&
            w.outbox == s.view.outbox + [SendToServer(Some(Lower(p.name)), destination)]
    ensures var s := Switch(v, p, destination, requested);
            var w := OnSaved(s.view, p.name, id, true, savedAt);
            var q := Quit(w, p, quitAt);
            !q.aborted && q.view.outbox == w.outbox && Lower(p.name) !in q.view.requests &&
            Lower(p.name) !in q.view.locked
  {
  }

  /**
   * A completed save records the row id it was given, so the next save of
   * that player (here the one a switch issues) carries it and updates the
   * same record.
   */
  lemma SavedIdReachesNextSave(v: ListenerState, p: LPlayer, id: Option<int>, online: bool,
                               savedAt: int, destination: string, now: int)
    requires Lower(p.name) in v.cache
    ensures var w := OnSaved(v, p.name, id, online, savedAt);
            var s := Switch(w, p, destination, now);
            !s.aborted && s.view.outbox[|s.view.outbox| - 1].SaveTask? &&
            s.view.outbox[|s.view.outbox| - 1].entry.id == id
  {
    var w := OnSaved(v, p.name, id, online, savedAt);
    assert IdOf(w, Lower(p.name)) == id;
  }

  /**
   * Likewise a completed load of an online player: it always caches a pair,
   * so the next switch saves, and that save carries the loaded row id.
   */
  lemma LoadedIdReachesNextSave(v: ListenerState, e: LegacyEntry, p: LPlayer, destination: string, now: int)
    requires Lower(e.name) == Lower(p.name)
    ensures var o := OnLoaded(v, e, Some(p));
            var s := Switch(o.view, o.player.value, destination, now);
            !s.aborted && s.view.outbox[|s.view.outbox| - 1].SaveTask? &&
            s.view.outbox[|s.view.outbox| - 1].entry.id == e.id
  {
    var o := OnLoaded(v, e, Some(p));
    assert o.player.value.name == p.name;
    assert IdOf(o.view, Lower(p.name)) == e.id;
  }

  /**
   * A new player: once not-found is handled for an online player under a
   * lower-cased name the snapshot finds a pair, so quitting saves them.
   */
  lemma NotFoundThenQuitSaves(v: ListenerState, name: string, p: LPlayer, now: int)
    requires Lower(p.name) == name && RequestOf(v, name).None?
    ensures var n := OnNotFound(v, name, Some(p));
            var q := Quit(n.view, n.player.value, now);
            !q.aborted && |q.view.outbox| == |v.outbox| + 1 && q.view.outbox[|v.outbox|].SaveTask? &&
            q.view.outbox[|v.outbox|].entry.gameMode == SURVIVAL
  {
    var n := OnNotFound(v, name, Some(p));
    assert n.player.value.name == p.name && name in n.view.cache;
    assert RequestOf(n.view, name).None?;
  }

  // ---------------------------------------------------------------------
  // The listener
  // ---------------------------------------------------------------------

  /** Each pair in `pairs` was created for the name it is cached under, so no two names share one. */
  predicate OwnedPairs(pairs: map<string, YahooStorage.InventoryPair>, owner: map<YahooStorage.InventoryPair, string>)
  {
    forall k :: k in pairs ==> pairs[k] in owner && owner[pairs[k]] == k
  }

  /** What each cached pair holds. */
  function PairContents(pairs: map<string, YahooStorage.InventoryPair>): (r: map<string, ContentsPair>)
    reads pairs.Values
  {
    map k | k in pairs :: pairs[k].State()
  }

  /** The swap of `onPlayerGameModeChange` on an existing pair; returns the contents to wear. */
  method SwapPairContents(pair: YahooStorage.InventoryPair, contents: seq<Slot>, originalMode: GameMode, newMode: GameMode)
    returns (worn: seq<Slot>)
    requires originalMode != newMode
    modifies pair
    ensures Unstashed(worn, pair.State()) == SwapContents(contents, old(pair.State()), originalMode, newMode)
  {
    if originalMode == Survival {
      pair.SetSurvival(Some(contents));
    } else if originalMode == Creative {
      pair.SetCreative(Some(contents));
    }
    if newMode == Survival {
      worn := pair.GetSurvival();
      pair.SetSurvival(None);
    } else if newMode == Creative {
      worn := pair.GetCreative();
      pair.SetCreative(None);
    } else {
      worn := EmptySlots(CONTENTS_SIZE);
    }
  }

  /** The new pair of `copyFromEntry`, filled from the entry. */
  method NewPairOf(e: LegacyEntry) returns (pair: YahooStorage.InventoryPair)
    ensures fresh(pair) && pair.State() == PairOfEntry(e)
  {
    pair := new YahooStorage.InventoryPair();
    pair.SetSurvival(e.survival);
    pair.SetCreative(e.creative);
  }

  /** The first `switch` of `copyFromEntry`: the current mode's contents taken out of the new pair. */
  method UnstashFrom(pair: YahooStorage.InventoryPair, p: LPlayer) returns (q: LPlayer)
    modifies pair
    ensures q == WithContents(p, UnstashContents(old(pair.State()), p.state.mode).worn)
    ensures pair.State() == UnstashContents(old(pair.State()), p.state.mode).pair
  {
    match p.state.mode {
      case Survival =>
        q := WithContents(p, pair.GetSurvival());
        pair.SetSurvival(None);
      case Creative =>
        q := WithContents(p, pair.GetCreative());
        pair.SetCreative(None);
      case _ =>
        q := WithContents(p, EmptySlots(CONTENTS_SIZE));
    }
  }

  class PlayerListener {
    var locked: set<string>
    var idMap: map<string, Option<int>>
    var serverChangeRequests: map<string, ServerChangeRequest>
    var inventoryMap: map<string, YahooStorage.InventoryPair>
    /** What the listener has handed to others so far. */
    var outbox: seq<Command>

    /** The name each cached pair was created for; it shows that no two names share a pair. */
    ghost var owner: map<YahooStorage.InventoryPair, string>

    /** Every cached pair belongs to its own name. */
    ghost predicate Valid()
      reads this
    {
      OwnedPairs(inventoryMap, owner)
    }

    function State(): ListenerState
      reads this, inventoryMap.Values
    {
      ListenerState(locked, idMap, serverChangeRequests, PairContents(inventoryMap), outbox)
    }

    /** A new listener holds nothing. */
    constructor()
      ensures Valid()
      ensures State() == ListenerState({}, map[], map[], map[], [])
    {
      locked := {};
      idMap := map[];
      serverChangeRequests := map[];
      inventoryMap := map[];
      owner := map[];
      outbox := [];
    }

    /** `onPlayerGameModeChange(event)`. */
    method OnPlayerGameModeChange(p: LPlayer, newMode: GameMode) returns (q: LPlayer, aborted: bool)
      requires Valid()
      modifies inventoryMap.Values
      ensures Valid()
      ensures ModeStep(State(), q, aborted) == ModeChange(old(State()), p, newMode)
    {
      var name := Lower(p.name);
      q, aborted := p, false;
      if p.perms.singleInv || p.state.mode == newMode {
        return;
      }
      if name !in inventoryMap {
        // `pair` is null: the first use of it throws
        if OwnsInventory(p.state.mode) || OwnsInventory(newMode) {
          aborted := true;
          return;
        }
        q := WithContents(p, EmptySlots(CONTENTS_SIZE));
        return;
      }
      var pair := inventoryMap[name];
      var worn := SwapPairContents(pair, p.state.contents, p.state.mode, newMode);
      q := WithContents(p, worn);
      assert forall k :: k in inventoryMap && k != name ==> inventoryMap[k] != pair;
      assert PairContents(inventoryMap) == old(PairContents(inventoryMap))[name := pair.State()];
    }

    /** `player.setGameMode(m)`, which runs the handler above when the mode changes. */
    method SetGameMode(p: LPlayer, m: GameMode) returns (q: LPlayer)
      requires Valid()
      modifies inventoryMap.Values
      ensures Valid()
      ensures ModeSet(State(), q) == SetMode(old(State()), p, m)
    {
      if p.state.mode == m {
        return p;
      }
      var r, aborted := OnPlayerGameModeChange(p, m);
      q := WithMode(r, m);
    }

    /** `copyFromEntry(player, entry)`. */
    method CopyFromEntry(p: LPlayer, e: LegacyEntry) returns (q: LPlayer)
      requires Valid()
      modifies this, inventoryMap.Values
      ensures Valid()
      ensures ModeSet(State(), q) == LoadSpec(old(State()), p, e)
    {
      q := UnpackEntry(p, e);
      var m := ModeOfCode(e.gameMode);
      if m.Some? {
        ghost var s := SetMode(State(), q, m.value);
        q := SetGameMode(q, m.value);
        assert ModeSet(State(), q) == s;
      }
    }

    /** The part of `copyFromEntry` before the game mode is set. */
    method UnpackEntry(p: LPlayer, e: LegacyEntry) returns (q: LPlayer)
      requires Valid()
      modifies this
      ensures Valid() && fresh(inventoryMap.Values - old(inventoryMap.Values))
      ensures ModeSet(State(), q) == Unpack(old(State()), p, e)
    {
      var name := Lower(p.name);
      var pair := NewPairOf(e);
      // the source caches the pair before taking contents out of it; nothing in between can throw, so the order is not observable
      q := UnstashFrom(pair, Refreshed(p, e));
      Install(name, pair);
    }

    /** `inventoryMap.put(name, pair)` for a pair no name held before. */
    method Install(name: string, pair: YahooStorage.InventoryPair)
      requires Valid() && pair !in owner
      modifies this
      ensures Valid() && inventoryMap == old(inventoryMap)[name := pair]
      ensures State() == old(State()).(cache := old(PairContents(inventoryMap))[name := pair.State()])
    {
      ghost var before := PairContents(inventoryMap);
      inventoryMap := inventoryMap[name := pair];
      owner := owner[pair := name];
      assert PairContents(inventoryMap) == before[name := pair.State()];
    }

    /** `createPlayerEntry(player, inventoryMap.get(name))`: the entry, or None when the missing pair is dereferenced. */
    method CreatePlayerEntry(p: LPlayer) returns (entry: Option<LegacyEntry>)
      ensures entry == Snapshot(IdOf(State(), Lower(p.name)), p, CacheOf(State(), Lower(p.name)))
    {
      var name := Lower(p.name);
      var id := if name in idMap then idMap[name] else None;
      var e := LegacyEntry(id, name, p.state.health, p.state.level, p.state.exp, CodeOf(p.state.mode),
        Some(p.state.armor), None, None, Some(p.state.enderChest));
      if name !in inventoryMap {
        return None;
      }
      var pair := inventoryMap[name];
      match p.state.mode {
        case Survival =>
          e := e.(survival := Some(p.state.contents), creative := Some(pair.GetCreative()));
        case Creative =>
          e := e.(creative := Some(p.state.contents), survival := Some(pair.GetSurvival()));
        case Adventure =>
          e := e.(survival := Some(pair.GetSurvival()), creative := Some(pair.GetCreative()));
        case Spectator =>
          e := e.(survival := Some(pair.GetSurvival()), creative := Some(pair.GetCreative()));
      }
      return Some(e);
    }

    /** Hands `c` to the scheduler or the server. */
    method Send(c: Command)
      requires Valid()
      modifies this
      ensures Valid() && inventoryMap == old(inventoryMap)
      ensures State() == Emit(old(State()), c)
    {
      outbox := outbox + [c];
    }

    /** `onInventoryLoaded(event)`; `player` is the online player of that name, if any. */
    method OnInventoryLoaded(e: LegacyEntry, player: Option<LPlayer>) returns (q: Option<LPlayer>)
      requires Valid()
      modifies this, inventoryMap.Values
      ensures Valid()
      ensures Outcome(State(), q) == OnLoaded(old(State()), e, player)
    {
      ghost var v := State();
      var name := Lower(e.name);
      q := None;
      if player.Some? {
        ghost var v1 := v.(idMap := v.idMap[name := e.id]);
        idMap := idMap[name := e.id];
        assert State() == v1;
        ghost var s := LoadSpec(v1, player.value, e);
        var p := CopyFromEntry(player.value, e);
        assert State() == s.view && p == s.player;
        q := Some(p);
      }
      Unlock(name);
    }

    /** `lockedPlayers.remove(name)`. */
    method Unlock(name: string)
      requires Valid()
      modifies this
      ensures Valid() && inventoryMap == old(inventoryMap)
      ensures State() == old(State()).(locked := old(locked) - {name})
    {
      locked := locked - {name};
    }

    /** `onInventorySaved(event)`; `online` tells whether the player of that name is online. */
    method OnInventorySaved(eventName: string, id: Option<int>, online: bool, now: int)
      requires Valid()
      modifies this
      ensures Valid() && inventoryMap == old(inventoryMap)
      ensures State() == OnSaved(old(State()), eventName, id, online, now)
    {
      var name := Lower(eventName);
      var request := if name in serverChangeRequests then Some(serverChangeRequests[name]) else None;
      Record(name, id);
      if request.Some? {
        Renew(name, request.value, online, now);
      }
    }

    /** The start of `onInventorySaved`: the row id recorded and the lock dropped. */
    method Record(name: string, id: Option<int>)
      requires Valid()
      modifies this
      ensures Valid() && inventoryMap == old(inventoryMap)
      ensures State() == old(State()).(idMap := old(idMap)[name := id], locked := old(locked) - {name})
    {
      idMap := idMap[name := id];
      locked := locked - {name};
    }

    /**
     * The tail of `onInventorySaved` with a request: `request.requestAt = ...`
     * updates the stored request in place, and the player is sent on.
     */
    method Renew(name: string, request: ServerChangeRequest, online: bool, now: int)
      requires Valid()
      modifies this
      ensures Valid() && inventoryMap == old(inventoryMap)
      ensures State() == Emit(old(State()).(requests := old(serverChangeRequests)[name := request.(requestAt := now)]),
        SendToServer(if online then Some(name) else None, request.destination))
    {
      serverChangeRequests := serverChangeRequests[name := request.(requestAt := now)];
      Send(SendToServer(if online then Some(name) else None, request.destination));
    }

    /** `onNoInventoryFound(event)`. */
    method OnNoInventoryFound(name: string, player: Option<LPlayer>) returns (q: Option<LPlayer>)
      requires Valid()
      modifies this, inventoryMap.Values
      ensures Valid()
      ensures Outcome(State(), q) == OnNotFound(old(State()), name, player)
    {
      q := None;
      if player.Some? {
        // the pair filled with the worn contents is dropped; a second, empty one is cached
        InstallEmptyPair(name);
        Unlock(Lower(name));
        ghost var m := SetMode(State(), player.value, Survival);
        var p := SetGameMode(player.value, Survival);
        assert State() == m.view && p == m.player;
        q := Some(p);
      }
    }

    /** `inventoryMap.put(name, new InventoryPair())`. */
    method InstallEmptyPair(name: string)
      requires Valid()
      modifies this
      ensures Valid() && fresh(inventoryMap.Values - old(inventoryMap.Values))
      ensures State() == old(State()).(cache := old(PairContents(inventoryMap))[name := ContentsPair(None, None)])
    {
      var pair := new YahooStorage.InventoryPair();
      Install(name, pair);
    }

    /** `onCommandLoginEvent` and `onPlayerJoinEvent`; `status` is whether xAuth reports the player authenticated. */
    method OnAuthenticated(status: bool, player: Option<LPlayer>)
      requires Valid()
      modifies this
      ensures Valid() && inventoryMap == old(inventoryMap)
      ensures State() == Authenticate(old(State()), status, player)
    {
      if status && player.Some? {
        var name := Lower(player.value.name);
        locked := locked + {name};
        var id := if name in idMap then idMap[name] else None;
        Send(LoadTask(name, id));
      }
    }

    /** `onPlayerQuit(event)`. */
    method OnPlayerQuit(p: LPlayer, now: int) returns (aborted: bool)
      requires Valid()
      modifies this
      ensures Valid()
      ensures Step(State(), aborted) == Quit(old(State()), p, now)
    {
      var name := Lower(p.name);
      var request := if name in serverChangeRequests then Some(serverChangeRequests[name]) else None;
      serverChangeRequests := serverChangeRequests - {name};
      if request.None? || now - request.value.requestAt > 2000 {
        var entry := CreatePlayerEntry(p);
        if entry.None? {
          return true;
        }
        Send(SaveTask(entry.value));
      }
      Forget(name);
      aborted := false;
    }

    /** `inventoryMap.remove(name)` and `lockedPlayers.remove(name)`. */
    method Forget(name: string)
      requires Valid()
      modifies this
      ensures Valid()
      ensures State() == old(State()).(cache := old(State()).cache - {name}, locked := old(locked) - {name})
    {
      ghost var before := PairContents(inventoryMap);
      inventoryMap := inventoryMap - {name};
      assert PairContents(inventoryMap) == before - {name};
      locked := locked - {name};
    }

    /** `onPlayerServerSwitch(event)`: returns whether the event ends cancelled. */
    method OnPlayerServerSwitch(p: LPlayer, destination: string, now: int) returns (cancelled: bool, aborted: bool)
      requires Valid()
      modifies this
      ensures Valid() && inventoryMap == old(inventoryMap)
      ensures cancelled <==> !aborted
      ensures Step(State(), aborted) == Switch(old(State()), p, destination, now)
    {
      var name := Lower(p.name);
      var entry := CreatePlayerEntry(p);
      if entry.None? {
        return false, true;
      }
      cancelled := true;
      serverChangeRequests := serverChangeRequests[name := ServerChangeRequest(destination, now)];
      locked := locked + {name};
      Send(SaveTask(entry.value));
      aborted := false;
    }

    /** `onInventoryOpen` and `onInventoryInteract`: the event ends cancelled iff it already was or the player is locked. */
    method CancelIfLocked(name: string, alreadyCancelled: bool) returns (cancelled: bool)
      ensures cancelled <==> alreadyCancelled || Lower(name) in locked
    {
      cancelled := alreadyCancelled;
      if Lower(name) in locked {
        cancelled := true;
      }
    }

    /** The body of the loop in `shutdown()`, for one online player. */
    method ShutdownPlayer(p: LPlayer) returns (aborted: bool)
      requires Valid()
      modifies this
      ensures Valid() && inventoryMap == old(inventoryMap)
      ensures Step(State(), aborted) == ShutdownOne(old(State()), p)
    {
      var name := Lower(p.name);
      var entry := CreatePlayerEntry(p);
      if entry.None? {
        return true;
      }
      serverChangeRequests := serverChangeRequests - {name};
      Send(SaveNow(entry.value));
      aborted := false;
    }

    /** `shutdown()` over the online players; nothing catches the exception of a player without a pair. */
    method Shutdown(players: seq<LPlayer>) returns (aborted: bool)
      requires Valid()
      modifies this
      ensures Valid()
      ensures Step(State(), aborted) == ShutdownSpec(old(State()), players)
    {
      for i := 0 to |players|
        invariant Valid() && inventoryMap == old(inventoryMap)
        invariant Step(State(), false) == ShutdownLoop(old(State()), players[..i])
      {
        assert players[..i + 1][..i] == players[..i];
        aborted := ShutdownPlayer(players[i]);
        if aborted {
          AbortSticks(old(State()), players, i + 1);
          return;
        }
      }
      assert players[..|players|] == players;
      locked := {};
      idMap := map[];
      serverChangeRequests := map[];
      inventoryMap := map[];
      aborted := false;
    }
  }
}
