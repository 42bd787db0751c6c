/**
 * Admission and roster operations on one lobby: admitting a player, removing
 * one, overwriting a position, binding a UDP address, and the inactivity sweep
 * with its one-shot warning.
 */
module Lobbies {
  import opened Common
  import opened Weapons
  import opened LobbyState

  const ErrCodeMismatch: string := "Lobby code mismatch"
  const ErrLobbyFull: string := "Lobby is full"
  const ErrPlayerExists: string := "Player already exists"
  const ErrInvalidDefaultWeapon: string := "Invalid default weapon"
  const ErrPlayerNotFound: string := "Player not found"

  /** The lobby already exists by the time this runs; it only checks the code. */
  function CreateLobby(lobby: Lobby, code: string, maxPlayers: nat, scene: string): (r: Result<(), string>)
    ensures r.Ok? <==> lobby.code == code
    ensures r.Err? ==> r.error == ErrCodeMismatch
  {
    if lobby.code != code then Err(ErrCodeMismatch) else Ok(())
  }

  /** The three checks AddPlayer makes, all of which must pass to admit `id`. */
  predicate Admissible(players: map<nat, Player>, maxPlayers: nat, id: nat, weaponId: nat, db: WeaponDb) {
    |players| < maxPlayers && id !in players && weaponId in db
  }

  /** The record of a freshly admitted player: full health, a full magazine of its first weapon, no history. */
  function NewPlayer(id: nat, name: string, weaponId: nat, weapon: Weapon, now: nat): (p: Player)
    ensures p.Valid() && p.id == id && p.name == name && p.lastUpdate == now
    ensures p.currentHealth == 100 && p.maxHealth == 100
    ensures p.currentWeaponId == weaponId && p.currentAmmo == weapon.ammo && p.maxAmmo == weapon.ammo
    ensures p.kills == 0 && p.deaths == 0 && p.score == 0 && p.killstreak == 0
    ensures !p.isDead && !p.isReloading && p.warnedAt.None?
  {
    Player(id, name, SpawnPosition, ZeroRotation, now, 100, 100, weaponId, weapon.ammo, weapon.ammo,
           false, None, 0, 0, 0, 0, 0, None, false, None)
  }

  /**
   * Admits a player if there is a free seat, the id is new and the default
   * weapon exists, checked in that order; a refusal changes nothing.
   */
  method AddPlayer(lobby: Lobby, playerId: nat, name: string, defaultWeaponId: nat, db: WeaponDb, now: nat)
    returns (r: Result<(), string>)
    requires lobby.Valid()
    modifies lobby
    ensures lobby.Valid()
    ensures r.Ok? <==> Admissible(old(lobby.players), lobby.maxPlayers, playerId, defaultWeaponId, db)
    ensures old(|lobby.players|) >= lobby.maxPlayers ==> r == Err(ErrLobbyFull)
    ensures old(|lobby.players|) < lobby.maxPlayers && playerId in old(lobby.players) ==> r == Err(ErrPlayerExists)
    ensures old(|lobby.players|) < lobby.maxPlayers && playerId !in old(lobby.players) && defaultWeaponId !in db
            ==> r == Err(ErrInvalidDefaultWeapon)
    ensures r.Err? ==> unchanged(lobby)
    ensures r.Ok? ==>
      && lobby.players == old(lobby.players)[playerId := NewPlayer(playerId, name, defaultWeaponId, db[defaultWeaponId], now)]
      && |lobby.players| == old(|lobby.players|) + 1
      && lobby.dirtyPlayers == old(lobby.dirtyPlayers) + {playerId}
      && lobby.clientAddresses == old(lobby.clientAddresses)
      && lobby.lastSyncState == old(lobby.lastSyncState)
  {
    if |lobby.players| >= lobby.maxPlayers {
      return Err(ErrLobbyFull);
    }
    if playerId in lobby.players {
      return Err(ErrPlayerExists);
    }
    if defaultWeaponId !in db {
      return Err(ErrInvalidDefaultWeapon);
    }
    var player := NewPlayer(playerId, name, defaultWeaponId, db[defaultWeaponId], now);
    lobby.players := lobby.players[playerId := player];
    lobby.MarkDirty(playerId);
    r := Ok(());
  }

  /** Drops a player from all three per-player tables; absent ids are ignored. */
  method RemovePlayer(lobby: Lobby, playerId: nat)
    requires lobby.Valid()
    modifies lobby
    ensures lobby.Valid()
    ensures lobby.players == old(lobby.players) - {playerId}
    ensures lobby.clientAddresses == old(lobby.clientAddresses) - {playerId}
    ensures lobby.lastSyncState == old(lobby.lastSyncState) - {playerId}
    ensures lobby.dirtyPlayers == old(lobby.dirtyPlayers)
  {
    lobby.players := lobby.players - {playerId};
    lobby.clientAddresses := lobby.clientAddresses - {playerId};
    lobby.lastSyncState := lobby.lastSyncState - {playerId};
  }

  /** A player after a movement report; nothing but pose and liveness time changes. */
  function Moved(p: Player, position: Vec3, rotation: Vec3, now: nat): (r: Player)
    ensures p.Valid() ==> r.Valid()
    ensures r.position == position && r.rotation == rotation && r.lastUpdate == now
    ensures r.(position := p.position, rotation := p.rotation, lastUpdate := p.lastUpdate) == p
  {
    p.(position := position, rotation := rotation, lastUpdate := now)
  }

  /** Overwrites an admitted player's pose (last write wins) and flags it for sync. */
  method UpdatePosition(lobby: Lobby, playerId: nat, position: Vec3, rotation: Vec3, now: nat)
    returns (r: Result<(), string>)
    requires lobby.Valid()
    modifies lobby
    ensures lobby.Valid()
    ensures r.Ok? <==> playerId in old(lobby.players)
    ensures r.Err? ==> r.error == ErrPlayerNotFound && unchanged(lobby)
    ensures r.Ok? ==>
      && lobby.players == old(lobby.players)[playerId := Moved(old(lobby.players)[playerId], position, rotation, now)]
      && lobby.dirtyPlayers == old(lobby.dirtyPlayers) + {playerId}
      && lobby.clientAddresses == old(lobby.clientAddresses)
      && lobby.lastSyncState == old(lobby.lastSyncState)
  {
    if playerId !in lobby.players {
      return Err(ErrPlayerNotFound);
    }
    lobby.players := lobby.players[playerId := Moved(lobby.players[playerId], position, rotation, now)];
    lobby.MarkDirty(playerId);
    r := Ok(());
  }

  /** Records the UDP address of an admitted player; unknown ids are refused. */
  method SetPlayerAddress(lobby: Lobby, playerId: nat, addr: Addr) returns (r: Result<(), string>)
    requires lobby.Valid()
    modifies lobby
    ensures lobby.Valid()
    ensures r.Ok? <==> playerId in old(lobby.players)
    ensures r.Err? ==> r.error == ErrPlayerNotFound && unchanged(lobby)
    ensures r.Ok? ==>
      && lobby.clientAddresses == old(lobby.clientAddresses)[playerId := addr]
      && lobby.players == old(lobby.players)
      && lobby.lastSyncState == old(lobby.lastSyncState)
      && lobby.dirtyPlayers == old(lobby.dirtyPlayers)
  {
    if playerId !in lobby.players {
      return Err(ErrPlayerNotFound);
    }
    lobby.clientAddresses := lobby.clientAddresses[playerId := addr];
    r := Ok(());
  }

  /**
   * Whole seconds since the player was last heard from, or None when its last
   * update lies after `now` (the sweep then skips the player).
   */
  function IdleSecs(p: Player, now: nat): (r: Option<nat>)
    ensures r.Some? <==> p.lastUpdate <= now
    ensures r.Some? ==> r.value * 1000 <= now - p.lastUpdate < (r.value + 1) * 1000
  {
    if p.lastUpdate <= now then Some((now - p.lastUpdate) / 1000) else None
  }

  /** The sweep removes every player but the bot that has been idle longer than the timeout. */
  ghost predicate TimedOut(id: nat, p: Player, now: nat, timeoutSecs: nat) {
    id != BotId && IdleSecs(p, now).Some? && IdleSecs(p, now).value > timeoutSecs
  }

  /** The sweep warns, once, a player that is idle past the warning threshold but not yet timed out. */
  ghost predicate DueWarning(id: nat, p: Player, now: nat, timeoutSecs: nat, warningSecs: nat) {
    && id != BotId
    && IdleSecs(p, now).Some?
    && warningSecs < IdleSecs(p, now).value <= timeoutSecs
    && p.warnedAt.None?
  }

  /** The first pass of the sweep: collects, without changing anything, whom to remove and whom to warn. */
  method ClassifyInactive(players: map<nat, Player>, now: nat, timeoutSecs: nat, warningSecs: nat)
    returns (inactive: seq<nat>, warned: seq<nat>)
    ensures Distinct(inactive) && Distinct(warned)
    ensures forall id :: id in inactive <==> id in players && TimedOut(id, players[id], now, timeoutSecs)
    ensures forall id :: id in warned <==> id in players && DueWarning(id, players[id], now, timeoutSecs, warningSecs)
    ensures forall id :: id in inactive ==> id !in warned
  {
    inactive, warned := [], [];
    var todo := players.Keys;
    while todo != {}
      invariant todo <= players.Keys
      invariant Distinct(inactive) && Distinct(warned)
      invariant forall id :: id in inactive <==> id in players && id !in todo && TimedOut(id, players[id], now, timeoutSecs)
      invariant forall id :: id in warned <==>
        id in players && id !in todo && DueWarning(id, players[id], now, timeoutSecs, warningSecs)
      decreases todo
    {
      var id :| id in todo;
      todo := todo - {id};
      var p := players[id];
      if id != BotId {
        var idle := IdleSecs(p, now);
        if idle.Some? {
          if idle.value > timeoutSecs {
            inactive := inactive + [id];
          } else if idle.value > warningSecs && p.warnedAt.None? {
            warned := warned + [id];
          }
        }
      }
    }
  }

  /** Removes each listed player in turn (the second pass of the sweep). */
  method RemovePlayers(lobby: Lobby, ids: seq<nat>)
    requires lobby.Valid()
    modifies lobby
    ensures lobby.Valid()
    ensures lobby.players == old(lobby.players) - Elems(ids)
    ensures lobby.clientAddresses == old(lobby.clientAddresses) - Elems(ids)
    ensures lobby.lastSyncState == old(lobby.lastSyncState) - Elems(ids)
    ensures lobby.dirtyPlayers == old(lobby.dirtyPlayers)
  {
    var i := 0;
    while i < |ids|
      invariant 0 <= i <= |ids|
      invariant lobby.Valid()
      invariant lobby.players == old(lobby.players) - Elems(ids[..i])
      invariant lobby.clientAddresses == old(lobby.clientAddresses) - Elems(ids[..i])
      invariant lobby.lastSyncState == old(lobby.lastSyncState) - Elems(ids[..i])
      invariant lobby.dirtyPlayers == old(lobby.dirtyPlayers)
    {
      ghost var done := Elems(ids[..i]);
      RemovePlayer(lobby, ids[i]);
      assert Elems(ids[..i + 1]) == done + {ids[i]};
      RemoveOneMore(old(lobby.players), done, ids[i]);
      RemoveOneMore(old(lobby.clientAddresses), done, ids[i]);
      RemoveOneMore(old(lobby.lastSyncState), done, ids[i]);
      i := i + 1;
    }
    assert ids[..i] == ids;
  }

  /** The players with every listed one stamped as warned at `now`. */
  function WarnedIn(players: map<nat, Player>, ids: set<nat>, now: nat): (r: map<nat, Player>)
    ensures r.Keys == players.Keys && |r| == |players|
    ensures forall id :: id in r ==> r[id] == if id in ids then players[id].(warnedAt := Some(now)) else players[id]
  {
    map id | id in players :: if id in ids then players[id].(warnedAt := Some(now)) else players[id]
  }

  /** Stamping one more present id is one more update of the map. */
  lemma WarnOneMore(players: map<nat, Player>, ids: set<nat>, id: nat, now: nat)
    requires id in players
    ensures WarnedIn(players, ids, now)[id := WarnedIn(players, ids, now)[id].(warnedAt := Some(now))]
         == WarnedIn(players, ids + {id}, now)
  {
  }

  /** Stamping an absent id changes nothing. */
  lemma WarnAbsent(players: map<nat, Player>, ids: set<nat>, id: nat, now: nat)
    requires id !in players
    ensures WarnedIn(players, ids, now) == WarnedIn(players, ids + {id}, now)
  {
  }

  /** Stamps `warnedAt := now` on each listed player still present (the third pass of the sweep). */
  method StampWarnings(lobby: Lobby, ids: seq<nat>, now: nat)
    requires lobby.Valid()
    modifies lobby`players
    ensures lobby.Valid()
    ensures lobby.players == WarnedIn(old(lobby.players), Elems(ids), now)
  {
    var ps := lobby.players;
    var j := 0;
    while j < |ids|
      invariant 0 <= j <= |ids|
      invariant ps == WarnedIn(old(lobby.players), Elems(ids[..j]), now)
    {
      var id := ids[j];
      assert Elems(ids[..j + 1]) == Elems(ids[..j]) + {id} by {
        assert ids[..j + 1] == ids[..j] + [id];
      }
      if id in ps {
        WarnOneMore(old(lobby.players), Elems(ids[..j]), id, now);
        ps := ps[id := ps[id].(warnedAt := Some(now))];
      } else {
        WarnAbsent(old(lobby.players), Elems(ids[..j]), id, now);
      }
      j := j + 1;
    }
    assert ids[..j] == ids;
    assert forall id :: id in ps ==> ps[id].id == id && ps[id].Valid();
    lobby.players := ps;
  }

  /**
   * The inactivity sweep: removes every timed-out player (but the bot) from
   * all per-player tables, stamps `warnedAt` on every player newly past the
   * warning threshold, and reports both lists.
   */
  method CleanupInactive(lobby: Lobby, now: nat, timeoutSecs: nat, warningSecs: nat)
    returns (removed: seq<nat>, warned: seq<nat>)
    requires lobby.Valid()
    modifies lobby
    ensures lobby.Valid()
    ensures Distinct(removed) && Distinct(warned)
    ensures forall id :: id in removed <==> id in old(lobby.players) && TimedOut(id, old(lobby.players)[id], now, timeoutSecs)
    ensures forall id :: id in warned <==>
      id in old(lobby.players) && DueWarning(id, old(lobby.players)[id], now, timeoutSecs, warningSecs)
    ensures forall id :: id in removed ==> id !in warned
    ensures lobby.players.Keys == old(lobby.players).Keys - Elems(removed)
    ensures forall id :: id in lobby.players ==>
      lobby.players[id] == if id in warned then old(lobby.players)[id].(warnedAt := Some(now)) else old(lobby.players)[id]
    ensures lobby.clientAddresses == old(lobby.clientAddresses) - Elems(removed)
    ensures lobby.lastSyncState == old(lobby.lastSyncState) - Elems(removed)
    ensures lobby.dirtyPlayers == old(lobby.dirtyPlayers)
  {
    removed, warned := ClassifyInactive(lobby.players, now, timeoutSecs, warningSecs);
    RemovePlayers(lobby, removed);
    StampWarnings(lobby, warned, now);
  }
}
