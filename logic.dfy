/**
 * Combat rules applied to the players of one lobby: shooting (gated on reload
 * state, ammo and fire rate), damage, reloading, weapon switching, kill
 * scoring and respawning.
 */
module Logic {
  import opened Common
  import opened Weapons
  import opened LobbyState

  const ErrPlayerNotFound: string := "Player not found"
  const ErrInvalidWeapon: string := "Invalid weapon"
  const ErrTime: string := "Time error"
  const ErrInvalidDamage: string := "Invalid damage amount"
  const ErrCannotReload: string := "Cannot reload"
  const ErrWeaponNotFound: string := "Weapon not found"
  const ErrKillerNotFound: string := "Killer not found"
  const ErrVictimNotFound: string := "Victim not found"

  /** Largest damage a single hit may carry. */
  const MaxDamage: nat := 100
  /** A killed player may respawn this long after the kill. */
  const RespawnDelayMs: nat := 3000
  /** Every kill is worth this much before the streak bonus. */
  const BaseKillScore: nat := 100
  /** Bonus per earlier kill in the current streak. */
  const StreakBonus: nat := 25
  /** Streaks longer than this earn no further bonus. */
  const StreakCap: nat := 5

  // ---------------------------------------------------------------- shooting

  /** Every gate of TryShoot passes for `id`: not reloading, ammo left, a known weapon, and a full fire interval since the last shot. */
  ghost predicate ShotAllowed(players: map<nat, Player>, db: WeaponDb, id: nat, now: nat) {
    && id in players
    && !players[id].isReloading
    && players[id].currentAmmo > 0
    && players[id].currentWeaponId in db
    && players[id].lastShotTime <= now
    && now - players[id].lastShotTime >= db[players[id].currentWeaponId].fireIntervalMs
  }

  /** The shooter after a shot: one round fewer, the shot time recorded, nothing else touched. */
  function Fired(p: Player, now: nat): (r: Player)
    requires p.currentAmmo > 0
    ensures p.Valid() ==> r.Valid()
    ensures r.currentAmmo + 1 == p.currentAmmo && r.lastShotTime == now
    ensures r.(currentAmmo := p.currentAmmo, lastShotTime := p.lastShotTime) == p
  {
    p.(currentAmmo := p.currentAmmo - 1, lastShotTime := now)
  }

  /**
   * Fires the player's current weapon if it may fire now. Ok(false) means the
   * shot was refused by a game rule, an error that the request itself was bad;
   * in neither case does anything change.
   */
  method TryShoot(lobby: Lobby, db: WeaponDb, playerId: nat, now: nat) returns (r: Result<bool, string>)
    requires lobby.Valid()
    modifies lobby
    ensures lobby.Valid()
    ensures r == Ok(true) <==> ShotAllowed(old(lobby.players), db, playerId, now)
    ensures playerId !in old(lobby.players) ==> r == Err(ErrPlayerNotFound)
    ensures playerId in old(lobby.players) ==>
      var p := old(lobby.players)[playerId];
      && (p.isReloading ==> r == Ok(false))
      && (!p.isReloading && p.currentAmmo == 0 ==> r == Ok(false))
      && (!p.isReloading && p.currentAmmo > 0 && p.currentWeaponId !in db ==> r == Err(ErrInvalidWeapon))
      && (!p.isReloading && p.currentAmmo > 0 && p.currentWeaponId in db && p.lastShotTime > now
          ==> r == Err(ErrTime))
      && ((!p.isReloading && p.currentAmmo > 0 && p.currentWeaponId in db && p.lastShotTime <= now
           && now - p.lastShotTime < db[p.currentWeaponId].fireIntervalMs) ==> r == Ok(false))
    ensures r != Ok(true) ==> unchanged(lobby)
    ensures r == Ok(true) ==>
      && lobby.players == old(lobby.players)[playerId := Fired(old(lobby.players)[playerId], now)]
      && lobby.dirtyPlayers == old(lobby.dirtyPlayers) + {playerId}
      && lobby.clientAddresses == old(lobby.clientAddresses)
      && lobby.lastSyncState == old(lobby.lastSyncState)
  {
    if playerId !in lobby.players {
      return Err(ErrPlayerNotFound);
    }
    var p := lobby.players[playerId];
    if p.isReloading {
      return Ok(false);
    }
    if p.currentAmmo == 0 {
      return Ok(false);
    }
    if p.currentWeaponId !in db {
      return Err(ErrInvalidWeapon);
    }
    var weapon := db[p.currentWeaponId];
    if p.lastShotTime > now {
      return Err(ErrTime);
    }
    if now - p.lastShotTime < weapon.fireIntervalMs {
      return Ok(false);
    }
    lobby.players := lobby.players[playerId := Fired(p, now)];
    lobby.MarkDirty(playerId);
    r := Ok(true);
  }

  // ------------------------------------------------------------------ damage

  /** The target after a hit: health drops by the damage but never below zero; nothing else changes. */
  function Damaged(p: Player, damage: nat): (r: Player)
    ensures r.currentHealth as int == Max(0, p.currentHealth as int - damage as int)
    ensures r.currentHealth <= p.currentHealth
    ensures p.Valid() ==> r.Valid()
    ensures r.(currentHealth := p.currentHealth) == p
  {
    p.(currentHealth := if damage >= p.currentHealth then 0 else p.currentHealth - damage)
  }

  /** Applies a hit of 1..100 points to a known player, saturating at zero health. */
  method ApplyDamage(lobby: Lobby, targetId: nat, damage: nat) returns (r: Result<(), string>)
    requires lobby.Valid()
    modifies lobby
    ensures lobby.Valid()
    ensures r.Ok? <==> targetId in old(lobby.players) && 0 < damage <= MaxDamage
    ensures targetId !in old(lobby.players) ==> r == Err(ErrPlayerNotFound)
    ensures targetId in old(lobby.players) && (damage == 0 || damage > MaxDamage) ==> r == Err(ErrInvalidDamage)
    ensures r.Err? ==> unchanged(lobby)
    ensures r.Ok? ==>
      && lobby.players == old(lobby.players)[targetId := Damaged(old(lobby.players)[targetId], damage)]
      && lobby.dirtyPlayers == old(lobby.dirtyPlayers) + {targetId}
      && lobby.clientAddresses == old(lobby.clientAddresses)
      && lobby.lastSyncState == old(lobby.lastSyncState)
  {
    if targetId !in lobby.players {
      return Err(ErrPlayerNotFound);
    }
    if damage == 0 || damage > MaxDamage {
      return Err(ErrInvalidDamage);
    }
    lobby.players := lobby.players[targetId := Damaged(lobby.players[targetId], damage)];
    lobby.MarkDirty(targetId);
    r := Ok(());
  }

  /** A player hit `n` times by the same damage. */
  function DamagedTimes(p: Player, damage: nat, n: nat): Player {
    if n == 0 then p else Damaged(DamagedTimes(p, damage, n - 1), damage)
  }

  /** After n hits of d points starting from health h, health is max(0, h - n*d), and nothing else has changed. */
  lemma {:induction false} RepeatedDamage(p: Player, damage: nat, n: nat)
    ensures DamagedTimes(p, damage, n).currentHealth as int == Max(0, p.currentHealth as int - n * damage)
    ensures DamagedTimes(p, damage, n).(currentHealth := p.currentHealth) == p
  {
    if n > 0 {
      RepeatedDamage(p, damage, n - 1);
      assert (n - 1) * damage + damage == n * damage;
    }
  }

  // ---------------------------------------------------------------- reloading

  /** StartReload may begin a reload: a known player, not reloading, magazine not full, weapon known. */
  ghost predicate CanReload(players: map<nat, Player>, db: WeaponDb, id: nat) {
    && id in players
    && !players[id].isReloading
    && players[id].currentAmmo != players[id].maxAmmo
    && players[id].currentWeaponId in db
  }

  /** The player once a reload has begun, finishing at `endTime`. */
  function ReloadStarted(p: Player, endTime: nat): (r: Player)
    ensures r.isReloading && r.reloadEndTime == Some(endTime)
    ensures p.Valid() ==> r.Valid()
    ensures r.(isReloading := p.isReloading, reloadEndTime := p.reloadEndTime) == p
  {
    p.(isReloading := true, reloadEndTime := Some(endTime))
  }

  /** Begins a reload that ends one weapon reload time from now. */
  method StartReload(lobby: Lobby, db: WeaponDb, playerId: nat, now: nat) returns (r: Result<(), string>)
    requires lobby.Valid()
    modifies lobby
    ensures lobby.Valid()
    ensures r.Ok? <==> CanReload(old(lobby.players), db, playerId)
    ensures playerId !in old(lobby.players) ==> r == Err(ErrPlayerNotFound)
    ensures playerId in old(lobby.players) ==>
      var p := old(lobby.players)[playerId];
      && (p.isReloading || p.currentAmmo == p.maxAmmo ==> r == Err(ErrCannotReload))
      && (!p.isReloading && p.currentAmmo != p.maxAmmo && p.currentWeaponId !in db ==> r == Err(ErrWeaponNotFound))
    ensures r.Err? ==> unchanged(lobby)
    ensures r.Ok? ==>
      var p := old(lobby.players)[playerId];
      && lobby.players == old(lobby.players)[playerId := ReloadStarted(p, now + db[p.currentWeaponId].reloadTimeMs)]
      && lobby.dirtyPlayers == old(lobby.dirtyPlayers) + {playerId}
      && lobby.clientAddresses == old(lobby.clientAddresses)
      && lobby.lastSyncState == old(lobby.lastSyncState)
  {
    if playerId !in lobby.players {
      return Err(ErrPlayerNotFound);
    }
    var p := lobby.players[playerId];
    if p.isReloading || p.currentAmmo == p.maxAmmo {
      return Err(ErrCannotReload);
    }
    if p.currentWeaponId !in db {
      return Err(ErrWeaponNotFound);
    }
    var weapon := db[p.currentWeaponId];
    lobby.players := lobby.players[playerId := ReloadStarted(p, now + weapon.reloadTimeMs)];
    lobby.MarkDirty(playerId);
    r := Ok(());
  }

  /** A reload whose end time has come. */
  ghost predicate ReloadDue(p: Player, now: nat) {
    p.isReloading && p.reloadEndTime.Some? && p.reloadEndTime.value <= now
  }

  /** The player once its reload completes: a full magazine and no reload pending. */
  function Reloaded(p: Player): (r: Player)
    ensures r.currentAmmo == p.maxAmmo && !r.isReloading && r.reloadEndTime.None?
    ensures p.Valid() ==> r.Valid()
    ensures r.(currentAmmo := p.currentAmmo, isReloading := p.isReloading, reloadEndTime := p.reloadEndTime) == p
  {
    p.(currentAmmo := p.maxAmmo, isReloading := false, reloadEndTime := None)
  }

  /**
   * Completes every reload whose end time has come, flags those players for
   * sync and reports them; every other player is left as it was.
   */
  method UpdateReloadStates(lobby: Lobby, now: nat) returns (completed: seq<nat>)
    requires lobby.Valid()
    modifies lobby
    ensures lobby.Valid()
    ensures Distinct(completed)
    ensures forall id :: id in completed <==> id in old(lobby.players) && ReloadDue(old(lobby.players)[id], now)
    ensures lobby.players.Keys == old(lobby.players).Keys
    ensures forall id :: id in lobby.players ==>
      lobby.players[id] == if ReloadDue(old(lobby.players)[id], now) then Reloaded(old(lobby.players)[id])
                           else old(lobby.players)[id]
    ensures lobby.dirtyPlayers == old(lobby.dirtyPlayers) + Elems(completed)
    ensures lobby.clientAddresses == old(lobby.clientAddresses)
    ensures lobby.lastSyncState == old(lobby.lastSyncState)
  {
    var ps;
    ps, completed := CompleteReloads(lobby.players, now);
    assert forall id :: id in ps ==> ps[id].id == id && ps[id].Valid();
    lobby.players := ps;
    lobby.MarkAllDirty(completed);
  }

  /**
   * The first pass of the reload update: every player of the table whose
   * reload is due gets a full magazine, and its id is reported.
   */
  method CompleteReloads(players: map<nat, Player>, now: nat) returns (ps: map<nat, Player>, completed: seq<nat>)
    requires forall id :: id in players ==> players[id].id == id
    ensures Distinct(completed)
    ensures forall id :: id in completed <==> id in players && ReloadDue(players[id], now)
    ensures ps.Keys == players.Keys
    ensures forall id :: id in ps ==>
      ps[id] == if ReloadDue(players[id], now) then Reloaded(players[id]) else players[id]
  {
    completed := [];
    ps := players;
    var todo := ps.Keys;
    while todo != {}
      invariant todo <= ps.Keys == players.Keys
      invariant Distinct(completed)
      invariant forall id :: id in completed <==> id in players && id !in todo && ReloadDue(players[id], now)
      invariant forall id :: id in ps ==>
        ps[id] == if id !in todo && ReloadDue(players[id], now) then Reloaded(players[id]) else players[id]
      decreases todo
    {
      var id :| id in todo;
      var p := ps[id];
      if p.isReloading && p.reloadEndTime.Some? && now >= p.reloadEndTime.value {
        ps := ps[id := Reloaded(p)];
        completed := completed + [p.id];
      }
      todo := todo - {id};
    }
  }

  // ---------------------------------------------------------- weapon switching

  /** The player holding a new weapon: a full magazine of it, and any reload cancelled. */
  function Armed(p: Player, weaponId: nat, weapon: Weapon): (r: Player)
    ensures r.currentWeaponId == weaponId && r.currentAmmo == weapon.ammo && r.maxAmmo == weapon.ammo
    ensures !r.isReloading && r.reloadEndTime.None?
    ensures p.Valid() ==> r.Valid()
    ensures r.(currentWeaponId := p.currentWeaponId, currentAmmo := p.currentAmmo, maxAmmo := p.maxAmmo,
               isReloading := p.isReloading, reloadEndTime := p.reloadEndTime) == p
  {
    p.(currentWeaponId := weaponId, currentAmmo := weapon.ammo, maxAmmo := weapon.ammo,
       isReloading := false, reloadEndTime := None)
  }

  /** Switches a known player to a known weapon. */
  method SwitchWeapon(lobby: Lobby, db: WeaponDb, playerId: nat, weaponId: nat) returns (r: Result<(), string>)
    requires lobby.Valid()
    modifies lobby
    ensures lobby.Valid()
    ensures r.Ok? <==> playerId in old(lobby.players) && weaponId in db
    ensures playerId !in old(lobby.players) ==> r == Err(ErrPlayerNotFound)
    ensures playerId in old(lobby.players) && weaponId !in db ==> r == Err(ErrInvalidWeapon)
    ensures r.Err? ==> unchanged(lobby)
    ensures r.Ok? ==>
      && lobby.players == old(lobby.players)[playerId := Armed(old(lobby.players)[playerId], weaponId, db[weaponId])]
      && lobby.dirtyPlayers == old(lobby.dirtyPlayers) + {playerId}
      && lobby.clientAddresses == old(lobby.clientAddresses)
      && lobby.lastSyncState == old(lobby.lastSyncState)
  {
    if playerId !in lobby.players {
      return Err(ErrPlayerNotFound);
    }
    if weaponId !in db {
      return Err(ErrInvalidWeapon);
    }
    lobby.players := lobby.players[playerId := Armed(lobby.players[playerId], weaponId, db[weaponId])];
    lobby.MarkDirty(playerId);
    r := Ok(());
  }

  // ------------------------------------------------------------------ kills

  /** What a kill announces. Names and the weapon are those before the kill. */
  datatype KillEvent = KillEvent(
    killerId: nat,
    killerName: string,
    victimId: nat,
    victimName: string,
    weaponId: nat,
    weaponName: string,
    killerNewKillstreak: nat)

  /** Points for a kill made with `streak` earlier kills in a row: 100, plus 25 for each, up to five. */
  function KillScore(streak: nat): (s: nat)
    ensures BaseKillScore <= s <= BaseKillScore + StreakCap * StreakBonus
    ensures streak <= StreakCap ==> s == BaseKillScore + streak * StreakBonus
    ensures streak >= StreakCap ==> s == BaseKillScore + StreakCap * StreakBonus
  {
    BaseKillScore + Min(streak, StreakCap) * StreakBonus
  }

  /** The killer after a kill: one more kill, a longer streak, and the kill's points. */
  function Credited(p: Player): (r: Player)
    ensures r.kills == p.kills + 1 && r.killstreak == p.killstreak + 1
    ensures r.score == p.score + KillScore(p.killstreak)
    ensures p.Valid() ==> r.Valid()
    ensures r.(kills := p.kills, killstreak := p.killstreak, score := p.score) == p
  {
    p.(kills := p.kills + 1, killstreak := p.killstreak + 1, score := p.score + KillScore(p.killstreak))
  }

  /** The victim after a kill: one more death, streak lost, no health, dead until its respawn time. */
  function Killed(p: Player, now: nat): (r: Player)
    ensures r.deaths == p.deaths + 1 && r.killstreak == 0 && r.currentHealth == 0
    ensures r.isDead && r.respawnTime == Some(now + RespawnDelayMs)
    ensures p.Valid() ==> r.Valid()
    ensures r.(deaths := p.deaths, killstreak := p.killstreak, currentHealth := p.currentHealth,
               isDead := p.isDead, respawnTime := p.respawnTime) == p
  {
    p.(deaths := p.deaths + 1, killstreak := 0, currentHealth := 0, isDead := true,
       respawnTime := Some(now + RespawnDelayMs))
  }

  /** The player table after a kill: the killer is credited first, then the victim is killed. */
  function KillApplied(players: map<nat, Player>, killerId: nat, victimId: nat, now: nat): (r: map<nat, Player>)
    requires killerId in players && victimId in players
    ensures r.Keys == players.Keys
    ensures forall id :: id in players && id != killerId && id != victimId ==> r[id] == players[id]
    ensures killerId != victimId ==> r[killerId] == Credited(players[killerId])
    ensures r[victimId] == Killed(if killerId == victimId then Credited(players[victimId]) else players[victimId], now)
  {
    var credited := players[killerId := Credited(players[killerId])];
    credited[victimId := Killed(credited[victimId], now)]
  }

  /**
   * A player credited with killing itself still gains the kill and its
   * points, but ends the kill with a death and a streak of zero.
   */
  lemma SelfKillScores(players: map<nat, Player>, id: nat, now: nat)
    requires id in players
    ensures KillApplied(players, id, id, now)[id].kills == players[id].kills + 1
    ensures KillApplied(players, id, id, now)[id].score == players[id].score + KillScore(players[id].killstreak)
    ensures KillApplied(players, id, id, now)[id].deaths == players[id].deaths + 1
    ensures KillApplied(players, id, id, now)[id].killstreak == 0
  {
  }

  /**
   * Credits a kill: checks killer, victim and the killer's weapon before
   * touching anything, then updates both records and flags both for sync.
   */
  method RegisterKill(lobby: Lobby, db: WeaponDb, killerId: nat, victimId: nat, now: nat)
    returns (r: Result<KillEvent, string>)
    requires lobby.Valid()
    modifies lobby
    ensures lobby.Valid()
    ensures r.Ok? <==> killerId in old(lobby.players) && victimId in old(lobby.players)
                       && old(lobby.players)[killerId].currentWeaponId in db
    ensures killerId !in old(lobby.players) ==> r == Err(ErrKillerNotFound)
    ensures killerId in old(lobby.players) && victimId !in old(lobby.players) ==> r == Err(ErrVictimNotFound)
    ensures (killerId in old(lobby.players) && victimId in old(lobby.players)
             && old(lobby.players)[killerId].currentWeaponId !in db) ==> r == Err(ErrInvalidWeapon)
    ensures r.Err? ==> unchanged(lobby)
    ensures r.Ok? ==>
      var killer := old(lobby.players)[killerId];
      && lobby.players == KillApplied(old(lobby.players), killerId, victimId, now)
      && lobby.dirtyPlayers == old(lobby.dirtyPlayers) + {killerId, victimId}
      && lobby.clientAddresses == old(lobby.clientAddresses)
      && lobby.lastSyncState == old(lobby.lastSyncState)
      && r.value == KillEvent(killerId, killer.name, victimId, old(lobby.players)[victimId].name,
                              killer.currentWeaponId, db[killer.currentWeaponId].name, killer.killstreak + 1)
  {
    if killerId !in lobby.players {
      return Err(ErrKillerNotFound);
    }
    if victimId !in lobby.players {
      return Err(ErrVictimNotFound);
    }
    var killer := lobby.players[killerId];
    var victim := lobby.players[victimId];
    if killer.currentWeaponId !in db {
      return Err(ErrInvalidWeapon);
    }
    var weapon := db[killer.currentWeaponId];

    var ps := lobby.players[killerId := Credited(lobby.players[killerId])];
    ps := ps[victimId := Killed(ps[victimId], now)];
    assert ps == KillApplied(lobby.players, killerId, victimId, now);
    assert forall id :: id in ps ==> ps[id].id == id && ps[id].Valid();
    lobby.players := ps;

    lobby.MarkDirty(killerId);
    lobby.MarkDirty(victimId);
    r := Ok(KillEvent(killerId, killer.name, victimId, victim.name, killer.currentWeaponId, weapon.name,
                      killer.killstreak + 1));
  }

  // --------------------------------------------------------------- respawning

  /**
   * The player put back at the spawn point with full health and ammo and no
   * reload. The dead flag and respawn time are left as they were.
   */
  function Respawned(p: Player): (r: Player)
    ensures r.position == SpawnPosition && r.rotation == ZeroRotation
    ensures r.currentHealth == p.maxHealth && r.currentAmmo == p.maxAmmo
    ensures !r.isReloading && r.reloadEndTime.None?
    ensures r.isDead == p.isDead && r.respawnTime == p.respawnTime
    ensures p.Valid() ==> r.Valid()
    ensures r.(position := p.position, rotation := p.rotation, currentHealth := p.currentHealth,
               currentAmmo := p.currentAmmo, isReloading := p.isReloading, reloadEndTime := p.reloadEndTime) == p
  {
    p.(position := SpawnPosition, rotation := ZeroRotation, currentHealth := p.maxHealth,
       currentAmmo := p.maxAmmo, isReloading := false, reloadEndTime := None)
  }

  /** Respawns a known player. */
  method RespawnPlayer(lobby: Lobby, playerId: nat) returns (r: Result<(), string>)
    requires lobby.Valid()
    modifies lobby
    ensures lobby.Valid()
    ensures r.Ok? <==> playerId in old(lobby.players)
    ensures r.Err? ==> r.error == ErrPlayerNotFound && unchanged(lobby)
    ensures r.Ok? ==>
      && lobby.players == old(lobby.players)[playerId := Respawned(old(lobby.players)[playerId])]
      && lobby.dirtyPlayers == old(lobby.dirtyPlayers) + {playerId}
      && lobby.clientAddresses == old(lobby.clientAddresses)
      && lobby.lastSyncState == old(lobby.lastSyncState)
  {
    if playerId !in lobby.players {
      return Err(ErrPlayerNotFound);
    }
    lobby.players := lobby.players[playerId := Respawned(lobby.players[playerId])];
    lobby.MarkDirty(playerId);
    r := Ok(());
  }

  // ------------------------------------------------------------------ queries

  /** A player is alive when it is in the lobby with some health left. */
  function IsPlayerAlive(lobby: Lobby, playerId: nat): (r: bool)
    reads lobby
    ensures r ==> playerId in lobby.players
    ensures playerId in lobby.players ==> (r <==> lobby.players[playerId].currentHealth > 0)
  {
    if playerId in lobby.players then lobby.players[playerId].currentHealth > 0 else false
  }

  /** The player's score in this lobby, or an error for an unknown id. */
  function GetPlayerScore(lobby: Lobby, playerId: nat): (r: Result<nat, string>)
    reads lobby
    ensures r.Ok? <==> playerId in lobby.players
    ensures r.Ok? ==> r.value == lobby.players[playerId].score
    ensures r.Err? ==> r.error == ErrPlayerNotFound
  {
    if playerId in lobby.players then Ok(lobby.players[playerId].score) else Err(ErrPlayerNotFound)
  }
}
