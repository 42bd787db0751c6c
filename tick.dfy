/**
 * The per-lobby tick: the commands queued since the last tick are applied in
 * order, finished reloads complete, due players respawn, idle players are
 * swept, the resulting notices are addressed, the sessions of leavers are
 * recorded and the dirty set is cleared.
 */
module LobbyTick {
  import opened Common
  import opened Weapons
  import opened LobbyState
  import opened Lobbies
  import opened Logic
  import opened GlobalStatsState

  /** A request queued for the lobby by the UDP or HTTP front ends. */
  datatype Command =
    | PlayerJoin(playerId: nat, name: string, addr: Addr)
    | PlayerLeave(playerId: nat)
    | UdpConnect(playerId: nat, name: string, addr: Addr)
    | PositionUpdate(playerId: nat, position: Vec3, rotation: Vec3, addr: Addr)
    | Shoot(playerId: nat, targetId: nat)
    | Reload(playerId: nat)
    | WeaponSwitch(playerId: nat, weaponId: nat)
    | Heartbeat(playerId: nat, addr: Addr)

  // ------------------------------------------------------------ one command

  /** A player heard from again: only its liveness time changes. */
  function Touched(p: Player, now: nat): (r: Player)
    ensures r.lastUpdate == now
    ensures p.Valid() ==> r.Valid()
    ensures r.(lastUpdate := p.lastUpdate) == p
  {
    p.(lastUpdate := now)
  }

  /** A connect or heartbeat: binds the address and refreshes liveness of a known player; unknown ids change nothing. */
  function Heard(t: Tables, id: nat, addr: Addr, now: nat): Tables
  {
    if id in t.players then
      t.(players := t.players[id := Touched(t.players[id], now)], clientAddresses := t.clientAddresses[id := addr])
    else t
  }

  /**
   * A shot request: if every gate passes the shooter fires, and then the
   * target, if present, takes the damage of the shooter's weapon when that
   * damage is within range. A refused shot changes nothing.
   */
  ghost function ShotResolved(t: Tables, db: WeaponDb, shooter: nat, target: nat, now: nat): Tables
  {
    if !ShotAllowed(t.players, db, shooter, now) then t
    else
      var fired := t.players[shooter := Fired(t.players[shooter], now)];
      var damage := db[fired[shooter].currentWeaponId].damage;
      var afterShot := t.(players := fired, dirtyPlayers := t.dirtyPlayers + {shooter});
      if target in fired && 0 < damage <= MaxDamage then
        afterShot.(players := fired[target := Damaged(fired[target], damage)], dirtyPlayers := afterShot.dirtyPlayers + {target})
      else afterShot
  }

  /**
   * A refused shot changes nothing. An allowed one spends one of the
   * shooter's rounds, stamps the shot, marks the shooter dirty, and, when the
   * target is present and the weapon's damage is in range, lowers the
   * target's health by that damage down to zero and marks it dirty.
   */
  lemma ShotEffect(t: Tables, db: WeaponDb, shooter: nat, target: nat, now: nat)
    ensures !ShotAllowed(t.players, db, shooter, now) ==> ShotResolved(t, db, shooter, target, now) == t
    ensures ShotResolved(t, db, shooter, target, now).players.Keys == t.players.Keys
    ensures ShotResolved(t, db, shooter, target, now).clientAddresses == t.clientAddresses && ShotResolved(t, db, shooter, target, now).lastSyncState == t.lastSyncState
    ensures forall id :: id in t.players && id != shooter && id != target ==> ShotResolved(t, db, shooter, target, now).players[id] == t.players[id]
    ensures ShotAllowed(t.players, db, shooter, now) ==>
      var damage := db[t.players[shooter].currentWeaponId].damage;
      var hits := target in t.players && 0 < damage <= MaxDamage;
      && ShotResolved(t, db, shooter, target, now).players[shooter].currentAmmo + 1 == t.players[shooter].currentAmmo
      && ShotResolved(t, db, shooter, target, now).players[shooter].lastShotTime == now
      && (hits ==> ShotResolved(t, db, shooter, target, now).players[target].currentHealth as int == Max(0, t.players[target].currentHealth as int - damage as int))
      && (!hits && target in t.players && target != shooter ==> ShotResolved(t, db, shooter, target, now).players[target] == t.players[target])
      && ShotResolved(t, db, shooter, target, now).dirtyPlayers == t.dirtyPlayers + {shooter} + (if hits then {target} else {})
  {
  }

  /** A join that can be admitted adds the new player, binds its address and marks it dirty; any other join changes nothing. */
  function Joined(t: Tables, maxPlayers: nat, db: WeaponDb, id: nat, name: string, addr: Addr, now: nat): Tables
  {
    if Admissible(t.players, maxPlayers, id, DefaultWeaponId, db) then
      t.(players := t.players[id := NewPlayer(id, name, DefaultWeaponId, db[DefaultWeaponId], now)],
         clientAddresses := t.clientAddresses[id := addr],
         dirtyPlayers := t.dirtyPlayers + {id})
    else t
  }

  /** A leave drops the player, its address and its last synced state. */
  function Left(t: Tables, id: nat): Tables
  {
    t.(players := t.players - {id},
       clientAddresses := t.clientAddresses - {id},
       lastSyncState := t.lastSyncState - {id})
  }

  /** A position update from a present player binds its address and moves it; from anyone else it changes nothing. */
  function MovedIn(t: Tables, id: nat, position: Vec3, rotation: Vec3, addr: Addr, now: nat): Tables
  {
    if id in t.players then
      t.(players := t.players[id := Moved(t.players[id], position, rotation, now)],
         clientAddresses := t.clientAddresses[id := addr],
         dirtyPlayers := t.dirtyPlayers + {id})
    else t
  }

  /** A reload request that may start starts the reload and marks the player dirty; otherwise nothing changes. */
  ghost function ReloadIn(t: Tables, db: WeaponDb, id: nat, now: nat): Tables
  {
    if CanReload(t.players, db, id) then
      var p := t.players[id];
      t.(players := t.players[id := ReloadStarted(p, now + db[p.currentWeaponId].reloadTimeMs)],
         dirtyPlayers := t.dirtyPlayers + {id})
    else t
  }

  /** A switch to a known weapon re-arms a present player and marks it dirty; otherwise nothing changes. */
  function SwitchedIn(t: Tables, db: WeaponDb, id: nat, weaponId: nat): Tables
  {
    if id in t.players && weaponId in db then
      t.(players := t.players[id := Armed(t.players[id], weaponId, db[weaponId])],
         dirtyPlayers := t.dirtyPlayers + {id})
    else t
  }

  /**
   * What one command does to the lobby's tables. Refused commands change
   * nothing; in particular a join that cannot be admitted binds no address.
   * No command binds an address for an absent player, and none kills anyone.
   */
  ghost function Step(t: Tables, maxPlayers: nat, db: WeaponDb, cmd: Command, now: nat): Tables
  {
    match cmd
    case PlayerJoin(id, name, addr) => Joined(t, maxPlayers, db, id, name, addr, now)
    case PlayerLeave(id) => Left(t, id)
    case UdpConnect(id, _, addr) => Heard(t, id, addr, now)
    case PositionUpdate(id, position, rotation, addr) => MovedIn(t, id, position, rotation, addr, now)
    case Shoot(id, target) => ShotResolved(t, db, id, target, now)
    case Reload(id) => ReloadIn(t, db, id, now)
    case WeaponSwitch(id, weaponId) => SwitchedIn(t, db, id, weaponId)
    case Heartbeat(id, addr) => Heard(t, id, addr, now)
  }

  /**
   * Every command keeps the addresses within the roster, kills no one, and
   * leaves the tables alone when it is a join that cannot be admitted; a
   * leave removes the player and its address.
   */
  lemma StepKeeps(t: Tables, maxPlayers: nat, db: WeaponDb, cmd: Command, now: nat)
    ensures var r := Step(t, maxPlayers, db, cmd, now);
      && (t.clientAddresses.Keys <= t.players.Keys ==> r.clientAddresses.Keys <= r.players.Keys)
      && Spares(t.players, r.players)
      && (cmd.PlayerJoin? && !Admissible(t.players, maxPlayers, cmd.playerId, DefaultWeaponId, db) ==> r == t)
      && (cmd.PlayerLeave? ==> cmd.playerId !in r.players && cmd.playerId !in r.clientAddresses)
  {
    StepSparesTheDead(t, maxPlayers, db, cmd, now);
  }

  /** Nobody in `after` is dead unless they were already dead in `before`, with the same respawn time. */
  ghost predicate Spares(before: map<nat, Player>, after: map<nat, Player>) {
    forall id :: id in after && after[id].isDead ==>
      id in before && before[id].isDead && after[id].respawnTime == before[id].respawnTime
  }

  /** Writing one player that is alive, or dead exactly as before, spares everyone. */
  lemma SparesUpdate(m: map<nat, Player>, id: nat, p: Player)
    requires !p.isDead || (id in m && m[id].isDead && p.respawnTime == m[id].respawnTime)
    ensures Spares(m, m[id := p])
  {
  }

  /** No command kills a player, and the respawn timers of the dead are left as they were. */
  lemma StepSparesTheDead(t: Tables, maxPlayers: nat, db: WeaponDb, cmd: Command, now: nat)
    ensures Spares(t.players, Step(t, maxPlayers, db, cmd, now).players)
  {
    match cmd
    case PlayerJoin(id, name, addr) => JoinSpares(t, maxPlayers, db, id, name, addr, now);
    case PlayerLeave(id) =>
    case UdpConnect(id, _, addr) => HeardSpares(t, id, addr, now);
    case PositionUpdate(id, position, rotation, addr) => MoveSpares(t, id, position, rotation, addr, now);
    case Shoot(shooter, target) => ShotSpares(t, db, shooter, target, now);
    case Reload(id) => ReloadSpares(t, db, id, now);
    case WeaponSwitch(id, weaponId) => SwitchSpares(t, db, id, weaponId);
    case Heartbeat(id, addr) => HeardSpares(t, id, addr, now);
  }

  /** An admitted join adds a living player. */
  lemma JoinSpares(t: Tables, maxPlayers: nat, db: WeaponDb, id: nat, name: string, addr: Addr, now: nat)
    ensures Spares(t.players, Joined(t, maxPlayers, db, id, name, addr, now).players)
  {
    if Admissible(t.players, maxPlayers, id, DefaultWeaponId, db) {
      SparesUpdate(t.players, id, NewPlayer(id, name, DefaultWeaponId, db[DefaultWeaponId], now));
    }
  }

  /** A move only changes the pose and liveness time. */
  lemma MoveSpares(t: Tables, id: nat, position: Vec3, rotation: Vec3, addr: Addr, now: nat)
    ensures Spares(t.players, MovedIn(t, id, position, rotation, addr, now).players)
  {
    if id in t.players {
      var p := t.players[id];
      assert Moved(p, position, rotation, now).isDead == p.isDead;
      SparesUpdate(t.players, id, Moved(p, position, rotation, now));
    }
  }

  /** A shot spends a round and may lower a health; neither sets the dead flag. */
  lemma ShotSpares(t: Tables, db: WeaponDb, shooter: nat, target: nat, now: nat)
    ensures Spares(t.players, ShotResolved(t, db, shooter, target, now).players)
  {
    if ShotAllowed(t.players, db, shooter, now) {
      var p := t.players[shooter];
      var fired := t.players[shooter := Fired(p, now)];
      assert Fired(p, now).isDead == p.isDead && Fired(p, now).respawnTime == p.respawnTime;
      SparesUpdate(t.players, shooter, Fired(p, now));
      var damage := db[fired[shooter].currentWeaponId].damage;
      if target in fired && 0 < damage <= MaxDamage {
        var q := fired[target];
        assert Damaged(q, damage).isDead == q.isDead && Damaged(q, damage).respawnTime == q.respawnTime;
        SparesUpdate(fired, target, Damaged(q, damage));
      }
    }
  }

  /** Starting a reload only touches the reload fields. */
  lemma ReloadSpares(t: Tables, db: WeaponDb, id: nat, now: nat)
    ensures Spares(t.players, ReloadIn(t, db, id, now).players)
  {
    if CanReload(t.players, db, id) {
      var p := t.players[id];
      var e := now + db[p.currentWeaponId].reloadTimeMs;
      assert ReloadStarted(p, e).isDead == p.isDead && ReloadStarted(p, e).respawnTime == p.respawnTime;
      SparesUpdate(t.players, id, ReloadStarted(p, e));
    }
  }

  /** A weapon switch only touches the weapon fields. */
  lemma SwitchSpares(t: Tables, db: WeaponDb, id: nat, weaponId: nat)
    ensures Spares(t.players, SwitchedIn(t, db, id, weaponId).players)
  {
    if id in t.players && weaponId in db {
      var p := t.players[id];
      assert Armed(p, weaponId, db[weaponId]).isDead == p.isDead;
      assert Armed(p, weaponId, db[weaponId]).respawnTime == p.respawnTime;
      SparesUpdate(t.players, id, Armed(p, weaponId, db[weaponId]));
    }
  }

  /** A connect or heartbeat only refreshes liveness, so it spares everyone. */
  lemma HeardSpares(t: Tables, id: nat, addr: Addr, now: nat)
    ensures Spares(t.players, Heard(t, id, addr, now).players)
  {
    if id in t.players {
      SparesUpdate(t.players, id, Touched(t.players[id], now));
    }
  }

  /** A join: the player is added with the default weapon, then its address is bound. */
  method ProcessJoin(lobby: Lobby, db: WeaponDb, id: nat, name: string, addr: Addr, now: nat)
    requires lobby.Valid()
    modifies lobby
    ensures lobby.Valid()
    ensures lobby.State() == Joined(old(lobby.State()), lobby.maxPlayers, db, id, name, addr, now)
  {
    var added := AddPlayer(lobby, id, name, DefaultWeaponId, db, now);
    if added.Ok? {
      var bound := SetPlayerAddress(lobby, id, addr);
    }
  }

  /** A UDP connect or heartbeat from a present player binds its address and refreshes it. */
  method Hear(lobby: Lobby, id: nat, addr: Addr, now: nat)
    requires lobby.Valid()
    modifies lobby
    ensures lobby.Valid()
    ensures lobby.State() == Heard(old(lobby.State()), id, addr, now)
  {
    if id in lobby.players {
      lobby.clientAddresses := lobby.clientAddresses[id := addr];
      lobby.players := lobby.players[id := Touched(lobby.players[id], now)];
    }
  }

  /** A position update binds the sender's address when it is present, then moves it. */
  method ProcessMove(lobby: Lobby, id: nat, position: Vec3, rotation: Vec3, addr: Addr, now: nat)
    requires lobby.Valid()
    modifies lobby
    ensures lobby.Valid()
    ensures lobby.State() == MovedIn(old(lobby.State()), id, position, rotation, addr, now)
  {
    if id in lobby.players {
      lobby.clientAddresses := lobby.clientAddresses[id := addr];
    }
    var moved := UpdatePosition(lobby, id, position, rotation, now);
  }

  /** A leave request removes the player from the lobby. */
  method ProcessLeave(lobby: Lobby, id: nat)
    requires lobby.Valid()
    modifies lobby
    ensures lobby.Valid()
    ensures lobby.State() == Left(old(lobby.State()), id)
  {
    RemovePlayer(lobby, id);
  }

  /** A reload request starts a reload when one may start. */
  method ProcessReload(lobby: Lobby, db: WeaponDb, id: nat, now: nat)
    requires lobby.Valid()
    modifies lobby
    ensures lobby.Valid()
    ensures lobby.State() == ReloadIn(old(lobby.State()), db, id, now)
  {
    var started := StartReload(lobby, db, id, now);
  }

  /** A weapon switch re-arms the player when the weapon is known. */
  method ProcessSwitch(lobby: Lobby, db: WeaponDb, id: nat, weaponId: nat)
    requires lobby.Valid()
    modifies lobby
    ensures lobby.Valid()
    ensures lobby.State() == SwitchedIn(old(lobby.State()), db, id, weaponId)
  {
    var switched := SwitchWeapon(lobby, db, id, weaponId);
  }

  /** A shot: when it is allowed, the target takes the shooter's weapon damage. */
  method ProcessShot(lobby: Lobby, db: WeaponDb, id: nat, target: nat, now: nat)
    requires lobby.Valid()
    modifies lobby
    ensures lobby.Valid()
    ensures lobby.State() == ShotResolved(old(lobby.State()), db, id, target, now)
  {
    var shot := TryShoot(lobby, db, id, now);
    if shot == Ok(true) && id in lobby.players {
      var shooter := lobby.players[id];
      if shooter.currentWeaponId in db {
        var hit := ApplyDamage(lobby, target, db[shooter.currentWeaponId].damage);
      }
    }
  }

  /** Applies one queued command to the lobby; failures are logged by the source and change nothing. */
  method ProcessCommand(lobby: Lobby, db: WeaponDb, cmd: Command, now: nat)
    requires lobby.Valid()
    modifies lobby
    ensures lobby.Valid()
    ensures lobby.State() == Step(old(lobby.State()), lobby.maxPlayers, db, cmd, now)
  {
    match cmd
    case PlayerJoin(id, name, addr) =>
      ProcessJoin(lobby, db, id, name, addr, now);
    case PlayerLeave(id) =>
      ProcessLeave(lobby, id);
    case UdpConnect(id, _, addr) =>
      Hear(lobby, id, addr, now);
    case PositionUpdate(id, position, rotation, addr) =>
      ProcessMove(lobby, id, position, rotation, addr, now);
    case Shoot(id, target) =>
      ProcessShot(lobby, db, id, target, now);
    case Reload(id) =>
      ProcessReload(lobby, db, id, now);
    case WeaponSwitch(id, weaponId) =>
      ProcessSwitch(lobby, db, id, weaponId);
    case Heartbeat(id, addr) =>
      Hear(lobby, id, addr, now);
  }

  /**
   * The shot in the dispatcher's own test: weapon 1 holds 20 rounds and deals
   * 20 damage; a shooter with a full magazine who last fired a second ago hits
   * a healthy target, leaving the shooter with 19 rounds and the target with 80.
   */
  lemma ShootScenario(t: Tables, maxPlayers: nat, db: WeaponDb, now: nat)
    requires DefaultWeaponId in db && db[DefaultWeaponId].ammo == 20 && db[DefaultWeaponId].damage == 20
    requires db[DefaultWeaponId].fireIntervalMs <= 1000
    requires 1 in t.players && 2 in t.players
    requires t.players[1].currentWeaponId == DefaultWeaponId && t.players[1].currentAmmo == 20
    requires !t.players[1].isReloading && t.players[1].lastShotTime + 1000 == now
    requires t.players[2].currentHealth == 100
    ensures Step(t, maxPlayers, db, Shoot(1, 2), now).players[1].currentAmmo == 19
    ensures Step(t, maxPlayers, db, Shoot(1, 2), now).players[2].currentHealth == 80
  {
  }

  // ------------------------------------------------------ the command queue

  /** The tables after a queue of commands, applied in order. */
  ghost function StepAll(t: Tables, maxPlayers: nat, db: WeaponDb, cmds: seq<Command>, now: nat): Tables
    decreases |cmds|
  {
    if |cmds| == 0 then t
    else Step(StepAll(t, maxPlayers, db, cmds[..|cmds| - 1], now), maxPlayers, db, cmds[|cmds| - 1], now)
  }

  /**
   * However many commands a tick drains, none of them kills a player or
   * binds an address for a player that is not in the lobby.
   */
  lemma {:induction false} CommandsNeverKill(t: Tables, maxPlayers: nat, db: WeaponDb, cmds: seq<Command>, now: nat)
    ensures t.clientAddresses.Keys <= t.players.Keys ==>
      StepAll(t, maxPlayers, db, cmds, now).clientAddresses.Keys <= StepAll(t, maxPlayers, db, cmds, now).players.Keys
    ensures var r := StepAll(t, maxPlayers, db, cmds, now);
      forall id :: id in r.players && r.players[id].isDead ==> id in t.players && t.players[id].isDead
    decreases |cmds|
  {
    if |cmds| > 0 {
      CommandsNeverKill(t, maxPlayers, db, cmds[..|cmds| - 1], now);
      StepKeeps(StepAll(t, maxPlayers, db, cmds[..|cmds| - 1], now), maxPlayers, db, cmds[|cmds| - 1], now);
    }
  }

  /** The (id, name) of every join and UDP connect in the queue, accepted or not. */
  function JoinsOf(cmds: seq<Command>): (r: seq<(nat, string)>)
    ensures |r| <= |cmds|
    decreases |cmds|
  {
    if |cmds| == 0 then []
    else
      var c := cmds[|cmds| - 1];
      JoinsOf(cmds[..|cmds| - 1]) + (if c.PlayerJoin? || c.UdpConnect? then [(c.playerId, c.name)] else [])
  }

  /** The id of every leave request in the queue. */
  function LeavesOf(cmds: seq<Command>): (r: seq<nat>)
    ensures |r| <= |cmds|
    decreases |cmds|
  {
    if |cmds| == 0 then []
    else
      var c := cmds[|cmds| - 1];
      LeavesOf(cmds[..|cmds| - 1]) + (if c.PlayerLeave? then [c.playerId] else [])
  }

  /** The id of every position update in the queue. */
  function MovesOf(cmds: seq<Command>): (r: seq<nat>)
    ensures |r| <= |cmds|
    decreases |cmds|
  {
    if |cmds| == 0 then []
    else
      var c := cmds[|cmds| - 1];
      MovesOf(cmds[..|cmds| - 1]) + (if c.PositionUpdate? then [c.playerId] else [])
  }

  /** One more command of the queue is one more step, and extends each list by that command's entry. */
  lemma QueuePrefix(t: Tables, maxPlayers: nat, db: WeaponDb, cmds: seq<Command>, i: nat, now: nat)
    requires i < |cmds|
    ensures StepAll(t, maxPlayers, db, cmds[..i + 1], now) == Step(StepAll(t, maxPlayers, db, cmds[..i], now), maxPlayers, db, cmds[i], now)
    ensures JoinsOf(cmds[..i + 1]) == JoinsOf(cmds[..i]) + (if cmds[i].PlayerJoin? || cmds[i].UdpConnect? then [(cmds[i].playerId, cmds[i].name)] else [])
    ensures LeavesOf(cmds[..i + 1]) == LeavesOf(cmds[..i]) + (if cmds[i].PlayerLeave? then [cmds[i].playerId] else [])
    ensures MovesOf(cmds[..i + 1]) == MovesOf(cmds[..i]) + (if cmds[i].PositionUpdate? then [cmds[i].playerId] else [])
  {
    assert cmds[..i + 1][..i] == cmds[..i];
  }

  /** Applies a drained queue of commands in order, collecting who joined, left and moved. */
  method ProcessCommands(lobby: Lobby, db: WeaponDb, cmds: seq<Command>, now: nat)
    returns (joined: seq<(nat, string)>, left: seq<nat>, moved: seq<nat>)
    requires lobby.Valid()
    modifies lobby
    ensures lobby.Valid()
    ensures lobby.State() == StepAll(old(lobby.State()), lobby.maxPlayers, db, cmds, now)
    ensures joined == JoinsOf(cmds) && left == LeavesOf(cmds) && moved == MovesOf(cmds)
  {
    ghost var start := lobby.State();
    joined, left, moved := [], [], [];
    var i := 0;
    while i < |cmds|
      invariant 0 <= i <= |cmds|
      invariant lobby.Valid()
      invariant lobby.State() == StepAll(start, lobby.maxPlayers, db, cmds[..i], now)
      invariant joined == JoinsOf(cmds[..i]) && left == LeavesOf(cmds[..i]) && moved == MovesOf(cmds[..i])
    {
      var cmd := cmds[i];
      QueuePrefix(start, lobby.maxPlayers, db, cmds, i, now);
      ProcessCommand(lobby, db, cmd, now);
      joined := joined + (if cmd.PlayerJoin? || cmd.UdpConnect? then [(cmd.playerId, cmd.name)] else []);
      left := left + (if cmd.PlayerLeave? then [cmd.playerId] else []);
      moved := moved + (if cmd.PositionUpdate? then [cmd.playerId] else []);
      i := i + 1;
    }
    assert cmds[..i] == cmds;
  }

  // ---------------------------------------------------------------- respawns

  /** A dead player whose respawn time has come. */
  predicate RespawnDue(p: Player, now: nat) {
    p.isDead && p.respawnTime.Some? && p.respawnTime.value <= now
  }

  /** Picks, without changing anything, every player due to respawn. */
  method SelectRespawns(players: map<nat, Player>, now: nat) returns (due: seq<nat>)
    ensures Distinct(due)
    ensures forall id :: id in due <==> id in players && RespawnDue(players[id], now)
  {
    due := [];
    var todo := players.Keys;
    while todo != {}
      invariant todo <= players.Keys
      invariant Distinct(due)
      invariant forall id :: id in due <==> id in players && id !in todo && RespawnDue(players[id], now)
      decreases todo
    {
      var id :| id in todo;
      todo := todo - {id};
      var p := players[id];
      if p.isDead && p.respawnTime.Some? && now >= p.respawnTime.value {
        due := due + [id];
      }
    }
  }

  /** Respawning twice is respawning once. */
  lemma RespawnIdempotent(p: Player)
    ensures Respawned(Respawned(p)) == Respawned(p)
  {
  }

  /**
   * Respawning leaves the dead flag and the respawn time as they were, so a
   * player due now is due again at every later tick and is respawned again.
   */
  lemma RespawnRepeats(p: Player, now: nat, later: nat)
    requires RespawnDue(p, now) && now <= later
    ensures RespawnDue(Respawned(p), later)
  {
  }

  /** The players with everyone in `ids` respawned. */
  function RespawnedIn(players: map<nat, Player>, ids: set<nat>): (r: map<nat, Player>)
    ensures r.Keys == players.Keys
    ensures forall id :: id in r ==> r[id] == if id in ids then Respawned(players[id]) else players[id]
  {
    map id | id in players :: if id in ids then Respawned(players[id]) else players[id]
  }

  /** Respawning one more player extends the respawned set; respawning someone twice changes nothing more. */
  lemma RespawnOneMore(players: map<nat, Player>, ids: set<nat>, id: nat)
    requires id in players
    ensures RespawnedIn(players, ids)[id := Respawned(RespawnedIn(players, ids)[id])] == RespawnedIn(players, ids + {id})
  {
    RespawnIdempotent(players[id]);
  }

  /** Listing an absent player respawns no one more. */
  lemma RespawnAbsent(players: map<nat, Player>, ids: set<nat>, id: nat)
    requires id !in players
    ensures RespawnedIn(players, ids) == RespawnedIn(players, ids + {id})
  {
  }

  /** The players after respawning each listed id in turn; an id not in the lobby is skipped. */
  function RespawnedAll(players: map<nat, Player>, ids: seq<nat>): (r: map<nat, Player>)
    ensures r.Keys == players.Keys
    decreases |ids|
  {
    if |ids| == 0 then players
    else
      var prev := RespawnedAll(players, ids[..|ids| - 1]);
      var id := ids[|ids| - 1];
      if id in prev then prev[id := Respawned(prev[id])] else prev
  }

  /** The listed ids found among `keys`, in list order. */
  function PresentIn(ids: seq<nat>, keys: set<nat>): (r: seq<nat>)
    ensures |r| <= |ids|
    ensures forall i :: 0 <= i < |r| ==> r[i] in keys && r[i] in ids
    decreases |ids|
  {
    if |ids| == 0 then []
    else
      assert forall x :: x in ids[..|ids| - 1] ==> x in ids;
      PresentIn(ids[..|ids| - 1], keys) + (if ids[|ids| - 1] in keys then [ids[|ids| - 1]] else [])
  }

  /** One more due id is one more respawn, and one more report when the player is present. */
  lemma RespawnPrefix(players: map<nat, Player>, due: seq<nat>, i: nat)
    requires i < |due|
    ensures var prev := RespawnedAll(players, due[..i]);
      RespawnedAll(players, due[..i + 1]) == if due[i] in prev then prev[due[i] := Respawned(prev[due[i]])] else prev
    ensures PresentIn(due[..i + 1], players.Keys)
         == PresentIn(due[..i], players.Keys) + (if due[i] in players then [due[i]] else [])
  {
    assert due[..i + 1][..i] == due[..i];
  }

  /**
   * Respawning the listed players one by one is respawning the set of them
   * once: a player listed twice is not changed by the second respawn.
   */
  lemma {:induction false} RespawnedAllOnce(players: map<nat, Player>, ids: seq<nat>)
    ensures RespawnedAll(players, ids) == RespawnedIn(players, Elems(ids))
    decreases |ids|
  {
    if |ids| == 0 {
      assert RespawnedIn(players, Elems(ids)) == players;
    } else {
      var init, id := ids[..|ids| - 1], ids[|ids| - 1];
      RespawnedAllOnce(players, init);
      assert ids == init + [id];
      ElemsSnoc(init, id);
      if id in players {
        RespawnOneMore(players, Elems(init), id);
      } else {
        RespawnAbsent(players, Elems(init), id);
      }
    }
  }

  /** The reported ids are exactly the listed ids that are present. */
  lemma {:induction false} PresentElems(ids: seq<nat>, keys: set<nat>)
    ensures Elems(PresentIn(ids, keys)) == Elems(ids) * keys
    decreases |ids|
  {
    if |ids| > 0 {
      var init, id := ids[..|ids| - 1], ids[|ids| - 1];
      PresentElems(init, keys);
      assert ids == init + [id];
      ElemsSnoc(init, id);
      assert PresentIn(ids, keys) == PresentIn(init, keys) + (if id in keys then [id] else []);
      if id in keys {
        ElemsSnoc(PresentIn(init, keys), id);
      } else {
        assert PresentIn(ids, keys) == PresentIn(init, keys);
      }
    }
  }

  /** One round of the respawn loop: respawns `due[i]` if it is still present and reports it. */
  method RespawnNext(lobby: Lobby, ghost before: Tables, due: seq<nat>, i: nat, respawned: seq<nat>) returns (next: seq<nat>)
    requires i < |due|
    requires lobby.Valid()
    requires lobby.players == RespawnedAll(before.players, due[..i])
    requires respawned == PresentIn(due[..i], before.players.Keys)
    requires forall x :: x in lobby.dirtyPlayers <==> x in before.dirtyPlayers || x in respawned
    modifies lobby
    ensures lobby.Valid()
    ensures lobby.players == RespawnedAll(before.players, due[..i + 1])
    ensures next == PresentIn(due[..i + 1], before.players.Keys)
    ensures forall x :: x in lobby.dirtyPlayers <==> x in before.dirtyPlayers || x in next
    ensures lobby.clientAddresses == old(lobby.clientAddresses)
    ensures lobby.lastSyncState == old(lobby.lastSyncState)
  {
    var id := due[i];
    RespawnPrefix(before.players, due, i);
    ghost var prev := lobby.players;
    var r := RespawnPlayer(lobby, id);
    assert lobby.players == if id in prev then prev[id := Respawned(prev[id])] else prev;
    next := respawned;
    if r.Ok? {
      next := respawned + [id];
    }
  }

  /** Respawns each listed player that is in the lobby and reports those respawned, in list order. */
  method RespawnAll(lobby: Lobby, due: seq<nat>) returns (respawned: seq<nat>)
    requires lobby.Valid()
    modifies lobby
    ensures lobby.Valid()
    ensures respawned == PresentIn(due, old(lobby.players).Keys)
    ensures Elems(respawned) == Elems(due) * old(lobby.players).Keys
    ensures lobby.players == RespawnedIn(old(lobby.players), Elems(due))
    ensures lobby.dirtyPlayers == old(lobby.dirtyPlayers) + Elems(respawned)
    ensures lobby.clientAddresses == old(lobby.clientAddresses)
    ensures lobby.lastSyncState == old(lobby.lastSyncState)
  {
    ghost var before := lobby.State();
    respawned := [];
    var i := 0;
    while i < |due|
      invariant 0 <= i <= |due|
      invariant lobby.Valid()
      invariant lobby.players == RespawnedAll(before.players, due[..i])
      invariant respawned == PresentIn(due[..i], before.players.Keys)
      invariant forall x :: x in lobby.dirtyPlayers <==> x in before.dirtyPlayers || x in respawned
      invariant lobby.clientAddresses == before.clientAddresses
      invariant lobby.lastSyncState == before.lastSyncState
    {
      respawned := RespawnNext(lobby, before, due, i, respawned);
      i := i + 1;
    }
    assert due[..i] == due;
    RespawnedAllOnce(before.players, due);
    PresentElems(due, before.players.Keys);
    assert lobby.dirtyPlayers == before.dirtyPlayers + Elems(respawned);
  }

  // --------------------------------------------------------- session records

  /** The session a player has played so far in this lobby, as of `now`. */
  function SessionOf(p: Player, now: nat): (s: Session)
    ensures s.kills == p.kills && s.deaths == p.deaths && s.score == p.score && s.at == now
  {
    Session(p.kills, p.deaths, p.score, now)
  }

  /** The stats table after recording, in order, a session for each listed id found in `players`. */
  function LeaversRecorded(stats: map<nat, GlobalPlayerStats>, players: map<nat, Player>, left: seq<nat>, now: nat)
    : map<nat, GlobalPlayerStats>
    decreases |left|
  {
    if |left| == 0 then stats
    else
      var before := LeaversRecorded(stats, players, left[..|left| - 1], now);
      var id := left[|left| - 1];
      if id in players then WithSession(before, id, players[id].name, SessionOf(players[id], now))
      else before
  }

  /**
   * Only listed ids still found in the player table get a record; each gets
   * one game per time it is listed, under its current name, and every other
   * entry is left as it was.
   */
  lemma {:induction false} LeaversRecordedExactly(stats: map<nat, GlobalPlayerStats>, players: map<nat, Player>, left: seq<nat>, now: nat)
    ensures var r := LeaversRecorded(stats, players, left, now);
      && (forall id :: id in stats ==> id in r)
      && (forall id :: id in r && !(id in left && id in players) ==> id in stats && r[id] == stats[id])
      && (forall id :: id in left && id in players ==>
            && id in r
            && r[id].name == players[id].name
            && r[id].gamesPlayed == (if id in stats then stats[id].gamesPlayed else 0) + multiset(left)[id])
    decreases |left|
  {
    if |left| > 0 {
      var init := left[..|left| - 1];
      LeaversRecordedExactly(stats, players, init, now);
      assert left == init + [left[|left| - 1]];
      forall id | id in init
        ensures id in left
      {
      }
    }
  }

  /** Records a session for each listed id found in `players`. */
  method RecordLeavers(stats: GlobalStats, players: map<nat, Player>, left: seq<nat>, now: nat)
    requires stats.Valid()
    requires forall id :: id in players ==> players[id].id == id
    modifies stats
    ensures stats.Valid()
    ensures stats.players == LeaversRecorded(old(stats.players), players, left, now)
  {
    var i := 0;
    while i < |left|
      invariant 0 <= i <= |left|
      invariant stats.Valid()
      invariant stats.players == LeaversRecorded(old(stats.players), players, left[..i], now)
    {
      var id := left[i];
      assert left[..i + 1][..i] == left[..i];
      if id in players {
        var p := players[id];
        stats.RecordSession(p.id, p.name, p.kills, p.deaths, p.score, now);
      }
      i := i + 1;
    }
    assert left[..i] == left;
  }

  // --------------------------------------------------------------- the tick

  /** What a tick hands to the broadcasters. */
  datatype TickReport = TickReport(
    joined: seq<(nat, string)>,
    left: seq<nat>,
    moved: seq<nat>,
    respawned: seq<nat>,
    removed: seq<nat>,
    warned: seq<nat>)

  /** Half the inactivity timeout, in whole seconds: the tick's warning threshold. */
  function HalfTimeout(timeoutSecs: nat): (w: nat)
    ensures 2 * w <= timeoutSecs < 2 * w + 2
  {
    timeoutSecs / 2
  }

  /** Nobody in `after` is dead who was not already dead in `before`. */
  ghost predicate NoNewDeaths(before: map<nat, Player>, after: map<nat, Player>) {
    forall id :: id in after && after[id].isDead ==> id in before && before[id].isDead
  }

  /** Completing reloads kills and revives no one. */
  lemma ReloadsKeepDeaths(before: map<nat, Player>, after: map<nat, Player>, now: nat)
    requires after.Keys == before.Keys
    requires forall id :: id in after ==>
      after[id] == if ReloadDue(before[id], now) then Reloaded(before[id]) else before[id]
    ensures NoNewDeaths(before, after)
  {
    forall id | id in after && after[id].isDead
      ensures id in before && before[id].isDead
    {
      if ReloadDue(before[id], now) {
        assert after[id].isDead == Reloaded(before[id]).isDead;
      }
    }
  }

  /** Respawning leaves the dead flag alone, so it kills no one. */
  lemma RespawnsKeepDeaths(players: map<nat, Player>, ids: set<nat>)
    ensures NoNewDeaths(players, RespawnedIn(players, ids))
  {
  }

  /** The idle sweep only removes players and stamps warnings, so it kills no one. */
  lemma SweepKeepsDeaths(before: map<nat, Player>, after: map<nat, Player>, warned: set<nat>, now: nat)
    requires after.Keys <= before.Keys
    requires forall id :: id in after ==>
      after[id] == if id in warned then before[id].(warnedAt := Some(now)) else before[id]
    ensures NoNewDeaths(before, after)
  {
  }

  /** The players once every due reload has completed: the first timed step of a tick. */
  ghost function ReloadsDone(players: map<nat, Player>, now: nat): map<nat, Player> {
    map id | id in players :: if ReloadDue(players[id], now) then Reloaded(players[id]) else players[id]
  }

  /** The players whose reload is due. */
  ghost function ReloadsDueIds(players: map<nat, Player>, now: nat): set<nat> {
    set id | id in players && ReloadDue(players[id], now)
  }

  /** The dead players whose respawn time has come. */
  ghost function RespawnsDueIds(players: map<nat, Player>, now: nat): set<nat> {
    set id | id in players && RespawnDue(players[id], now)
  }

  /** The players the sweep removes. */
  ghost function TimedOutIds(players: map<nat, Player>, now: nat, timeoutSecs: nat): set<nat> {
    set id | id in players && TimedOut(id, players[id], now, timeoutSecs)
  }

  /** The players the sweep warns, at half the timeout. */
  ghost function WarningIds(players: map<nat, Player>, now: nat, timeoutSecs: nat): set<nat> {
    set id | id in players && DueWarning(id, players[id], now, timeoutSecs, HalfTimeout(timeoutSecs))
  }

  /** The players after the sweep: the timed-out ones are gone and the warned ones stamped. */
  ghost function Swept(players: map<nat, Player>, now: nat, timeoutSecs: nat): map<nat, Player> {
    WarnedIn(players - TimedOutIds(players, now, timeoutSecs), WarningIds(players, now, timeoutSecs), now)
  }

  /** The players after the timed part of a tick: reloads complete, then due players respawn, then the sweep. */
  ghost function Housekept(players: map<nat, Player>, now: nat, timeoutSecs: nat): map<nat, Player> {
    var reloaded := ReloadsDone(players, now);
    Swept(RespawnedIn(reloaded, RespawnsDueIds(reloaded, now)), now, timeoutSecs)
  }

  /**
   * The lists the timed part of a tick reports, starting from `players`:
   * whom it respawned, removed and warned, each once, each exactly the
   * players the step before left due.
   */
  ghost predicate HousekeepingReport(players: map<nat, Player>, now: nat, timeoutSecs: nat,
                                     respawned: seq<nat>, removed: seq<nat>, warned: seq<nat>) {
    var reloaded := ReloadsDone(players, now);
    var revived := RespawnedIn(reloaded, RespawnsDueIds(reloaded, now));
    && Distinct(respawned) && Elems(respawned) == RespawnsDueIds(reloaded, now)
    && Distinct(removed) && Elems(removed) == TimedOutIds(revived, now, timeoutSecs)
    && Distinct(warned) && Elems(warned) == WarningIds(revived, now, timeoutSecs)
  }

  /** The reload pass, described pointwise, is `ReloadsDone`, and it reports the due reloads. */
  lemma ReloadsExactly(before: map<nat, Player>, after: map<nat, Player>, completed: seq<nat>, now: nat)
    requires after.Keys == before.Keys
    requires forall id :: id in after ==>
      after[id] == if ReloadDue(before[id], now) then Reloaded(before[id]) else before[id]
    requires forall id :: id in completed <==> id in before && ReloadDue(before[id], now)
    ensures after == ReloadsDone(before, now)
    ensures Elems(completed) == ReloadsDueIds(before, now)
  {
  }

  /** The sweep, described pointwise with warnings at half the timeout, is `Swept`. */
  lemma SweptExactly(before: map<nat, Player>, after: map<nat, Player>, removed: seq<nat>, warned: seq<nat>,
                     now: nat, timeoutSecs: nat)
    requires forall id :: id in removed <==> id in before && TimedOut(id, before[id], now, timeoutSecs)
    requires forall id :: id in warned <==>
      id in before && DueWarning(id, before[id], now, timeoutSecs, HalfTimeout(timeoutSecs))
    requires after.Keys == before.Keys - Elems(removed)
    requires forall id :: id in after ==>
      after[id] == if id in warned then before[id].(warnedAt := Some(now)) else before[id]
    ensures Elems(removed) == TimedOutIds(before, now, timeoutSecs)
    ensures Elems(warned) == WarningIds(before, now, timeoutSecs)
    ensures after == Swept(before, now, timeoutSecs)
  {
    assert Elems(removed) == TimedOutIds(before, now, timeoutSecs);
    assert Elems(warned) == WarningIds(before, now, timeoutSecs);
  }

  /** Filtering a list down to the ids present keeps all of it when every id is present. */
  lemma {:induction false} PresentAll(ids: seq<nat>, keys: set<nat>)
    requires forall id :: id in ids ==> id in keys
    ensures PresentIn(ids, keys) == ids
    decreases |ids|
  {
    if |ids| > 0 {
      assert forall id :: id in ids[..|ids| - 1] ==> id in ids;
      PresentAll(ids[..|ids| - 1], keys);
      assert ids == ids[..|ids| - 1] + [ids[|ids| - 1]];
    }
  }

  /** The timed part of a tick kills no one. */
  lemma HousekeptKillsNoOne(players: map<nat, Player>, now: nat, timeoutSecs: nat)
    ensures NoNewDeaths(players, Housekept(players, now, timeoutSecs))
  {
    var reloaded := ReloadsDone(players, now);
    ReloadsKeepDeaths(players, reloaded, now);
    var ids := RespawnsDueIds(reloaded, now);
    RespawnsKeepDeaths(reloaded, ids);
    var revived := RespawnedIn(reloaded, ids);
    SweepKeepsDeaths(revived, Swept(revived, now, timeoutSecs), WarningIds(revived, now, timeoutSecs), now);
  }

  /**
   * The timed part of a tick: reloads that are due complete, dead players
   * whose time has come respawn, and idle players are swept, warned at half
   * the timeout. The reloaded and respawned players are flagged for sync;
   * the removed ones lose their addresses and sync state.
   */
  method Housekeeping(lobby: Lobby, now: nat, timeoutSecs: nat)
    returns (respawned: seq<nat>, removed: seq<nat>, warned: seq<nat>)
    requires lobby.Valid()
    modifies lobby
    ensures lobby.Valid()
    ensures lobby.players == Housekept(old(lobby.players), now, timeoutSecs)
    ensures HousekeepingReport(old(lobby.players), now, timeoutSecs, respawned, removed, warned)
    ensures forall id :: id in removed ==> id !in warned
    ensures lobby.clientAddresses == old(lobby.clientAddresses) - Elems(removed)
    ensures lobby.lastSyncState == old(lobby.lastSyncState) - Elems(removed)
    ensures lobby.dirtyPlayers == old(lobby.dirtyPlayers) + ReloadsDueIds(old(lobby.players), now) + Elems(respawned)
    ensures NoNewDeaths(old(lobby.players), lobby.players)
  {
    ghost var p0 := lobby.players;
    var completed := UpdateReloadStates(lobby, now);
    ReloadsExactly(p0, lobby.players, completed, now);

    ghost var p1 := lobby.players;
    var due := SelectRespawns(lobby.players, now);
    assert Elems(due) == RespawnsDueIds(p1, now);
    respawned := RespawnAll(lobby, due);
    PresentAll(due, p1.Keys);

    ghost var p2 := lobby.players;
    removed, warned := CleanupInactive(lobby, now, timeoutSecs, HalfTimeout(timeoutSecs));
    SweptExactly(p2, lobby.players, removed, warned, now, timeoutSecs);
    HousekeptKillsNoOne(p0, now, timeoutSecs);
  }

  /** The end of a tick: sessions are recorded for the leavers still in the lobby, then the dirty set is cleared. */
  method Conclude(lobby: Lobby, stats: GlobalStats?, left: seq<nat>, now: nat)
    requires lobby.Valid()
    requires stats != null ==> stats.Valid()
    modifies lobby`dirtyPlayers, stats
    ensures lobby.Valid()
    ensures lobby.players == old(lobby.players)
    ensures lobby.clientAddresses == old(lobby.clientAddresses) && lobby.lastSyncState == old(lobby.lastSyncState)
    ensures lobby.dirtyPlayers == {}
    ensures stats != null ==>
      stats.Valid() && stats.players == LeaversRecorded(old(stats.players), lobby.players, left, now)
  {
    if stats != null {
      RecordLeavers(stats, lobby.players, left, now);
    }
    lobby.ClearDirty();
  }

  /**
   * One tick of a lobby: the drained commands are applied in order, then the
   * timed housekeeping runs, sessions are recorded for the leavers still
   * found in the lobby at the end, and the dirty set is cleared. No player
   * dies during a tick. `commanded` is the lobby's tables once the commands
   * have been applied.
   */
  method Tick(lobby: Lobby, db: WeaponDb, stats: GlobalStats?, cmds: seq<Command>, now: nat, timeoutSecs: nat)
    returns (report: TickReport, ghost commanded: Tables)
    requires lobby.Valid()
    requires stats != null ==> stats.Valid()
    modifies lobby, stats
    ensures lobby.Valid()
    ensures commanded == StepAll(old(lobby.State()), lobby.maxPlayers, db, cmds, now)
    ensures lobby.players == Housekept(commanded.players, now, timeoutSecs)
    ensures HousekeepingReport(commanded.players, now, timeoutSecs, report.respawned, report.removed, report.warned)
    ensures lobby.clientAddresses == commanded.clientAddresses - Elems(report.removed)
    ensures lobby.lastSyncState == commanded.lastSyncState - Elems(report.removed)
    ensures lobby.dirtyPlayers == {}
    ensures report.joined == JoinsOf(cmds) && report.moved == MovesOf(cmds)
    ensures report.left == LeavesOf(cmds) + report.removed
    ensures forall id :: id in report.removed ==> id !in report.warned
    ensures NoNewDeaths(old(lobby.players), lobby.players)
    ensures stats != null ==>
      stats.Valid() && stats.players == LeaversRecorded(old(stats.players), lobby.players, report.left, now)
  {
    ghost var start := lobby.State();
    var joined, left, moved := ProcessCommands(lobby, db, cmds, now);
    commanded := lobby.State();
    CommandsNeverKill(start, lobby.maxPlayers, db, cmds, now);

    var respawned, removed, warned := Housekeeping(lobby, now, timeoutSecs);
    left := left + removed;
    Conclude(lobby, stats, left, now);
    report := TickReport(joined, left, moved, respawned, removed, warned);
  }

  // ------------------------------------------------------------- broadcasts

  /** A change the lobby tells its clients about, apart from the incremental state sync. */
  datatype Notice =
    | JoinNotice(playerId: nat, name: string)
    | LeaveNotice(playerId: nat)
    | PositionNotice(playerId: nat, position: Vec3, rotation: Vec3)
    | KillNotice(kill: KillEvent)
    | RespawnNotice(playerId: nat)
    | StateNotice(event: SyncEvent)

  /** Who is sent a notice: every bound address, or every one but the subject's. */
  datatype Audience = Everyone | AllBut(subject: nat)

  /** Joins and moves are not echoed to the player they are about; everything else goes to all. */
  function AudienceOf(n: Notice): (a: Audience)
    ensures a.AllBut? <==> n.JoinNotice? || n.PositionNotice?
    ensures a.AllBut? ==> a.subject == n.playerId
  {
    match n
    case JoinNotice(id, _) => AllBut(id)
    case PositionNotice(id, _, _) => AllBut(id)
    case _ => Everyone
  }

  /** The bound addresses a notice is sent to. */
  function Recipients(addrs: map<nat, Addr>, n: Notice): (r: map<nat, Addr>)
    ensures forall id :: id in r <==> id in addrs && !((n.JoinNotice? || n.PositionNotice?) && id == n.playerId)
    ensures forall id :: id in r ==> r[id] == addrs[id]
  {
    match AudienceOf(n)
    case Everyone => addrs
    case AllBut(subject) => addrs - {subject}
  }

  /** Position notices for the listed movers still in the lobby, in order, with their current pose. */
  function PositionNotices(players: map<nat, Player>, moved: seq<nat>): (r: seq<Notice>)
    ensures |r| == |PresentIn(moved, players.Keys)|
    ensures forall i :: 0 <= i < |r| ==>
      var id := PresentIn(moved, players.Keys)[i];
      r[i] == PositionNotice(id, players[id].position, players[id].rotation)
    ensures forall n :: n in r ==>
      n.PositionNotice? && n.playerId in players
      && n.position == players[n.playerId].position && n.rotation == players[n.playerId].rotation
    ensures forall id :: id in moved && id in players ==>
      PositionNotice(id, players[id].position, players[id].rotation) in r
    decreases |moved|
  {
    if |moved| == 0 then []
    else
      var id := moved[|moved| - 1];
      var init := PositionNotices(players, moved[..|moved| - 1]);
      assert forall x :: x in moved ==> x in moved[..|moved| - 1] || x == id;
      if id in players then init + [PositionNotice(id, players[id].position, players[id].rotation)] else init
  }

  // ----------------------------------------------------------- state events

  /** One incremental change to a player's synced state. */
  datatype SyncEvent =
    | HealthChanged(playerId: nat, health: nat)
    | AmmoChanged(playerId: nat, ammo: nat)
    | MaxAmmoChanged(playerId: nat, maxAmmo: nat)
    | WeaponChanged(playerId: nat, weaponId: nat)
    | ReloadStateChanged(playerId: nat, isReloading: bool)
    | PositionChanged(playerId: nat)
    | PlayerKilled(kill: KillEvent)
    | PlayerRespawned(playerId: nat)
    | ScoreChanged(playerId: nat, score: nat, kills: nat, deaths: nat, killstreak: nat)
    | PlayerKicked(playerId: nat, reason: string)
    | InactivityWarning(playerId: nat, secondsRemaining: nat)

  const StateUpdatePacket: string := "player_state_update"

  /** The packet type a state event is sent as; position changes are not sent this way. */
  function PacketType(e: SyncEvent): (r: Option<string>)
    ensures r.None? <==> e.PositionChanged?
    ensures r == Some(StateUpdatePacket) <==> e.HealthChanged? || e.AmmoChanged? || e.MaxAmmoChanged?
    ensures e.ReloadStateChanged? ==> r == Some(if e.isReloading then "reload_started" else "reload_finished")
  {
    match e
    case HealthChanged(_, _) => Some(StateUpdatePacket)
    case AmmoChanged(_, _) => Some(StateUpdatePacket)
    case MaxAmmoChanged(_, _) => Some(StateUpdatePacket)
    case WeaponChanged(_, _) => Some("weapon_switched")
    case ReloadStateChanged(_, isReloading) => if isReloading then Some("reload_started") else Some("reload_finished")
    case PositionChanged(_) => None
    case PlayerKilled(_) => Some("player_killed")
    case PlayerRespawned(_) => Some("player_respawned")
    case ScoreChanged(_, _, _, _, _) => Some("score_update")
    case PlayerKicked(_, _) => Some("player_kicked")
    case InactivityWarning(_, _) => Some("inactivity_warning")
  }

  /** The number of position changes among the events. */
  function PositionChanges(events: seq<SyncEvent>): nat
    decreases |events|
  {
    if |events| == 0 then 0
    else PositionChanges(events[..|events| - 1]) + (if events[|events| - 1].PositionChanged? then 1 else 0)
  }

  /**
   * The packets a batch of state events turns into, in order: one per event
   * except position changes, which are skipped, each typed by PacketType.
   */
  function StatePackets(events: seq<SyncEvent>): (r: seq<(string, SyncEvent)>)
    ensures |r| == |events| - PositionChanges(events)
    ensures forall i :: 0 <= i < |r| ==> !r[i].1.PositionChanged? && PacketType(r[i].1) == Some(r[i].0)
    ensures forall i :: 0 <= i < |r| ==> r[i].1 in events
    decreases |events|
  {
    if |events| == 0 then []
    else
      var init := StatePackets(events[..|events| - 1]);
      var e := events[|events| - 1];
      assert forall x :: x in events[..|events| - 1] ==> x in events;
      match PacketType(e)
      case None => init
      case Some(t) => init + [(t, e)]
  }
  /** The packets of two runs of events, one after the other, are the packets of each run in that order. */
  lemma {:induction false} StatePacketsAppend(a: seq<SyncEvent>, b: seq<SyncEvent>)
    ensures StatePackets(a + b) == StatePackets(a) + StatePackets(b)
    decreases |b|
  {
    if |b| == 0 {
      assert a + b == a;
    } else {
      var init := b[..|b| - 1];
      assert (a + b)[..|a + b| - 1] == a + init;
      assert (a + b)[|a + b| - 1] == b[|b| - 1];
      StatePacketsAppend(a, init);
    }
  }

  /** A single event gives no packet when it is a position change, and otherwise one packet of its type carrying it. */
  lemma StatePacketsOne(e: SyncEvent)
    ensures StatePackets([e]) == if e.PositionChanged? then [] else [(PacketType(e).value, e)]
  {
    assert [e][..0] == [];
  }

}
