/**
 * The per-lobby state every other module works on: the player record, the
 * address a player's datagrams come from, and the lobby object itself with its
 * dirty set.
 */
module LobbyState {
  import opened Common

  /** A position or rotation triple; the model only copies these. */
  datatype Vec3 = Vec3(x: real, y: real, z: real)

  const SpawnPosition: Vec3 := Vec3(0.0, 1.0, 0.0)
  const ZeroRotation: Vec3 := Vec3(0.0, 0.0, 0.0)

  /** A UDP peer address. */
  datatype Addr = Addr(host: string, port: nat)

  /** What the last state sync told the clients about a player. */
  datatype SyncSnapshot = SyncSnapshot(
    health: nat,
    ammo: nat,
    maxAmmo: nat,
    weaponId: nat,
    isReloading: bool)

  /** The id of the server-side dummy bot, which inactivity never removes. */
  const BotId: nat := 999

  /** One player of a lobby. Times are milliseconds since the epoch. */
  datatype Player = Player(
    id: nat,
    name: string,
    position: Vec3,
    rotation: Vec3,
    lastUpdate: nat,
    currentHealth: nat,
    maxHealth: nat,
    currentWeaponId: nat,
    currentAmmo: nat,
    maxAmmo: nat,
    isReloading: bool,
    reloadEndTime: Option<nat>,
    lastShotTime: nat,
    kills: nat,
    deaths: nat,
    score: nat,
    killstreak: nat,
    warnedAt: Option<nat>,
    isDead: bool,
    respawnTime: Option<nat>)
  {
    /**
     * What every operation keeps true of a player: health and ammo never
     * exceed their maxima, a reload in progress always has an end time, and a
     * dead player always has a respawn time.
     */
    ghost predicate Valid() {
      && currentHealth <= maxHealth
      && currentAmmo <= maxAmmo
      && (isReloading <==> reloadEndTime.Some?)
      && (isDead <==> respawnTime.Some?)
    }
  }

  /** The four tables of a lobby that change over its life, as one value. */
  datatype Tables = Tables(
    players: map<nat, Player>,
    clientAddresses: map<nat, Addr>,
    lastSyncState: map<nat, SyncSnapshot>,
    dirtyPlayers: set<nat>)

  /**
   * One lobby. Code, capacity and scene are fixed at creation; the player
   * table, the address table, the last-synced snapshots and the dirty set are
   * updated in place.
   */
  class Lobby {
    const code: string
    const maxPlayers: nat
    const scene: string
    var players: map<nat, Player>
    var clientAddresses: map<nat, Addr>
    var lastSyncState: map<nat, SyncSnapshot>
    var dirtyPlayers: set<nat>

    /**
     * The lobby invariant: never more players than seats, an address only for
     * an admitted player, and every player filed under its own id.
     */
    ghost predicate Valid()
      reads this
    {
      && |players| <= maxPlayers
      && clientAddresses.Keys <= players.Keys
      && forall id :: id in players ==> players[id].id == id && players[id].Valid()
    }

    /** The lobby's changing tables, taken together. */
    function State(): Tables
      reads this
    {
      Tables(players, clientAddresses, lastSyncState, dirtyPlayers)
    }

    constructor (code: string, maxPlayers: nat, scene: string)
      ensures Valid()
      ensures this.code == code && this.maxPlayers == maxPlayers && this.scene == scene
      ensures players == map[] && clientAddresses == map[] && lastSyncState == map[]
      ensures dirtyPlayers == {}
    {
      this.code := code;
      this.maxPlayers := maxPlayers;
      this.scene := scene;
      players := map[];
      clientAddresses := map[];
      lastSyncState := map[];
      dirtyPlayers := {};
    }

    /** Flags a player whose state must be sent in the next sync. */
    method MarkDirty(id: nat)
      modifies this`dirtyPlayers
      ensures dirtyPlayers == old(dirtyPlayers) + {id}
    {
      dirtyPlayers := dirtyPlayers + {id};
    }

    /** Flags every player in `ids`. */
    method MarkAllDirty(ids: seq<nat>)
      modifies this`dirtyPlayers
      ensures dirtyPlayers == old(dirtyPlayers) + Elems(ids)
    {
      var i := 0;
      while i < |ids|
        invariant 0 <= i <= |ids|
        invariant dirtyPlayers == old(dirtyPlayers) + Elems(ids[..i])
      {
        MarkDirty(ids[i]);
        assert Elems(ids[..i + 1]) == Elems(ids[..i]) + {ids[i]};
        i := i + 1;
      }
      assert ids[..i] == ids;
    }

    /** Forgets every flag once the tick has sent its sync. */
    method ClearDirty()
      modifies this`dirtyPlayers
      ensures dirtyPlayers == {}
    {
      dirtyPlayers := {};
    }
  }
}
