/**
 * The HTTP handlers over the server's lobby registry: creating and joining
 * lobbies, describing them, and the lobby and global leaderboards. Each
 * handler either answers with a body or fails with a status code.
 */
module Http {
  import opened Common
  import opened Weapons
  import opened LobbyState
  import opened Lobbies
  import opened Ranking
  import opened GlobalStatsState

  /** The failure statuses these handlers answer with. */
  datatype Status = NotFound | Conflict | BadRequest

  const DefaultMaxPlayers: nat := 4
  const DefaultScene: string := "world"
  const ServerIp: string := "127.0.0.1"
  /** The global leaderboard lists this many players at most. */
  const GlobalLeaderboardSize: nat := 20

  datatype PlayerInfo = PlayerInfo(id: nat, name: string)

  datatype LobbyInfo = LobbyInfo(
    code: string,
    playerCount: nat,
    maxPlayers: nat,
    players: seq<PlayerInfo>,
    serverIp: string,
    udpPort: nat,
    scene: string)

  datatype JoinLobbyResponse = JoinLobbyResponse(lobby: LobbyInfo, playerId: nat)

  datatype LeaderboardEntry = LeaderboardEntry(
    playerId: nat,
    name: string,
    score: nat,
    kills: nat,
    deaths: nat,
    killstreak: nat)

  datatype LeaderboardResponse = LeaderboardResponse(lobbyCode: string, entries: seq<LeaderboardEntry>)

  /** A player's standing in one lobby, as the stats endpoint reports it. */
  datatype PlayerStats = PlayerStats(playerId: nat, name: string, totalKills: nat, totalDeaths: nat, totalScore: nat)

  /** A row of the global leaderboard. */
  datatype GlobalLeaderboardEntry = GlobalLeaderboardEntry(
    playerId: nat,
    name: string,
    totalKills: nat,
    totalDeaths: nat,
    totalScore: nat,
    gamesPlayed: nat)

  // ------------------------------------------------------------ descriptions

  /** `roster` lists every player of `players` exactly once, by id and name. */
  ghost predicate RosterOf(roster: seq<PlayerInfo>, players: map<nat, Player>) {
    && |roster| == |players|
    && (forall i :: 0 <= i < |roster| ==> roster[i].id in players && roster[i].name == players[roster[i].id].name)
    && (forall i, j :: 0 <= i < j < |roster| ==> roster[i].id != roster[j].id)
    && (forall id :: id in players ==> PlayerInfo(id, players[id].name) in roster)
  }

  /** The id and name of every player, in no particular order. */
  method Roster(players: map<nat, Player>) returns (roster: seq<PlayerInfo>)
    ensures RosterOf(roster, players)
  {
    roster := [];
    var todo := players.Keys;
    while todo != {}
      invariant todo <= players.Keys
      invariant |roster| + |todo| == |players|
      invariant forall i :: 0 <= i < |roster| ==>
        roster[i].id in players && roster[i].id !in todo && roster[i].name == players[roster[i].id].name
      invariant forall i, j :: 0 <= i < j < |roster| ==> roster[i].id != roster[j].id
      invariant forall id :: id in players && id !in todo ==> PlayerInfo(id, players[id].name) in roster
      decreases todo
    {
      var id :| id in todo;
      roster := roster + [PlayerInfo(id, players[id].name)];
      todo := todo - {id};
    }
  }

  /** `info` describes `lobby` as it stands: code, seats, scene, and a player count that is the roster's length. */
  ghost predicate Describes(info: LobbyInfo, lobby: Lobby, udpPort: nat)
    reads lobby
  {
    && info.code == lobby.code && info.maxPlayers == lobby.maxPlayers && info.scene == lobby.scene
    && info.serverIp == ServerIp && info.udpPort == udpPort
    && info.playerCount == |lobby.players| == |info.players|
    && RosterOf(info.players, lobby.players)
  }

  /** The description of a lobby every lobby endpoint returns. */
  method Describe(lobby: Lobby, udpPort: nat) returns (info: LobbyInfo)
    ensures Describes(info, lobby, udpPort)
  {
    var roster := Roster(lobby.players);
    info := LobbyInfo(lobby.code, |lobby.players|, lobby.maxPlayers, roster, ServerIp, udpPort, lobby.scene);
  }

  /** A lobby leaderboard row for a player. */
  function EntryOf(p: Player): (e: LeaderboardEntry)
    ensures e.playerId == p.id && e.name == p.name && e.score == p.score
    ensures e.kills == p.kills && e.deaths == p.deaths && e.killstreak == p.killstreak
  {
    LeaderboardEntry(p.id, p.name, p.score, p.kills, p.deaths, p.killstreak)
  }

  function EntryScore(e: LeaderboardEntry): nat { e.score }
  function EntryId(e: LeaderboardEntry): nat { e.playerId }

  /** `rows` holds one row for each player but the bot, and nothing else. */
  ghost predicate RowsOf(rows: seq<LeaderboardEntry>, players: map<nat, Player>) {
    && (forall i :: 0 <= i < |rows| ==>
          rows[i].playerId in players && rows[i].playerId != BotId && rows[i] == EntryOf(players[rows[i].playerId]))
    && (forall i, j :: 0 <= i < j < |rows| ==> rows[i].playerId != rows[j].playerId)
    && (forall id :: id in players && id != BotId ==> EntryOf(players[id]) in rows)
  }

  /** Any reordering of a lobby's leaderboard rows is still exactly its rows. */
  lemma RowsReordered(rows: seq<LeaderboardEntry>, entries: seq<LeaderboardEntry>, players: map<nat, Player>)
    requires RowsOf(rows, players)
    requires multiset(entries) == multiset(rows)
    ensures RowsOf(entries, players)
  {
    forall i | 0 <= i < |entries|
      ensures entries[i] in rows
    {
      assert entries[i] in multiset(entries);
    }
    forall i, j | 0 <= i < j < |entries|
      ensures entries[i].playerId != entries[j].playerId
    {
      DistinctKeysSurviveRanking(rows, entries, EntryId, i, j);
    }
    forall id | id in players && id != BotId
      ensures EntryOf(players[id]) in entries
    {
      assert EntryOf(players[id]) in multiset(rows);
    }
  }

  /** The leaderboard rows of every player but the bot, in no particular order. */
  method LeaderboardRows(players: map<nat, Player>) returns (rows: seq<LeaderboardEntry>)
    requires forall id :: id in players ==> players[id].id == id
    ensures RowsOf(rows, players)
  {
    rows := [];
    var todo := players.Keys;
    while todo != {}
      invariant todo <= players.Keys
      invariant forall i :: 0 <= i < |rows| ==>
        && rows[i].playerId in players && rows[i].playerId !in todo && rows[i].playerId != BotId
        && rows[i] == EntryOf(players[rows[i].playerId])
      invariant forall i, j :: 0 <= i < j < |rows| ==> rows[i].playerId != rows[j].playerId
      invariant forall id :: id in players && id !in todo && id != BotId ==> EntryOf(players[id]) in rows
      decreases todo
    {
      var id :| id in todo;
      var p := players[id];
      if p.id != BotId {
        rows := rows + [EntryOf(p)];
      }
      todo := todo - {id};
    }
  }

  /** The codes of a list of lobby descriptions. */
  function CodesOf(infos: seq<LobbyInfo>): (codes: set<string>)
    ensures forall i :: 0 <= i < |infos| ==> infos[i].code in codes
    ensures forall c :: c in codes ==> exists i :: 0 <= i < |infos| && infos[i].code == c
  {
    set i | 0 <= i < |infos| :: infos[i].code
  }

  // -------------------------------------------------------------- registry

  /** The description of each listed lobby, in the order listed. */
  method DescribeEach(registry: map<string, Lobby>, codes: seq<string>, udpPort: nat) returns (infos: seq<LobbyInfo>)
    requires forall c :: c in codes ==> c in registry
    ensures |infos| == |codes|
    ensures forall k :: 0 <= k < |codes| ==> Describes(infos[k], registry[codes[k]], udpPort)
  {
    infos := [];
    var i := 0;
    while i < |codes|
      invariant 0 <= i <= |codes|
      invariant |infos| == i
      invariant forall k :: 0 <= k < i ==> Describes(infos[k], registry[codes[k]], udpPort)
    {
      var info := Describe(registry[codes[i]], udpPort);
      infos := infos + [info];
      i := i + 1;
    }
  }

  /** The server's registry of lobbies by code, and the cross-session stats. */
  class ServerState {
    var lobbies: map<string, Lobby>
    const globalStats: GlobalStats

    /** Every lobby is filed under its own code and keeps its invariant; the stats table keeps its own. */
    ghost predicate Valid()
      reads this, lobbies.Values, globalStats
    {
      && (forall code :: code in lobbies ==> lobbies[code].code == code && lobbies[code].Valid())
      && globalStats.Valid()
    }

    constructor (globalStats: GlobalStats)
      requires globalStats.Valid()
      ensures Valid()
      ensures lobbies == map[] && this.globalStats == globalStats
    {
      lobbies := map[];
      this.globalStats := globalStats;
    }

    /**
     * Creates an empty lobby under a new code, with 4 seats and the "world"
     * scene unless told otherwise; a code already in use is a conflict.
     */
    method CreateLobby(code: string, maxPlayers: Option<nat>, scene: Option<string>, udpPort: nat)
      returns (r: Result<LobbyInfo, Status>)
      requires Valid()
      modifies this
      ensures Valid()
      ensures code in old(lobbies) ==> r == Err(Conflict) && lobbies == old(lobbies)
      ensures code !in old(lobbies) ==>
        && r == Ok(LobbyInfo(code, 0, maxPlayers.GetOr(DefaultMaxPlayers), [], ServerIp, udpPort, scene.GetOr(DefaultScene)))
        && lobbies.Keys == old(lobbies).Keys + {code}
        && (forall c :: c in old(lobbies) ==> lobbies[c] == old(lobbies)[c])
        && fresh(lobbies[code])
        && lobbies[code].maxPlayers == maxPlayers.GetOr(DefaultMaxPlayers)
        && lobbies[code].scene == scene.GetOr(DefaultScene)
        && lobbies[code].players == map[]
    {
      if code in lobbies {
        return Err(Conflict);
      }
      var lobby := new Lobby(code, maxPlayers.GetOr(DefaultMaxPlayers), scene.GetOr(DefaultScene));
      lobbies := lobbies[code := lobby];
      var info := Describe(lobby, udpPort);
      assert info.players == [];
      r := Ok(info);
    }

    /**
     * Admits a player, under the id the server allocated, to the lobby with
     * this code: an unknown code is not found, and any refusal by AddPlayer
     * (full, duplicate id, no default weapon) is a bad request.
     */
    method JoinLobby(code: string, playerId: nat, playerName: string, db: WeaponDb, now: nat, udpPort: nat)
      returns (r: Result<JoinLobbyResponse, Status>)
      requires Valid()
      modifies if code in lobbies then {lobbies[code]} else {}
      ensures Valid()
      ensures code !in lobbies ==> r == Err(NotFound)
      ensures code in lobbies ==>
        (r.Ok? <==> Admissible(old(lobbies[code].players), lobbies[code].maxPlayers, playerId, DefaultWeaponId, db))
      ensures code in lobbies && r.Err? ==> r.error == BadRequest && unchanged(lobbies[code])
      ensures r.Ok? ==>
        && lobbies[code].players == old(lobbies[code].players)[playerId := NewPlayer(playerId, playerName, DefaultWeaponId, db[DefaultWeaponId], now)]
        && lobbies[code].dirtyPlayers == old(lobbies[code].dirtyPlayers) + {playerId}
        && lobbies[code].clientAddresses == old(lobbies[code].clientAddresses)
        && lobbies[code].lastSyncState == old(lobbies[code].lastSyncState)
        && r.value.playerId == playerId
        && r.value.lobby.code == code
        && Describes(r.value.lobby, lobbies[code], udpPort)
        && PlayerInfo(playerId, playerName) in r.value.lobby.players
    {
      if code !in lobbies {
        return Err(NotFound);
      }
      var lobby := lobbies[code];
      var added := AddPlayer(lobby, playerId, playerName, DefaultWeaponId, db, now);
      if added.Err? {
        return Err(BadRequest);
      }
      var info := Describe(lobby, udpPort);
      assert lobby.players[playerId].name == playerName;
      r := Ok(JoinLobbyResponse(info, playerId));
    }

    /** Describes the lobby with this code, or reports it not found. */
    method GetLobby(code: string, udpPort: nat) returns (r: Result<LobbyInfo, Status>)
      requires Valid()
      ensures r.Err? <==> code !in lobbies
      ensures r.Err? ==> r.error == NotFound
      ensures r.Ok? ==> Describes(r.value, lobbies[code], udpPort)
    {
      if code !in lobbies {
        return Err(NotFound);
      }
      var info := Describe(lobbies[code], udpPort);
      r := Ok(info);
    }

    /** Describes every lobby once, in no particular order. */
    method ListLobbies(udpPort: nat) returns (infos: seq<LobbyInfo>)
      requires Valid()
      ensures |infos| == |lobbies|
      ensures forall i :: 0 <= i < |infos| ==> infos[i].code in lobbies && Describes(infos[i], lobbies[infos[i].code], udpPort)
      ensures forall i, j :: 0 <= i < j < |infos| ==> infos[i].code != infos[j].code
      ensures forall code :: code in lobbies ==> code in CodesOf(infos)
    {
      var codes := KeyList(lobbies);
      infos := DescribeEach(lobbies, codes, udpPort);
      forall i | 0 <= i < |infos|
        ensures infos[i].code == codes[i]
      {
        assert lobbies[codes[i]].code == codes[i];
      }
      forall code | code in lobbies
        ensures code in CodesOf(infos)
      {
        var k :| 0 <= k < |codes| && codes[k] == code;
        assert infos[k].code == code;
      }
    }

    /**
     * The lobby's players but the bot, best score first; an unknown code is
     * not found.
     */
    method GetLobbyLeaderboard(code: string) returns (r: Result<LeaderboardResponse, Status>)
      requires Valid()
      ensures r.Err? <==> code !in lobbies
      ensures r.Err? ==> r.error == NotFound
      ensures r.Ok? ==>
        && r.value.lobbyCode == code
        && SortedDesc(r.value.entries, EntryScore)
        && RowsOf(r.value.entries, lobbies[code].players)
    {
      if code !in lobbies {
        return Err(NotFound);
      }
      var players := lobbies[code].players;
      var rows := LeaderboardRows(players);
      var entries := SortDesc(rows, EntryScore);
      RowsReordered(rows, entries, players);
      r := Ok(LeaderboardResponse(code, entries));
    }

    /** A player's kills, deaths and score in a lobby; an unknown code or player is not found. */
    method GetPlayerStats(code: string, playerId: nat) returns (r: Result<PlayerStats, Status>)
      requires Valid()
      ensures r.Ok? <==> code in lobbies && playerId in lobbies[code].players
      ensures r.Err? ==> r.error == NotFound
      ensures r.Ok? ==>
        var p := lobbies[code].players[playerId];
        r.value == PlayerStats(playerId, p.name, p.kills, p.deaths, p.score)
    {
      if code !in lobbies {
        return Err(NotFound);
      }
      var lobby := lobbies[code];
      if playerId !in lobby.players {
        return Err(NotFound);
      }
      var p := lobby.players[playerId];
      r := Ok(PlayerStats(p.id, p.name, p.kills, p.deaths, p.score));
    }

    /** The 20 best players across sessions by total score, best first. */
    method GetGlobalLeaderboard() returns (rows: seq<GlobalLeaderboardEntry>)
      requires Valid()
      ensures |rows| == Min(GlobalLeaderboardSize, |globalStats.players|)
      ensures forall i, j :: 0 <= i < j < |rows| ==> rows[i].totalScore >= rows[j].totalScore
      ensures forall i :: 0 <= i < |rows| ==>
        var id := rows[i].playerId;
        && id in globalStats.players
        && rows[i] == GlobalRow(globalStats.players[id])
      ensures forall i, j :: 0 <= i < j < |rows| ==> rows[i].playerId != rows[j].playerId
      ensures forall id :: id in globalStats.players && GlobalRow(globalStats.players[id]) !in rows ==>
        forall i :: 0 <= i < |rows| ==> rows[i].totalScore >= globalStats.players[id].totalScore
    {
      var top := globalStats.GetTopPlayers(GlobalLeaderboardSize);
      rows := [];
      var i := 0;
      while i < |top|
        invariant 0 <= i <= |top|
        invariant |rows| == i
        invariant forall k :: 0 <= k < i ==> rows[k] == GlobalRow(top[k])
      {
        rows := rows + [GlobalRow(top[i])];
        i := i + 1;
      }
      forall k | 0 <= k < |top|
        ensures GlobalRow(top[k]) in rows
      {
        assert rows[k] == GlobalRow(top[k]);
      }
    }
  }

  /** The global leaderboard row for a stats entry. */
  function GlobalRow(s: GlobalPlayerStats): (r: GlobalLeaderboardEntry)
    ensures r.playerId == s.playerId && r.name == s.name && r.gamesPlayed == s.gamesPlayed
    ensures r.totalKills == s.totalKills && r.totalDeaths == s.totalDeaths && r.totalScore == s.totalScore
  {
    GlobalLeaderboardEntry(s.playerId, s.name, s.totalKills, s.totalDeaths, s.totalScore, s.gamesPlayed)
  }
}
