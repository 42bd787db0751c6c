/**
 * Totals that outlive a lobby: per player kills, deaths, score and games
 * played, accumulated session by session, ranked into top-n lists, and pruned
 * of entries that never played a game.
 */
module GlobalStatsState {
  import opened Common
  import opened Ranking

  /** One player's totals across sessions; times are milliseconds since the epoch. */
  datatype GlobalPlayerStats = GlobalPlayerStats(
    playerId: nat,
    name: string,
    totalKills: nat,
    totalDeaths: nat,
    totalScore: nat,
    gamesPlayed: nat,
    lastSeen: nat,
    createdAt: nat)

  /** The entry for a player not seen before: all totals zero, created and last seen now. */
  function NewStats(playerId: nat, name: string, now: nat): (s: GlobalPlayerStats)
    ensures s.playerId == playerId && s.name == name
    ensures s.totalKills == 0 && s.totalDeaths == 0 && s.totalScore == 0 && s.gamesPlayed == 0
    ensures s.lastSeen == now && s.createdAt == now
  {
    GlobalPlayerStats(playerId, name, 0, 0, 0, 0, now, now)
  }

  /** The outcome of one finished session. */
  datatype Session = Session(kills: nat, deaths: nat, score: nat, at: nat)

  /** The entry after one more session: its results added to the totals, one more game, last seen at its time. */
  function SessionAdded(s: GlobalPlayerStats, session: Session): (r: GlobalPlayerStats)
    ensures r.totalKills == s.totalKills + session.kills
    ensures r.totalDeaths == s.totalDeaths + session.deaths
    ensures r.totalScore == s.totalScore + session.score
    ensures r.gamesPlayed == s.gamesPlayed + 1
    ensures r.lastSeen == session.at
    ensures r.(totalKills := s.totalKills, totalDeaths := s.totalDeaths, totalScore := s.totalScore,
               gamesPlayed := s.gamesPlayed, lastSeen := s.lastSeen) == s
  {
    s.(totalKills := s.totalKills + session.kills,
       totalDeaths := s.totalDeaths + session.deaths,
       totalScore := s.totalScore + session.score,
       gamesPlayed := s.gamesPlayed + 1,
       lastSeen := session.at)
  }

  /** The entry after a run of sessions, oldest first. */
  function SessionsAdded(s: GlobalPlayerStats, sessions: seq<Session>): GlobalPlayerStats
    decreases |sessions|
  {
    if |sessions| == 0 then s else SessionsAdded(SessionAdded(s, sessions[0]), sessions[1..])
  }

  function KillsOf(sessions: seq<Session>): nat {
    if |sessions| == 0 then 0 else sessions[0].kills + KillsOf(sessions[1..])
  }

  function DeathsOf(sessions: seq<Session>): nat {
    if |sessions| == 0 then 0 else sessions[0].deaths + DeathsOf(sessions[1..])
  }

  function ScoreOf(sessions: seq<Session>): nat {
    if |sessions| == 0 then 0 else sessions[0].score + ScoreOf(sessions[1..])
  }

  /**
   * The totals are sums: after any run of sessions each total has grown by
   * the sum of the sessions' results and games played by their number; the
   * id, name and creation time are untouched.
   */
  lemma {:induction false} SessionsAccumulate(s: GlobalPlayerStats, sessions: seq<Session>)
    ensures SessionsAdded(s, sessions).totalKills == s.totalKills + KillsOf(sessions)
    ensures SessionsAdded(s, sessions).totalDeaths == s.totalDeaths + DeathsOf(sessions)
    ensures SessionsAdded(s, sessions).totalScore == s.totalScore + ScoreOf(sessions)
    ensures SessionsAdded(s, sessions).gamesPlayed == s.gamesPlayed + |sessions|
    ensures SessionsAdded(s, sessions).playerId == s.playerId
    ensures SessionsAdded(s, sessions).name == s.name
    ensures SessionsAdded(s, sessions).createdAt == s.createdAt
    decreases |sessions|
  {
    if |sessions| > 0 {
      SessionsAccumulate(SessionAdded(s, sessions[0]), sessions[1..]);
    }
  }

  /**
   * The table after a session is recorded for `playerId`: a zeroed entry is
   * created on first sight, the latest name is kept, the session is added, and
   * no other entry changes.
   */
  function WithSession(players: map<nat, GlobalPlayerStats>, playerId: nat, name: string, session: Session)
    : (r: map<nat, GlobalPlayerStats>)
    ensures r.Keys == players.Keys + {playerId}
    ensures forall id :: id in players && id != playerId ==> r[id] == players[id]
    ensures r[playerId].playerId == (if playerId in players then players[playerId].playerId else playerId)
    ensures r[playerId].name == name
    ensures playerId in players ==>
      r[playerId] == SessionAdded(players[playerId], session).(name := name)
    ensures playerId !in players ==>
      r[playerId] == SessionAdded(NewStats(playerId, name, session.at), session)
  {
    var entry := if playerId in players then players[playerId] else NewStats(playerId, name, session.at);
    players[playerId := SessionAdded(entry.(name := name), session)]
  }

  /** An entry old enough to prune: never played a game and last seen more than `maxAgeSecs` before `now`. */
  predicate Stale(s: GlobalPlayerStats, now: nat, maxAgeSecs: nat) {
    s.lastSeen <= now && now - s.lastSeen > maxAgeSecs * 1000 && s.gamesPlayed == 0
  }

  function StatsId(s: GlobalPlayerStats): nat { s.playerId }

  /** Ranking keys of the two top-n lists. */
  function ByScore(s: GlobalPlayerStats): nat { s.totalScore }
  function ByKills(s: GlobalPlayerStats): nat { s.totalKills }

  /**
   * The first n entries of any ranking of a table's entries are entries of
   * the table, name distinct players, and score at least as high as every
   * entry left out.
   */
  lemma RankedTop(players: map<nat, GlobalPlayerStats>, all: seq<GlobalPlayerStats>, ranked: seq<GlobalPlayerStats>,
                  key: GlobalPlayerStats -> nat, n: nat)
    requires forall i :: 0 <= i < |all| ==> all[i].playerId in players && players[all[i].playerId] == all[i]
    requires forall i, j :: 0 <= i < j < |all| ==> all[i].playerId != all[j].playerId
    requires forall id :: id in players ==> players[id] in all
    requires multiset(ranked) == multiset(all) && SortedDesc(ranked, key) && n <= |ranked|
    ensures forall i :: 0 <= i < n ==> ranked[i].playerId in players && players[ranked[i].playerId] == ranked[i]
    ensures forall i, j :: 0 <= i < j < n ==> ranked[i].playerId != ranked[j].playerId
    ensures forall id :: id in players && players[id] !in ranked[..n] ==>
      forall i :: 0 <= i < n ==> key(ranked[i]) >= key(players[id])
  {
    TopPrefix(ranked, key, n);
    forall i | 0 <= i < |ranked|
      ensures ranked[i] in all
    {
      assert ranked[i] in multiset(ranked);
    }
    forall i, j | 0 <= i < j < n
      ensures ranked[i].playerId != ranked[j].playerId
    {
      DistinctKeysSurviveRanking(all, ranked, StatsId, i, j);
    }
    forall id | id in players && players[id] !in ranked[..n]
      ensures forall i :: 0 <= i < n ==> key(ranked[i]) >= key(players[id])
    {
      assert players[id] in multiset(ranked);
      var k :| 0 <= k < |ranked| && ranked[k] == players[id];
      assert k >= n;
    }
  }

  /** The server-wide table of totals, keyed by player id. */
  class GlobalStats {
    var players: map<nat, GlobalPlayerStats>

    /** Every entry is filed under its own player id. */
    ghost predicate Valid()
      reads this
    {
      forall id :: id in players ==> players[id].playerId == id
    }

    constructor ()
      ensures Valid()
      ensures players == map[]
    {
      players := map[];
    }

    /**
     * Records a finished session: creates a zeroed entry on first sight,
     * takes the latest name, then adds the session's results.
     */
    method RecordSession(playerId: nat, name: string, kills: nat, deaths: nat, score: nat, now: nat)
      requires Valid()
      modifies this
      ensures Valid()
      ensures players == WithSession(old(players), playerId, name, Session(kills, deaths, score, now))
    {
      var entry := if playerId in players then players[playerId] else NewStats(playerId, name, now);
      entry := entry.(name := name);
      players := players[playerId := SessionAdded(entry, Session(kills, deaths, score, now))];
    }

    /** The stored entry for `playerId`, if any. */
    function GetStats(playerId: nat): (r: Option<GlobalPlayerStats>)
      reads this
      ensures r.Some? <==> playerId in players
      ensures r.Some? ==> r.value == players[playerId]
    {
      if playerId in players then Some(players[playerId]) else None
    }

    /** Every stored entry exactly once, in no particular order. */
    method Entries() returns (all: seq<GlobalPlayerStats>)
      requires Valid()
      ensures |all| == |players|
      ensures forall i :: 0 <= i < |all| ==> all[i].playerId in players && players[all[i].playerId] == all[i]
      ensures forall i, j :: 0 <= i < j < |all| ==> all[i].playerId != all[j].playerId
      ensures forall id :: id in players ==> players[id] in all
    {
      all := [];
      var todo := players.Keys;
      while todo != {}
        invariant todo <= players.Keys
        invariant |all| + |todo| == |players|
        invariant forall i :: 0 <= i < |all| ==>
          all[i].playerId in players && all[i].playerId !in todo && players[all[i].playerId] == all[i]
        invariant forall i, j :: 0 <= i < j < |all| ==> all[i].playerId != all[j].playerId
        invariant forall id :: id in players && id !in todo ==> players[id] in all
        decreases todo
      {
        var id :| id in todo;
        all := all + [players[id]];
        todo := todo - {id};
      }
    }

    /**
     * The best `limit` entries by `key`, best first: as many as there are,
     * up to `limit`, each a stored entry, none twice, and none left out that
     * ranks above one kept.
     */
    method TopBy(key: GlobalPlayerStats -> nat, limit: nat) returns (top: seq<GlobalPlayerStats>)
      requires Valid()
      ensures |top| == Min(limit, |players|)
      ensures SortedDesc(top, key)
      ensures forall i :: 0 <= i < |top| ==> top[i].playerId in players && players[top[i].playerId] == top[i]
      ensures forall i, j :: 0 <= i < j < |top| ==> top[i].playerId != top[j].playerId
      ensures forall id :: id in players && players[id] !in top ==>
        forall i :: 0 <= i < |top| ==> key(top[i]) >= key(players[id])
    {
      var all := Entries();
      var ranked := SortDesc(all, key);
      TopPrefix(ranked, key, limit);
      top := ranked[..Min(limit, |ranked|)];
      RankedTop(players, all, ranked, key, Min(limit, |ranked|));
    }

    /** The top `limit` entries by total score. */
    method GetTopPlayers(limit: nat) returns (top: seq<GlobalPlayerStats>)
      requires Valid()
      ensures |top| == Min(limit, |players|)
      ensures SortedDesc(top, ByScore)
      ensures forall i :: 0 <= i < |top| ==> top[i].playerId in players && players[top[i].playerId] == top[i]
      ensures forall i, j :: 0 <= i < j < |top| ==> top[i].playerId != top[j].playerId
      ensures forall id :: id in players && players[id] !in top ==>
        forall i :: 0 <= i < |top| ==> top[i].totalScore >= players[id].totalScore
    {
      top := TopBy(ByScore, limit);
    }

    /** The top `limit` entries by total kills. */
    method GetTopByKills(limit: nat) returns (top: seq<GlobalPlayerStats>)
      requires Valid()
      ensures |top| == Min(limit, |players|)
      ensures SortedDesc(top, ByKills)
      ensures forall i :: 0 <= i < |top| ==> top[i].playerId in players && players[top[i].playerId] == top[i]
      ensures forall i, j :: 0 <= i < j < |top| ==> top[i].playerId != top[j].playerId
      ensures forall id :: id in players && players[id] !in top ==>
        forall i :: 0 <= i < |top| ==> top[i].totalKills >= players[id].totalKills
    {
      top := TopBy(ByKills, limit);
    }

    /** The first pass of the pruning: the ids of all stale entries, each once. */
    method StaleIds(maxAgeSecs: nat, now: nat) returns (ids: seq<nat>)
      requires Valid()
      ensures Distinct(ids)
      ensures forall id :: id in ids <==> id in players && Stale(players[id], now, maxAgeSecs)
    {
      var all := Entries();
      ids := [];
      var i := 0;
      while i < |all|
        invariant 0 <= i <= |all|
        invariant Distinct(ids)
        invariant forall id :: id in ids <==>
          id in players && Stale(players[id], now, maxAgeSecs) && exists k :: 0 <= k < i && all[k].playerId == id
      {
        if all[i].lastSeen <= now && now - all[i].lastSeen > maxAgeSecs * 1000 && all[i].gamesPlayed == 0 {
          assert all[i].playerId !in ids;
          ids := ids + [all[i].playerId];
        }
        i := i + 1;
      }
      forall id | id in players && Stale(players[id], now, maxAgeSecs)
        ensures id in ids
      {
        var k :| 0 <= k < |all| && all[k] == players[id];
      }
    }

    /**
     * Removes the stale entries and reports how many went. An entry that has
     * played at least one game is never removed.
     */
    method CleanupOldEntries(maxAgeSecs: nat, now: nat) returns (removed: nat)
      requires Valid()
      modifies this
      ensures Valid()
      ensures forall id :: id in players <==> id in old(players) && !Stale(old(players)[id], now, maxAgeSecs)
      ensures forall id :: id in players ==> players[id] == old(players)[id]
      ensures removed + |players| == |old(players)|
      ensures forall id :: id in old(players) && old(players)[id].gamesPlayed > 0 ==> id in players
    {
      var toRemove := StaleIds(maxAgeSecs, now);
      var ps := players;
      removed := 0;
      var j := 0;
      while j < |toRemove|
        invariant 0 <= j <= |toRemove|
        invariant players == old(players)
        invariant ps == players - Elems(toRemove[..j])
        invariant removed + |ps| == |players|
        invariant removed == j
      {
        assert toRemove[j] in toRemove;
        assert toRemove[j] in players;
        assert toRemove[j] !in toRemove[..j];
        assert toRemove[j] !in Elems(toRemove[..j]);
        assert Elems(toRemove[..j + 1]) == Elems(toRemove[..j]) + {toRemove[j]};
        RemoveOneMore(players, Elems(toRemove[..j]), toRemove[j]);
        RemoveOneCount(ps, toRemove[j]);
        ps := ps - {toRemove[j]};
        removed := removed + 1;
        j := j + 1;
      }
      assert toRemove[..j] == toRemove;
      players := ps;
    }
  }
}
