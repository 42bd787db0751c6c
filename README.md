# gungame server core in Dafny

This project models the authoritative game server of *gungame*, a small multiplayer shooter. It covers the Rust crate `gungameserver`, and within it:

- **Lobbies** (`domain/lobbies.rs`). A lobby holds players keyed by id, their UDP addresses, the last synced state and a set of "dirty" player ids. Operations add, remove and move players, bind addresses, and sweep out inactive players, warning them first.
- **Game logic** (`domain/logic.rs`). Shooting is gated by ammo, reload state and fire interval. Damage saturates at zero. The file also covers reloads, weapon switching, kill registration with a capped streak bonus, respawn, and the queries alive/score.
- **The per-lobby tick** (`tick/lobby_tick.rs`). Each tick applies the queued commands in order, finishes reloads, respawns due players, runs the inactivity sweep, records sessions of players who left, and clears the dirty set. It also chooses who receives each broadcast and maps each incremental state event to its packet type.
- **Global statistics** (`state/global_stats.rs`). Per-player totals survive across sessions. Sessions are added with an upsert. The file covers top-N by score or kills, and the sweep of stale entries.
- **The HTTP handlers** (`handlers/http.rs`). These are the status outcomes of create, join and get lobby (404, 409, 400), list lobbies, the per-lobby leaderboard (bot excluded, best score first), player stats, and the global top-20.

Lobbies, the global statistics table and the server registry are modelled as classes whose methods update their fields in place. The tables a lobby holds are maps and a set. A player and a statistics record are values.

Each state-changing method is specified either against a function of the old state or by its full effect on the new state:
- `LobbyTick.ProcessCommand` and `LobbyTick.ProcessCommands` are specified against `Step` / `StepAll`. `Step` is built from one transition function per command.
- `RecordSession` is specified against `WithSession`.
- `RespawnAll` is specified against `RespawnedIn`.
- `StampWarnings` is specified against `WarnedIn`.
- `Housekeeping` is specified against `Housekept`, and `Tick` against `StepAll` followed by `Housekept`.

Lemmas state the properties across calls:
- sessions accumulate;
- repeated damage saturates;
- commands never kill;
- a respawn is idempotent, and does not clear the death flag;
- ids stay distinct after ranking;
- leavers' records count exactly their occurrences.

Time is a parameter `now`, in milliseconds since the epoch, with one instant per tick. Whole seconds are `now / 1000`, as `Duration::as_secs` truncates. The HashMap iteration order is unspecified, so loops over a map pick keys in any order. Their outputs are therefore stated as sets, pointwise facts and distinctness.

Behaviour of the code as written that the model keeps:
- `apply_damage` only lowers health and never sets `is_dead`. `kill_events` in the tick is always empty. So no command in a tick ever kills a player (`LobbyTick.CommandsNeverKill`), and `register_kill` is never reached from the tick.
- `respawn_player` restores health, ammo and position but leaves `is_dead` and `respawn_time` as they were. A player that becomes due for respawn therefore stays due, and is respawned again on every later tick (`LobbyTick.RespawnRepeats`).
- Sessions are recorded at the end of the tick for `players_left`, by looking each id up in the lobby. A player who left by command or timeout has already been removed by then, so nothing is recorded for them, unless the same id joined again later in the same tick and is back in the lobby at the end; it then gets a session with that new player's (zero) totals. `LobbyTick.LeaversRecorded` models this lookup exactly.
- `cleanup_old_entries` removes only entries with `games_played == 0`. An entry that recorded a session is never swept (`GlobalStatsState.GlobalStats.CleanupOldEntries`).

## Model

| member | source | states |
|---|---|---|
| Lobbies.CreateLobby | server/gungameserver/src/domain/lobbies.rs:7-18 | succeeds exactly when the code matches the lobby's own code, else fails with "Lobby code mismatch" |
| Lobbies.NewPlayer | server/gungameserver/src/domain/lobbies.rs:40-61 | a joining player has full health 100, the default weapon's full magazine, zero kills/deaths/score/streak, is alive, not reloading, not warned |
| Lobbies.AddPlayer | server/gungameserver/src/domain/lobbies.rs:21-66 | full lobby, duplicate id, and unknown default weapon are rejected in that order with their messages and no change; on success exactly the new player is added, marked dirty, nothing else changes |
| Lobbies.RemovePlayer | server/gungameserver/src/domain/lobbies.rs:69-73 | the id disappears from players, addresses and last sync state; the rest is kept |
| Lobbies.Moved | server/gungameserver/src/domain/lobbies.rs:87-89 | a move sets position, rotation and last update and touches no other field |
| Lobbies.UpdatePosition | server/gungameserver/src/domain/lobbies.rs:76-93 | unknown player is "Player not found" with no change; otherwise only that player is moved and marked dirty |
| Lobbies.SetPlayerAddress | server/gungameserver/src/domain/lobbies.rs:96-106 | binds the address only for a present player, else "Player not found" with no change |
| Lobbies.IdleSecs | server/gungameserver/src/domain/lobbies.rs:125-126 | idle time is defined only when the last update is not in the future, and is the elapsed time truncated to whole seconds |
| Lobbies.ClassifyInactive | server/gungameserver/src/domain/lobbies.rs:116-134 | an id is inactive iff it is not the bot and idle past the timeout; warned iff not the bot, idle past the warning threshold up to the timeout, and not warned before; the two lists are disjoint and duplicate-free |
| Lobbies.RemovePlayers | server/gungameserver/src/domain/lobbies.rs:136-138 | every listed id is removed from players, addresses and sync state; nothing else changes |
| Lobbies.WarnedIn | server/gungameserver/src/domain/lobbies.rs:140-144 | stamping a set of ids keeps the roster and sets `warnedAt = now` on exactly the listed players |
| Lobbies.StampWarnings | server/gungameserver/src/domain/lobbies.rs:140-144 | the players become `WarnedIn` of the old players and the listed ids: each listed player still present gets `warnedAt = now`, all other players are unchanged |
| Lobbies.CleanupInactive | server/gungameserver/src/domain/lobbies.rs:110-147 | removes exactly the timed-out non-bot players, stamps exactly the due warnings, and returns both id lists disjoint |
| Logic.Fired | server/gungameserver/src/domain/logic.rs:53-55 | a shot spends one round and stamps the shot time, nothing else |
| Logic.TryShoot | server/gungameserver/src/domain/logic.rs:19-59 | Ok(true) iff the player exists, has ammo, is not reloading, its weapon is known and the fire interval has elapsed; each gate's outcome in source order; only a successful shot changes state |
| Logic.Damaged | server/gungameserver/src/domain/logic.rs:73-74 | health becomes max(0, health − damage), never rises, other fields unchanged |
| Logic.ApplyDamage | server/gungameserver/src/domain/logic.rs:62-78 | unknown target and damage outside 1..100 are rejected with their messages and no change; otherwise only the target's health drops |
| Logic.RepeatedDamage | server/gungameserver/src/domain/logic.rs:73-74 | n hits of d leave health max(0, h − n·d) and every other field as it was |
| Logic.ReloadStarted | server/gungameserver/src/domain/logic.rs:100-102 | starting a reload sets the flag and end time only |
| Logic.StartReload | server/gungameserver/src/domain/logic.rs:81-106 | succeeds iff the player exists, is not already reloading, is not at full magazine and holds a known weapon; end time is now plus the weapon's reload time |
| Logic.Reloaded | server/gungameserver/src/domain/logic.rs:118-123 | a finished reload refills to the magazine size and clears the reload state |
| Logic.CompleteReloads | server/gungameserver/src/domain/logic.rs:114-127 | exactly the players whose reload is due are refilled, each reported once; everyone else is unchanged |
| Logic.UpdateReloadStates | server/gungameserver/src/domain/logic.rs:110-135 | completes exactly the reloads whose end time has passed, marks them dirty, returns their ids once each, keeps everyone else |
| Logic.Armed | server/gungameserver/src/domain/logic.rs:154-162 | switching sets weapon id and a full magazine of the new weapon and cancels any reload |
| Logic.SwitchWeapon | server/gungameserver/src/domain/logic.rs:138-166 | unknown player, then unknown weapon, rejected with no change; otherwise only that player is re-armed |
| Logic.KillScore | server/gungameserver/src/domain/logic.rs:212-217 | a kill is worth 100 plus 25 per streak step, the bonus capped at 5 steps |
| Logic.Credited | server/gungameserver/src/domain/logic.rs:207-218 | the killer gains one kill, one streak step and the kill score |
| Logic.Killed | server/gungameserver/src/domain/logic.rs:220-230 | the victim gains a death, loses the streak, drops to 0 health and is dead with respawn 3000 ms later |
| Logic.KillApplied | server/gungameserver/src/domain/logic.rs:207-230 | killer credited before the victim is killed; other players unchanged |
| Logic.SelfKillScores | server/gungameserver/src/domain/logic.rs:207-230 | a self-kill both credits and kills the same player: one kill, one death, the score gained, streak reset |
| Logic.RegisterKill | server/gungameserver/src/domain/logic.rs:185-246 | unknown killer, unknown victim, then the killer's unknown weapon, rejected in that order with no change; otherwise the players become `KillApplied`, both are marked dirty, and the event names both players, the weapon and the new streak |
| Logic.Respawned | server/gungameserver/src/domain/logic.rs:255-260 | respawn restores health and magazine, moves to the spawn point, clears reload, and leaves the death flag and respawn time untouched |
| Logic.RespawnPlayer | server/gungameserver/src/domain/logic.rs:249-264 | unknown player is "Player not found" with no change; otherwise only that player is respawned and marked dirty |
| Logic.IsPlayerAlive | server/gungameserver/src/domain/logic.rs:267-273 | alive iff present with positive health |
| Logic.GetPlayerScore | server/gungameserver/src/domain/logic.rs:276-279 | the player's score, or "Player not found" |
| Ranking.InsertDesc | server/gungameserver/src/state/global_stats.rs:78 | inserting into a descending list keeps it descending and is a permutation of list plus element |
| Ranking.SortDesc | server/gungameserver/src/state/global_stats.rs:78 | the result is sorted best-first and a permutation of the input |
| Ranking.TopPrefix | server/gungameserver/src/state/global_stats.rs:79 | taking the first n of a ranked list keeps it sorted, and nothing left out outranks anything kept |
| Ranking.DistinctKeysSurviveRanking | server/gungameserver/src/state/global_stats.rs:72-80 | a permutation of entries with distinct ids still has distinct ids |
| GlobalStatsState.NewStats | server/gungameserver/src/state/global_stats.rs:17-28 | a new record has zero totals and both timestamps now |
| GlobalStatsState.SessionAdded | server/gungameserver/src/state/global_stats.rs:30-36 | a session adds its kills, deaths and score, counts one more game and sets last seen; identity fields untouched |
| GlobalStatsState.SessionsAccumulate | server/gungameserver/src/state/global_stats.rs:30-36 | after any sequence of sessions the totals are the sums of the sessions and games played is their count |
| GlobalStatsState.WithSession | server/gungameserver/src/state/global_stats.rs:59-66 | the upsert creates the record when absent, overwrites the name, adds the session, and leaves every other record alone |
| GlobalStatsState.GlobalStats.RecordSession | server/gungameserver/src/state/global_stats.rs:59-66 | the table becomes `WithSession` of the old table |
| GlobalStatsState.GlobalStats.GetStats | server/gungameserver/src/state/global_stats.rs:68-70 | the stored record iff present |
| GlobalStatsState.GlobalStats.Entries | server/gungameserver/src/state/global_stats.rs:74-77 | every stored record exactly once |
| GlobalStatsState.RankedTop | server/gungameserver/src/state/global_stats.rs:72-90 | the first n of any ranking of the table's records are stored records with distinct ids, and none left out scores higher than one kept |
| GlobalStatsState.GlobalStats.TopBy | server/gungameserver/src/state/global_stats.rs:72-90 | min(limit, size) stored records, best first, ids distinct, and no record left out beats one kept |
| GlobalStatsState.GlobalStats.GetTopPlayers | server/gungameserver/src/state/global_stats.rs:72-80 | min(limit, size) stored records by total score, best first, ids distinct, and no record left out scores higher than one kept |
| GlobalStatsState.GlobalStats.GetTopByKills | server/gungameserver/src/state/global_stats.rs:82-90 | min(limit, size) stored records by total kills, most first, ids distinct, and no record left out has more kills than one kept |
| GlobalStatsState.GlobalStats.StaleIds | server/gungameserver/src/state/global_stats.rs:97-108 | an id is selected iff its record is older than the age limit and has no games |
| GlobalStatsState.GlobalStats.CleanupOldEntries | server/gungameserver/src/state/global_stats.rs:92-117 | exactly the stale records are removed, the rest unchanged, the count returned is the number removed, and records with games are never removed |
| LobbyTick.Touched | server/gungameserver/src/tick/lobby_tick.rs:279-288 | a heartbeat refreshes only the last update time |
| LobbyTick.Hear | server/gungameserver/src/tick/lobby_tick.rs:230-244 | the tables become `Heard` of the old ones: a present player's address is bound and its last update refreshed; a packet from an unknown player changes nothing |
| LobbyTick.ShotEffect | server/gungameserver/src/tick/lobby_tick.rs:254-268 | a refused shot changes nothing; an allowed one spends one of the shooter's rounds, stamps the shot and marks the shooter dirty, and lowers a present target's health by the weapon's damage (saturating at zero, marking it dirty) when that damage is in 1..100; everyone else and the address and sync tables are unchanged |
| LobbyTick.StepKeeps | server/gungameserver/src/tick/lobby_tick.rs:204-290 | each command keeps addresses within the roster, kills no one, leaves a refused join without effect, and a leave removes the player and its address |
| LobbyTick.StepSparesTheDead | server/gungameserver/src/tick/lobby_tick.rs:204-290 | after any one command every dead player was already dead, with the same respawn time |
| LobbyTick.JoinSpares | server/gungameserver/src/tick/lobby_tick.rs:211-223 | an admitted join only adds a living player |
| LobbyTick.HeardSpares | server/gungameserver/src/tick/lobby_tick.rs:230-244 | a connect or heartbeat changes no one's death state |
| LobbyTick.MoveSpares | server/gungameserver/src/tick/lobby_tick.rs:245-253 | a position update changes no one's death state |
| LobbyTick.ShotSpares | server/gungameserver/src/tick/lobby_tick.rs:254-268 | a shot, even a hit to zero health, changes no one's death state |
| LobbyTick.ReloadSpares | server/gungameserver/src/tick/lobby_tick.rs:269-273 | a reload request changes no one's death state |
| LobbyTick.SwitchSpares | server/gungameserver/src/tick/lobby_tick.rs:274-278 | a weapon switch changes no one's death state |
| LobbyTick.ProcessCommand | server/gungameserver/src/tick/lobby_tick.rs:204-290 | the lobby's tables after the command are `Step` of the tables before |
| LobbyTick.ShootScenario | server/gungameserver/src/tick/lobby_tick.rs:686-748 | a shot with the default 20-round, 20-damage weapon leaves 19 rounds and the target at 80 health |
| LobbyTick.CommandsNeverKill | server/gungameserver/src/tick/lobby_tick.rs:47-98 | after any queue of commands no player who was alive is dead, and addresses stay within the roster |
| LobbyTick.ProcessCommands | server/gungameserver/src/tick/lobby_tick.rs:47-98 | the tables become `StepAll` of the queue; joins, leaves and moves are reported in command order |
| LobbyTick.SelectRespawns | server/gungameserver/src/tick/lobby_tick.rs:104-114 | selects exactly the dead players whose respawn time has come, once each |
| LobbyTick.RespawnIdempotent | server/gungameserver/src/domain/logic.rs:255-260 | respawning twice is respawning once |
| LobbyTick.RespawnRepeats | server/gungameserver/src/tick/lobby_tick.rs:104-125 | a player due for respawn is still due after respawning, at any later time |
| LobbyTick.RespawnedIn | server/gungameserver/src/tick/lobby_tick.rs:117-125 | respawning a set of ids changes exactly those present players |
| LobbyTick.RespawnedAllOnce | server/gungameserver/src/tick/lobby_tick.rs:117-125 | respawning a list of ids one at a time equals respawning the set of them at once |
| LobbyTick.PresentElems | server/gungameserver/src/tick/lobby_tick.rs:117-125 | the ids kept by the in-order filter are exactly the listed ids present in the table |
| LobbyTick.RespawnAll | server/gungameserver/src/tick/lobby_tick.rs:117-125 | the players become `RespawnedIn` of the due ids; the reported ids are the due ones still present, in due order; exactly those are marked dirty |
| LobbyTick.ReloadsKeepDeaths | server/gungameserver/src/domain/logic.rs:110-135 | completing reloads kills and revives no one |
| LobbyTick.RespawnsKeepDeaths | server/gungameserver/src/domain/logic.rs:255-260 | respawning kills no one |
| LobbyTick.SweepKeepsDeaths | server/gungameserver/src/domain/lobbies.rs:136-144 | removing idle players and stamping warnings kills no one |
| LobbyTick.SessionOf | server/gungameserver/src/tick/lobby_tick.rs:188-194 | a session carries the player's kills, deaths and score |
| LobbyTick.LeaversRecordedExactly | server/gungameserver/src/tick/lobby_tick.rs:184-197 | only ids that left and are still in the lobby get a record; each such record counts one game per occurrence in the list; all other records are unchanged |
| LobbyTick.RecordLeavers | server/gungameserver/src/tick/lobby_tick.rs:184-197 | the statistics table becomes `LeaversRecorded` of the old table |
| LobbyTick.HalfTimeout | server/gungameserver/src/domain/lobbies.rs:116 | the warning threshold is half the timeout, truncated |
| LobbyTick.ReloadsExactly | server/gungameserver/src/domain/logic.rs:110-135 | the reload pass as the lobby performs it is `ReloadsDone`, and the ids it reports are exactly the due reloads |
| LobbyTick.SweptExactly | server/gungameserver/src/domain/lobbies.rs:110-147 | the sweep with warnings at half the timeout is `Swept`, and its two lists are exactly the timed-out and the due-warning players |
| LobbyTick.PresentAll | server/gungameserver/src/tick/lobby_tick.rs:117-125 | when every selected id is present, all of them are respawned and reported, in selection order |
| LobbyTick.HousekeptKillsNoOne | server/gungameserver/src/tick/lobby_tick.rs:99-139 | reload completion, respawn and the sweep together kill no one |
| LobbyTick.Housekeeping | server/gungameserver/src/tick/lobby_tick.rs:99-139 | the players become `Housekept` of the old players: due reloads complete, then the dead whose time has come respawn, then the sweep removes the timed-out and stamps the warned at half the timeout; the three reported lists are exactly those players, once each; removed ids lose their addresses and sync state; the reloaded and respawned are flagged dirty; no one dies |
| LobbyTick.Tick | server/gungameserver/src/tick/lobby_tick.rs:31-200 | the tables after the commands are `StepAll` of the queue; the final players are `Housekept` of those; respawned, removed and warned are exactly the due, timed-out and warned players; removed ids lose addresses and sync state; joins, moves and leaves (plus the removed) are reported in order; no one dies; statistics become `LeaversRecorded`; the dirty set ends empty |
| LobbyTick.AudienceOf | server/gungameserver/src/tick/lobby_tick.rs:394-660 | joins and moves skip their subject; leaves, kills, respawns and state events go to everyone |
| LobbyTick.Recipients | server/gungameserver/src/tick/lobby_tick.rs:414 | the recipients are exactly the bound addresses minus the subject's for joins and moves |
| LobbyTick.PositionNotices | server/gungameserver/src/tick/lobby_tick.rs:456-501 | the i-th notice is for the i-th moved id still present (every occurrence, in order), carrying that player's current position and rotation |
| LobbyTick.PacketType | server/gungameserver/src/tick/lobby_tick.rs:559-647 | position changes send nothing; health, ammo and max ammo share the state-update packet; a reload event is started or finished by its flag |
| LobbyTick.StatePackets | server/gungameserver/src/tick/lobby_tick.rs:552-660 | one packet per non-position event, each with its event's packet type |
| LobbyTick.StatePacketsAppend | server/gungameserver/src/tick/lobby_tick.rs:552-660 | the packets of two runs of events are the packets of each, in order, so event order is kept |
| LobbyTick.StatePacketsOne | server/gungameserver/src/tick/lobby_tick.rs:559-647 | a single event gives no packet if it is a position change, else exactly one packet of its type carrying it |
| Http.Roster | server/gungameserver/src/handlers/http.rs:55-58 | one `PlayerInfo` per player, carrying its id and name |
| Http.Describe | server/gungameserver/src/handlers/http.rs:119-131 | the description carries the lobby's code, player count, capacity, roster, server address, UDP port and scene |
| Http.EntryOf | server/gungameserver/src/handlers/http.rs:189-196 | a leaderboard row copies the player's id, name, score, kills, deaths and streak |
| Http.LeaderboardRows | server/gungameserver/src/handlers/http.rs:187-197 | exactly one row per player except the bot |
| Http.ServerState.CreateLobby | server/gungameserver/src/handlers/http.rs:24-68 | an existing code is a conflict with no change; otherwise a fresh empty lobby with capacity default 4 and scene default "world" is registered and described |
| Http.ServerState.JoinLobby | server/gungameserver/src/handlers/http.rs:71-108 | unknown code is not found; a refused join is a bad request with the lobby unchanged; a success adds exactly the new player, marks it dirty, keeps addresses and sync state, and returns the new id with the full description of the lobby (code, capacity, scene, server address, port, roster) |
| Http.ServerState.GetLobby | server/gungameserver/src/handlers/http.rs:111-134 | not found iff the code is unknown, otherwise the lobby's description |
| Http.ServerState.ListLobbies | server/gungameserver/src/handlers/http.rs:137-159 | one description per lobby, each code once, every lobby listed |
| Http.RowsReordered | server/gungameserver/src/handlers/http.rs:187-199 | sorting the leaderboard rows keeps exactly one row per non-bot player |
| Http.ServerState.GetLobbyLeaderboard | server/gungameserver/src/handlers/http.rs:178-205 | unknown code is not found; otherwise the non-bot rows, best score first, each player once |
| Http.ServerState.GetPlayerStats | server/gungameserver/src/handlers/http.rs:218-244 | not found unless both the lobby and the player exist; otherwise the player's kills, deaths and score |
| Http.ServerState.GetGlobalLeaderboard | server/gungameserver/src/handlers/http.rs:258-284 | min(20, size) rows, best score first, each a stored record copied field for field, ids distinct, and no record left out scores higher than a row kept |
| Http.GlobalRow | server/gungameserver/src/handlers/http.rs:268-280 | a global row copies the record's id, name, totals and games played |

## Left out

- Networking and serialisation are left out: UDP sends, JSON encoding, the welcome and UDP-connected messages, and the send buffer. Broadcasts are modelled only as the choice of recipients and packet types.
- `handlers/udp.rs`, `server.rs`, `main.rs` and `handlers/models.rs` are not part of this model. The registry is reduced to a map from code to lobby, and the next player id is a parameter.
- Concurrency is left out: locks, the async tick timer, and spawning the tick task. The INTERNAL_SERVER_ERROR paths of lobby creation depend on the spawned task, so they are left out too.
- `drain_and_coalesce` is left out; the tick receives its command queue already drained.
- `delta_sync::collect_dirty_events` is not part of this model. State events are an input of the packet mapping, and the tick only clears the dirty set.
- `register_player_lobby` and `unregister_player` are left out, because the registry of players is outside this model.
- `get_player_state` and `get_lobby_state_sync` are left out, because the conversion to the sync state lives in a file outside this model.
- Floating point is left out:
  - positions and rotations are opaque values;
  - the fire rate is an integer interval in milliseconds;
  - the reload time, `Duration::from_secs_f32` of an `f32` number of seconds in the source (which panics on a negative, NaN or too large value), is an integer number of milliseconds;
  - the warning fraction 0.5 becomes the exact `HalfTimeout`;
  - the k/d ratio is not computed.
- Logic.Credited: kills, score and streak are unbounded. The `u32` overflow of `+=` is not modelled.
- Logic.Killed: deaths are unbounded. The `u32` overflow of `deaths += 1` is not modelled.
- GlobalStatsState.SessionAdded: totals are unbounded. The `u32` wrap-around is not modelled.
- The system clock is read once per tick, as one `now`. The source reads it separately for each call.
- LobbyTick.PacketType: does not model the fields of each JSON packet, only its type string.
- Ranking.SortDesc: is a stable insertion sort. The source's `sort_by` is also stable, but the input order comes from a hash map, so stability is not stated as a property.
