# A verified model of the dungeon game back end

The repository is a game back end of four processes - gateway, login server, game server and dungeon
server - around one MySQL database and one Redis server. This project models the state those processes
share and proves what they promise about it.

* **Dungeon protocol** (`Tables`, `DungeonProtocol`, `DungeonReplies`, `DungeonSafety`, `DungeonLocking`,
  `DungeonRequests`, `DungeonUniqueness`, `ContextIndependence`, `SnapshotIndependence`, `DungeonCluster`,
  `DungeonTrails`, `MySqlDungeonRepository`, `DungeonService`). Any number of dungeon servers enter and settle battles at
  once. `DungeonProtocol` is the step system: one event per externally visible action, every choice of the
  environment (failing statement, lost reply, expiry, crash) part of the event. The classes in
  `DungeonCluster`, `MySqlDungeonRepository` and `DungeonService` work on mutable stores in the order the
  C++ code does; each of their calls is proved to be the corresponding event, and a request to be a run,
  with arbitrary interference at every point where others can act. So what is proved of runs holds of the
  stores (`DungeonServices.ServedClusterIsInOrder`). `DungeonTrails` says which events of such a run are one
  request's own, that at most one of them is a commit, and what the reply tells about that commit; the
  contracts of the two requests state it for every fault and every interference.
* **Player snapshots** (`Hashes`, `Records`, `SnapshotCoherence`, `PlayerService`). The encoding of cached
  players and battle contexts as Redis hashes, of which any part may be stored; the load from two tables with
  its sort; and exactly when the cache agrees with the database.
* **Transport** (`Packets`, `TcpServer`, `TcpClient`). The packet format on both byte orders, reassembly from
  arbitrary pieces, the write queue under partial sends, connection ids, and the client's pairing of requests
  and answers.
* **Sessions and the gateway** (`Redis`, `Sessions`, `Gateway`, `Backend`). One session per account in a store
  with expiry times, the gateway's bindings, why a stale binding is harmless, and the three player requests
  from the session lookup to the last row they touch.
* **Text** (`Texts`, `Decimal`, `SimpleConfig`, `PasswordHasher`). `${VAR:-default}` expansion and the stored
  password format.

`Common` and `Runs` hold shared vocabulary. Tables are maps by their unique keys; a Redis key is the datatype
`Redis.Key`, and `Redis.KeyNamesDiffer` shows that no two keys share a name.

## What came out

The central promises hold in two tiers. Whatever locks expire, workers crash or statements fail, the books
stay in order: stamina is never overdrawn, every balance change is covered by a battle or a log row, a battle
is settled exactly when its gold row exists and is never paid twice, a progress row exists exactly where a
battle was settled and holds the best star (`DungeonSafety.EveryRunKeepsTheBooks`, `SettledIsFinal`). One
critical section, one unfinished battle, one first-clear bonus and a truthful `remain_stamina` per player hold
in every run in which no lock expires under its holder and two particular reads are answered
(`DungeonLocking.FaithfulRunsKeepPromises`). Which runs keep them at all is stated exactly, whatever happens in
them: those in which no enter commit finds an unfinished battle of its player, and no settlement of a first
clear finds the dungeon cleared (`DungeonUniqueness.PromisesKeptExactly`).

Where the code does less than its design suggests, the model follows the code:

* `QueryOne` and `Query` turn an SQL error into an empty result. A failed first-clear SELECT is taken for "no
  row", and the bonus is paid again (`DungeonRequests.UnansweredReadPaysAgain`; exactly when:
  `SecondBonusExactly`). A failed or outdated pending-battle SELECT lets a second unfinished battle in (exactly
  when: `SecondPendingExactly`; by a lock that expires under its holder: `ExpiryBreaksOnePending`). A failed
  progress SELECT makes `LoadPlayerState` return, and `LoadPlayer` cache, a player without progress, which is
  wrong exactly if the player has some (`PlayerServices.MySqlPlayerRepository.LoadPlayerState`,
  `PlayerServices.PlayerService.LoadPlayer`).
* `affected_rows` is only written on success and counts changed rows. A failed UPDATE is therefore reported as
  "stamina not enough" or "battle already settled" - exactly the first UPDATE is, for whatever reason it failed
  (`EnterStatements`, `SettleStatements`) - and a dungeon that costs nothing can never be entered
  (`DungeonRequests.EnterSucceedsExactly`).
* A COMMIT whose answer is lost is reported as a failure although the tables have changed. That of an enter
  leaves a stale snapshot exactly if the player has one that no other worker is about to delete
  (`SnapshotCoherence.LostCommitLeavesStale`); a settlement's effect may also be one that no load can see
  (exactly when: `SettleIsSeenExactly`). `FreshExactly` says of every event, and `RunIsFreshExactly` of every
  run, exactly when no stale snapshot comes to light. Nothing but a lost answer to COMMIT makes a request report
  a failure although its tables changed (`DungeonServices.DungeonService.EnterDungeon`, `SettleDungeon`).
* `RedisClient::HSet` sends one field at a time and stops at the first failure, which its callers ignore, so a
  connection that drops leaves a hash with some of its fields. Reading one throws out of `map::at`, and nothing
  on these paths catches it: the process ends. `Sessions.RedisSessionRepository.FindById` throws exactly on
  such a session. A torn battle context ends the dungeon server between Acquire and Release: the player's lock
  stays behind, and every later attempt to settle that battle ends the same way
  (`DungeonRequests.TornContextKills`, `SaveTearsExactly`). Apart from that the context cache changes nothing
  but speed: in one request exactly unless a torn context is read (`DungeonRequests.CacheIsTransparent`), and
  in whole interleaved runs under the exact condition of `ContextIndependence.RunBypassesExactly`.
* `Create` ignores whether Redis carried out its commands. Which failures leave an account with two live
  sessions, or with one its key does not cover, is stated exactly (`Sessions.CreateKeepsExclusiveExactly`).
* A wrong magic number clears whatever happens to be in the read buffer, so cutting the stream into reads is
  irrelevant exactly when no wrong magic turns up before the last 24 bytes
  (`TcpServer.ChunkingIndependentExactly`).
* On a big-endian host the two halves of a request id go over the wire exchanged (`Packets.WireOrder`); both
  ends agree as long as they have the same byte order.
* `VerifyPassword` compares a failed key derivation, which yields an empty text, with the stored hash
  (`PasswordHashers.UnderivableMatchesEmptyHash`).

## Model

| member | source | states |
|---|---|---|
| DungeonSafety.EveryRunKeepsTheBooks | dungeon_server/dungeon/mysql_dungeon_repository.cpp:44-190 | In every run of any number of workers, with locks expiring and statements failing at will: stamina never negative, initial stamina = current + costs of the player's battles, gold and diamond = initial + the player's reward log; battles, rewards and progress consistent |
| DungeonSafety.SettledIsFinal | dungeon_server/dungeon/mysql_dungeon_repository.cpp:119-176 | A settled battle stays settled in every continuation, exactly one gold row ever names it, and its payments never change |
| DungeonSafety.RunIsSafe | dungeon_server/dungeon/dungeon_service.cpp:22-124 | Every run keeps contexts, running requests and tables consistent, balanced and growing |
| DungeonSafety.StepIsSafe | dungeon_server/dungeon/dungeon_service.cpp:22-124 | Every single event, failures and crashes included, keeps the same invariant and loses no balance |
| DungeonSafety.CommitEnterIsSafe | dungeon_server/dungeon/mysql_dungeon_repository.cpp:54-95 | The enter transaction keeps the books whether it commits, rolls back or loses the answer to COMMIT |
| DungeonSafety.CommitSettleIsSafe | dungeon_server/dungeon/mysql_dungeon_repository.cpp:111-193 | The settle transaction keeps the books whether it commits, rolls back or loses the answer to COMMIT |
| DungeonSafety.PaymentsStay | dungeon_server/dungeon/mysql_dungeon_repository.cpp:155-176 | No event adds, removes or changes a payment of an already settled battle |
| DungeonSafety.OtherStepsKeepTables | dungeon_server/dungeon/dungeon_service.cpp:33-66 | Nothing but the two commits changes any table |
| DungeonSafety.SavedFits | dungeon_server/dungeon/redis_battle_context_repository.cpp:13-21 | Writing any of a context's fields, over whatever part is there, leaves only genuine fields |
| DungeonSafety.ReadFits | dungeon_server/dungeon/redis_battle_context_repository.cpp:23-37 | What is read from genuine fields describes the battle row |
| DungeonLocking.FaithfulRunsKeepPromises | dungeon_server/dungeon/dungeon_service.cpp:33-66 | In every run where no lock expires under its holder and the two silent reads are answered: one critical section per player, one unfinished battle, exactly one first-clear bonus per cleared dungeon, reported remaining stamina = committed stamina |
| DungeonLocking.FaithfulRunIsGuarded | dungeon_server/dungeon/dungeon_service.cpp:88-123 | The lock invariant (holders hold, reads under the lock are still true, one pending battle, one bonus) holds throughout every such run |
| DungeonLocking.StepIsGuarded | dungeon_server/dungeon/dungeon_service.cpp:33-66 | Every faithful event keeps the lock invariant |
| DungeonLocking.MutualExclusion | dungeon_server/dungeon/redis_player_lock_repository.cpp:8-15 | Two requests for the same player between Acquire and Release are the same request |
| DungeonLocking.CommitEnterIsGuarded | dungeon_server/dungeon/mysql_dungeon_repository.cpp:46-93 | The enter commit keeps one unfinished battle per player and a true remaining stamina |
| DungeonLocking.CommitSettleIsGuarded | dungeon_server/dungeon/mysql_dungeon_repository.cpp:101-193 | The settle commit keeps one bonus per player and dungeon although first_clear was read before BEGIN |
| DungeonLocking.EnterIsAboutOnePlayer | dungeon_server/dungeon/mysql_dungeon_repository.cpp:54-76 | Entering changes stamina, pending battles and progress of no other player, and takes exactly the cost |
| DungeonLocking.SettleIsAboutOnePlayer | dungeon_server/dungeon/mysql_dungeon_repository.cpp:117-176 | Settling changes nothing another player's request may have read and keeps pending battles and bonuses unique |
| DungeonLocking.UnlockIsGuarded | dungeon_server/dungeon/redis_player_lock_repository.cpp:13-15 | The unconditional DEL, done or failed, keeps the lock invariant |
| DungeonLocking.RestartIsGuarded | dungeon_server/dungeon/dungeon_service.cpp:132-138 | A worker that dies keeps the lock invariant; its locks stay behind until they expire |
| DungeonRequests.CacheIsTransparent | dungeon_server/dungeon/dungeon_service.cpp:92-123 | In every reachable state a settlement gives the same reply, tables and lock keys with the cache as it is and with any other cache of genuine fields, the empty one included, iff both or neither make it read a torn context |
| DungeonRequests.SettleRunsAlone | dungeon_server/dungeon/dungeon_service.cpp:88-123 | An undisturbed settlement, context cached, absent, unread or stale, answers and commits as one that never looks at the cache and frees the lock, iff it does not read a torn context |
| DungeonRequests.SaveTearsExactly | dungeon_server/dungeon/redis_battle_context_repository.cpp:13-37 | Saving a new context leaves one whose reading throws iff some of its fields are written and some are not |
| DungeonRequests.TornContextKills | dungeon_server/dungeon/dungeon_service.cpp:88-124 | A settlement that reads a torn context ends without a reply; tables and cache are as before, the worker starts anew and the lock key stays behind |
| ContextIndependence.RunBypassesExactly | dungeon_server/dungeon/dungeon_service.cpp:92-118 | Over whole interleaved runs, with crashes, expiries and failing statements: at every moment tables, locks, caches and replies equal those of the run in which every cache hit is answered by the battle row, iff each event meets the stated condition |
| ContextIndependence.StepAlikeExactly | dungeon_server/dungeon/dungeon_service.cpp:92-118 | Event by event, the two clusters stay alike iff no torn context is read and a settlement of a battle the other cluster already knows to be settled is neither cut off by a release nor failed by another error |
| ContextIndependence.HitAlikeExactly | dungeon_server/dungeon/dungeon_service.cpp:92-109 | A cached context and the battle row lead a settlement to the same place, up to a settlement the cache has not heard of, iff the context is not torn |
| ContextIndependence.RunIgnoresContexts | dungeon_server/dungeon/dungeon_service.cpp:92-118 | From an idle cluster, a run that reads no torn context, releases a lock only after its settlement is decided and meets no other error on a settled battle leaves the same stores and replies as the run without cache hits |
| ContextIndependence.BypassingNeverHits | dungeon_server/dungeon/dungeon_service.cpp:92-95 | The run it is compared with never reads a cached context |
| DungeonRequests.EnterRunsAlone | dungeon_server/dungeon/dungeon_service.cpp:33-66 | An undisturbed enter request answers and commits as a function of the tables and frees the lock |
| DungeonRequests.EnterSucceedsExactly | dungeon_server/dungeon/dungeon_service.cpp:37-66 | Entering succeeds iff level, stamina, a non-zero cost, no unfinished battle and a fresh id; then it reports the stamina it left, otherwise no table changes |
| DungeonRequests.SettleSucceedsExactly | dungeon_server/dungeon/dungeon_service.cpp:92-123 | On consistent tables settling succeeds iff the battle is pending and of this player and dungeon; first clear is reported iff no progress row existed; otherwise no table changes |
| DungeonRequests.EnterAnswersExactly | dungeon_server/dungeon/dungeon_service.cpp:37-66 | What an undisturbed enter answers, on the tables before it: "player not found" iff there is no player row, "dungeon locked" iff the level is too low, "stamina not enough" iff stamina is below the cost or the cost is 0 and nothing is pending, "player busy" iff a battle is pending, a storage error iff the id is taken, success otherwise, each after the checks before it |
| DungeonRequests.SettleAnswersExactly | dungeon_server/dungeon/dungeon_service.cpp:92-123 | The same for a settlement: "battle not found" iff there is no row, "mismatch" iff it is another player's or dungeon's, "already settled" iff it is settled, otherwise success with first clear iff no progress row exists |
| DungeonRequests.EnterLeaves | dungeon_server/dungeon/dungeon_service.cpp:62-66 | After an undisturbed enter Redis holds the new battle's context, column by column, and no snapshot of the player; after a refusal the caches are as before |
| DungeonRequests.SettleLeaves | dungeon_server/dungeon/dungeon_service.cpp:111-123 | After an undisturbed settlement neither the context, its deletion answered, nor a snapshot of the player is left; after a refusal the caches are as before |
| DungeonReplies.PaymentIsTold | dungeon_server/dungeon/mysql_dungeon_repository.cpp:106-176 | The rewards answered are exactly the payments new in the reward log under that player and battle, each kind once, and per kind their sum is the change of the player's log total and of the asset column |
| DungeonRequests.SecondPendingExactly | dungeon_server/dungeon/mysql_dungeon_repository.cpp:46-76 | On any tables: after a written enter its player has at most one unfinished battle iff the player had none at commit time; the other players are as before |
| DungeonRequests.SecondBonusExactly | dungeon_server/dungeon/mysql_dungeon_repository.cpp:101-176 | On any consistent tables: a written settlement leaves at most one bonus for its player and dungeon iff there was at most one and it believed in a first clear only where no progress row existed at commit time; all others are as before |
| DungeonRequests.UnansweredReadPaysAgain | dungeon_server/dungeon/mysql_dungeon_repository.cpp:101-109 | In every consistent state, a failed first-clear SELECT makes an undisturbed settlement of a cleared dungeon pay its bonus a second time |
| DungeonRequests.ExpiryBreaksOnePending | dungeon_server/dungeon/dungeon_service.cpp:33-54 | From every state in which a player may enter twice, a lock expiring under its holder leads to two unfinished battles |
| DungeonUniqueness.PromisesKeptExactly | dungeon_server/dungeon/dungeon_service.cpp:33-123 | Over every run from an idle cluster, faithful or not: a player has at most one unfinished battle throughout iff no enter commit of the player finds one, and a cleared dungeon has paid its bonus exactly once iff no settlement of a first clear there found a progress row |
| DungeonUniqueness.RunKeepsOnePendingExactly | dungeon_server/dungeon/mysql_dungeon_repository.cpp:46-93 | The same from any safe state in which the player has at most one |
| DungeonUniqueness.RunPaysOneBonusExactly | dungeon_server/dungeon/mysql_dungeon_repository.cpp:101-193 | The same from any safe state; a second bonus is never taken back |
| DungeonUniqueness.PendingStepExactly | dungeon_server/dungeon/mysql_dungeon_repository.cpp:46-93 | Event by event for one player |
| DungeonUniqueness.BonusStepExactly | dungeon_server/dungeon/mysql_dungeon_repository.cpp:101-193 | Event by event for one player and dungeon |
| DungeonUniqueness.RemainIsTrueExactly | dungeon_server/dungeon/mysql_dungeon_repository.cpp:54-93 | The remaining stamina to be reported equals the committed one iff the stamina read is still the player's at the commit |
| SnapshotIndependence.RunIgnoresSnapshots | dungeon_server/dungeon/dungeon_service.cpp:37-121 | In every run, tables, locks, contexts and replies are those of the run without any snapshot ever written |
| SnapshotIndependence.StepForgets | dungeon_server/dungeon/dungeon_service.cpp:64-121 | No single event looks at a snapshot |
| Tables.EnterEffect | dungeon_server/dungeon/mysql_dungeon_repository.cpp:54-76 | A written enter transaction took exactly the cost from sufficient stamina, added one pending battle under a new id and nothing else |
| Tables.EnterKeepsConsistent | dungeon_server/dungeon/mysql_dungeon_repository.cpp:54-76 | Entering keeps foreign keys, payments and progress consistent and removes nothing |
| Tables.EnterBalances | dungeon_server/dungeon/mysql_dungeon_repository.cpp:54-76 | Stamina taken equals the cost recorded; gold and diamond untouched |
| Tables.SettleEffect | dungeon_server/dungeon/mysql_dungeon_repository.cpp:119-176 | A written settlement marks a pending battle, credits gold and, on a first clear, diamond, raises the best star, logs exactly what it paid under unused keys, and changes nothing else |
| Tables.SettleCommitsExactly | dungeon_server/dungeon/mysql_dungeon_repository.cpp:117-179 | On consistent tables the settlement's writes fail only because the battle is no longer pending: the credit finds its row and no reward key is taken |
| Tables.SettleKeepsConsistent | dungeon_server/dungeon/mysql_dungeon_repository.cpp:117-176 | Settling keeps "settled iff paid", "progress iff cleared" and "best star = maximum" |
| Tables.SettleBalances | dungeon_server/dungeon/mysql_dungeon_repository.cpp:130-176 | Gold and diamond credited equal what is logged |
| DungeonCluster.RedisPlayerLockRepository.Acquire | dungeon_server/dungeon/redis_player_lock_repository.cpp:8-11 | True exactly when the key was absent and the answer arrived; a lost answer leaves the key set |
| DungeonCluster.RedisPlayerLockRepository.Release | dungeon_server/dungeon/redis_player_lock_repository.cpp:13-15 | The key is gone whoever set it, or the command failed and nobody will delete it |
| DungeonCluster.RedisBattleContextRepository.Save | dungeon_server/dungeon/redis_battle_context_repository.cpp:13-21 | Any set of the context's fields is stored over what was there; all of them without a fault |
| DungeonCluster.RedisBattleContextRepository.FindByBattleId | dungeon_server/dungeon/redis_battle_context_repository.cpp:23-37 | The stored context iff Redis answers with a readable one; throws iff it answers with one that is not |
| DungeonCluster.RedisBattleContextRepository.Delete | dungeon_server/dungeon/redis_battle_context_repository.cpp:39-41 | The context is gone, or nothing changes |
| DungeonCluster.RedisPlayerCacheRepository.Save | game_server/player/redis_player_cache_repository.cpp:31-43 | Any set of the snapshot's fields is stored over what was there; all of them without a fault |
| DungeonCluster.RedisPlayerCacheRepository.FindByPlayerId | game_server/player/redis_player_cache_repository.cpp:45-61 | The stored snapshot iff Redis answers with a readable one; throws iff it answers with one that is not |
| DungeonCluster.RedisPlayerCacheRepository.Invalidate | game_server/player/redis_player_cache_repository.cpp:63-65 | The snapshot is gone, or nothing changes |
| DungeonCluster.MySqlClient.Execute | common/src/mysql/mysql_client.cpp:98-122 | The row count is overwritten only on success; a violated key or a fault leaves the transaction's rows as they were |
| DungeonCluster.MySqlClient.Commit | common/src/mysql/mysql_client.cpp:172-174 | All changes of the transaction become visible or none; success implies they did, failure does not imply they did not |
| DungeonTrails.TrailGrows | dungeon_server/dungeon/dungeon_service.cpp:33-66 | Stretches of a request's own events join to one stretch in order, with at most one commit |
| DungeonTrails.OnlyCommitsWrite | dungeon_server/dungeon/dungeon_service.cpp:22-124 | Whatever the others do in between, a request's own events change tables with its one commit or not at all |
| DungeonTrails.RemainIsTold | dungeon_server/dungeon/dungeon_service.cpp:48-66 | A reply's remaining stamina is the committed one iff the tables read and the tables committed on agree on the player's stamina |
| MySqlDungeon.MySqlDungeonRepository.EnterStatements | dungeon_server/dungeon/mysql_dungeon_repository.cpp:54-76 | Success iff both writes go through, with exactly their effect; otherwise which statement failed, and "stamina not enough" iff it was the UPDATE, for lack of stamina or for any other reason |
| MySqlDungeon.MySqlDungeonRepository.CheckUnfinished | dungeon_server/dungeon/mysql_dungeon_repository.cpp:38-52 | START TRANSACTION and the pending SELECT are one PendingRead event, errors of the SELECT swallowed |
| MySqlDungeon.MySqlDungeonRepository.WriteEntered | dungeon_server/dungeon/mysql_dungeon_repository.cpp:54-95 | One EnterCommit event; success applies all row changes, a failure none unless the answer to COMMIT was lost; "stamina not enough" iff the UPDATE failed; the context returned, column by column |
| MySqlDungeon.MySqlDungeonRepository.EnterDungeon | dungeon_server/dungeon/mysql_dungeon_repository.cpp:28-95 | The two events with others acting in between, in that order; where in the history the commit is and the tables before and after it: the enter writes iff success is reported or the answer was lost, else no change; the error is "unfinished battle" or BEGIN's before the commit, and "stamina not enough" iff the UPDATE failed, else SQL's; the context returned, column by column |
| MySqlDungeon.MySqlDungeonRepository.SettleStatements | dungeon_server/dungeon/mysql_dungeon_repository.cpp:117-179 | Success iff all four or five writes go through, with exactly their joint effect; otherwise which statement failed, and "battle already settled" iff it was the first UPDATE, for whatever reason |
| MySqlDungeon.MySqlDungeonRepository.WriteSettled | dungeon_server/dungeon/mysql_dungeon_repository.cpp:111-193 | One SettleCommit event; success applies all row changes, a failure none unless the answer to COMMIT was lost; "battle already settled" iff the first UPDATE failed |
| MySqlDungeon.MySqlDungeonRepository.SettleDungeon | dungeon_server/dungeon/mysql_dungeon_repository.cpp:97-194 | The look for a progress row outside the transaction, others acting in between, then the transaction; first_clear iff the look was unanswered or saw no row; the tables before and after the commit: the settle writes iff success is reported or the answer was lost, else no change; on success the rewards returned are exactly the payments the commit logged and credited; "already settled" iff the first UPDATE failed, else SQL's error |
| DungeonServices.DungeonService.TakeLock | dungeon_server/dungeon/dungeon_service.cpp:33-35 | One Acquire event; acquired iff the key was absent and the answer arrived; the key set then, and only if the command reached Redis |
| DungeonServices.DungeonService.ReleaseLock | dungeon_server/dungeon/dungeon_service.cpp:136-138 | One Release event that hands out the reply and removes the player's key unless the command fails |
| DungeonServices.DungeonService.LoadPlayer | dungeon_server/dungeon/dungeon_service.cpp:37-53 | One EnterLoad event: player not found iff there is no row or no answer, locked iff the level is too low, stamina not enough iff it is below the cost, else stamina as read, a battle id from the worker's own counter and the counter one further |
| DungeonServices.DungeonService.EnterUnderLock | dungeon_server/dungeon/dungeon_service.cpp:37-64 | Between Acquire and Release only enter events of this worker, in order, at most one commit behind the read of the stamina; what the reply tells about both is true, and a refusal's code is the one its cause prescribes; undisturbed and without faults exactly the five scripted events |
| DungeonServices.DungeonService.EnterDungeon | dungeon_server/dungeon/dungeon_service.cpp:22-67 | Under every fault and interference: own events in order, each once, at most one commit; success is reported iff that commit took the stamina and added the battle and its answer arrived, with the stamina read less the cost and an id of player, dungeon and counter; otherwise no own event changes a table unless that commit is a COMMIT whose answer was lost, and the code is the one the read, the pending check or the failed statement prescribes, "player busy" exactly without the lock; the lock taken is released last. Undisturbed: tables written iff success or lost answer; key p stays behind iff it was set and its answer lost, or it was taken and its DEL failed. Fault-free too: exactly the script and each code iff its condition on the tables, and a serial cluster stays serial |
| DungeonServices.DungeonService.FindContext | dungeon_server/dungeon/dungeon_service.cpp:92-93 | One ContextRead event and the phase the checks on the found context prescribe; throws iff Redis answers with a torn context, and then the worker starts anew |
| DungeonServices.DungeonService.FindBattleRow | dungeon_server/dungeon/mysql_dungeon_repository.cpp:9-26 | One BattleRead event: the battle row column by column when it exists and the query is answered, or "battle not found" |
| DungeonServices.DungeonService.LookUp | dungeon_server/dungeon/dungeon_service.cpp:92-109 | Cache, then database, then the mismatch and settled checks, with others acting in between; throws only on a torn context and, fault-free, always on one |
| DungeonServices.DungeonService.SettleUnderLock | dungeon_server/dungeon/dungeon_service.cpp:92-121 | Between Acquire and Release only settle events of this worker, in order, at most one commit behind the look for a progress row, and what the reply tells about both is true; undisturbed and without faults exactly the six scripted events |
| DungeonServices.DungeonService.SettleDungeon | dungeon_server/dungeon/dungeon_service.cpp:69-124 | As for EnterDungeon, with the five early refusals in the code's order; first clear is reported and paid iff the look for a progress row was unanswered or saw none; the rewards answered are exactly the payments its commit logged and credited, whatever others do; undisturbed and fault-free each code iff its condition on the tables, and the process dies iff the request gets the lock and the context is torn, and then the key stays behind |
| DungeonServices.SerialGoesOn | dungeon_server/dungeon/dungeon_service.cpp:22-124 | Undisturbed, acknowledged and invalidating requests leave a cluster with consistent books, no busy worker and only current snapshots in that state |
| DungeonServices.ServedClusterIsInOrder | dungeon_server/dungeon/dungeon_service.cpp:22-124 | Whatever requests, interference and faults brought the mutable stores where they are, their books are in order, and after a faithful history unfinished battles and bonuses are unique |
| Decimal.ParsePrinted | game_server/player/redis_player_cache_repository.cpp:93-94 | Reading a printed integer with stoi/stoll semantics gives it back, whatever non-digit text follows |
| Decimal.PrintsExactly | game_server/player/redis_player_cache_repository.cpp:71-82 | A printed integer is the only text in canonical form - no plus, no zero in front - that reads as it |
| Decimal.TaggedIdInjective | dungeon_server/dungeon/dungeon_service.cpp:126-130 | Ids "prefix a-b-n" are equal only if all three numbers are, negative numbers included |
| Records.Split | game_server/player/redis_player_cache_repository.cpp:9-19 | The loop yields the non-empty pieces between separators, in order |
| Records.PiecesExactly | game_server/player/redis_player_cache_repository.cpp:9-19 | The pieces are the one list of non-empty texts without separators that, with only separators around and between them, make up the input |
| Records.SerializeProgress | game_server/player/redis_player_cache_repository.cpp:71-82 | The loop writes the items joined by semicolons |
| Records.ParseProgress | game_server/player/redis_player_cache_repository.cpp:84-99 | The loop reads all tokens, skips those without three parts and throws on an unreadable number |
| Records.TokenExactly | game_server/player/redis_player_cache_repository.cpp:86-96 | A token is read as an item iff it is made of exactly three parts between colons with two readable numbers, the flag set by "1" alone; it throws iff one of the numbers is unreadable |
| Records.ProgressRoundTrip | game_server/player/redis_player_cache_repository.cpp:71-99 | Parsing what was serialized returns the same list, empty or not, iff every id and star is a signed 32-bit number; otherwise it throws |
| Records.ItemPieces | game_server/player/redis_player_cache_repository.cpp:78-95 | An item splits into its three fields and contains no separator of the outer list |
| Records.SerializedPieces | game_server/player/redis_player_cache_repository.cpp:9-19 | Dropping empty pieces loses no item |
| Records.SnapshotRoundTrip | game_server/player/redis_player_cache_repository.cpp:31-61 | A snapshot saved over any hash is read back unchanged iff its numbers have the widths of the program's types |
| Records.SnapshotColumns | game_server/player/redis_player_cache_repository.cpp:31-43 | Every column of a snapshot stands under its own name and is read from there by itself |
| Records.ContextRoundTrip | dungeon_server/dungeon/redis_battle_context_repository.cpp:13-37 | A battle context saved over any hash is read back unchanged iff its numbers have the widths of the program's types |
| Records.ContextColumns | dungeon_server/dungeon/redis_battle_context_repository.cpp:13-21 | The same for a battle context |
| Records.TornSnapshot | game_server/player/redis_player_cache_repository.cpp:31-61 | Of a snapshot stored in part, reading yields the whole state iff every field is there and the numbers fit, else it throws |
| Records.TornContext | dungeon_server/dungeon/redis_battle_context_repository.cpp:13-37 | Of a context stored in part, reading yields the whole context iff every field is there and the numbers fit, else it throws |
| SnapshotCoherence.CachedSnapshotsAreCurrent | game_server/player/player_service.cpp:12-29 | From an idle cluster, with any interleaving and any lock expiry, while each event meets that condition: with no request running, every cached snapshot is what a load would yield |
| SnapshotCoherence.FreshExactly | dungeon_server/dungeon/dungeon_service.cpp:63-64 | For every event, failed invalidations, lost COMMIT answers, crashes and partial or outdated writes included: every snapshot stays current or about to be deleted iff the event meets the stated condition |
| SnapshotCoherence.RunIsFreshExactly | dungeon_server/dungeon/dungeon_service.cpp:63-64 | A run keeps every snapshot current or about to be deleted throughout iff each event meets that condition where it happens |
| SnapshotCoherence.HarmlessRunStaysFresh | dungeon_server/dungeon/dungeon_service.cpp:63-64 | Runs whose COMMITs are answered, whose invalidations are carried out and which write no snapshot meet it whatever the state |
| SnapshotCoherence.InitialIsSerial | dungeon_server/dungeon/dungeon_service.cpp:63-64 | An idle cluster without battles and snapshots is where serial histories start: books in order, no worker busy, every snapshot current |
| SnapshotCoherence.RepresentsBoth | game_server/player/mysql_player_repository.cpp:10-48 | A state loaded from some tables is what a load of others yields iff player, assets and progress rows are the same in both |
| SnapshotCoherence.RepresentsOnce | game_server/player/mysql_player_repository.cpp:33-47 | Whatever order the rows arrive in, only one state can be loaded |
| SnapshotCoherence.RepresentsColumns | game_server/player/mysql_player_repository.cpp:10-48 | A loaded state shows account, name and level of the player row, stamina, gold and diamond of the asset row or zeros without one, and the progress rows, column by column |
| SnapshotCoherence.LoadAfterEnter | dungeon_server/dungeon/mysql_dungeon_repository.cpp:54-76 | A load after an enter shows the stamina of the load before it less the cost, and everything else as before |
| SnapshotCoherence.LoadAfterSettle | dungeon_server/dungeon/mysql_dungeon_repository.cpp:117-176 | A load after a settlement shows the gold of the load before it plus the gold paid, the diamond plus the bonus iff first clear, the same stamina, and this dungeon's progress raised |
| SnapshotCoherence.EnterTouchesOne | dungeon_server/dungeon/mysql_dungeon_repository.cpp:54-76 | Entering changes what a load yields for no other player |
| SnapshotCoherence.SettleTouchesOne | dungeon_server/dungeon/mysql_dungeon_repository.cpp:117-176 | Settling changes what a load yields for no other player |
| SnapshotCoherence.EnterIsSeen | dungeon_server/dungeon/mysql_dungeon_repository.cpp:54-76 | A load always tells the tables before an enter from those after it |
| SnapshotCoherence.SettleIsSeenExactly | dungeon_server/dungeon/mysql_dungeon_repository.cpp:117-176 | A load cannot tell the tables before a settlement from those after it iff it paid nothing and raised no star in a dungeon cleared before |
| SnapshotCoherence.LostCommitLeavesStale | dungeon_server/dungeon/mysql_dungeon_repository.cpp:86-90 | A COMMIT of an enter whose answer is lost leaves a stale snapshot iff the player has one and no other worker is about to delete it |
| PlayerServices.SortByDungeon | game_server/player/mysql_player_repository.cpp:44-46 | The progress list becomes an ordered rearrangement of itself |
| PlayerServices.MySqlPlayerRepository.QueryProgress | game_server/player/mysql_player_repository.cpp:33-42 | The player's rows, each once, in no particular order, when the query is answered; none when it fails |
| PlayerServices.MySqlPlayerRepository.LoadPlayerState | game_server/player/mysql_player_repository.cpp:10-48 | What is returned shows the columns of the player, asset and progress rows, zeros without assets; it is the whole player iff the progress query was answered or had nothing to find, and without progress when it failed; a number too wide for the program throws, which the column types rule out |
| PlayerServices.PlayerService.LoadPlayer | game_server/player/player_service.cpp:12-29 | A state shown after a miss, or from a current snapshot, has the columns of the tables. Undisturbed its only event is the snapshot written after a miss, in whole or in part. Fault-free, with columns of the schema's types, the answer is that of a load without a cache iff the cached snapshot, if any, is current, and it throws iff that is torn; a serial cluster stays serial. With faults, after a miss without a snapshot, it stays serial iff nothing was stored, or everything and the progress query was answered or had nothing to find |
| PlayerServices.PlayerService.LoadAndCache | game_server/player/player_service.cpp:22-28 | The miss: what was loaded, what was stored of it, and whether the cluster is still in order |
| PlayerServices.MissedSerialExactly | game_server/player/player_service.cpp:22-28 | Between requests, loading a player without a snapshot leaves every snapshot current iff no field of it is stored, or all are and the progress query was answered or had nothing to find |
| PlayerServices.PartSnapshotIsTorn | game_server/player/redis_player_cache_repository.cpp:31-61 | A snapshot stored where there was none cannot be read iff some of its fields arrive and some do not |
| Packets.HeaderRoundTrip | common/src/net/packet.cpp:11-53 | All five header fields survive, over their full ranges, on either byte order |
| Packets.HeaderOnto | common/src/net/packet.cpp:45-53 | Any 24 bytes are the encoding of the header they decode to |
| Packets.SwapHalvesTwice | common/src/net/packet.cpp:11-21 | The 64-bit conversion undoes itself on either byte order |
| Packets.WireOrder | common/src/net/packet.cpp:25-38 | A little-endian host writes every field in network order; a big-endian one iff the halves of the request id are equal |
| Packets.ExtractExactly | common/src/net/packet.cpp:40-69 | Extraction succeeds iff the buffer starts with the encoding of a packet with valid magic and truthful length, and takes exactly that away |
| Packets.ExtractEncoded | common/src/net/packet.cpp:40-69 | What extraction makes of any encoded packet with valid magic, truthful length or not |
| Packets.PacketRoundTrip | common/src/net/packet.cpp:25-69 | A packet with valid magic comes back from its encoding whatever follows iff its header states its body's length |
| Packets.BadMagicOnTheWire | common/src/net/packet.cpp:55-58 | Both byte orders reject the same buffers: a whole header whose first four bytes are not the magic |
| Packets.TryExtractPacket | common/src/net/packet.cpp:40-69 | Finds a packet iff the buffer starts with one; otherwise the buffer is cleared iff the magic is wrong and kept if it is too short |
| TcpServer.PacketsArrive | common/src/net/tcp_server.cpp:201-232 | Framed packets plus an incomplete tail, cut into reads in any way, arrive as exactly those packets in order, and exactly the tail is kept |
| TcpServer.ChunkingIndependentExactly | common/src/net/tcp_server.cpp:201-232 | All ways of cutting a stream give the same packets and leftover iff no wrong magic occurs before its last 24 bytes |
| TcpServer.DrainStream | common/src/net/tcp_server.cpp:221-229 | Draining the encodings of framed packets and an incomplete tail yields exactly those packets and that tail |
| TcpServer.DrainInTwo | common/src/net/tcp_server.cpp:218-229 | Draining now and later equals draining once |
| TcpServer.DrainAccounts | common/src/net/tcp_server.cpp:221-229 | Every byte received belongs to a framed packet handed over, is kept, or was lost |
| TcpServer.LostToWrongMagic | common/src/net/packet.cpp:55-58 | Bytes are lost only behind a wrong magic, and then nothing is kept |
| TcpServer.ArrivingReceives | common/src/net/tcp_server.cpp:202-219 | A round of reads, by position: the bytes before the first report that ends it, and a good connection iff nothing but EAGAIN ends it |
| TcpServer.ReceivesOnce | common/src/net/tcp_server.cpp:202-219 | The position, the bytes and the verdict of a round are determined by the reports |
| TcpServer.FlushedSends | common/src/net/tcp_server.cpp:234-254 | A round of writes, by position: one piece per accepting report, interruptions aside, until the queue is empty, or a report blocks, fails or takes only part of a piece; what is left then |
| TcpServer.Connection.ReadAvailable | common/src/net/tcp_server.cpp:202-219 | Receives the bytes in front of the first report that is neither data nor EINTR, and no others; the connection is good iff there is no such report or it is EAGAIN, so an end of stream or a hard error always ends it |
| TcpServer.Connection.HandleRead | common/src/net/tcp_server.cpp:201-232 | The connection is kept iff the socket blocks before an end of stream or a hard error; then it hands over exactly the packets completed so far and keeps the rest, so that over the connection's whole life both equal one drain of everything received; hands over nothing when the connection ends |
| TcpServer.Connection.HandOver | common/src/net/tcp_server.cpp:221-229 | The extraction loop terminates and delivers exactly the drain of the buffer |
| TcpServer.Connection.Deliver | common/src/net/tcp_server.cpp:223-228 | One more packet for the handler; its answer, if any, is queued; conservation is kept |
| TcpServer.Connection.QueueResponse | common/src/net/tcp_server.cpp:262-269 | The encoded answer goes to the end of the queue and EPOLLOUT is requested unless epoll_ctl fails |
| TcpServer.Connection.HandleWrite | common/src/net/tcp_server.cpp:234-260 | Under any partial sends, EAGAIN and EINTR: bytes sent followed by the queue stay the encodings of all answers in order; what is left of the queue, report by report; the connection is kept when the socket blocks, given up when it fails, and an emptied queue stops asking for EPOLLOUT |
| TcpServer.WillingTakesAll | common/src/net/tcp_server.cpp:234-254 | A kernel that accepts every piece whole gets the whole queue in one round |
| TcpServer.AnswerConserved | common/src/net/tcp_server.cpp:223-228 | Queueing an answer, or none, keeps sent and queued bytes in step with the answers |
| TcpServer.EpollTcpServer.AcceptConnections | common/src/net/tcp_server.cpp:161-199 | Open connections keep their ids, every descriptor accepted and registered is in the table, new connections get ids never used before, and only EAGAIN ends the round well |
| TcpServer.EpollTcpServer.CloseConnection | common/src/net/tcp_server.cpp:271-284 | The disconnect handler gets the id this descriptor had, and no other open connection has it |
| TcpClient.ServerIsHonest | common/src/net/tcp_server.cpp:234-269 | What a server connection has sent is always a prefix of the encoded answers to what the client wrote |
| TcpClient.OnlyTheAnswer | common/src/net/tcp_client.cpp:124-155 | A prefix of an encoded answer is taken for a packet only when it is the whole answer, and never for garbage |
| TcpClient.PersistentTcpClient.EnsureConnected | common/src/net/tcp_client.cpp:50-92 | An open socket is kept; without one the peer is dialled once, and the call succeeds iff somebody answers, with nothing outstanding on the new socket |
| TcpClient.PersistentTcpClient.WritePacket | common/src/net/tcp_client.cpp:94-118 | True when every byte of the request has gone out, under any partial sends; false when the kernel has reported a failure |
| TcpClient.PersistentTcpClient.ReadPacket | common/src/net/tcp_client.cpp:120-156 | True when exactly the outstanding answer has been taken off the wire, in any pieces; false when the kernel has reported a failure |
| TcpClient.PersistentTcpClient.SendAndReceive | common/src/net/tcp_client.cpp:23-41 | Succeeds iff a socket is open, or the one dial is answered, and no failure is reported on it; returns the peer's answer to this very request; an open socket never has outstanding bytes between calls; every failure closes it |
| Redis.KeyNamesDiffer | login_server/session/redis_session_repository.cpp:57-63 | Session, account, lock, battle and snapshot keys never collide, in one family or across |
| Redis.RedisClient.HSet | common/src/redis/redis_client.cpp:171-205 | Any set of the fields is written over what was there, and the expiry is set only after all of them; everything without a fault |
| Redis.RedisClient.HGetAll | common/src/redis/redis_client.cpp:207-245 | The fields of a live hash exactly when Redis answers |
| Redis.RedisClient.Set | common/src/redis/redis_client.cpp:99-122 | The text with a new expiry, none for a non-positive time to live, or nothing changed |
| Redis.RedisClient.Get | common/src/redis/redis_client.cpp:124-151 | The live text exactly when Redis answers |
| Redis.RedisClient.Del | common/src/redis/redis_client.cpp:153-169 | The key is gone, or nothing changed |
| Sessions.SessionRoundTrip | login_server/session/redis_session_repository.cpp:34-55 | Of a session stored in whole or in part, reading yields the session iff every field is there, else it throws, for all 64-bit numbers; each field stands under its own name |
| Sessions.TimeKeepsExclusive | login_server/session/redis_session_repository.cpp:34-39 | The passing of time cannot leave a live session whose account key has expired |
| Sessions.CreateKeepsExclusiveExactly | login_server/session/redis_session_repository.cpp:16-41 | After Create every live session, whole or torn, is its account's latest and covered by the account's key iff the previous session is gone and the new one is not left without key or expiry |
| Sessions.CreateStaysKnown | login_server/session/redis_session_repository.cpp:25-41 | A new id was never issued before in this process and its key is unused |
| Sessions.FailedDeleteLeavesTwo | login_server/session/redis_session_repository.cpp:29-39 | A failed GET or DEL leaves two live sessions of one account |
| Sessions.CreatedIsFoundExactly | login_server/session/redis_session_repository.cpp:34-54 | After Create the new session is found iff every field was written and its time is not up, and looking it up throws iff only some were |
| Sessions.RedisSessionRepository.Create | login_server/session/redis_session_repository.cpp:16-41 | The session returned, its id made of account, player and counter, its freshness, the store after the commands with any set of fields written, when it is left torn, and exclusivity afterwards: always without a Redis failure, and exactly when otherwise |
| Sessions.RedisSessionRepository.FindById | login_server/session/redis_session_repository.cpp:43-55 | Finds a session iff Redis answers and it is live and whole; it is the one created under the id and, exclusivity given, its account's latest; throws iff Redis answers with a hash that lacks a field |
| Sessions.InMemorySessionRepository.Create | login_server/session/in_memory_session_repository.cpp:8-29 | The two maps stay mutually inverse; the account's previous session is gone, all others stay, the new id is unused and made of account, player and counter |
| Sessions.InMemorySessionRepository.FindById | login_server/session/in_memory_session_repository.cpp:31-38 | A found session is the one its account's entry names |
| Gateway.SessionBindingAuthorizer.RestoreBindingFromSession | gateway/session_binding_authorizer.cpp:39-51 | A binding only for a live session of the very player asked for, and always for one when Redis answers; throws iff Redis answers with a torn session |
| Gateway.SessionBindingAuthorizer.ValidateOrRestore | gateway/session_binding_authorizer.cpp:8-27 | A bound connection is judged by its binding alone, without Redis; an unbound one is bound, when Redis answers, exactly to a live matching session, and dies exactly of a torn one |
| Gateway.SessionBindingAuthorizer.Bind | gateway/session_binding_authorizer.cpp:29-33 | The connection's binding is replaced, all others stay |
| Gateway.SessionBindingAuthorizer.Unbind | gateway/session_binding_authorizer.cpp:35-37 | The connection's binding is gone, all others stay |
| Gateway.LoginService.Login | login_server/login_service.cpp:10-30 | A session is created iff the account exists, is enabled and the password verifies; it is then the account's latest; the refusals in the code's order |
| Gateway.Serve | dungeon_server/dungeon/dungeon_service.cpp:23-26 | A service acts only for a session found now, for that session's own player and, exclusivity given, the account's latest session; when Redis answers, it acts for every such session and dies of every torn one |
| Gateway.GatewayServer.AcceptConnections | common/src/net/tcp_server.cpp:184-197 | New connections start unbound under ids never used before |
| Gateway.GatewayServer.Disconnect | gateway/gateway_server.cpp:81-85 | The closed connection's binding, and only that, is removed; bindings exist only for open connections |
| Gateway.GatewayServer.Authorize | gateway/gateway_server.cpp:121-131 | On a bound connection a request gets through iff its context equals the binding; on an unbound one only if a live matching session is found and, Redis answering, exactly then; a connection that gets through is bound to what the request names, and nothing else changes |
| Gateway.GatewayServer.ForwardLogin | gateway/gateway_server.cpp:160-174 | A session is issued iff the request arrives with an enabled account's password; the answer, each refusal iff its cause, is handed on iff it arrives, and the connection is bound to the session of a successful answer and to nothing otherwise |
| Gateway.GatewayServer.LoginElsewhere | login_server/login_service.cpp:10-30 | A login through another gateway leaves this one's bindings naming issued sessions only, however stale they become |
| Gateway.GatewayServer.HandlePacket | gateway/gateway_server.cpp:93-177 | A player request is forwarded as Authorize says; whatever a service then does, its answer lost or not, is done in the name of the session named and, exclusivity given, the account's latest, for its own player, even when the binding is stale, and, Redis answering, for every such session; the reply is the service's own iff its answer arrives; a login as for ForwardLogin; anything else is answered here |
| Gateway.GatewayServer.ForwardToService | gateway/gateway_server.cpp:133-176 | The service's own answer is handed on iff it arrives and the service did not die; whether it arrives or not, what the service did was done in the name of the session named and for its own player |
| Backend.LookUpSession | login_server/session/redis_session_repository.cpp:43-55 | The session is accepted iff it is live, whole and the player's, Redis answering, and then it is the account's latest |
| Backend.EnterDungeon | dungeon_server/dungeon/dungeon_service.cpp:22-67 | From session lookup to release: admitted iff the session is live and the player's (Redis answering), then the account's latest, else "session invalid"; undisturbed, no other player's rows change and none at all unless admitted; success means the enter writes; undisturbed and fault-free an admitted request follows the script with the code its condition prescribes; dies iff the session is torn |
| Backend.SettleDungeon | dungeon_server/dungeon/dungeon_service.cpp:69-124 | The same for a settlement, whose success also lists exactly what was paid; it also dies of a torn context, leaving the lock |
| Backend.LoadPlayer | game_server/player/player_service.cpp:12-29 | The same for a load: a player is only ever shown to the account's latest session; fault-free the answer is an uncached one iff the cached snapshot, if any, is current |
| Backend.ForwardDungeonRequest | gateway/gateway_server.cpp:133-176 | The exchange with the dungeon server: lost on the way, answered, or carried out with its answer lost; the reply is heard iff it comes back, and a request not admitted is answered "session invalid", or "only success" for a failed battle |
| Backend.HandleDungeonRequest | gateway/gateway_server.cpp:121-176 | From client to rows and back: turned away iff the binding differs or, without one and Redis answering, no live matching session is found; delivered and fault-free, admitted iff the session is live and the player's (and the settlement a success); undisturbed and fault-free, then exactly the script; what comes back is the server's own reply iff it is delivered. Rows change only for the account's latest session on a connection bound to it, and are that session's own player's; a success heard stands for exactly the row changes made and the payments listed |
| Backend.HandleLoad | gateway/gateway_server.cpp:121-176 | The same for a load: turned away, admitted and heard under the same conditions; a client hears a player's state only over a connection bound to that session and player, the session being the account's latest, and fault-free it is an uncached one iff the cached snapshot, if any, is current |
| Texts.Find | common/src/config/simple_config.cpp:121-122 | The first occurrence at or after a position, if any |
| Texts.TrimExactly | common/src/config/simple_config.cpp:13-19 | The trimmed text is the one without blanks at its ends that blanks around it make up the input |
| SimpleConfigs.ExpandEnvironmentVariables | common/src/config/simple_config.cpp:117-133 | The in-place loop terminates and computes the substitution, for every text and environment |
| SimpleConfigs.ExpansionSubstitutes | common/src/config/simple_config.cpp:117-133 | Expansion replaces each reference of a template by what it resolves to, left to right, and does not look at replacements again |
| SimpleConfigs.ParseRenders | common/src/config/simple_config.cpp:121-125 | Every text is the rendering of such a template |
| SimpleConfigs.RenderParses | common/src/config/simple_config.cpp:121-125 | There is only one way to take a text apart |
| SimpleConfigs.ResolveWithFallback | common/src/config/simple_config.cpp:21-35 | NAME:-fallback, blanks anywhere: the variable if the name, up to a NUL, is set to something, else, unset or set to nothing, the trimmed fallback |
| SimpleConfigs.ResolveWithoutFallback | common/src/config/simple_config.cpp:21-35 | NAME, blanks around it: the variable if set to something, else nothing |
| SimpleConfigs.AssignmentExactly | common/src/config/simple_config.cpp:48-63 | A line assigns a key iff it is `key = value` with blanks around both, no comment and with a key, and then the expansion of that value |
| SimpleConfigs.SimpleConfig.LoadFromFile | common/src/config/simple_config.cpp:39-67 | A key is set iff some line assigns it, and the last such line wins; without a file nothing changes |
| PasswordHashers.ToHex | common/src/security/password_hasher.cpp:81-91 | The loop writes two lower-case digits per byte, high half first, each digit the one of its value |
| PasswordHashers.FromHex | common/src/security/password_hasher.cpp:93-123 | The loop decodes iff the length is even and all characters are hexadecimal digits of either case |
| PasswordHashers.HexRoundTrip | common/src/security/password_hasher.cpp:81-123 | Decoding what was encoded gives back every byte string |
| PasswordHashers.SplitJoined | common/src/security/password_hasher.cpp:37-57 | Fields without a dollar sign are cut apart exactly where they were joined |
| PasswordHashers.VerifyEncoded | common/src/security/password_hasher.cpp:37-64 | A stored entry is accepted iff the password hashes to the stored text under its salt and count |
| PasswordHashers.VerifyExactly | common/src/security/password_hasher.cpp:37-64 | Any entry, well-formed or not, is accepted iff it is the scheme, a readable count, a hexadecimal salt and the password's hash under these, joined by dollar signs |
| PasswordHashers.EncodedHashRoundTrip | common/src/security/password_hasher.cpp:37-79 | A hash is built iff a key can be derived; it is scheme, count, salt and key in that order, and is accepted for exactly the passwords that yield the same key, the original among them, for every salt and count |
| PasswordHashers.UnderivableMatchesEmptyHash | common/src/security/password_hasher.cpp:37-64 | When no key can be derived, a stored entry is accepted iff its hash field is empty |

## Left out

- DungeonServices.DungeonService.EnterDungeon: takes the session repository's answer as a parameter; `Backend.EnterDungeon` puts the lookup in front of it.
- DungeonServices.DungeonService.SettleDungeon: takes the session repository's answer as a parameter; `Backend.SettleDungeon` puts the lookup in front of it.
- DungeonServices.DungeonService.LoadPlayer: the progress rows `LoadPlayerState` also reads do not matter to an enter request and are not read.
- DungeonCluster.MySqlClient.Execute: columns are unbounded integers, an SQL out-of-range error is one of the faults a statement may have; SQL error texts are taken to differ from the fixed messages they are compared with.
- DungeonCluster.RedisBattleContextRepository.Save: expiry times are left out here, a cached context or snapshot may vanish at any moment; a hash of which only some fields are left never gets an expiry in the source.
- PlayerServices.PlayerService.LoadPlayer: agreement with an uncached load is claimed undisturbed only, because the load takes no lock and its read and its write are separate steps; disturbed, it is an ordinary run.
- PlayerServices.MySqlPlayerRepository.LoadPlayerState: nobody acts between its two queries, which the source sends outside a transaction.
- PlayerServices.SortByDungeon: std::sort is modelled by its contract; the insertion sort in the body stands for any algorithm.
- TcpServer.EpollTcpServer.AcceptConnections: the table maps descriptors to ids only; buffers and queues belong to `TcpServer.Connection`, and epoll registration failures are part of the script.
- TcpServer.Connection.HandleRead: the kernel's reports are a finite script, so an endless stream of EINTR is not modelled.
- TcpClient.PersistentTcpClient.SendAndReceive: asks for a request whose header states its body length, which every caller builds; poll reports readiness a bounded number of times per socket.
- TcpClient.PersistentTcpClient.EnsureConnected: name resolution and the walk over addresses are one yes-or-no outcome; the round-robin pool of independent clients is left out.
- Sessions.RedisSessionRepository.Create: one login server in one process lifetime (the counter restarts at 1 after a restart), and created_at comes in as a parameter.
- Gateway.GatewayServer.HandlePacket: an answer rejected for its request id or message type counts as lost; trace ids and error codes are left out; the gateway's and the services' session repositories are one object, since looking up keeps no state.
- Gateway.Serve: stands for the first lines of all three services; `Backend` puts the services themselves behind the gateway.
- Backend.EnterDungeon: sessions and game data are two stores although both are in Redis, since no two keys share a name (`Redis.KeyNamesDiffer`).
- PasswordHashers.EncodedHashRoundTrip: PBKDF2 itself is a parameter, and password lengths beyond a C int are not modelled.
- SimpleConfigs.SimpleConfig.LoadFromFile: takes the lines of the file; reading the file and the typed getters are left out.
- A COMMIT, SET or DEL whose answer does not arrive takes effect at once or never; a server that carries it out after the client has given up and released its lock is not modelled.
- Battle ids are compared exactly, as Redis compares keys; the `battle_id` columns take the collation `utf8mb4_unicode_ci` of deploy/docker-compose.yml, under which MySQL also accepts ids that differ in case.
- ROLLBACK takes effect even when it is not answered, because the server discards the transaction of a lost connection.
- Who set a lock key, and whether that request is still running, is an annotation of the protocol that no step reads.
- The 64-bit counters for battle ids, session ids and connection ids are unbounded.
- SQL text, escaping, connection handling of MySQL and Redis, protobuf encoding, sockets, epoll_wait, logging, signal handling, the main programs, tools and deployment files.
- Enum-to-text tables, message-id switches and field-by-field mappings, which one branch settles.
