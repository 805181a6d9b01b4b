/**
 The dungeon service itself: lock, read, transact, cache, invalidate, unlock.  Each request is proved
 to be a run of the protocol by this worker, interleaved with whatever the others do, and to be exactly
 the undisturbed script when nobody interferes and nothing fails.
 */
module DungeonServices {
  import opened Common
  import opened Decimal
  import opened Tables
  import opened DungeonProtocol
  import opened DungeonReplies
  import opened DungeonCluster
  import opened DungeonTrails
  import opened DungeonLocking
  import opened DungeonRequests
  import opened DungeonSafety
  import opened MySqlDungeon
  import opened Records
  import opened Sessions
  import opened SnapshotCoherence

  /** A worker that was told "busy", or refused halfway, takes no part in the rest of the script. */
  lemma BusySkips(s: State, me: int)
    requires s.Of(me).phase.Idle?
    ensures Step(s, EnterLoad(me, true)) == s && Step(s, PendingRead(me, Seen)) == s
    ensures Step(s, EnterCommit(me, Clean)) == s
    ensures Step(s, SaveContext(me, CONTEXT_FIELDS)) == s
  {
  }

  lemma SettleTakesLock(s: State, me: int, p: int, id: string, cfg: DungeonConfig, star: int)
    requires 0 < star <= cfg.maxStar
    ensures forall f :: Step(s, SettleAcquire(me, p, id, cfg, star, f))
                     == DungeonProtocol.Acquire(s, me, p, SettleLocked(p, id, cfg, star), f)
  {
    hide DungeonProtocol.Acquire;
  }

  lemma SettleBusySkips(s: State, me: int)
    requires s.Of(me).phase.Idle?
    ensures Step(s, ContextRead(me, true)) == s && Step(s, BattleRead(me, true)) == s
    ensures Step(s, FirstClearRead(me, true)) == s
    ensures Step(s, SettleCommit(me, Clean)) == s && Step(s, DeleteContext(me, true)) == s
  {
    hide CheckContext, FindBattle, SettleWrites;
  }

  lemma EndBusySkips(s: State, me: int)
    requires s.Of(me).phase.Idle?
    ensures Step(s, Invalidate(me, true)) == s && Step(s, Release(me, true)) == s
  {
  }

  /** What is left of a settle request whose worker is idle again changes nothing. */
  lemma RestOfSettleSkips(s: State, me: int)
    requires s.Of(me).phase.Idle?
    ensures Step(Step(Step(Step(Step(Step(Step(s, ContextRead(me, true)), BattleRead(me, true)),
              FirstClearRead(me, true)), SettleCommit(me, Clean)), DeleteContext(me, true)), Invalidate(me, true)),
              Release(me, true)) == s
  {
    hide Step;
    SettleBusySkips(s, me);
    EndBusySkips(s, me);
  }

  /** The same for an enter request. */
  lemma RestOfEnterSkips(s: State, me: int)
    requires s.Of(me).phase.Idle?
    ensures Step(Step(Step(Step(Step(Step(s, EnterLoad(me, true)), PendingRead(me, Seen)), EnterCommit(me, Clean)),
              SaveContext(me, CONTEXT_FIELDS)), Invalidate(me, true)), Release(me, true)) == s
  {
    hide Step;
    BusySkips(s, me);
    EndBusySkips(s, me);
  }

  lemma SettleRefusedSkips(s: State, me: int)
    requires s.Of(me).phase.Releasing?
    ensures Step(s, FirstClearRead(me, true)) == s && Step(s, SettleCommit(me, Clean)) == s
    ensures Step(s, DeleteContext(me, true)) == s && Step(s, Invalidate(me, true)) == s
  {
  }

  lemma LookedUpSkips(s: State, me: int)
    requires s.Of(me).phase.SettleFound? || s.Of(me).phase.Releasing?
    ensures Step(s, BattleRead(me, true)) == s
  {
  }

  /** The phase after the checks on a battle context. */
  function Checked(p: int, ctx: BattleContext, cfg: DungeonConfig, star: int): (r: Phase)
    ensures r.SettleFound? || r.Releasing?
  {
    if ctx.playerId != p || ctx.dungeonId != cfg.dungeonId then Releasing(p, Refusal(BattleMismatch, ContextMismatch))
    else if ctx.settled then Releasing(p, Refusal(BattleAlreadySettled, AlreadySettled))
    else SettleFound(p, ctx, cfg, star)
  }

  lemma RunSettleScript(s: State, me: int, p: int, id: string, cfg: DungeonConfig, star: int)
    ensures Run(s, SettleScript(me, p, id, cfg, star, true, true, true)) ==
      Step(Step(Step(Step(Step(Step(Step(Step(s, SettleAcquire(me, p, id, cfg, star, Reached)), ContextRead(me, true)),
        BattleRead(me, true)), FirstClearRead(me, true)), SettleCommit(me, Clean)), DeleteContext(me, true)),
        Invalidate(me, true)), Release(me, true))
  {
    hide Step;
    RunEight(s, SettleAcquire(me, p, id, cfg, star, Reached), ContextRead(me, true), BattleRead(me, true),
             FirstClearRead(me, true),
             SettleCommit(me, Clean), DeleteContext(me, true), Invalidate(me, true), Release(me, true));
  }

  lemma EnterTakesLock(s: State, me: int, p: int, cfg: DungeonConfig)
    ensures forall f ::
              Step(s, EnterAcquire(me, p, cfg, f)) == DungeonProtocol.Acquire(s, me, p, EnterLocked(p, cfg), f)
  {
    hide DungeonProtocol.Acquire;
  }

  lemma RefusedSkips(s: State, me: int)
    requires s.Of(me).phase.Releasing?
    ensures Step(s, PendingRead(me, Seen)) == s && Step(s, EnterCommit(me, Clean)) == s
    ensures Step(s, SaveContext(me, CONTEXT_FIELDS)) == s && Step(s, Invalidate(me, true)) == s
  {
  }

  lemma RunEnterScript(s: State, me: int, p: int, cfg: DungeonConfig)
    ensures Run(s, EnterScript(me, p, cfg)) ==
      Step(Step(Step(Step(Step(Step(Step(s, EnterAcquire(me, p, cfg, Reached)), EnterLoad(me, true)),
        PendingRead(me, Seen)),
        EnterCommit(me, Clean)), SaveContext(me, CONTEXT_FIELDS)), Invalidate(me, true)), Release(me, true))
  {
    hide Step;
    RunSeven(s, EnterAcquire(me, p, cfg, Reached), EnterLoad(me, true), PendingRead(me, Seen), EnterCommit(me, Clean),
             SaveContext(me, CONTEXT_FIELDS), Invalidate(me, true), Release(me, true));
  }

  /** The lock keys after a request that nobody interfered with: p's key stays behind exactly if it was set
      but the answer was lost, or if this request took it and then did not delete it. */
  function LocksAfter(before: set<int>, p: int, fate: LockFate, done: bool): set<int>
  {
    if p in before || fate.Unreached? || (fate.Reached? && done) then before else before + {p}
  }

  lemma LockGivenBack(before: set<int>, p: int, done: bool)
    requires p !in before
    ensures var held := LocksAfter(before, p, Reached, false);
            LocksAfter(before, p, Reached, done) == if done then held - {p} else held
  {
  }

  lemma LoadWasRead(origin: State, trace: seq<Event>, me: int, answered: bool, tables: Tables)
    requires tables == Run(origin, trace).db
    ensures WasRead(origin, trace + [EnterLoad(me, answered)], |trace|, me, EnterRequest,
                    Read(|trace|, answered, tables))
  {
    hide Run;
    assert (trace + [EnterLoad(me, answered)])[..|trace|] == trace;
  }

  /** A request that came past the loading checks and is refused, is refused for its transaction. */
  lemma RefusedFor(reply: Reply, lost: bool, commit: Option<Commit>, read: Read, p: int, cfg: DungeonConfig, id: string)
    requires EnterTold(reply, lost, commit, read, p, cfg, id) && reply.Refusal?
    requires read.answered && p in read.tables.players && read.tables.players[p].level >= cfg.requiredLevel
    requires StaminaOf(read.tables, p) >= cfg.costStamina
    requires commit.None? ==>
               reply == Refusal(PlayerBusy, UnfinishedBattle) || (reply.code == StorageError && reply.message.SqlError?)
    ensures EnterRefusedFor(reply, commit, read, p, cfg)
  {
    hide EnterWrites;
  }

  lemma SafeIsConsistent(s: State)
    requires Safe(s)
    ensures Consistent(s.db, s.stars)
  {
  }

  /** The events of the repository's two calls, with whatever the others do in between. */
  lemma PendingTrail(t0: seq<Event>, first: seq<Event>, second: seq<Event>, me: int, pending: PendingFate,
                     tx: Option<TxFate>)
    requires NoneBy(me, first) && NoneBy(me, second)
    ensures var t1 := t0 + first + [PendingRead(me, pending)];
            Trail(t1 + if tx.Some? then second + [EnterCommit(me, tx.value)] else [], |t0|, me, EnterRequest, 2, 5,
                  if tx.Some? then Some(|t1| + |second|) else None)
  {
    hide Trail;
    var t1 := t0 + first + [PendingRead(me, pending)];
    StepTrail(t0, first, PendingRead(me, pending), me, EnterRequest);
    if tx.Some? {
      Regroup(t1, second, [EnterCommit(me, tx.value)]);
      StepTrail(t1, second, EnterCommit(me, tx.value), me, EnterRequest);
      WiderTrail(t1, |t0|, me, EnterRequest, 2, 3, 2, 4, None);
      TrailGrows(t1, t1 + second + [EnterCommit(me, tx.value)], |t0|, me, EnterRequest, 2, 4, 5, None,
                 Some(|t1| + |second|));
    } else {
      assert t1 + [] == t1;
      WiderTrail(t1, |t0|, me, EnterRequest, 2, 3, 2, 5, None);
    }
  }

  lemma FirstClearTrail(t0: seq<Event>, first: seq<Event>, second: seq<Event>, me: int, answered: bool, tx: TxFate)
    requires NoneBy(me, first) && NoneBy(me, second)
    ensures Trail(t0 + first + [FirstClearRead(me, answered)] + second + [SettleCommit(me, tx)], |t0|, me,
                  SettleRequest, 3, 5, Some(|t0| + |first| + 1 + |second|))
  {
    hide Trail;
    var t1 := t0 + first + [FirstClearRead(me, answered)];
    StepTrail(t0, first, FirstClearRead(me, answered), me, SettleRequest);
    StepTrail(t1, second, SettleCommit(me, tx), me, SettleRequest);
    TrailGrows(t1, t1 + second + [SettleCommit(me, tx)], |t0|, me, SettleRequest, 3, 4, 5, None,
               Some(|t1| + |second|));
  }

  lemma NothingToAccount(origin: State, trace: seq<Event>, from: nat, me: int, request: Request, read: Read)
    ensures Accounted(origin, trace, from, me, request, read, None)
  {
  }

  lemma NoLocksAfter(before: set<int>, p: int)
    ensures LocksAfter(before, p, Unreached, false) == before
  {
  }

  lemma EmptyTrail(trace: seq<Event>, me: int, request: Request, low: nat, high: nat)
    ensures Trail(trace, |trace|, me, request, low, high, None)
  {
  }

  /** A request that never got to its commit tells nothing about the tables. */
  lemma NothingTold(reply: Reply, read: Read, p: int, cfg: DungeonConfig, id: string, t: Tables)
    requires reply.Refusal?
    ensures EnterTold(reply, false, None, read, p, cfg, id) && CommitAlone(t, t, None)
  {
  }

  lemma NothingSettled(reply: Reply, read: Read, p: int, id: string, cfg: DungeonConfig, star: int, t: Tables)
    requires !reply.SettledReply? && !reply.Entered?
    ensures SettleTold(reply, false, None, read, p, id, cfg, star) && CommitAlone(t, t, None)
  {
  }

  /** Undisturbed events of one worker that leave no stale snapshot take a serial history on. */
  lemma SerialGoesOn(s: State, s': State, me: int, events: seq<Event>)
    requires Serial(s) && s' == Run(s, events) && s'.Of(me).phase.Idle?
    requires forall i :: 0 <= i < |events| ==> Harmless(events[i]) && forall v :: v != me ==> NotBy(v, events[i])
    ensures Serial(s')
  {
    hide Run, Safe, Coherent, Fresh;
    FreshAndIdleIsCoherent(s);
    HarmlessRunStaysFresh(s, events);
    forall v ensures s'.Of(v).phase.Idle? {
      if v != me { RunLeavesMeAlone(s, events, v); }
    }
    FreshAndIdleIsCoherent(s');
  }

  /** What is proved about runs holds of the stores the services work on: whatever requests, interference
      and faults brought a cluster where it is, its books are in order; and if no lock expired under its
      holder and the two silent reads were answered, the lock kept its promises. */
  lemma ServedClusterIsInOrder(cluster: Cluster)
    requires cluster.Valid() && Initial(cluster.origin)
    ensures Consistent(cluster.db, cluster.stars) && Balanced(cluster.origin.db, cluster.db)
    ensures Grows(cluster.origin.db, cluster.db)
    ensures FaithfulRun(cluster.origin, cluster.trace) ==> OnePending(cluster.db)
    ensures FaithfulRun(cluster.origin, cluster.trace) ==>
              forall p, d :: (p, d) in cluster.db.progress ==> BonusOnce(cluster.db, p, d)
  {
    hide Run, FaithfulRun, Initial, OnePending, BonusOnce, Balanced, Grows;
    InitialIsSafe(cluster.origin);
    RunIsSafe(cluster.origin, cluster.trace);
    if FaithfulRun(cluster.origin, cluster.trace) {
      FaithfulRunsKeepPromises(cluster.origin, cluster.trace);
    }
  }

  class DungeonService {
    const me: int
    const configs: map<int, DungeonConfig>
    const cluster: Cluster
    const playerLocks: RedisPlayerLockRepository
    const battleContexts: RedisBattleContextRepository
    const playerCache: RedisPlayerCacheRepository
    const repository: MySqlDungeonRepository
    var sequence: nat

    constructor (me: int, configs: map<int, DungeonConfig>, cluster: Cluster, mysql: MySqlClient)
      requires cluster.Valid() && mysql.cluster == cluster && !mysql.changed
      requires cluster.View().Of(me) == Worker(1, Idle, NoReply)
      requires forall d :: d in configs ==> configs[d].dungeonId == d
      ensures Valid() && this.me == me && this.cluster == cluster && this.configs == configs
    {
      this.me, this.configs, this.cluster, sequence := me, configs, cluster, 1;
      playerLocks := new RedisPlayerLockRepository(cluster);
      battleContexts := new RedisBattleContextRepository(cluster);
      playerCache := new RedisPlayerCacheRepository(cluster);
      repository := new MySqlDungeonRepository(mysql);
    }

    ghost predicate Wired()
      reads this, repository, repository.mysql, cluster
    {
      && playerLocks.cluster == cluster && battleContexts.cluster == cluster && playerCache.cluster == cluster
      && repository.cluster == cluster && repository.Valid()
      && cluster.View().Of(me).sequence == sequence
      && forall d :: d in configs ==> configs[d].dungeonId == d
    }

    ghost predicate Valid()
      reads this, repository, repository.mysql, cluster
    {
      Wired() && cluster.View().Of(me).phase.Idle?
    }

    /** The process ends outside a request and is started again: it counts its battles anew. */
    method Restart()
      requires Valid()
      modifies this, cluster
      ensures Valid() && cluster.View() == Step(old(cluster.View()), Crash(me))
      ensures cluster.trace == old(cluster.trace) + [Crash(me)] && cluster.faults == old(cluster.faults)
      ensures cluster.db == old(cluster.db) && cluster.locks.Keys == old(cluster.locks.Keys)
    {
      hide Run;
      var before := cluster.View();
      sequence, cluster.locks := 1, Orphaned(cluster.locks, me);
      cluster.Record(before, Crash(me));
    }

    /** Acquire the player lock, or answer "player is busy". */
    method TakeLock(p: int, ghost next: Phase, e: LockFate -> Event) returns (acquired: bool, fate: LockFate)
      requires Valid()
      requires forall f :: Step(cluster.View(), e(f)) == DungeonProtocol.Acquire(cluster.View(), me, p, next, f)
      modifies cluster
      ensures Wired() && cluster.View() == Step(old(cluster.View()), e(fate))
      ensures cluster.trace == old(cluster.trace) + [e(fate)]
      ensures acquired <==> fate.Reached? && p !in old(cluster.locks)
      ensures acquired ==> cluster.View().Of(me) == old(cluster.View().Of(me)).(phase := next)
      ensures !acquired ==> cluster.View().Of(me) == old(cluster.View().Of(me)).(reply := BUSY)
      ensures cluster.faults >= old(cluster.faults) && (cluster.faults == old(cluster.faults) ==> fate == Reached)
      ensures cluster.locks.Keys == LocksAfter(old(cluster.locks.Keys), p, fate, false)
      ensures cluster.db == old(cluster.db) && cluster.contexts == old(cluster.contexts)
    {
      var before := cluster.View();
      acquired, fate := playerLocks.Acquire(me, p);
      cluster.Record(before, e(fate));
    }

    /** Delete the player lock and hand out the reply. */
    method ReleaseLock(p: int, reply: Reply) returns (ghost done: bool)
      requires Wired() && cluster.View().Of(me).phase == Releasing(p, reply)
      modifies cluster
      ensures Valid() && cluster.View() == Step(old(cluster.View()), Release(me, done))
      ensures cluster.View().Of(me) == old(cluster.View().Of(me)).(phase := Idle, reply := reply)
      ensures cluster.trace == old(cluster.trace) + [Release(me, done)]
      ensures cluster.faults >= old(cluster.faults) && (cluster.faults == old(cluster.faults) ==> done)
      ensures cluster.locks.Keys == if done then old(cluster.locks.Keys) - {p} else old(cluster.locks.Keys)
      ensures cluster.db == old(cluster.db)
    {
      hide Run;
      var before := cluster.View();
      var deleted := playerLocks.Release(me, p);
      cluster.Record(before, Release(me, deleted));
      done := deleted;
    }

    /** Drop the player's snapshot. */
    method InvalidateSnapshot(p: int, reply: Reply) returns (ghost done: bool)
      requires Wired() && cluster.View().Of(me).phase == Invalidating(p, reply)
      modifies cluster
      ensures Wired() && cluster.View() == Step(old(cluster.View()), Invalidate(me, done))
      ensures cluster.View().Of(me) == old(cluster.View().Of(me)).(phase := Releasing(p, reply))
      ensures cluster.trace == old(cluster.trace) + [Invalidate(me, done)]
      ensures cluster.faults >= old(cluster.faults) && (cluster.faults == old(cluster.faults) ==> done)
      ensures cluster.locks == old(cluster.locks) && cluster.db == old(cluster.db)
    {
      hide Run;
      var before := cluster.View();
      var deleted := playerCache.Invalidate(p);
      cluster.Record(before, Invalidate(me, deleted));
      done := deleted;
    }

    /** Give the others a turn, then drop the snapshot: what every successful request does before it ends. */
    method DropStaleSnapshot(p: int, reply: Reply, ghost request: Request, others: Interference)
      requires Wired() && Foreign(me, others) && cluster.View().Of(me).phase == Invalidating(p, reply)
      modifies cluster
      ensures Wired() && cluster.View().Of(me).phase == Releasing(p, reply)
      ensures old(cluster.trace) <= cluster.trace
      ensures Trail(cluster.trace, |old(cluster.trace)|, me, request, 6, 7, None)
      ensures cluster.faults >= old(cluster.faults)
      ensures Quiet(others) && cluster.faults == old(cluster.faults) ==>
                cluster.View() == Step(old(cluster.View()), Invalidate(me, true))
      ensures Quiet(others) ==> cluster.locks == old(cluster.locks) && cluster.db == old(cluster.db)
    {
      hide Step, Run, Trail;
      ghost var t0 := cluster.trace;
      cluster.Others(me, others(4));
      ghost var dropped := InvalidateSnapshot(p, reply);
      StepTrail(t0, others(4), Invalidate(me, dropped), me, request);
    }

    // ---- entering ----

    /** Load the player, check level and stamina, and make up the battle id. */
    method LoadPlayer(p: int, cfg: DungeonConfig)
      returns (proceed: bool, stamina: int, battleId: string, reply: Reply, ghost answered: bool)
      requires Wired() && cluster.View().Of(me).phase == EnterLocked(p, cfg)
      modifies this, cluster
      ensures Wired() && cluster.View() == Step(old(cluster.View()), EnterLoad(me, answered))
      ensures cluster.View().Of(me).phase ==
                if proceed then EnterLoaded(p, cfg, stamina, battleId) else Releasing(p, reply)
      ensures proceed ==> battleId == GenerateBattleId(p, cfg.dungeonId, old(sequence))
      ensures sequence == old(sequence) + if proceed then 1 else 0
      ensures proceed ==> answered && stamina == StaminaOf(cluster.db, p)
      ensures !proceed ==> EnterRefusedFor(reply, None, Read(0, answered, cluster.db), p, cfg) && reply.Refusal?
      ensures proceed ==> p in cluster.db.players && cluster.db.players[p].level >= cfg.requiredLevel
      ensures proceed ==> stamina >= cfg.costStamina
      ensures cluster.trace == old(cluster.trace) + [EnterLoad(me, answered)]
      ensures cluster.faults >= old(cluster.faults) && (cluster.faults == old(cluster.faults) ==> answered)
      ensures cluster.locks == old(cluster.locks) && cluster.db == old(cluster.db)
    {
      hide Run, Step, GenerateBattleId, StaminaOf;
      proceed, stamina, battleId, reply := false, 0, "", NoReply;
      var before := cluster.View();
      var found := repository.mysql.Answered();
      answered := found;
      LoadEffect(before, me, p, cfg, found);
      if !found || p !in cluster.db.players {
        reply := Refusal(PlayerNotFound, PlayerNotFoundText);
        cluster.Record(before, EnterLoad(me, found));
        return;
      }
      stamina := StaminaOf(cluster.db, p);
      KnownStamina(cluster.db, p);
      if cluster.db.players[p].level < cfg.requiredLevel {
        reply := Refusal(DungeonLocked, LevelNotEnough);
      } else if stamina < cfg.costStamina {
        reply := Refusal(StaminaNotEnough, StaminaNotEnoughText);
      } else {
        proceed, battleId := true, GenerateBattleId(p, cfg.dungeonId, sequence);
        sequence := sequence + 1;
      }
      cluster.Record(before, EnterLoad(me, found));
    }

    /** Cache the new battle's context, or as many of its fields as get through. */
    method SaveContext(ctx: BattleContext, p: int, remain: int) returns (ghost names: set<string>)
      requires Wired() && cluster.View().Of(me).phase == EnterCommitted(p, ctx, remain)
      modifies cluster
      ensures Wired() && cluster.View() == Step(old(cluster.View()), Event.SaveContext(me, names))
      ensures cluster.View().Of(me)
           == old(cluster.View().Of(me)).(phase := Invalidating(p, Entered(ctx.battleId, remain)))
      ensures cluster.trace == old(cluster.trace) + [Event.SaveContext(me, names)]
      ensures cluster.faults >= old(cluster.faults)
      ensures cluster.faults == old(cluster.faults) ==> names == CONTEXT_FIELDS
      ensures cluster.locks == old(cluster.locks) && cluster.db == old(cluster.db)
    {
      hide Run, SavedContexts;
      var before := cluster.View();
      var saved := battleContexts.Save(ctx);
      cluster.Record(before, Event.SaveContext(me, saved));
      names := saved;
    }

    /** The middle of an enter request: check, commit. */
    method EnterCommits(p: int, stamina: int, cfg: DungeonConfig, battleId: string, ghost read: Read,
                        others: Interference)
      returns (result: EnterResult, ghost lost: bool, ghost commit: Option<Commit>)
      requires Wired() && Foreign(me, others) && cluster.View().Of(me).phase == EnterLoaded(p, cfg, stamina, battleId)
      requires read.answered && stamina == StaminaOf(read.tables, p)
      requires WasRead(cluster.origin, cluster.trace, read.at, me, EnterRequest, read)
      modifies cluster, repository.mysql
      ensures Wired() && cluster.View().Of(me).phase == AfterEnter(p, result)
      ensures result.ctx == EnteredContext(battleId, p, cfg)
      ensures old(cluster.trace) <= cluster.trace
      ensures Accounted(cluster.origin, cluster.trace, read.at, me, EnterRequest, read, commit)
      ensures Trail(cluster.trace, |old(cluster.trace)|, me, EnterRequest, 2, 5, PlaceOf(commit))
      ensures !result.success && commit.None? ==> result.error == UnfinishedBattle || result.error.SqlError?
      ensures cluster.faults == old(cluster.faults) && !result.success && commit.None? ==>
                result.error == UnfinishedBattle
      ensures EnterTold(if result.success then Entered(battleId, result.remainStamina) else EnterRefusal(result.error),
                        lost, commit, read, p, cfg, battleId)
      ensures cluster.faults >= old(cluster.faults) && (cluster.faults == old(cluster.faults) ==> !lost)
      ensures Quiet(others) && cluster.faults == old(cluster.faults) ==>
                cluster.View() == Step(Step(old(cluster.View()), PendingRead(me, Seen)), EnterCommit(me, Clean))
      ensures Quiet(others) ==> cluster.locks == old(cluster.locks) && CommitAlone(old(cluster.db), cluster.db, commit)
    {
      hide Step, Run, EnterWrites, Trail, Happened, CommitAlone;
      ghost var t0 := cluster.trace;
      cluster.Others(me, others(1));
      ghost var pending, tx;
      result, pending, tx, commit := repository.EnterDungeon(me, p, stamina, cfg, battleId, others(2));
      lost := tx.Some? && tx.value.CommitUnacknowledged?;
      if commit.Some? { StaysRead(cluster.origin, t0, cluster.trace, read.at, me, EnterRequest, read); }
      PendingTrail(t0, others(1), others(2), me, pending, tx);
    }

    /** The end of a successful enter request: cache the context, drop the snapshot. */
    method EnterCaches(p: int, ctx: BattleContext, remain: int, others: Interference)
      requires Wired() && Foreign(me, others) && cluster.View().Of(me).phase == EnterCommitted(p, ctx, remain)
      modifies cluster
      ensures Wired() && cluster.View().Of(me).phase == Releasing(p, Entered(ctx.battleId, remain))
      ensures old(cluster.trace) <= cluster.trace
      ensures Trail(cluster.trace, |old(cluster.trace)|, me, EnterRequest, 5, 7, None)
      ensures cluster.faults >= old(cluster.faults)
      ensures Quiet(others) && cluster.faults == old(cluster.faults) ==>
                cluster.View() ==
                  Step(Step(old(cluster.View()), Event.SaveContext(me, CONTEXT_FIELDS)), Invalidate(me, true))
      ensures Quiet(others) ==> cluster.locks == old(cluster.locks) && cluster.db == old(cluster.db)
    {
      hide Step, Run, Trail;
      ghost var t0 := cluster.trace;
      cluster.Others(me, others(3));
      ghost var saved := SaveContext(ctx, p, remain);
      ghost var t1 := cluster.trace;
      StepTrail(t0, others(3), Event.SaveContext(me, saved), me, EnterRequest);
      DropStaleSnapshot(p, Entered(ctx.battleId, remain), EnterRequest, others);
      TrailGrows(t1, cluster.trace, |t0|, me, EnterRequest, 5, 6, 7, None, None);
    }

    /** An enter request whose player may enter: check, commit, and if that succeeds, cache and invalidate. */
    method EnterProceeds(p: int, stamina: int, cfg: DungeonConfig, battleId: string, ghost read: Read,
                         others: Interference)
      returns (reply: Reply, ghost lost: bool, ghost commit: Option<Commit>)
      requires Wired() && Foreign(me, others) && cluster.View().Of(me).phase == EnterLoaded(p, cfg, stamina, battleId)
      requires read.answered && stamina == StaminaOf(read.tables, p) && stamina >= cfg.costStamina
      requires p in read.tables.players && read.tables.players[p].level >= cfg.requiredLevel
      requires WasRead(cluster.origin, cluster.trace, read.at, me, EnterRequest, read)
      modifies cluster, repository.mysql
      ensures Wired() && cluster.View().Of(me).phase == Releasing(p, reply)
      ensures old(cluster.trace) <= cluster.trace
      ensures Trail(cluster.trace, |old(cluster.trace)|, me, EnterRequest, 2, 7, PlaceOf(commit))
      ensures Accounted(cluster.origin, cluster.trace, read.at, me, EnterRequest, read, commit)
      ensures EnterRefusedFor(reply, commit, read, p, cfg)
      ensures EnterTold(reply, lost, commit, read, p, cfg, battleId)
      ensures cluster.faults >= old(cluster.faults) && (cluster.faults == old(cluster.faults) ==> !lost)
      ensures Quiet(others) && cluster.faults == old(cluster.faults) ==>
                cluster.View() == Step(Step(Step(Step(old(cluster.View()), PendingRead(me, Seen)),
                  EnterCommit(me, Clean)), Event.SaveContext(me, CONTEXT_FIELDS)), Invalidate(me, true))
      ensures Quiet(others) ==> cluster.locks == old(cluster.locks) && CommitAlone(old(cluster.db), cluster.db, commit)
    {
      hide Step, Run, EnterWrites, Trail, WasRead, Accounted, EnterTold, CommitAlone;
      ghost var t1 := cluster.trace;
      var result;
      result, lost, commit := EnterCommits(p, stamina, cfg, battleId, read, others);
      ghost var t2 := cluster.trace;
      if !result.success {
        RefusedSkips(cluster.View(), me);
        WiderTrail(t2, |t1|, me, EnterRequest, 2, 5, 2, 7, PlaceOf(commit));
        reply := EnterRefusal(result.error);
        RefusedFor(reply, lost, commit, read, p, cfg, battleId);
        return;
      }
      EnterCaches(p, result.ctx, result.remainStamina, others);
      TrailGrows(t2, cluster.trace, |t1|, me, EnterRequest, 2, 5, 7, PlaceOf(commit), None);
      StaysAccounted(cluster.origin, t2, cluster.trace, read.at, read.at, me, EnterRequest, read, commit);
      reply := Entered(battleId, result.remainStamina);
    }

    /** Everything an enter request does between Acquire and Release. */
    method EnterUnderLock(p: int, cfg: DungeonConfig, others: Interference)
      returns (reply: Reply, ghost lost: bool, ghost commit: Option<Commit>, ghost read: Read)
      requires Wired() && Foreign(me, others) && cluster.View().Of(me).phase == EnterLocked(p, cfg)
      modifies this, cluster, repository.mysql
      ensures Wired() && cluster.View().Of(me).phase == Releasing(p, reply)
      ensures old(cluster.trace) <= cluster.trace
      ensures Trail(cluster.trace, |old(cluster.trace)|, me, EnterRequest, 1, 7, PlaceOf(commit))
      ensures Accounted(cluster.origin, cluster.trace, |old(cluster.trace)|, me, EnterRequest, read, commit)
      ensures EnterExplained(cluster.origin, cluster.trace, |old(cluster.trace)|, me, reply, commit, read, p, cfg)
      ensures EnterTold(reply, lost, commit, read, p, cfg, GenerateBattleId(p, cfg.dungeonId, old(sequence)))
      ensures sequence >= old(sequence) && (commit.Some? ==> sequence == old(sequence) + 1)
      ensures cluster.faults >= old(cluster.faults) && (cluster.faults == old(cluster.faults) ==> !lost)
      ensures Quiet(others) && cluster.faults == old(cluster.faults) ==>
                cluster.View() == Step(Step(Step(Step(Step(old(cluster.View()), EnterLoad(me, true)),
                  PendingRead(me, Seen)),
                  EnterCommit(me, Clean)), Event.SaveContext(me, CONTEXT_FIELDS)), Invalidate(me, true))
      ensures Quiet(others) ==> cluster.locks == old(cluster.locks) && CommitAlone(old(cluster.db), cluster.db, commit)
    {
      hide Step, Run, EnterWrites, Trail, WasRead, Accounted, EnterTold, CommitAlone, GenerateBattleId;
      ghost var t0 := cluster.trace;
      lost, commit, read := false, None, NO_READ;
      var proceed, stamina, battleId;
      ghost var answered;
      proceed, stamina, battleId, reply, answered := LoadPlayer(p, cfg);
      ghost var t1 := cluster.trace;
      OneStep(t0, EnterLoad(me, answered), me, EnterRequest);
      read := Read(|t0|, answered, cluster.db);
      LoadWasRead(cluster.origin, t0, me, answered, cluster.db);
      if !proceed {
        NothingTold(reply, read, p, cfg, GenerateBattleId(p, cfg.dungeonId, old(sequence)), cluster.db);
        NothingToAccount(cluster.origin, t1, |t0|, me, EnterRequest, read);
        RefusedSkips(cluster.View(), me);
        WiderTrail(t1, |t0|, me, EnterRequest, 1, 2, 1, 7, None);
        return;
      }
      reply, lost, commit := EnterProceeds(p, stamina, cfg, battleId, read, others);
      TrailGrows(t1, cluster.trace, |t0|, me, EnterRequest, 1, 2, 7, None, PlaceOf(commit));
      StaysRead(cluster.origin, t1, cluster.trace, |t0|, me, EnterRequest, read);
    }

    /** Give the others a turn, then release: the end of every request that took the lock. */
    method Finish(p: int, reply: Reply, ghost request: Request, others: Interference) returns (ghost done: bool)
      requires Wired() && Foreign(me, others) && cluster.View().Of(me).phase == Releasing(p, reply)
      modifies cluster
      ensures Valid() && cluster.View().Of(me).reply == reply
      ensures old(cluster.trace) < cluster.trace && EndsWith(cluster.trace, Release(me, done))
      ensures Trail(cluster.trace, |old(cluster.trace)|, me, request, 7, 8, None)
      ensures cluster.faults >= old(cluster.faults) && (cluster.faults == old(cluster.faults) ==> done)
      ensures Quiet(others) && cluster.faults == old(cluster.faults) ==>
                cluster.View() == Step(old(cluster.View()), Release(me, true))
      ensures Quiet(others) ==>
                && cluster.db == old(cluster.db)
                && cluster.locks.Keys == if done then old(cluster.locks.Keys) - {p} else old(cluster.locks.Keys)
    {
      hide Step, Run, Trail;
      ghost var t0 := cluster.trace;
      cluster.Others(me, others(5));
      done := ReleaseLock(p, reply);
      StepTrail(t0, others(5), Release(me, done), me, request);
    }

    /** An enter request from the moment the lock is taken. */
    method EnterLockedPart(p: int, cfg: DungeonConfig, others: Interference)
      returns (reply: Reply, ghost done: bool, ghost lost: bool, ghost commit: Option<Commit>, ghost read: Read)
      requires Wired() && Foreign(me, others) && cluster.View().Of(me).phase == EnterLocked(p, cfg)
      modifies this, cluster, repository.mysql
      ensures Valid() && cluster.View().Of(me).reply == reply
      ensures old(cluster.trace) < cluster.trace && EndsWith(cluster.trace, Release(me, done))
      ensures Trail(cluster.trace, |old(cluster.trace)|, me, EnterRequest, 1, 8, PlaceOf(commit))
      ensures Accounted(cluster.origin, cluster.trace, |old(cluster.trace)|, me, EnterRequest, read, commit)
      ensures EnterExplained(cluster.origin, cluster.trace, |old(cluster.trace)|, me, reply, commit, read, p, cfg)
      ensures EnterTold(reply, lost, commit, read, p, cfg, GenerateBattleId(p, cfg.dungeonId, old(sequence)))
      ensures sequence >= old(sequence) && (commit.Some? ==> sequence == old(sequence) + 1)
      ensures cluster.faults >= old(cluster.faults) && (cluster.faults == old(cluster.faults) ==> done && !lost)
      ensures Quiet(others) && cluster.faults == old(cluster.faults) ==>
                cluster.View() == Step(Step(Step(Step(Step(Step(old(cluster.View()), EnterLoad(me, true)),
                  PendingRead(me, Seen)),
                  EnterCommit(me, Clean)), Event.SaveContext(me, CONTEXT_FIELDS)), Invalidate(me, true)),
                  Release(me, true))
      ensures Quiet(others) ==>
                && CommitAlone(old(cluster.db), cluster.db, commit)
                && cluster.locks.Keys == if done then old(cluster.locks.Keys) - {p} else old(cluster.locks.Keys)
    {
      hide Step, Run, EnterWrites, Trail, Accounted, EnterExplained, EnterTold, EndsWith, CommitAlone;
      ghost var t0 := cluster.trace;
      cluster.Others(me, others(0));
      ghost var t1 := cluster.trace;
      OthersLeaveNoTrail(t0, others(0), me, EnterRequest, 1);
      reply, lost, commit, read := EnterUnderLock(p, cfg, others);
      ghost var t2 := cluster.trace;
      TrailGrows(t1, t2, |t0|, me, EnterRequest, 1, 1, 7, None, PlaceOf(commit));
      done := Finish(p, reply, EnterRequest, others);
      TrailGrows(t2, cluster.trace, |t0|, me, EnterRequest, 1, 7, 8, PlaceOf(commit), None);
      StaysExplained(cluster.origin, t2, cluster.trace, |t1|, |t0|, me, reply, commit, read, p, cfg);
      StaysAccounted(cluster.origin, t2, cluster.trace, |t1|, |t0|, me, EnterRequest, read, commit);
    }

    /** An enter request that passed the checks in front of the lock. */
    method EnterTakingLock(p: int, cfg: DungeonConfig, others: Interference)
      returns (reply: Reply, ghost fate: LockFate, ghost done: bool, ghost lost: bool, ghost commit: Option<Commit>,
               ghost read: Read)
      requires Valid() && Foreign(me, others)
      modifies this, cluster, repository.mysql
      ensures Valid() && cluster.View().Of(me).reply == reply
      ensures old(cluster.trace) < cluster.trace
      ensures cluster.trace[|old(cluster.trace)|] == EnterAcquire(me, p, cfg, fate)
      ensures Trail(cluster.trace, |old(cluster.trace)|, me, EnterRequest, 0, 8, PlaceOf(commit))
      ensures Accounted(cluster.origin, cluster.trace, |old(cluster.trace)|, me, EnterRequest, read, commit)
      ensures if fate.Reached? && p !in old(cluster.locks) then
                EnterExplained(cluster.origin, cluster.trace, |old(cluster.trace)|, me, reply, commit, read, p, cfg)
              else reply == Refusal(PlayerBusy, PlayerIsBusy) && commit.None?
      ensures EnterTold(reply, lost, commit, read, p, cfg, GenerateBattleId(p, cfg.dungeonId, old(sequence)))
      ensures sequence >= old(sequence) && (commit.Some? ==> sequence == old(sequence) + 1)
      ensures Quiet(others) ==> CommitAlone(old(cluster.db), cluster.db, commit)
      ensures Quiet(others) ==> cluster.locks.Keys == LocksAfter(old(cluster.locks.Keys), p, fate, done)
      ensures fate.Reached? && reply != BUSY ==> EndsWith(cluster.trace, Release(me, done))
      ensures cluster.faults >= old(cluster.faults)
      ensures cluster.faults == old(cluster.faults) ==> fate == Reached && !lost && (p !in old(cluster.locks) ==> done)
      ensures Quiet(others) && cluster.faults == old(cluster.faults) ==>
                cluster.View() == Run(old(cluster.View()), EnterScript(me, p, cfg))
    {
      hide Step, Run, EnterWrites, DungeonProtocol.Acquire, EnterScript, Trail, Accounted, EnterExplained, EnterTold,
        CommitAlone, LocksAfter, EndsWith;
      done, lost, commit, read := false, false, None, NO_READ;
      ghost var start, t0 := cluster.View(), cluster.trace;
      EnterTakesLock(start, me, p, cfg);
      RunEnterScript(start, me, p, cfg);
      var acquired, taken := TakeLock(p, EnterLocked(p, cfg), f => EnterAcquire(me, p, cfg, f));
      fate := taken;
      ghost var t1 := cluster.trace;
      OneStep(t0, EnterAcquire(me, p, cfg, fate), me, EnterRequest);
      if acquired {
        reply, done, lost, commit, read := EnterLockedPart(p, cfg, others);
        StaysExplained(cluster.origin, cluster.trace, cluster.trace, |t1|, |t0|, me, reply, commit, read, p, cfg);
        StaysAccounted(cluster.origin, cluster.trace, cluster.trace, |t1|, |t0|, me, EnterRequest, read, commit);
        TrailGrows(t1, cluster.trace, |t0|, me, EnterRequest, 0, 1, 8, None, PlaceOf(commit));
        LockGivenBack(start.locks.Keys, p, done);
      } else {
        RestOfEnterSkips(cluster.View(), me);
        WiderTrail(t1, |t0|, me, EnterRequest, 0, 1, 0, 8, None);
        reply := BUSY;
        NothingToAccount(cluster.origin, t1, |t0|, me, EnterRequest, read);
        NothingTold(BUSY, read, p, cfg, GenerateBattleId(p, cfg.dungeonId, sequence), cluster.db);
      }
    }

    /** EnterDungeon.  `session` is what the session repository answered for the request's session id.
        `fate` is what became of SET NX, `done` whether the DEL that gives the lock back was carried out,
        `lost` whether the tables were changed without the server learning of it, and `commit` the commit.
        Whatever fails and whoever interferes: the own events are those of one request in order, the reply
        tells the truth about the commit unless its answer was lost, and the lock is given back exactly if
        the DEL is carried out. */
    method EnterDungeon(session: Option<Session>, p: int, dungeonId: int, others: Interference)
      returns (reply: Reply, ghost fate: LockFate, ghost done: bool, ghost lost: bool, ghost commit: Option<Commit>,
               ghost read: Read)
      requires Valid() && Foreign(me, others)
      modifies this, cluster, repository.mysql
      ensures Valid() && old(cluster.trace) <= cluster.trace
      ensures !Admits(session, p) ==>
                reply == Refusal(SessionInvalid, SessionIsInvalid) && cluster.trace == old(cluster.trace)
      ensures Admits(session, p) && dungeonId !in configs ==>
                reply == Refusal(DungeonNotFound, ConfigNotFound) && cluster.trace == old(cluster.trace)
      // the events of a request that gets as far as the lock
      ensures Admits(session, p) && dungeonId in configs ==>
                && reply == cluster.View().Of(me).reply
                && |cluster.trace| > |old(cluster.trace)|
                && cluster.trace[|old(cluster.trace)|] == EnterAcquire(me, p, configs[dungeonId], fate)
      ensures Trail(cluster.trace, |old(cluster.trace)|, me, EnterRequest, 0, 8, PlaceOf(commit))
      // the reply and the tables
      ensures reply.Entered? || reply.Refusal?
      ensures reply.Entered? ==>
                reply.battleId ==
                  "battle-" + (PrintInt(p) + ("-" + (PrintInt(dungeonId) + ("-" + PrintInt(old(sequence))))))
      ensures sequence >= old(sequence) && (commit.Some? ==> sequence == old(sequence) + 1)
      ensures Admits(session, p) && dungeonId in configs ==>
                if fate.Reached? && p !in old(cluster.locks) then
                  EnterExplained(cluster.origin, cluster.trace, |old(cluster.trace)|, me, reply, commit, read, p,
                                 configs[dungeonId])
                else reply == Refusal(PlayerBusy, PlayerIsBusy) && commit.None?
      ensures Accounted(cluster.origin, cluster.trace, |old(cluster.trace)|, me, EnterRequest, read, commit)
      ensures lost <==> commit.Some? && commit.value.tx.CommitUnacknowledged?
      ensures dungeonId in configs ==>
                EnterTold(reply, lost, commit, read, p, configs[dungeonId],
                          GenerateBattleId(p, dungeonId, old(sequence)))
      ensures !reply.Entered? && !lost ==> LeftTablesAlone(cluster.origin, cluster.trace, |old(cluster.trace)|, me)
      ensures Quiet(others) ==> CommitAlone(old(cluster.db), cluster.db, commit)
      ensures Quiet(others) && reply.Entered? ==>
                dungeonId in configs &&
                EnterWrites(old(cluster.db), p, configs[dungeonId], reply.battleId) == Written(cluster.db)
      ensures Quiet(others) && !reply.Entered? && !lost ==> cluster.db == old(cluster.db)
      // the lock
      ensures Quiet(others) ==> cluster.locks.Keys == LocksAfter(old(cluster.locks.Keys), p, fate, done)
      ensures Admits(session, p) && dungeonId in configs && fate.Reached? && reply != BUSY ==>
                EndsWith(cluster.trace, Release(me, done))
      ensures cluster.faults >= old(cluster.faults)
      // without faults
      ensures cluster.faults == old(cluster.faults) ==> !lost && (fate.Reached? && p !in old(cluster.locks) ==> done)
      ensures Admits(session, p) && dungeonId in configs && cluster.faults == old(cluster.faults) ==> fate == Reached
      ensures Admits(session, p) && dungeonId in configs && Quiet(others) && cluster.faults == old(cluster.faults) ==>
                && cluster.View() == Run(old(cluster.View()), EnterScript(me, p, configs[dungeonId]))
                && if p in old(cluster.locks) then reply == Refusal(PlayerBusy, PlayerIsBusy)
                   else EnterAnswer(old(cluster.db), p, configs[dungeonId],
                                    GenerateBattleId(p, dungeonId, old(sequence)), reply)
      ensures Quiet(others) && cluster.faults == old(cluster.faults) && old(Serial(cluster.View())) ==>
                Serial(cluster.View())
    {
      hide Step, Run, EnterWrites, Serial, Trail, WasRead, Happened, LeftTablesAlone, LocksAfter, EnterScript,
        EndsWith, EnterAnswer, EnterRefusedFor, EnterAlone, GenerateBattleId, PrintInt;
      BattleIdText(p, dungeonId, sequence);
      fate, done, lost, commit, read := Unreached, false, false, None, NO_READ;
      ghost var start, t0 := cluster.View(), cluster.trace;
      if session.None? || session.value.playerId != p || dungeonId !in configs {
        reply := if session.None? || session.value.playerId != p then Refusal(SessionInvalid, SessionIsInvalid)
                 else Refusal(DungeonNotFound, ConfigNotFound);
        EmptyTrail(t0, me, EnterRequest, 0, 8);
        NoLocksAfter(cluster.locks.Keys, p);
        OnlyCommitsWrite(cluster.origin, cluster.trace, |t0|, me, EnterRequest, 0, 8, None);
        return;
      }
      var cfg := configs[dungeonId];
      reply, fate, done, lost, commit, read := EnterTakingLock(p, cfg, others);
      if !reply.Entered? && !lost {
        OnlyCommitsWrite(cluster.origin, cluster.trace, |t0|, me, EnterRequest, 0, 8, commit);
      }
      if Quiet(others) && cluster.faults == old(cluster.faults) && p !in start.locks {
        EnterRunsAlone(start, me, p, cfg);
        EnterAnswersExactly(start.db, p, cfg, GenerateBattleId(p, dungeonId, start.Of(me).sequence));
      }
      if Quiet(others) && cluster.faults == old(cluster.faults) && Serial(start) {
        EnterIsHarmless(me, p, cfg);
        SerialGoesOn(start, cluster.View(), me, EnterScript(me, p, cfg));
      }
    }

    // ---- settling ----

    /** Look the battle context up in Redis; the caller falls back to MySQL when it is not there.  A context
        that lacks a field makes the process die: the next one starts counting anew. */
    method FindContext(p: int, id: string, cfg: DungeonConfig, star: int)
      returns (found: Option<BattleContext>, threw: bool, ghost answered: bool)
      requires Wired() && cluster.View().Of(me).phase == SettleLocked(p, id, cfg, star)
      modifies this, cluster
      ensures Wired() && cluster.View() == Step(old(cluster.View()), ContextRead(me, answered))
      ensures threw <==> answered && TornContextAt(old(cluster.contexts), id)
      ensures threw ==> found.None? && cluster.View().Of(me) == Worker(1, Idle, NoReply)
      ensures !threw ==>
                cluster.View().Of(me).phase ==
                  if found.Some? then Checked(p, found.value, cfg, star) else SettleMissed(p, id, cfg, star)
      ensures found.Some? ==> found.value.battleId == id
      ensures cluster.trace == old(cluster.trace) + [ContextRead(me, answered)]
      ensures cluster.faults >= old(cluster.faults) && (cluster.faults == old(cluster.faults) ==> answered)
      ensures cluster.locks.Keys == old(cluster.locks.Keys) && cluster.db == old(cluster.db)
    {
      hide Run, TornContextAt;
      var before := cluster.View();
      var reachable;
      found, threw, reachable := battleContexts.FindByBattleId(id);
      answered := reachable;
      ReadContextEffect(before, me, p, id, cfg, star, reachable);
      if threw {
        sequence := 1;
        cluster.locks := Orphaned(cluster.locks, me);
      }
      cluster.Record(before, ContextRead(me, reachable));
    }

    method FindBattleRow(p: int, id: string, cfg: DungeonConfig, star: int)
      returns (found: Option<BattleContext>, ghost answered: bool)
      requires Wired() && cluster.View().Of(me).phase == SettleMissed(p, id, cfg, star)
      modifies cluster
      ensures Wired() && cluster.View() == Step(old(cluster.View()), BattleRead(me, answered))
      ensures cluster.View().Of(me).phase ==
                if found.Some? then Checked(p, found.value, cfg, star)
                else Releasing(p, Refusal(BattleNotFound, BattleNotFoundText))
      ensures found.Some? <==> answered && id in cluster.db.battles
      ensures found.Some? ==>
                var row := cluster.db.battles[id];
                found.value == BattleContext(id, row.playerId, row.dungeonId, row.cost, 3, row.settled)
      ensures cluster.trace == old(cluster.trace) + [BattleRead(me, answered)]
      ensures cluster.faults >= old(cluster.faults) && (cluster.faults == old(cluster.faults) ==> answered)
      ensures cluster.locks == old(cluster.locks) && cluster.db == old(cluster.db)
    {
      hide Run;
      var before := cluster.View();
      var reachable := repository.mysql.Answered();
      found := if reachable then FindBattle(cluster.db, id) else None;
      answered := reachable;
      cluster.Record(before, BattleRead(me, reachable));
    }

    /** The cache has nothing: ask the database. */
    method FallBack(p: int, id: string, cfg: DungeonConfig, star: int, others: Interference)
      returns (found: Option<BattleContext>)
      requires Wired() && Foreign(me, others) && cluster.View().Of(me).phase == SettleMissed(p, id, cfg, star)
      modifies cluster
      ensures Wired()
      ensures cluster.View().Of(me).phase ==
                if found.Some? then Checked(p, found.value, cfg, star)
                else Releasing(p, Refusal(BattleNotFound, BattleNotFoundText))
      ensures found.Some? ==> found.value.battleId == id
      ensures old(cluster.trace) < cluster.trace
      ensures Trail(cluster.trace, |old(cluster.trace)|, me, SettleRequest, 2, 3, None)
      ensures cluster.faults >= old(cluster.faults)
      ensures Quiet(others) && cluster.faults == old(cluster.faults) ==>
                cluster.View() == Step(old(cluster.View()), BattleRead(me, true))
      ensures Quiet(others) ==> cluster.locks == old(cluster.locks) && cluster.db == old(cluster.db)
    {
      hide Step, Run, Trail, Checked;
      ghost var t0 := cluster.trace;
      cluster.Others(me, others(1));
      ghost var answered;
      found, answered := FindBattleRow(p, id, cfg, star);
      StepTrail(t0, others(1), BattleRead(me, answered), me, SettleRequest);
    }

    /** Find the battle and check that it is this player's, this dungeon's and not settled. */
    method LookUp(p: int, id: string, cfg: DungeonConfig, star: int, others: Interference)
      returns (found: Option<BattleContext>, threw: bool)
      requires Wired() && Foreign(me, others) && cluster.View().Of(me).phase == SettleLocked(p, id, cfg, star)
      modifies this, cluster
      ensures Wired()
      ensures threw ==> found.None? && cluster.View().Of(me) == Worker(1, Idle, NoReply)
      ensures threw ==> TornContextAt(old(cluster.contexts), id)
      ensures cluster.faults == old(cluster.faults) ==> (threw <==> TornContextAt(old(cluster.contexts), id))
      ensures !threw ==>
                cluster.View().Of(me).phase ==
                  if found.Some? then Checked(p, found.value, cfg, star)
                  else Releasing(p, Refusal(BattleNotFound, BattleNotFoundText))
      ensures found.Some? ==> found.value.battleId == id
      ensures old(cluster.trace) < cluster.trace
      ensures Trail(cluster.trace, |old(cluster.trace)|, me, SettleRequest, 1, 3, None)
      ensures cluster.faults >= old(cluster.faults)
      ensures Quiet(others) && cluster.faults == old(cluster.faults) ==>
                cluster.View() == Step(Step(old(cluster.View()), ContextRead(me, true)), BattleRead(me, true))
      ensures Quiet(others) ==> cluster.locks.Keys == old(cluster.locks.Keys) && cluster.db == old(cluster.db)
    {
      hide Step, Run, Trail, TornContextAt, Checked, SavedContexts;
      ghost var t0 := cluster.trace;
      ghost var answered;
      found, threw, answered := FindContext(p, id, cfg, star);
      ghost var t1 := cluster.trace;
      OneStep(t0, ContextRead(me, answered), me, SettleRequest);
      WiderTrail(t1, |t0|, me, SettleRequest, 1, 2, 1, 3, None);
      if threw {
        SettleBusySkips(cluster.View(), me);
        return;
      }
      if found.Some? {
        LookedUpSkips(cluster.View(), me);
        return;
      }
      found := FallBack(p, id, cfg, star, others);
      TrailGrows(t1, cluster.trace, |t0|, me, SettleRequest, 1, 2, 3, None, None);
    }

    /** First-clear read and transaction. */
    method SettleCommits(ctx: BattleContext, cfg: DungeonConfig, star: int, others: Interference)
      returns (result: SettleResult, ghost lost: bool, ghost commit: Commit, ghost read: Read)
      requires Wired() && Foreign(me, others)
      requires cluster.View().Of(me).phase == SettleFound(ctx.playerId, ctx, cfg, star)
      modifies cluster, repository.mysql
      ensures Wired() && cluster.View().Of(me).phase == MySqlDungeon.AfterSettle(ctx.playerId, ctx.battleId, result)
      ensures old(cluster.trace) <= cluster.trace
      ensures Accounted(cluster.origin, cluster.trace, |old(cluster.trace)|, me, SettleRequest, read, Some(commit))
      ensures result.rewards == SettleRewards(cfg, result.firstClear)
      ensures Trail(cluster.trace, |old(cluster.trace)|, me, SettleRequest, 3, 5, Some(commit.at))
      ensures SettleTold(
                if result.success then SettledReply(result.firstClear, result.rewards) else SettleRefusal(result.error),
                lost, Some(commit), read, ctx.playerId, ctx.battleId, cfg, star)
      ensures cluster.faults >= old(cluster.faults) && (cluster.faults == old(cluster.faults) ==> !lost)
      ensures Quiet(others) && cluster.faults == old(cluster.faults) ==>
                cluster.View() == Step(Step(old(cluster.View()), FirstClearRead(me, true)), SettleCommit(me, Clean))
      ensures Quiet(others) ==>
                cluster.locks == old(cluster.locks) && CommitAlone(old(cluster.db), cluster.db, Some(commit))
    {
      hide Step, Run, SettleWrites, Trail, SettleRewards, SettleOf, WasRead, Happened, LooksFirst, TellsPayment;
      ghost var t0 := cluster.trace;
      cluster.Others(me, others(2));
      ghost var t := cluster.trace;
      result, read, commit := repository.SettleDungeon(me, ctx, cfg, star, others(3));
      lost := commit.tx.CommitUnacknowledged?;
      assert Accounted(cluster.origin, cluster.trace, |t|, me, SettleRequest, read, Some(commit));
      StaysAccounted(cluster.origin, cluster.trace, cluster.trace, |t|, |t0|, me, SettleRequest, read, Some(commit));
      SettleOfAnyContext(commit.before, ctx, cfg, star, result.firstClear);
      FirstClearTrail(t0, others(2), others(3), me, read.answered, commit.tx);
    }

    method DeleteContext(p: int, id: string, reply: Reply) returns (ghost done: bool)
      requires Wired() && cluster.View().Of(me).phase == SettleCommitted(p, id, reply)
      modifies cluster
      ensures Wired() && cluster.View() == Step(old(cluster.View()), Event.DeleteContext(me, done))
      ensures cluster.View().Of(me) == old(cluster.View().Of(me)).(phase := Invalidating(p, reply))
      ensures cluster.trace == old(cluster.trace) + [Event.DeleteContext(me, done)]
      ensures cluster.faults >= old(cluster.faults) && (cluster.faults == old(cluster.faults) ==> done)
      ensures cluster.locks == old(cluster.locks) && cluster.db == old(cluster.db)
    {
      hide Run;
      var before := cluster.View();
      var deleted := battleContexts.Delete(id);
      cluster.Record(before, Event.DeleteContext(me, deleted));
      done := deleted;
    }

    /** The end of a successful settle request: drop the context and the snapshot. */
    method SettleDrops(p: int, id: string, reply: Reply, others: Interference)
      requires Wired() && Foreign(me, others) && cluster.View().Of(me).phase == SettleCommitted(p, id, reply)
      modifies cluster
      ensures Wired() && cluster.View().Of(me).phase == Releasing(p, reply)
      ensures old(cluster.trace) <= cluster.trace
      ensures Trail(cluster.trace, |old(cluster.trace)|, me, SettleRequest, 5, 7, None)
      ensures cluster.faults >= old(cluster.faults)
      ensures Quiet(others) && cluster.faults == old(cluster.faults) ==>
                cluster.View() == Step(Step(old(cluster.View()), Event.DeleteContext(me, true)), Invalidate(me, true))
      ensures Quiet(others) ==> cluster.locks == old(cluster.locks) && cluster.db == old(cluster.db)
    {
      hide Step, Run, Trail;
      ghost var t0 := cluster.trace;
      ghost var deleted := DeleteContext(p, id, reply);
      ghost var t1 := cluster.trace;
      OneStep(t0, Event.DeleteContext(me, deleted), me, SettleRequest);
      DropStaleSnapshot(p, reply, SettleRequest, others);
      TrailGrows(t1, cluster.trace, |t0|, me, SettleRequest, 5, 6, 7, None, None);
    }

    /** A settle request that has found its battle: commit and, if that succeeds, drop what it makes stale. */
    method SettleBattle(ctx: BattleContext, cfg: DungeonConfig, star: int, others: Interference)
      returns (reply: Reply, ghost lost: bool, ghost commit: Commit, ghost read: Read)
      requires Wired() && Foreign(me, others)
      requires cluster.View().Of(me).phase == SettleFound(ctx.playerId, ctx, cfg, star)
      modifies cluster, repository.mysql
      ensures Wired() && cluster.View().Of(me).phase == Releasing(ctx.playerId, reply) && reply != NoReply
      ensures old(cluster.trace) <= cluster.trace
      ensures Trail(cluster.trace, |old(cluster.trace)|, me, SettleRequest, 3, 7, Some(commit.at))
      ensures Accounted(cluster.origin, cluster.trace, |old(cluster.trace)|, me, SettleRequest, read, Some(commit))
      ensures SettleTold(reply, lost, Some(commit), read, ctx.playerId, ctx.battleId, cfg, star)
      ensures cluster.faults >= old(cluster.faults) && (cluster.faults == old(cluster.faults) ==> !lost)
      ensures Quiet(others) && cluster.faults == old(cluster.faults) ==>
                cluster.View() == Step(Step(Step(Step(old(cluster.View()), FirstClearRead(me, true)),
                  SettleCommit(me, Clean)), Event.DeleteContext(me, true)), Invalidate(me, true))
      ensures Quiet(others) ==>
                cluster.locks == old(cluster.locks) && CommitAlone(old(cluster.db), cluster.db, Some(commit))
    {
      hide Step, Run, Trail, Accounted, SettleTold, CommitAlone, SettleRewards;
      ghost var t0 := cluster.trace;
      var result;
      result, lost, commit, read := SettleCommits(ctx, cfg, star, others);
      ghost var t1 := cluster.trace;
      if !result.success {
        SettleRefusedSkips(cluster.View(), me);
        WiderTrail(t1, |t0|, me, SettleRequest, 3, 5, 3, 7, Some(commit.at));
        reply := SettleRefusal(result.error);
        return;
      }
      reply := SettledReply(result.firstClear, result.rewards);
      SettleDrops(ctx.playerId, ctx.battleId, reply, others);
      TrailGrows(t1, cluster.trace, |t0|, me, SettleRequest, 3, 5, 7, Some(commit.at), None);
      StaysAccounted(cluster.origin, t1, cluster.trace, |t0|, |t0|, me, SettleRequest, read, Some(commit));
    }

    /** Everything a settle request does between Acquire and Release. */
    method SettleUnderLock(p: int, id: string, cfg: DungeonConfig, star: int, others: Interference)
      returns (reply: Reply, threw: bool, ghost lost: bool, ghost commit: Option<Commit>, ghost read: Read)
      requires Wired() && Foreign(me, others) && cluster.View().Of(me).phase == SettleLocked(p, id, cfg, star)
      modifies this, cluster, repository.mysql
      ensures Wired()
      ensures if threw then reply == NoReply && cluster.View().Of(me) == Worker(1, Idle, NoReply)
              else cluster.View().Of(me).phase == Releasing(p, reply) && reply != NoReply
      ensures threw ==> TornContextAt(old(cluster.contexts), id)
      ensures cluster.faults == old(cluster.faults) ==> (threw <==> TornContextAt(old(cluster.contexts), id))
      ensures old(cluster.trace) < cluster.trace
      ensures Trail(cluster.trace, |old(cluster.trace)|, me, SettleRequest, 1, 7, PlaceOf(commit))
      ensures Accounted(cluster.origin, cluster.trace, |old(cluster.trace)|, me, SettleRequest, read, commit)
      ensures reply.Refusal? && commit.None? ==> RefusedUntried(reply)
      ensures SettleTold(reply, lost, commit, read, p, id, cfg, star)
      ensures cluster.faults >= old(cluster.faults) && (cluster.faults == old(cluster.faults) ==> !lost)
      ensures Quiet(others) && cluster.faults == old(cluster.faults) ==>
                cluster.View() == Step(Step(Step(Step(Step(Step(old(cluster.View()), ContextRead(me, true)),
                  BattleRead(me, true)),
                  FirstClearRead(me, true)), SettleCommit(me, Clean)), Event.DeleteContext(me, true)),
                  Invalidate(me, true))
      ensures Quiet(others) ==>
                cluster.locks.Keys == old(cluster.locks.Keys) && CommitAlone(old(cluster.db), cluster.db, commit)
    {
      hide Step, Run, Trail, Accounted, SettleTold, CommitAlone, SettleRewards, TornContextAt;
      ghost var t0 := cluster.trace;
      lost, commit, read, reply := false, None, NO_READ, NoReply;
      var found;
      found, threw := LookUp(p, id, cfg, star, others);
      ghost var t1 := cluster.trace;
      if threw {
        NothingSettled(NoReply, read, p, id, cfg, star, cluster.db);
        NothingToAccount(cluster.origin, t1, |t0|, me, SettleRequest, read);
        SettleBusySkips(cluster.View(), me);
        EndBusySkips(cluster.View(), me);
        WiderTrail(t1, |t0|, me, SettleRequest, 1, 3, 1, 7, None);
        return;
      }
      if found.None? {
        reply := Refusal(BattleNotFound, BattleNotFoundText);
      } else if found.value.playerId != p || found.value.dungeonId != cfg.dungeonId {
        reply := Refusal(BattleMismatch, ContextMismatch);
      } else if found.value.settled {
        reply := Refusal(BattleAlreadySettled, AlreadySettled);
      }
      if reply != NoReply {
        NothingSettled(reply, read, p, id, cfg, star, cluster.db);
        NothingToAccount(cluster.origin, t1, |t0|, me, SettleRequest, read);
        SettleRefusedSkips(cluster.View(), me);
        WiderTrail(t1, |t0|, me, SettleRequest, 1, 3, 1, 7, None);
        return;
      }
      ghost var made;
      reply, lost, made, read := SettleBattle(found.value, cfg, star, others);
      commit := Some(made);
      TrailGrows(t1, cluster.trace, |t0|, me, SettleRequest, 1, 3, 7, None, PlaceOf(commit));
      StaysAccounted(cluster.origin, cluster.trace, cluster.trace, |t1|, |t0|, me, SettleRequest, read, commit);
    }

    /** A settle request from the moment the lock is taken. */
    method SettleLockedPart(p: int, id: string, cfg: DungeonConfig, star: int, others: Interference)
      returns (reply: Reply, threw: bool, ghost done: bool, ghost lost: bool, ghost commit: Option<Commit>,
               ghost read: Read)
      requires Wired() && Foreign(me, others) && cluster.View().Of(me).phase == SettleLocked(p, id, cfg, star)
      modifies this, cluster, repository.mysql
      ensures Valid() && cluster.View().Of(me).reply == reply && (threw <==> reply == NoReply)
      ensures Quiet(others) && threw ==> TornContextAt(old(cluster.contexts), id)
      ensures Quiet(others) && cluster.faults == old(cluster.faults) ==>
                (threw <==> TornContextAt(old(cluster.contexts), id))
      ensures old(cluster.trace) < cluster.trace
      ensures if threw then !done else EndsWith(cluster.trace, Release(me, done))
      ensures Trail(cluster.trace, |old(cluster.trace)|, me, SettleRequest, 1, 8, PlaceOf(commit))
      ensures Accounted(cluster.origin, cluster.trace, |old(cluster.trace)|, me, SettleRequest, read, commit)
      ensures reply.Refusal? && commit.None? ==> RefusedUntried(reply)
      ensures SettleTold(reply, lost, commit, read, p, id, cfg, star)
      ensures cluster.faults >= old(cluster.faults)
      ensures cluster.faults == old(cluster.faults) ==> !lost && (threw || done)
      ensures Quiet(others) && cluster.faults == old(cluster.faults) ==>
                cluster.View() == Step(Step(Step(Step(Step(Step(Step(old(cluster.View()), ContextRead(me, true)),
                  BattleRead(me, true)),
                  FirstClearRead(me, true)), SettleCommit(me, Clean)), Event.DeleteContext(me, true)),
                  Invalidate(me, true)), Release(me, true))
      ensures Quiet(others) ==>
                && CommitAlone(old(cluster.db), cluster.db, commit)
                && cluster.locks.Keys == if done then old(cluster.locks.Keys) - {p} else old(cluster.locks.Keys)
    {
      hide Step, Run, Trail, Accounted, SettleTold, TornContextAt, EndsWith, CommitAlone;
      ghost var t0 := cluster.trace;
      cluster.Others(me, others(0));
      ghost var t1 := cluster.trace;
      OthersLeaveNoTrail(t0, others(0), me, SettleRequest, 1);
      reply, threw, lost, commit, read := SettleUnderLock(p, id, cfg, star, others);
      ghost var t2 := cluster.trace;
      TrailGrows(t1, t2, |t0|, me, SettleRequest, 1, 1, 7, None, PlaceOf(commit));
      if threw {
        done := false;
        EndBusySkips(cluster.View(), me);
        WiderTrail(t2, |t0|, me, SettleRequest, 1, 7, 1, 8, PlaceOf(commit));
      } else {
        done := Finish(p, reply, SettleRequest, others);
        TrailGrows(t2, cluster.trace, |t0|, me, SettleRequest, 1, 7, 8, PlaceOf(commit), None);
      }
      StaysAccounted(cluster.origin, t2, cluster.trace, |t1|, |t0|, me, SettleRequest, read, commit);
    }

    /** A settle request that passed the checks in front of the lock. */
    method SettleTakingLock(p: int, id: string, cfg: DungeonConfig, star: int, others: Interference)
      returns (reply: Reply, threw: bool, ghost fate: LockFate, ghost done: bool, ghost lost: bool,
               ghost commit: Option<Commit>,
        ghost read: Read)
      requires Valid() && Foreign(me, others) && 0 < star <= cfg.maxStar
      modifies this, cluster, repository.mysql
      ensures Valid() && cluster.View().Of(me).reply == reply && (threw <==> reply == NoReply)
      ensures old(cluster.trace) < cluster.trace
      ensures cluster.trace[|old(cluster.trace)|] == SettleAcquire(me, p, id, cfg, star, fate)
      ensures Trail(cluster.trace, |old(cluster.trace)|, me, SettleRequest, 0, 8, PlaceOf(commit))
      ensures Accounted(cluster.origin, cluster.trace, |old(cluster.trace)|, me, SettleRequest, read, commit)
      ensures reply.Refusal? && commit.None? ==> RefusedUntried(reply)
      ensures SettleTold(reply, lost, commit, read, p, id, cfg, star)
      ensures Quiet(others) ==> CommitAlone(old(cluster.db), cluster.db, commit)
      ensures Quiet(others) && threw ==>
                fate.Reached? && p !in old(cluster.locks) && TornContextAt(old(cluster.contexts), id)
      ensures Quiet(others) && cluster.faults == old(cluster.faults) ==>
                (threw <==> p !in old(cluster.locks) && TornContextAt(old(cluster.contexts), id))
      ensures Quiet(others) ==> cluster.locks.Keys == LocksAfter(old(cluster.locks.Keys), p, fate, done)
      ensures threw ==> !done
      ensures !(fate.Reached? && p !in old(cluster.locks)) ==> reply == Refusal(PlayerBusy, PlayerIsBusy)
      ensures fate.Reached? && reply != BUSY && !threw ==> EndsWith(cluster.trace, Release(me, done))
      ensures cluster.faults >= old(cluster.faults)
      ensures cluster.faults == old(cluster.faults) ==>
                fate == Reached && !lost && (p !in old(cluster.locks) ==> done || threw)
      ensures Quiet(others) && cluster.faults == old(cluster.faults) ==>
                cluster.View() == Run(old(cluster.View()), SettleScript(me, p, id, cfg, star, true, true, true))
    {
      hide Step, Run, SettleScript, DungeonProtocol.Acquire, TornContextAt, Trail, Accounted, SettleTold, CommitAlone,
        LocksAfter, Foreign, EndsWith;
      done, lost, commit, read, threw := false, false, None, NO_READ, false;
      ghost var start, t0 := cluster.View(), cluster.trace;
      SettleTakesLock(start, me, p, id, cfg, star);
      RunSettleScript(start, me, p, id, cfg, star);
      var acquired, taken := TakeLock(p, SettleLocked(p, id, cfg, star), f => SettleAcquire(me, p, id, cfg, star, f));
      fate := taken;
      ghost var t1 := cluster.trace;
      OneStep(t0, SettleAcquire(me, p, id, cfg, star, fate), me, SettleRequest);
      if acquired {
        reply, threw, done, lost, commit, read := SettleLockedPart(p, id, cfg, star, others);
        StaysAccounted(cluster.origin, cluster.trace, cluster.trace, |t1|, |t0|, me, SettleRequest, read, commit);
        TrailGrows(t1, cluster.trace, |t0|, me, SettleRequest, 0, 1, 8, None, PlaceOf(commit));
        LockGivenBack(start.locks.Keys, p, done);
      } else {
        RestOfSettleSkips(cluster.View(), me);
        WiderTrail(t1, |t0|, me, SettleRequest, 0, 1, 0, 8, None);
        reply := BUSY;
        NothingToAccount(cluster.origin, t1, |t0|, me, SettleRequest, read);
        NothingSettled(BUSY, read, p, id, cfg, star, cluster.db);
      }
    }

    /** The checks a settle request passes before it asks for the lock. */
    function SettleRefusedEarly(success: bool, session: Option<Session>, p: int, dungeonId: int,
                                star: int): Option<Reply>
    {
      if !success then Some(Refusal(StorageError, OnlySuccess))
      else if !Admits(session, p) then Some(Refusal(SessionInvalid, SessionIsInvalid))
      else if dungeonId !in configs then Some(Refusal(DungeonNotFound, ConfigNotFound))
      else if star <= 0 || star > configs[dungeonId].maxStar then Some(Refusal(InvalidStar, StarOutOfRange))
      else None
    }

    predicate AsksForLock(success: bool, session: Option<Session>, p: int, dungeonId: int, star: int)
    {
      SettleRefusedEarly(success, session, p, dungeonId, star).None?
    }

    /** SettleDungeon.  `success` is the request's result flag; the other results are those of EnterDungeon,
        with `threw` for a process that died of a torn context. */
    method SettleDungeon(success: bool, session: Option<Session>, p: int, id: string, dungeonId: int, star: int,
                         others: Interference)
      returns (reply: Reply, threw: bool, ghost fate: LockFate, ghost done: bool, ghost lost: bool,
               ghost commit: Option<Commit>,
        ghost read: Read)
      requires Valid() && Foreign(me, others)
      modifies this, cluster, repository.mysql
      ensures Valid() && old(cluster.trace) <= cluster.trace
      ensures var early := SettleRefusedEarly(success, session, p, dungeonId, star);
              early.Some? ==> reply == early.value && cluster.trace == old(cluster.trace)
      // the events of a request that gets as far as the lock
      ensures AsksForLock(success, session, p, dungeonId, star) ==>
                && reply == cluster.View().Of(me).reply
                && |cluster.trace| > |old(cluster.trace)|
                && cluster.trace[|old(cluster.trace)|] == SettleAcquire(me, p, id, configs[dungeonId], star, fate)
      ensures Trail(cluster.trace, |old(cluster.trace)|, me, SettleRequest, 0, 8, PlaceOf(commit))
      // the reply and the tables
      ensures !reply.Entered?
      ensures reply.SettledReply? ==>
                commit.Some? && TellsPayment(reply.rewards, commit.value.before, commit.value.after, p, id)
      ensures lost <==> commit.Some? && commit.value.tx.CommitUnacknowledged?
      ensures Accounted(cluster.origin, cluster.trace, |old(cluster.trace)|, me, SettleRequest, read, commit)
      ensures AsksForLock(success, session, p, dungeonId, star) && reply.Refusal? && commit.None? ==>
                RefusedUntried(reply)
      ensures dungeonId in configs ==> SettleTold(reply, lost, commit, read, p, id, configs[dungeonId], star)
      ensures !reply.SettledReply? && !lost ==> LeftTablesAlone(cluster.origin, cluster.trace, |old(cluster.trace)|, me)
      ensures Quiet(others) ==> CommitAlone(old(cluster.db), cluster.db, commit)
      ensures Quiet(others) && reply.SettledReply? ==>
                && dungeonId in configs
                && SettleOf(old(cluster.db), p, id, configs[dungeonId], star, reply.firstClear) == Written(cluster.db)
                && TellsPayment(reply.rewards, old(cluster.db), cluster.db, p, id)
      ensures Quiet(others) && !reply.SettledReply? && !lost ==> cluster.db == old(cluster.db)
      // the lock, and the process
      ensures threw <==> reply == NoReply
      ensures Quiet(others) && threw ==>
                fate.Reached? && p !in old(cluster.locks) && TornContextAt(old(cluster.contexts), id)
      ensures Quiet(others) && cluster.faults == old(cluster.faults) ==>
                (threw <==> AsksForLock(success, session, p, dungeonId, star)
                            && p !in old(cluster.locks) && TornContextAt(old(cluster.contexts), id))
      ensures Quiet(others) ==> cluster.locks.Keys == LocksAfter(old(cluster.locks.Keys), p, fate, done)
      ensures threw ==> !done
      ensures AsksForLock(success, session, p, dungeonId, star) && fate.Reached? && reply != BUSY && !threw ==>
                EndsWith(cluster.trace, Release(me, done))
      ensures cluster.faults >= old(cluster.faults)
      // without faults
      ensures cluster.faults == old(cluster.faults) ==>
                !lost && (fate.Reached? && p !in old(cluster.locks) ==> done || threw)
      ensures AsksForLock(success, session, p, dungeonId, star) && cluster.faults == old(cluster.faults) ==>
                fate == Reached
      ensures Quiet(others) && cluster.faults == old(cluster.faults)
              && AsksForLock(success, session, p, dungeonId, star) ==>
                cluster.View() == Run(old(cluster.View()),
                      SettleScript(me, p, id, configs[dungeonId], star, true, true, true))
      ensures Quiet(others) && cluster.faults == old(cluster.faults) && old(Safe(cluster.View()))
              && AsksForLock(success, session, p, dungeonId, star) && !threw ==>
                if p in old(cluster.locks) then reply == Refusal(PlayerBusy, PlayerIsBusy)
                else SettleAnswer(old(cluster.db), p, id, configs[dungeonId], reply)
      ensures AsksForLock(success, session, p, dungeonId, star) && !(fate.Reached? && p !in old(cluster.locks)) ==>
                reply == Refusal(PlayerBusy, PlayerIsBusy)
      ensures Quiet(others) && cluster.faults == old(cluster.faults) && old(Serial(cluster.View())) ==>
                Serial(cluster.View())
    {
      hide Step, Run, Serial, Trail, WasRead, Happened, LeftTablesAlone, LocksAfter, SettleScript, TornContextAt, Safe,
        TellsPayment, SettleAnswer, SettleAlone, Consistent,
        SettleOf, SettleRewards, EndsWith;
      fate, done, lost, commit, read, threw := Unreached, false, false, None, NO_READ, false;
      reply := NoReply;
      ghost var start, t0 := cluster.View(), cluster.trace;
      if !success {
        reply := Refusal(StorageError, OnlySuccess);
      } else if session.None? || session.value.playerId != p {
        reply := Refusal(SessionInvalid, SessionIsInvalid);
      } else if dungeonId !in configs {
        reply := Refusal(DungeonNotFound, ConfigNotFound);
      } else if star <= 0 || star > configs[dungeonId].maxStar {
        reply := Refusal(InvalidStar, StarOutOfRange);
      }
      if reply != NoReply {
        EmptyTrail(t0, me, SettleRequest, 0, 8);
        NoLocksAfter(cluster.locks.Keys, p);
        OnlyCommitsWrite(cluster.origin, cluster.trace, |t0|, me, SettleRequest, 0, 8, None);
        return;
      }
      var cfg := configs[dungeonId];
      reply, threw, fate, done, lost, commit, read := SettleTakingLock(p, id, cfg, star, others);
      if !reply.SettledReply? && !lost {
        OnlyCommitsWrite(cluster.origin, cluster.trace, |t0|, me, SettleRequest, 0, 8, commit);
      }
      if Quiet(others) && cluster.faults == old(cluster.faults) && !threw && p !in start.locks && Safe(start) {
        SettleFinishes(start, me, p, id, cfg, star, true, true, true);
        SafeIsConsistent(start);
        SettleAnswersExactly(start.db, start.stars, p, id, cfg, star);
      }
      if Quiet(others) && cluster.faults == old(cluster.faults) && Serial(start) {
        SettleIsHarmless(me, p, id, cfg, star);
        SerialGoesOn(start, cluster.View(), me, SettleScript(me, p, id, cfg, star, true, true, true));
      }
    }
  }

  lemma EnterIsHarmless(me: int, p: int, cfg: DungeonConfig)
    ensures var script := EnterScript(me, p, cfg);
            forall i :: 0 <= i < |script| ==> Harmless(script[i]) && forall v :: v != me ==> NotBy(v, script[i])
  {
  }

  lemma SettleIsHarmless(me: int, p: int, id: string, cfg: DungeonConfig, star: int)
    ensures var script := SettleScript(me, p, id, cfg, star, true, true, true);
            forall i :: 0 <= i < |script| ==> Harmless(script[i]) && forall v :: v != me ==> NotBy(v, script[i])
  {
  }

  /** Where loading the player leaves the stores and the worker. */
  lemma LoadEffect(s: State, me: int, p: int, cfg: DungeonConfig, answered: bool)
    requires s.Of(me).phase == EnterLocked(p, cfg)
    ensures var s' := Step(s, EnterLoad(me, answered));
            var id := GenerateBattleId(p, cfg.dungeonId, s.Of(me).sequence);
            && s'.db == s.db && s'.locks == s.locks && s'.contexts == s.contexts && s'.snapshots == s.snapshots
            && s'.Of(me) ==
                 if !answered || p !in s.db.players then
                   s.Of(me).(phase := Releasing(p, Refusal(PlayerNotFound, PlayerNotFoundText)))
                 else if s.db.players[p].level < cfg.requiredLevel then
                   s.Of(me).(phase := Releasing(p, Refusal(DungeonLocked, LevelNotEnough)))
                 else if StaminaOf(s.db, p) < cfg.costStamina then
                   s.Of(me).(phase := Releasing(p, Refusal(StaminaNotEnough, StaminaNotEnoughText)))
                 else
                   s.Of(me).(sequence := s.Of(me).sequence + 1, phase := EnterLoaded(p, cfg, StaminaOf(s.db, p), id))
  {
    hide GenerateBattleId, StaminaOf;
  }

  lemma KnownStamina(t: Tables, p: int)
    ensures StaminaOf(t, p) == if p in t.assets then t.assets[p].stamina else 0
  {
  }

  /** Where reading the context leaves the stores and the worker. */
  lemma ReadContextEffect(s: State, me: int, p: int, id: string, cfg: DungeonConfig, star: int, answered: bool)
    requires s.Of(me).phase == SettleLocked(p, id, cfg, star)
    ensures var s' := Step(s, ContextRead(me, answered));
            && s'.db == s.db && s'.contexts == s.contexts && s'.snapshots == s.snapshots
            && (if answered && TornContextAt(s.contexts, id)
                then s'.locks == Orphaned(s.locks, me) && s'.Of(me) == Worker(1, Idle, NoReply)
                else s'.locks == s.locks && s'.Of(me).sequence == s.Of(me).sequence
                     && s'.Of(me).phase ==
                          if answered && id in s.contexts
                             then Checked(p, DecodeContext(id, s.contexts[id]).value, cfg, star)
                          else SettleMissed(p, id, cfg, star))
  {
    hide DecodeContext;
  }
}
