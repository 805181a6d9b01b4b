/**
 What the player lock adds.  As long as no lock expires while its request is still running, and the two
 reads whose errors the code swallows are answered, a player has one critical section at a time, one
 unfinished battle at a time, one first-clear bonus per dungeon, and is told the true stamina.
 */
module DungeonLocking {
  import opened Common
  import opened Tables
  import opened DungeonProtocol
  import opened DungeonSafety
  import opened Records
  import opened Runs

  /** The environment behaves: locks outlive their requests, and the pending-battle and first-clear
      SELECTs are answered. */
  predicate Faithful(s: State, e: Event)
  {
    && (e.ExpireLock? && e.playerId in s.locks ==> s.locks[e.playerId].Orphan?)
    && (e.PendingRead? ==> !e.pending.Unseen?)
    && (e.FirstClearRead? ==> e.answered)
  }

  ghost predicate FaithfulRun(s: State, events: seq<Event>)
  {
    forall i :: 0 <= i < |events| ==> Faithful(Run(s, events[..i]), events[i])
  }

  /** Every running request holds the lock of its player, in its own name. */
  ghost predicate Exclusive(s: State)
  {
    forall w :: !s.Of(w).phase.Idle? ==> HoldsLock(s.locks, w, s.Of(w).phase.playerId)
  }

  predicate HoldsLock(locks: map<int, Holder>, w: int, p: int)
  {
    p in locks && locks[p] == Held(w)
  }

  /** What a request has read about its player is still so. */
  ghost predicate UpToDate(t: Tables, phase: Phase)
  {
    match phase
    case EnterLoaded(p, _, stamina, _) => stamina == StaminaOf(t, p)
    case EnterChecked(p, _, stamina, _) => stamina == StaminaOf(t, p) && !HasPending(t, p)
    case EnterCommitted(p, _, remain) => remain == StaminaOf(t, p)
    case SettleCommitted(_, _, reply) => !reply.Entered?
    case Invalidating(p, reply) => reply.Entered? ==> reply.remainStamina == StaminaOf(t, p)
    case Releasing(p, reply) => reply.Entered? ==> reply.remainStamina == StaminaOf(t, p)
    case SettleRead(p, _, cfg, _, firstClear) => firstClear <==> (p, cfg.dungeonId) !in t.progress
    case _ => true
  }

  /** The player has at most one unfinished battle. */
  ghost predicate OnePendingOf(t: Tables, p: int)
  {
    forall id, id' :: Pending(t, id, p) && Pending(t, id', p) ==> id == id'
  }

  ghost predicate OnePending(t: Tables)
  {
    forall id, id', p :: Pending(t, id, p) && Pending(t, id', p) ==> id == id'
  }

  /** Battle `id` earned the first-clear bonus of (p, d). */
  predicate Bonus(t: Tables, id: string, p: int, d: int)
  {
    SettledIn(t, id, p, d) && RewardKey(p, id, Diamond) in t.rewards
  }

  /** At most one battle earned the bonus of (p, d). */
  ghost predicate OneBonusOf(t: Tables, p: int, d: int)
  {
    forall id, id' :: Bonus(t, id, p, d) && Bonus(t, id', p, d) ==> id == id'
  }

  ghost predicate OneBonus(t: Tables)
  {
    forall id, id', p, d :: Bonus(t, id, p, d) && Bonus(t, id', p, d) ==> id == id'
  }

  ghost predicate Guarded(s: State)
  {
    && Safe(s) && Exclusive(s)
    && (forall w :: UpToDate(s.db, s.Of(w).phase))
    && OnePending(s.db) && OneBonus(s.db)
  }

  /** Two requests for the same player are the same request. */
  lemma MutualExclusion(s: State, w: int, v: int)
    requires Exclusive(s)
    requires !s.Of(w).phase.Idle? && !s.Of(v).phase.Idle? && s.Of(w).phase.playerId == s.Of(v).phase.playerId
    ensures w == v
  {
    assert HoldsLock(s.locks, w, s.Of(w).phase.playerId);
    assert HoldsLock(s.locks, v, s.Of(v).phase.playerId);
  }

  // ---- each transaction is about one player only ----

  ghost predicate SameFor(t: Tables, t': Tables, p: int)
  {
    && StaminaOf(t', p) == StaminaOf(t, p)
    && (HasPending(t', p) <==> HasPending(t, p))
    && forall d :: (p, d) in t'.progress <==> (p, d) in t.progress
  }

  ghost predicate SameForOthers(t: Tables, t': Tables, p: int)
  {
    forall q :: q != p ==> SameFor(t, t', q)
  }

  lemma EnterIsAboutOnePlayer(t: Tables, p: int, cfg: DungeonConfig, id: string)
    requires EnterWrites(t, p, cfg, id).Written?
    ensures SameForOthers(t, EnterWrites(t, p, cfg, id).tables, p)
    ensures StaminaOf(EnterWrites(t, p, cfg, id).tables, p) == StaminaOf(t, p) - cfg.costStamina
    ensures OnePending(t) && !HasPending(t, p) ==> OnePending(EnterWrites(t, p, cfg, id).tables)
    ensures OneBonus(t) && PaidWhenSettled(t) ==> OneBonus(EnterWrites(t, p, cfg, id).tables)
  {
    var t' := EnterWrites(t, p, cfg, id).tables;
    assert forall x, q :: Pending(t', x, q) <==> Pending(t, x, q) || (x == id && q == p);
    assert forall x, q, d :: Bonus(t', x, q, d) ==> Bonus(t, x, q, d);
    forall q | q != p
      ensures HasPending(t', q) <==> HasPending(t, q)
    {
      if HasPending(t, q) {
        var x :| x in t.battles && Pending(t, x, q);
        assert Pending(t', x, q);
      }
    }
  }

  lemma SettleLeavesOthers(t: Tables, t': Tables, ctx: BattleContext, cfg: DungeonConfig, star: int, firstClear: bool)
    requires ctx.playerId in t.assets && ctx.battleId in t.battles && t.battles[ctx.battleId].playerId == ctx.playerId
    requires SettledBy(t, t', ctx, cfg, star, firstClear)
    ensures SameForOthers(t, t', ctx.playerId)
    ensures OnePending(t) ==> OnePending(t')
    ensures StaminaOf(t', ctx.playerId) == StaminaOf(t, ctx.playerId)
  {
    assert forall x, q :: Pending(t', x, q) ==> Pending(t, x, q);
    forall q | q != ctx.playerId
      ensures HasPending(t', q) <==> HasPending(t, q)
    {
      if HasPending(t, q) {
        var x :| x in t.battles && Pending(t, x, q);
        assert Pending(t', x, q);
      }
    }
  }

  lemma SettleKeepsOneBonus(t: Tables, t': Tables, stars: map<string, int>, ctx: BattleContext, cfg: DungeonConfig,
                            star: int, firstClear: bool)
    requires Consistent(t, stars) && Settleable(t, ctx, cfg, firstClear)
    requires SettledBy(t, t', ctx, cfg, star, firstClear) && !t.battles[ctx.battleId].settled
    requires OneBonus(t) && (firstClear ==> (ctx.playerId, cfg.dungeonId) !in t.progress)
    ensures OneBonus(t')
  {
    forall id, p, d | Bonus(t', id, p, d)
      ensures Bonus(t, id, p, d) || (firstClear && id == ctx.battleId && p == ctx.playerId && d == cfg.dungeonId)
    {
    }
    assert forall id, p, d :: Bonus(t, id, p, d) ==> (p, d) in t.progress;
  }

  lemma SettleIsAboutOnePlayer(t: Tables, stars: map<string, int>, ctx: BattleContext, cfg: DungeonConfig,
                               star: int, firstClear: bool)
    requires Consistent(t, stars) && Settleable(t, ctx, cfg, firstClear)
    requires SettleWrites(t, ctx, cfg, star, firstClear).Written?
    requires OneBonus(t) && OnePending(t) && (firstClear ==> (ctx.playerId, cfg.dungeonId) !in t.progress)
    ensures SameForOthers(t, SettleWrites(t, ctx, cfg, star, firstClear).tables, ctx.playerId)
    ensures OnePending(SettleWrites(t, ctx, cfg, star, firstClear).tables)
    ensures OneBonus(SettleWrites(t, ctx, cfg, star, firstClear).tables)
  {
    var t' := SettleWrites(t, ctx, cfg, star, firstClear).tables;
    SettleEffect(t, ctx, cfg, star, firstClear);
    hide SettleWrites, OneBonus, OnePending, SameForOthers, SettledBy;
    SettleLeavesOthers(t, t', ctx, cfg, star, firstClear);
    SettleKeepsOneBonus(t, t', stars, ctx, cfg, star, firstClear);
  }

  // ---- every faithful step keeps the guard ----

  /** A request that stays in its critical section and knows the truth. */
  lemma MovingOnIsGuarded(s: State, s': State, w: int)
    requires Guarded(s) && Safe(s')
    requires s'.db == s.db && s'.locks == s.locks && forall v :: v != w ==> s'.Of(v) == s.Of(v)
    requires !s.Of(w).phase.Idle? && !s'.Of(w).phase.Idle? && s'.Of(w).phase.playerId == s.Of(w).phase.playerId
    requires UpToDate(s'.db, s'.Of(w).phase)
    ensures Guarded(s')
  {
    assert HoldsLock(s.locks, w, s.Of(w).phase.playerId);
  }

  /** A request that changes the tables of its own player only. */
  lemma CommittingIsGuarded(s: State, s': State, w: int)
    requires Guarded(s) && Safe(s') && !s.Of(w).phase.Idle?
    requires s'.locks == s.locks && forall v :: v != w ==> s'.Of(v) == s.Of(v)
    requires !s'.Of(w).phase.Idle? && s'.Of(w).phase.playerId == s.Of(w).phase.playerId
    requires SameForOthers(s.db, s'.db, s.Of(w).phase.playerId)
    requires OnePending(s'.db) && OneBonus(s'.db) && UpToDate(s'.db, s'.Of(w).phase)
    ensures Guarded(s')
  {
    assert HoldsLock(s.locks, w, s.Of(w).phase.playerId);
    forall v
      ensures UpToDate(s'.db, s'.Of(v).phase)
      ensures !s'.Of(v).phase.Idle? ==> HoldsLock(s'.locks, v, s'.Of(v).phase.playerId)
    {
      if v != w && !s.Of(v).phase.Idle? {
        assert HoldsLock(s.locks, v, s.Of(v).phase.playerId);
        assert SameFor(s.db, s'.db, s.Of(v).phase.playerId);
      }
    }
  }

  // The steps between Acquire and Release that leave the tables alone.

  lemma LoadIsGuarded(s: State, w: int, answered: bool)
    requires Guarded(s) && Safe(Load(s, w, answered))
    ensures Guarded(Load(s, w, answered))
  {
    if s.Of(w).phase.EnterLocked? {
      hide Guarded, Safe;
      MovingOnIsGuarded(s, Load(s, w, answered), w);
    }
  }

  lemma CheckPendingIsGuarded(s: State, w: int, pending: PendingFate)
    requires Guarded(s) && Safe(CheckPending(s, w, pending)) && !pending.Unseen?
    ensures Guarded(CheckPending(s, w, pending))
  {
    if s.Of(w).phase.EnterLoaded? {
      assert UpToDate(s.db, s.Of(w).phase);
      hide Guarded, Safe, HasPending;
      MovingOnIsGuarded(s, CheckPending(s, w, pending), w);
    }
  }

  lemma SaveEnteredIsGuarded(s: State, w: int, names: set<string>)
    requires Guarded(s) && Safe(SaveEntered(s, w, names))
    ensures Guarded(SaveEntered(s, w, names))
  {
    if s.Of(w).phase.EnterCommitted? {
      assert UpToDate(s.db, s.Of(w).phase);
      hide Guarded, Safe, HasPending;
      MovingOnIsGuarded(s, SaveEntered(s, w, names), w);
    }
  }

  lemma ReadContextIsGuarded(s: State, w: int, answered: bool)
    requires Guarded(s) && Safe(ReadContext(s, w, answered))
    ensures Guarded(ReadContext(s, w, answered))
  {
    hide Guarded, Safe, HasPending, DecodeContext, Restart;
    var phase := s.Of(w).phase;
    if phase.SettleLocked? {
      if answered && TornContextAt(s.contexts, phase.battleId) {
        RestartIsGuarded(s, w);
      } else {
        MovingOnIsGuarded(s, ReadContext(s, w, answered), w);
      }
    }
  }

  lemma ReadBattleIsGuarded(s: State, w: int, answered: bool)
    requires Guarded(s) && Safe(ReadBattle(s, w, answered))
    ensures Guarded(ReadBattle(s, w, answered))
  {
    if s.Of(w).phase.SettleMissed? {
      hide Guarded, Safe, HasPending;
      MovingOnIsGuarded(s, ReadBattle(s, w, answered), w);
    }
  }

  lemma ReadFirstClearIsGuarded(s: State, w: int)
    requires Guarded(s) && Safe(ReadFirstClear(s, w, true))
    ensures Guarded(ReadFirstClear(s, w, true))
  {
    if s.Of(w).phase.SettleFound? {
      assert PhaseFits(s.db, s.Of(w).phase);
      hide Guarded, Safe, HasPending;
      MovingOnIsGuarded(s, ReadFirstClear(s, w, true), w);
    }
  }

  lemma DropContextIsGuarded(s: State, w: int, done: bool)
    requires Guarded(s) && Safe(DropContext(s, w, done))
    ensures Guarded(DropContext(s, w, done))
  {
    if s.Of(w).phase.SettleCommitted? {
      assert UpToDate(s.db, s.Of(w).phase);
      hide Guarded, Safe, HasPending;
      MovingOnIsGuarded(s, DropContext(s, w, done), w);
    }
  }

  lemma DropSnapshotIsGuarded(s: State, w: int, done: bool)
    requires Guarded(s) && Safe(DropSnapshot(s, w, done))
    ensures Guarded(DropSnapshot(s, w, done))
  {
    if s.Of(w).phase.Invalidating? {
      assert UpToDate(s.db, s.Of(w).phase);
      hide Guarded, Safe, HasPending;
      MovingOnIsGuarded(s, DropSnapshot(s, w, done), w);
    }
  }

  // The commits.

  lemma CommitEnterIsGuarded(s: State, w: int, tx: TxFate)
    requires Guarded(s) && Safe(CommitEnter(s, w, tx))
    ensures Guarded(CommitEnter(s, w, tx))
  {
    var phase := s.Of(w).phase;
    if phase.EnterChecked? {
      var s' := CommitEnter(s, w, tx);
      assert UpToDate(s.db, phase) && OnePending(s.db) && OneBonus(s.db) && PaidWhenSettled(s.db);
      hide Guarded, Safe, HasPending, EnterWrites, OnePending, OneBonus, SameForOthers, PaidWhenSettled;
      if tx.RolledBack? || EnterWrites(s.db, phase.playerId, phase.cfg, phase.battleId).Aborted? {
        MovingOnIsGuarded(s, s', w);
      } else {
        EnterIsAboutOnePlayer(s.db, phase.playerId, phase.cfg, phase.battleId);
        CommittingIsGuarded(s, s', w);
      }
    }
  }

  lemma SettleReadMeans(s: State, w: int)
    requires Guarded(s) && s.Of(w).phase.SettleRead?
    ensures var phase := s.Of(w).phase;
            && OnePending(s.db) && OneBonus(s.db) && Consistent(s.db, s.stars)
            && (phase.firstClear ==> (phase.playerId, phase.cfg.dungeonId) !in s.db.progress)
            && phase.ctx.playerId == phase.playerId && Settleable(s.db, phase.ctx, phase.cfg, phase.firstClear)
  {
    assert PhaseFits(s.db, s.Of(w).phase);
    hide OnePending, OneBonus, Consistent;
  }

  lemma SettleOutcome(s: State, w: int, tx: TxFate)
    requires s.Of(w).phase.SettleRead?
    ensures var s', phase := CommitSettle(s, w, tx), s.Of(w).phase;
            && !s'.Of(w).phase.Idle? && s'.Of(w).phase.playerId == phase.playerId && UpToDate(s'.db, s'.Of(w).phase)
            && s'.db == (var written := SettleWrites(s.db, phase.ctx, phase.cfg, phase.star, phase.firstClear);
                         if tx.RolledBack? || written.Aborted? then s.db else written.tables)
  {
    hide SettleWrites, SettleRewards;
  }

  lemma CommitSettleIsGuarded(s: State, w: int, tx: TxFate)
    requires Guarded(s) && Safe(CommitSettle(s, w, tx))
    ensures Guarded(CommitSettle(s, w, tx))
  {
    hide Guarded, Safe, SettleWrites, OnePending, OneBonus, SameForOthers, Consistent, Settleable, UpToDate;
    var phase := s.Of(w).phase;
    if phase.SettleRead? {
      var s' := CommitSettle(s, w, tx);
      SettleReadMeans(s, w);
      SettleOutcome(s, w, tx);
      hide CommitSettle;
      if s'.db == s.db {
        MovingOnIsGuarded(s, s', w);
      } else {
        SettleIsAboutOnePlayer(s.db, s.stars, phase.ctx, phase.cfg, phase.star, phase.firstClear);
        CommittingIsGuarded(s, s', w);
      }
    }
  }

  // Taking and giving back locks.

  lemma AcquireIsGuarded(s: State, w: int, p: int, next: Phase, lock: LockFate)
    requires Guarded(s) && Safe(Acquire(s, w, p, next, lock))
    requires next.EnterLocked? || next.SettleLocked?
    requires next.playerId == p
    ensures Guarded(Acquire(s, w, p, next, lock))
  {
    if s.Of(w).phase.Idle? {
      var s' := Acquire(s, w, p, next, lock);
      forall v
        ensures !s'.Of(v).phase.Idle? ==> HoldsLock(s'.locks, v, s'.Of(v).phase.playerId)
        ensures UpToDate(s'.db, s'.Of(v).phase)
      {
        if v != w && !s.Of(v).phase.Idle? {
          assert HoldsLock(s.locks, v, s.Of(v).phase.playerId);
        }
      }
    }
  }

  lemma UnlockIsGuarded(s: State, w: int, done: bool)
    requires Guarded(s) && Safe(Unlock(s, w, done))
    ensures Guarded(Unlock(s, w, done))
  {
    if s.Of(w).phase.Releasing? {
      var s' := Unlock(s, w, done);
      assert HoldsLock(s.locks, w, s.Of(w).phase.playerId);
      forall v
        ensures !s'.Of(v).phase.Idle? ==> HoldsLock(s'.locks, v, s'.Of(v).phase.playerId)
        ensures UpToDate(s.db, s'.Of(v).phase)
      {
        if !s.Of(v).phase.Idle? {
          assert HoldsLock(s.locks, v, s.Of(v).phase.playerId);
        }
      }
    }
  }

  lemma RestartIsGuarded(s: State, w: int)
    requires Guarded(s) && Safe(Restart(s, w))
    ensures Guarded(Restart(s, w))
  {
    var s' := Restart(s, w);
    forall v
      ensures !s'.Of(v).phase.Idle? ==> HoldsLock(s'.locks, v, s'.Of(v).phase.playerId)
      ensures UpToDate(s.db, s'.Of(v).phase)
    {
      if !s.Of(v).phase.Idle? {
        assert HoldsLock(s.locks, v, s.Of(v).phase.playerId);
      }
    }
  }

  lemma EnvironmentIsGuarded(s: State, e: Event)
    requires Guarded(s) && Faithful(s, e) && Safe(Step(s, e))
    requires e.ExpireLock? || e.ExpireContext? || e.WriteSnapshot? || e.ExpireSnapshot?
    ensures Guarded(Step(s, e))
  {
    var s' := Step(s, e);
    forall v
      ensures s'.Of(v) == s.Of(v)
      ensures !s.Of(v).phase.Idle? ==> HoldsLock(s'.locks, v, s.Of(v).phase.playerId)
    {
      if !s.Of(v).phase.Idle? {
        assert HoldsLock(s.locks, v, s.Of(v).phase.playerId);
      }
    }
  }

  lemma EnterStepIsGuarded(s: State, e: Event)
    requires Guarded(s) && Faithful(s, e) && Safe(Step(s, e)) && IsEnterEvent(e)
    ensures Guarded(Step(s, e))
  {
    hide Guarded, Safe, Acquire, Load, CheckPending, CommitEnter, SaveEntered;
    match e
    case EnterAcquire(w, p, cfg, lock) => AcquireIsGuarded(s, w, p, EnterLocked(p, cfg), lock);
    case EnterLoad(w, answered) => LoadIsGuarded(s, w, answered);
    case PendingRead(w, pending) => CheckPendingIsGuarded(s, w, pending);
    case EnterCommit(w, tx) => CommitEnterIsGuarded(s, w, tx);
    case SaveContext(w, names) => SaveEnteredIsGuarded(s, w, names);
  }

  lemma SettleStepIsGuarded(s: State, e: Event)
    requires Guarded(s) && Faithful(s, e) && Safe(Step(s, e)) && IsSettleEvent(e)
    ensures Guarded(Step(s, e))
  {
    hide Guarded, Safe, Acquire, ReadContext, ReadBattle, ReadFirstClear, CommitSettle, DropContext;
    match e
    case SettleAcquire(w, p, id, cfg, star, lock) =>
      if 0 < star <= cfg.maxStar { AcquireIsGuarded(s, w, p, SettleLocked(p, id, cfg, star), lock); }
    case ContextRead(w, answered) => ReadContextIsGuarded(s, w, answered);
    case BattleRead(w, answered) => ReadBattleIsGuarded(s, w, answered);
    case FirstClearRead(w, answered) => ReadFirstClearIsGuarded(s, w);
    case SettleCommit(w, tx) => CommitSettleIsGuarded(s, w, tx);
    case DeleteContext(w, done) => DropContextIsGuarded(s, w, done);
  }

  lemma FinalStepIsGuarded(s: State, e: Event)
    requires Guarded(s) && Safe(Step(s, e)) && (e.Invalidate? || e.Release? || e.Crash?)
    ensures Guarded(Step(s, e))
  {
    hide Guarded, Safe, DropSnapshot, Unlock, Restart;
    match e
    case Invalidate(w, done) => DropSnapshotIsGuarded(s, w, done);
    case Release(w, done) => UnlockIsGuarded(s, w, done);
    case Crash(w) => RestartIsGuarded(s, w);
  }

  lemma StepIsGuarded(s: State, e: Event)
    requires Guarded(s) && Faithful(s, e)
    ensures Guarded(Step(s, e))
  {
    assert Safe(s);
    hide Guarded, Balanced, Grows, Faithful, Safe, Step;
    StepIsSafe(s, e);
    if IsEnterEvent(e) {
      EnterStepIsGuarded(s, e);
    } else if IsSettleEvent(e) {
      SettleStepIsGuarded(s, e);
    } else if e.Invalidate? || e.Release? || e.Crash? {
      FinalStepIsGuarded(s, e);
    } else {
      EnvironmentIsGuarded(s, e);
    }
  }

  /** Every faithful run from an idle cluster is guarded in every state it passes. */
  lemma {:induction false} FaithfulRunIsGuarded(s: State, events: seq<Event>)
    requires Guarded(s) && FaithfulRun(s, events)
    ensures Guarded(Run(s, events))
    decreases |events|
  {
    if events != [] {
      var n := |events| - 1;
      var before := events[..n];
      assert FaithfulRun(s, before) by {
        forall i | 0 <= i < n
          ensures Faithful(Run(s, before[..i]), before[i])
        {
          assert before[..i] == events[..i];
        }
      }
      FaithfulRunIsGuarded(s, before);
      StepIsGuarded(Run(s, before), events[n]);
    }
  }

  predicate SamePlayer(s: State, w: int, v: int)
  {
    !s.Of(w).phase.Idle? && !s.Of(v).phase.Idle? && s.Of(w).phase.playerId == s.Of(v).phase.playerId
  }

  /** (p, d) earned its first-clear bonus exactly once. */
  ghost predicate BonusOnce(t: Tables, p: int, d: int)
  {
    exists id :: Bonus(t, id, p, d) && forall other :: Bonus(t, other, p, d) ==> other == id
  }

  predicate ReportsStamina(s: State, w: int, stamina: int)
  {
    var phase := s.Of(w).phase;
    phase.Releasing? && phase.reply.Entered? && phase.reply.remainStamina == stamina
  }

  lemma PaidIsOnce(t: Tables, p: int, d: int)
    requires OneBonus(t) && BonusPaid(t, p, d)
    ensures BonusOnce(t, p, d)
  {
    var id :| SettledIn(t, id, p, d) && RewardKey(p, id, Diamond) in t.rewards;
    assert Bonus(t, id, p, d);
    forall other | Bonus(t, other, p, d) ensures other == id {
    }
  }

  lemma GuardedMeansPromises(now: State)
    requires Guarded(now)
    ensures forall w, v :: SamePlayer(now, w, v) ==> w == v
    ensures forall p, d :: (p, d) in now.db.progress ==> BonusOnce(now.db, p, d)
    ensures forall w, stamina ::
              ReportsStamina(now, w, stamina) ==> stamina == StaminaOf(now.db, now.Of(w).phase.playerId)
  {
    forall w, v | SamePlayer(now, w, v)
      ensures w == v
    {
      MutualExclusion(now, w, v);
    }
    forall p, d | (p, d) in now.db.progress
      ensures BonusOnce(now.db, p, d)
    {
      assert BonusPaid(now.db, p, d);
      hide Guarded, BonusPaid, BonusOnce;
      PaidIsOnce(now.db, p, d);
    }
    assert forall w :: UpToDate(now.db, now.Of(w).phase);
  }

  /** The promises of the player lock, for every faithful run from an idle cluster: one critical section
      and one unfinished battle per player, exactly one first-clear bonus wherever a player has
      cleared a dungeon, and a worker that reports remaining stamina reports the committed value. */
  lemma FaithfulRunsKeepPromises(s: State, events: seq<Event>)
    requires Initial(s) && FaithfulRun(s, events)
    ensures forall w, v :: SamePlayer(Run(s, events), w, v) ==> w == v
    ensures OnePending(Run(s, events).db)
    ensures forall p, d :: (p, d) in Run(s, events).db.progress ==> BonusOnce(Run(s, events).db, p, d)
    ensures forall w, stamina :: ReportsStamina(Run(s, events), w, stamina)
              ==> stamina == StaminaOf(Run(s, events).db, Run(s, events).Of(w).phase.playerId)
  {
    InitialIsSafe(s);
    FaithfulRunIsGuarded(s, events);
    assert Guarded(Run(s, events)) ==> OnePending(Run(s, events).db);
    hide Guarded, OnePending, BonusOnce, ReportsStamina, SamePlayer;
    GuardedMeansPromises(Run(s, events));
  }
}
