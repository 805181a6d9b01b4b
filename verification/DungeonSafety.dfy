/**
 What every run of the dungeon protocol keeps, however requests interleave and whatever fails: locks
 may expire under their holder, statements and commits may fail or lose their answer, cached contexts
 may go stale, and workers may crash at any point.
 */
module DungeonSafety {
  import opened Common
  import opened Decimal
  import opened Hashes
  import opened Records
  import opened Tables
  import opened DungeonProtocol
  import opened Runs

  /** A battle context still describes a battle row, up to whether the battle has been settled since. */
  ghost predicate ContextFits(t: Tables, ctx: BattleContext)
  {
    && ctx.battleId in t.battles
    && t.battles[ctx.battleId].(settled := false) == BattleRow(ctx.playerId, ctx.dungeonId, false, ctx.costStamina)
    && !ctx.settled
  }

  /** What a worker in the middle of a request may rely on. */
  ghost predicate PhaseFits(t: Tables, phase: Phase)
  {
    match phase
    case EnterCommitted(p, ctx, _) => ContextFits(t, ctx) && ctx.playerId == p
    case SettleFound(p, ctx, cfg, _) => ContextFits(t, ctx) && ctx.playerId == p && ctx.dungeonId == cfg.dungeonId
    case SettleRead(p, ctx, cfg, _, firstClear) =>
      && ContextFits(t, ctx) && ctx.playerId == p && ctx.dungeonId == cfg.dungeonId
      && ((p, cfg.dungeonId) !in t.progress ==> firstClear)
    case _ => true
  }

  /** Every field of a cached context that is there is genuine. */
  ghost predicate HashFits(t: Tables, id: string, hash: Hash)
  {
    && id in t.battles
    && ("player_id" in hash ==> hash["player_id"] == PrintInt(t.battles[id].playerId))
    && ("dungeon_id" in hash ==> hash["dungeon_id"] == PrintInt(t.battles[id].dungeonId))
    && ("cost_stamina" in hash ==> hash["cost_stamina"] == PrintInt(t.battles[id].cost))
    && ("settled" in hash ==> hash["settled"] == "0")
  }

  ghost predicate ContextsFit(t: Tables, contexts: map<string, Hash>)
  {
    forall id :: id in contexts ==> HashFits(t, id, contexts[id])
  }

  /** A context read from genuine fields is genuine. */
  lemma ReadFits(t: Tables, id: string, hash: Hash)
    requires HashFits(t, id, hash) && DecodeContext(id, hash).Some?
    ensures ContextFits(t, DecodeContext(id, hash).value) && DecodeContext(id, hash).value.battleId == id
  {
    StollExactly(t.battles[id].playerId);
    StoiExactly(t.battles[id].dungeonId);
    StoiExactly(t.battles[id].cost);
    hide Stoi, Stoll, PrintInt, Fits32, Fits64;
  }

  /** Writing any of a genuine context's fields leaves only genuine fields. */
  lemma SavedFits(t: Tables, contexts: map<string, Hash>, ctx: BattleContext, names: set<string>)
    requires ContextsFit(t, contexts) && ContextFits(t, ctx)
    ensures ContextsFit(t, SavedContexts(contexts, ctx, names))
  {
    hide PrintInt;
    var fields := EncodeContext(ctx);
    assert HashFits(t, ctx.battleId, fields);
    if ctx.battleId in contexts { assert HashFits(t, ctx.battleId, contexts[ctx.battleId]); }
    forall id | id in SavedContexts(contexts, ctx, names)
      ensures HashFits(t, id, SavedContexts(contexts, ctx, names)[id])
    {
      if id != ctx.battleId { assert HashFits(t, id, contexts[id]); }
      hide EncodeContext;
    }
  }

  ghost predicate Safe(s: State)
  {
    && Consistent(s.db, s.stars)
    && ContextsFit(s.db, s.contexts)
    && forall w :: PhaseFits(s.db, s.Of(w).phase)
  }

  /** What workers and caches rely on survives any change that only adds rows or settles battles. */
  lemma GrowthKeepsFit(s: State, s': State)
    requires Safe(s) && Grows(s.db, s'.db) && Consistent(s'.db, s'.stars)
    requires s'.contexts == s.contexts && forall w :: s'.Of(w) == s.Of(w)
    ensures Safe(s')
  {
  }

  lemma NothingChanges(t: Tables)
    ensures Balanced(t, t) && Grows(t, t)
  {
  }

  lemma MoveIsSafe(s: State, w: int, phase: Phase)
    requires Safe(s) && PhaseFits(s.db, phase)
    ensures Safe(s.Move(w, phase))
  {
  }

  lemma EnterWritesAreSafe(s: State, p: int, cfg: DungeonConfig, id: string)
    requires Safe(s) && EnterWrites(s.db, p, cfg, id).Written?
    ensures Safe(s.(db := EnterWrites(s.db, p, cfg, id).tables))
    ensures Balanced(s.db, EnterWrites(s.db, p, cfg, id).tables)
    ensures Grows(s.db, EnterWrites(s.db, p, cfg, id).tables)
    ensures ContextFits(EnterWrites(s.db, p, cfg, id).tables, EnteredContext(id, p, cfg))
  {
    var s' := s.(db := EnterWrites(s.db, p, cfg, id).tables);
    assert Consistent(s.db, s.stars);
    assert forall w :: s'.Of(w) == s.Of(w);
    assert ContextFits(s'.db, EnteredContext(id, p, cfg));
    hide Consistent, Safe, Balanced, Grows, EnterWrites, ContextFits;
    EnterKeepsConsistent(s.db, s.stars, p, cfg, id);
    EnterBalances(s.db, p, cfg, id);
    GrowthKeepsFit(s, s');
  }

  lemma SettleWritesAreSafe(s: State, ctx: BattleContext, cfg: DungeonConfig, star: int, firstClear: bool)
    requires Safe(s) && PhaseFits(s.db, SettleRead(ctx.playerId, ctx, cfg, star, firstClear))
    requires SettleWrites(s.db, ctx, cfg, star, firstClear).Written?
    ensures Safe(s.(db := SettleWrites(s.db, ctx, cfg, star, firstClear).tables,
                    stars := s.stars[ctx.battleId := star]))
    ensures Balanced(s.db, SettleWrites(s.db, ctx, cfg, star, firstClear).tables)
    ensures Grows(s.db, SettleWrites(s.db, ctx, cfg, star, firstClear).tables)
  {
    var t := SettleWrites(s.db, ctx, cfg, star, firstClear).tables;
    var s' := s.(db := t, stars := s.stars[ctx.battleId := star]);
    assert Consistent(s.db, s.stars) && Settleable(s.db, ctx, cfg, firstClear);
    assert forall w :: s'.Of(w) == s.Of(w);
    hide Consistent, Safe, Balanced, Grows, Settleable, SettleWrites;
    SettleKeepsConsistent(s.db, s.stars, ctx, cfg, star, firstClear);
    SettleBalances(s.db, s.stars, ctx, cfg, star, firstClear);
    GrowthKeepsFit(s, s');
  }

  lemma PhaseIsSafe(s: State, w: int)
    requires Safe(s)
    ensures PhaseFits(s.db, s.Of(w).phase)
  {
  }

  lemma CommitEnterIsSafe(s: State, w: int, tx: TxFate)
    requires Safe(s)
    ensures Safe(CommitEnter(s, w, tx))
    ensures Balanced(s.db, CommitEnter(s, w, tx).db) && Grows(s.db, CommitEnter(s, w, tx).db)
  {
    NothingChanges(s.db);
    hide Safe, Balanced, Grows, ContextFits, EnterWrites;
    var phase := s.Of(w).phase;
    if phase.EnterChecked? {
      var p := phase.playerId;
      var written := EnterWrites(s.db, p, phase.cfg, phase.battleId);
      if !tx.RolledBack? && written.Written? {
        EnterWritesAreSafe(s, p, phase.cfg, phase.battleId);
        var after := s.(db := written.tables);
        if tx.Clean? {
          MoveIsSafe(after, w, EnterCommitted(p, EnteredContext(phase.battleId, p, phase.cfg),
                                              phase.stamina - phase.cfg.costStamina));
        } else {
          MoveIsSafe(after, w, Releasing(p, EnterRefusal(tx.error)));
        }
      } else {
        MoveIsSafe(s, w, CommitEnter(s, w, tx).Of(w).phase);
      }
    }
  }

  lemma CommitSettleIsSafe(s: State, w: int, tx: TxFate)
    requires Safe(s)
    ensures Safe(CommitSettle(s, w, tx))
    ensures Balanced(s.db, CommitSettle(s, w, tx).db) && Grows(s.db, CommitSettle(s, w, tx).db)
  {
    hide Safe, Balanced, Grows, ContextFits, SettleWrites, SettleRewards, SettleRefusal;
    NothingChanges(s.db);
    var phase := s.Of(w).phase;
    PhaseIsSafe(s, w);
    if phase.SettleRead? {
      var written := SettleWrites(s.db, phase.ctx, phase.cfg, phase.star, phase.firstClear);
      if !tx.RolledBack? && written.Written? {
        SettleWritesAreSafe(s, phase.ctx, phase.cfg, phase.star, phase.firstClear);
        var after := s.(db := written.tables, stars := s.stars[phase.ctx.battleId := phase.star]);
        MoveIsSafe(after, w, CommitSettle(s, w, tx).Of(w).phase);
      } else {
        MoveIsSafe(s, w, CommitSettle(s, w, tx).Of(w).phase);
      }
    }
  }

  lemma EnterStepsAreSafe(s: State, w: int, p: int, next: Phase, lock: LockFate, answered: bool, pending: PendingFate)
    requires Safe(s) && PhaseFits(s.db, next)
    ensures Safe(Acquire(s, w, p, next, lock))
    ensures Safe(Load(s, w, answered))
    ensures Safe(CheckPending(s, w, pending))
  {
    hide Consistent, HashFits, ContextFits, HasPending, GenerateBattleId, StaminaOf, EnterRefusal;
  }

  lemma SaveIsSafe(s: State, w: int, names: set<string>)
    requires Safe(s)
    ensures Safe(SaveEntered(s, w, names))
  {
    hide Consistent, HashFits, SavedContexts, ContextFits;
    PhaseIsSafe(s, w);
    if s.Of(w).phase.EnterCommitted? { SavedFits(s.db, s.contexts, s.Of(w).phase.ctx, names); }
  }

  lemma DropIsSafe(s: State, w: int, done: bool)
    requires Safe(s)
    ensures Safe(DropContext(s, w, done))
  {
    hide Consistent, HashFits;
    PhaseIsSafe(s, w);
  }

  lemma SettleStepsAreSafe(s: State, w: int, answered: bool)
    requires Safe(s)
    ensures Safe(ReadBattle(s, w, answered))
    ensures Safe(ReadFirstClear(s, w, answered))
  {
    hide HashFits;
  }

  lemma ReadContextIsSafe(s: State, w: int, answered: bool)
    requires Safe(s)
    ensures Safe(ReadContext(s, w, answered))
  {
    hide Consistent, HashFits, DecodeContext, Restart;
    FinalStepsAreSafe(s, w, true);
    var phase := s.Of(w).phase;
    if phase.SettleLocked? && phase.battleId in s.contexts && !TornContextAt(s.contexts, phase.battleId) {
      ReadFits(s.db, phase.battleId, s.contexts[phase.battleId]);
    }
  }

  lemma FinalStepsAreSafe(s: State, w: int, done: bool)
    requires Safe(s)
    ensures Safe(DropSnapshot(s, w, done))
    ensures Safe(Unlock(s, w, done))
    ensures Safe(Restart(s, w))
  {
  }

  lemma EnvironmentIsSafe(s: State, s': State)
    requires Safe(s)
    requires s'.db == s.db && s'.stars == s.stars && s'.workers == s.workers
    requires forall id :: id in s'.contexts ==> id in s.contexts && s'.contexts[id] == s.contexts[id]
    ensures Safe(s')
  {
    assert forall w :: s'.Of(w) == s.Of(w);
  }

  lemma EnvironmentStepIsSafe(s: State, e: Event)
    requires Safe(s) && (e.ExpireLock? || e.ExpireContext? || e.WriteSnapshot? || e.ExpireSnapshot?)
    ensures Safe(Step(s, e)) && Step(s, e).db == s.db
  {
    EnvironmentIsSafe(s, Step(s, e));
  }

  lemma EnterEventIsSafe(s: State, e: Event)
    requires Safe(s) && IsEnterEvent(e)
    ensures Safe(Step(s, e)) && Balanced(s.db, Step(s, e).db) && Grows(s.db, Step(s, e).db)
  {
    NothingChanges(s.db);
    hide Safe, Balanced, Grows, Acquire, Load, CheckPending, CommitEnter, SaveEntered;
    match e
    case EnterAcquire(w, p, cfg, lock) => EnterStepsAreSafe(s, w, p, EnterLocked(p, cfg), lock, true, Seen);
    case EnterLoad(w, answered) => EnterStepsAreSafe(s, w, 0, Idle, Reached, answered, Seen);
    case PendingRead(w, pending) => EnterStepsAreSafe(s, w, 0, Idle, Reached, true, pending);
    case EnterCommit(w, tx) => CommitEnterIsSafe(s, w, tx);
    case SaveContext(w, names) => SaveIsSafe(s, w, names);
  }

  lemma SettleEventIsSafe(s: State, e: Event)
    requires Safe(s) && IsSettleEvent(e)
    ensures Safe(Step(s, e)) && Balanced(s.db, Step(s, e).db) && Grows(s.db, Step(s, e).db)
  {
    NothingChanges(s.db);
    hide Safe, Balanced, Grows, Acquire, ReadContext, ReadBattle, ReadFirstClear, CommitSettle, DropContext;
    match e
    case SettleAcquire(w, p, id, cfg, star, lock) =>
      EnterStepsAreSafe(s, w, p, SettleLocked(p, id, cfg, star), lock, true, Seen);
    case ContextRead(w, answered) => ReadContextIsSafe(s, w, answered);
    case BattleRead(w, answered) => SettleStepsAreSafe(s, w, answered);
    case FirstClearRead(w, answered) => SettleStepsAreSafe(s, w, answered);
    case SettleCommit(w, tx) => CommitSettleIsSafe(s, w, tx);
    case DeleteContext(w, done) => DropIsSafe(s, w, done);
  }

  /** One step of any worker or of the environment. */
  lemma StepIsSafe(s: State, e: Event)
    requires Safe(s)
    ensures Safe(Step(s, e)) && Balanced(s.db, Step(s, e).db) && Grows(s.db, Step(s, e).db)
  {
    hide Safe, Balanced, Grows;
    if IsEnterEvent(e) {
      hide Step;
      EnterEventIsSafe(s, e);
    } else if IsSettleEvent(e) {
      hide Step;
      SettleEventIsSafe(s, e);
    } else {
      NothingChanges(s.db);
      hide DropSnapshot, Unlock, Restart;
      match e
      case Invalidate(w, done) => FinalStepsAreSafe(s, w, done);
      case Release(w, done) => FinalStepsAreSafe(s, w, done);
      case Crash(w) => FinalStepsAreSafe(s, w, true);
      case _ => EnvironmentStepIsSafe(s, e);
    }
  }

  lemma {:induction false} RunIsSafe(s: State, events: seq<Event>)
    requires Safe(s)
    ensures Safe(Run(s, events)) && Balanced(s.db, Run(s, events).db) && Grows(s.db, Run(s, events).db)
    decreases |events|
  {
    if events != [] {
      var before := events[..|events| - 1];
      RunIsSafe(s, before);
      var mid := Run(s, before);
      StepIsSafe(mid, events[|events| - 1]);
      BalancedTransitive(s.db, mid.db, Run(s, events).db);
      GrowsTransitive(s.db, mid.db, Run(s, events).db);
    }
  }

  lemma InitialIsSafe(s: State)
    requires Initial(s)
    ensures Safe(s)
  {
  }

  /** In every run from an idle cluster: stamina is never overdrawn, no stamina, gold or diamond appears
      or disappears without a battle row or a log row, a battle is settled exactly when its gold is on
      record, and a progress row says exactly what was cleared there. */
  lemma EveryRunKeepsTheBooks(s: State, events: seq<Event>)
    requires Initial(s)
    ensures Consistent(Run(s, events).db, Run(s, events).stars)
    ensures Run(s, events).db.assets.Keys == s.db.assets.Keys
    ensures forall p :: p in s.db.assets ==>
      var now := Run(s, events).db.assets[p];
      && 0 <= now.stamina == s.db.assets[p].stamina - Spent(Run(s, events).db, p)
      && now.gold == s.db.assets[p].gold + Earned(Run(s, events).db, p, Gold)
      && now.diamond == s.db.assets[p].diamond + Earned(Run(s, events).db, p, Diamond)
  {
    InitialIsSafe(s);
    RunIsSafe(s, events);
    forall p, kind
      ensures Spent(s.db, p) == 0 && Earned(s.db, p, kind) == 0
    {
    }
  }

  ghost predicate SamePayments(t: Tables, t': Tables, id: string)
  {
    forall k: RewardKey :: k.battleId == id ==>
      (k in t'.rewards <==> k in t.rewards) && (k in t.rewards ==> t'.rewards[k] == t.rewards[k])
  }

  lemma SettlementPaysItsBattleOnly(t: Tables, ctx: BattleContext, cfg: DungeonConfig, star: int, firstClear: bool,
                                    id: string)
    requires SettleWrites(t, ctx, cfg, star, firstClear).Written?
    requires id in t.battles && t.battles[id].settled
    ensures SamePayments(t, SettleWrites(t, ctx, cfg, star, firstClear).tables, id)
  {
  }

  lemma EnterPaysNothing(t: Tables, p: int, cfg: DungeonConfig, battleId: string, id: string)
    requires EnterWrites(t, p, cfg, battleId).Written?
    ensures SamePayments(t, EnterWrites(t, p, cfg, battleId).tables, id)
  {
  }

  lemma PaymentsStay(s: State, e: Event, id: string)
    requires id in s.db.battles && s.db.battles[id].settled
    ensures SamePayments(s.db, Step(s, e).db, id)
  {
    hide EnterWrites, SettleWrites, CommitEnter, CommitSettle;
    match e
    case EnterCommit(w, tx) =>
      var phase := s.Of(w).phase;
      if Step(s, e).db != s.db { EnterPaysNothing(s.db, phase.playerId, phase.cfg, phase.battleId, id); }
    case SettleCommit(w, tx) =>
      var phase := s.Of(w).phase;
      if Step(s, e).db != s.db {
        SettlementPaysItsBattleOnly(s.db, phase.ctx, phase.cfg, phase.star, phase.firstClear, id);
      }
    case _ =>
      hide Step;
      OtherStepsKeepTables(s, e);
  }

  /** Every event but a commit leaves the tables alone. */
  lemma OtherStepsKeepTables(s: State, e: Event)
    requires !e.EnterCommit? && !e.SettleCommit?
    ensures Step(s, e).db == s.db
  {
    hide Acquire, Load, CheckPending, SaveEntered, ReadContext, ReadBattle, ReadFirstClear, DropContext,
      DropSnapshot, Unlock, Restart;
  }

  lemma {:induction false} PaymentsStayOverRuns(s: State, events: seq<Event>, id: string)
    requires Safe(s) && id in s.db.battles && s.db.battles[id].settled
    ensures SamePayments(s.db, Run(s, events).db, id)
    decreases |events|
  {
    if events != [] {
      var before := events[..|events| - 1];
      PaymentsStayOverRuns(s, before, id);
      RunIsSafe(s, before);
      PaymentsStay(Run(s, before), events[|events| - 1], id);
    }
  }

  /** Once a battle is settled it stays settled, its gold row is the only gold row that will ever name
      it, and nothing that happens later pays it again. */
  lemma SettledIsFinal(s: State, events: seq<Event>, later: seq<Event>, id: string)
    requires Initial(s)
    requires id in Run(s, events).db.battles && Run(s, events).db.battles[id].settled
    ensures SamePayments(Run(s, events).db, Run(s, events + later).db, id)
    ensures id in Run(s, events + later).db.battles && Run(s, events + later).db.battles[id].settled
    ensures forall k :: k in Run(s, events + later).db.rewards && k.battleId == id && k.kind == Gold
                    <==> k == RewardKey(Run(s, events).db.battles[id].playerId, id, Gold)
  {
    InitialIsSafe(s);
    RunIsSafe(s, events);
    RunConcat(s, events, later);
    PaymentsStayOverRuns(Run(s, events), later, id);
    RunIsSafe(Run(s, events), later);
  }
}
