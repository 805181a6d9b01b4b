/**
 Whole requests running without interference, as functions of the database alone.  They show that the
 battle-context cache is transparent, and they build the runs in which a promise of the player lock
 breaks once the environment is not faithful.
 */
module DungeonRequests {
  import opened Common
  import opened Tables
  import opened DungeonProtocol
  import opened DungeonReplies
  import opened DungeonSafety
  import opened DungeonLocking
  import opened Decimal
  import opened Hashes
  import opened Records

  datatype Outcome = Outcome(reply: Reply, db: Tables)

  function EnterScript(w: int, p: int, cfg: DungeonConfig): seq<Event>
  {
    [EnterAcquire(w, p, cfg, Reached), EnterLoad(w, true), PendingRead(w, Seen), EnterCommit(w, Clean),
     SaveContext(w, CONTEXT_FIELDS), Invalidate(w, true), Release(w, true)]
  }

  /** `cacheAnswered`: Redis answers the context lookup; `progressAnswered`: MySQL answers the
      first-clear SELECT; `dropped`: Redis carries out the context DEL. */
  function SettleScript(w: int, p: int, id: string, cfg: DungeonConfig, star: int,
                        cacheAnswered: bool, progressAnswered: bool, dropped: bool): seq<Event>
  {
    [SettleAcquire(w, p, id, cfg, star, Reached), ContextRead(w, cacheAnswered), BattleRead(w, true),
     FirstClearRead(w, progressAnswered), SettleCommit(w, Clean), DeleteContext(w, dropped),
     Invalidate(w, true), Release(w, true)]
  }

  function EnterAlone(t: Tables, p: int, cfg: DungeonConfig, id: string): Outcome
  {
    if p !in t.players then Outcome(Refusal(PlayerNotFound, PlayerNotFoundText), t)
    else if t.players[p].level < cfg.requiredLevel then Outcome(Refusal(DungeonLocked, LevelNotEnough), t)
    else if StaminaOf(t, p) < cfg.costStamina then Outcome(Refusal(StaminaNotEnough, StaminaNotEnoughText), t)
    else if HasPending(t, p) then Outcome(EnterRefusal(UnfinishedBattle), t)
    else
      match EnterWrites(t, p, cfg, id)
      case Aborted(message) => Outcome(EnterRefusal(message), t)
      case Written(t') => Outcome(Entered(id, StaminaOf(t, p) - cfg.costStamina), t')
  }

  /** A settlement that looks the battle up in the database and never in the cache. */
  function SettleAlone(t: Tables, p: int, id: string, cfg: DungeonConfig, star: int, progressAnswered: bool): Outcome
  {
    var found := FindBattle(t, id);
    if found.None? then Outcome(Refusal(BattleNotFound, BattleNotFoundText), t)
    else
      var ctx := found.value;
      if ctx.playerId != p || ctx.dungeonId != cfg.dungeonId then Outcome(Refusal(BattleMismatch, ContextMismatch), t)
      else if ctx.settled then Outcome(Refusal(BattleAlreadySettled, AlreadySettled), t)
      else
        var firstClear := !(progressAnswered && (p, cfg.dungeonId) in t.progress);
        match SettleWrites(t, ctx, cfg, star, firstClear)
        case Aborted(message) => Outcome(SettleRefusal(message), t)
        case Written(t') => Outcome(SettledReply(firstClear, SettleRewards(cfg, firstClear)), t')
  }

  /** A request that ran to its end: the worker is idle, its reply and the tables are `outcome`'s, the
      lock is free again, and no other worker noticed. */
  ghost predicate Finished(s: State, s': State, w: int, outcome: Outcome)
  {
    && s'.Of(w).phase.Idle? && s'.Of(w).reply == outcome.reply && s'.db == outcome.db
    && s'.locks == s.locks
    && forall v :: v != w ==> s'.Of(v) == s.Of(v)
  }

  lemma RunSeven(s: State, e1: Event, e2: Event, e3: Event, e4: Event, e5: Event, e6: Event, e7: Event)
    ensures Run(s, [e1, e2, e3, e4, e5, e6, e7])
         == Step(Step(Step(Step(Step(Step(Step(s, e1), e2), e3), e4), e5), e6), e7)
  {
    hide Step;
    var s1 := Step(s, e1);
    var s2 := Step(s1, e2);
    var s3 := Step(s2, e3);
    var s4 := Step(s3, e4);
    var s5 := Step(s4, e5);
    var s6 := Step(s5, e6);
    RunCons(s, e1, [e2, e3, e4, e5, e6, e7]);
    assert [e1] + [e2, e3, e4, e5, e6, e7] == [e1, e2, e3, e4, e5, e6, e7];
    RunCons(s1, e2, [e3, e4, e5, e6, e7]);
    assert [e2] + [e3, e4, e5, e6, e7] == [e2, e3, e4, e5, e6, e7];
    RunCons(s2, e3, [e4, e5, e6, e7]);
    assert [e3] + [e4, e5, e6, e7] == [e3, e4, e5, e6, e7];
    RunCons(s3, e4, [e5, e6, e7]);
    assert [e4] + [e5, e6, e7] == [e4, e5, e6, e7];
    RunCons(s4, e5, [e6, e7]);
    assert [e5] + [e6, e7] == [e5, e6, e7];
    RunCons(s5, e6, [e7]);
    assert [e6] + [e7] == [e6, e7];
    RunCons(s6, e7, []);
    assert [e7] + [] == [e7];
  }

  /** What a request's last steps leave behind: `reply` given, `db` committed, p's lock held or freed. */
  ghost predicate Reached4(s: State, s': State, w: int, p: int, db: Tables)
  {
    && s'.db == db && s'.locks == s.locks[p := Held(w)]
    && forall v :: v != w ==> s'.Of(v) == s.Of(v)
  }

  function AfterLoad(t: Tables, p: int, cfg: DungeonConfig, id: string): Phase
  {
    if p !in t.players || t.players[p].level < cfg.requiredLevel || StaminaOf(t, p) < cfg.costStamina then
      Releasing(p, EnterAlone(t, p, cfg, id).reply)
    else
      EnterLoaded(p, cfg, StaminaOf(t, p), id)
  }

  function AfterCommit(p: int, cfg: DungeonConfig, id: string, reply: Reply): Phase
  {
    if reply.Entered? then EnterCommitted(p, EnteredContext(id, p, cfg), reply.remainStamina) else Releasing(p, reply)
  }

  lemma EnterReads(s: State, w: int, p: int, cfg: DungeonConfig)
    requires s.Of(w).phase.Idle? && p !in s.locks
    ensures var s' := Step(Step(s, EnterAcquire(w, p, cfg, Reached)), EnterLoad(w, true));
            && Reached4(s, s', w, p, s.db)
            && s'.Of(w).phase == AfterLoad(s.db, p, cfg, GenerateBattleId(p, cfg.dungeonId, s.Of(w).sequence))
  {
    hide EnterWrites, HasPending, StaminaOf, GenerateBattleId;
  }

  lemma EnterCommits(s: State, w: int, p: int, cfg: DungeonConfig, id: string)
    requires s.Of(w).phase == AfterLoad(s.db, p, cfg, id)
    ensures var s' := Step(Step(s, PendingRead(w, Seen)), EnterCommit(w, Clean));
            var outcome := EnterAlone(s.db, p, cfg, id);
            && s'.db == outcome.db && s'.locks == s.locks && (forall v :: v != w ==> s'.Of(v) == s.Of(v))
            && s'.Of(w).phase == AfterCommit(p, cfg, id, outcome.reply)
            && (outcome.reply.Entered? ==> outcome.reply.battleId == id)
  {
    hide EnterWrites, HasPending, StaminaOf;
  }

  lemma EnterEnds(s: State, w: int, p: int, reply: Reply)
    requires s.Of(w).phase == Releasing(p, reply)
          || (s.Of(w).phase.EnterCommitted? && s.Of(w).phase.playerId == p
              && reply == Entered(s.Of(w).phase.ctx.battleId, s.Of(w).phase.remain))
    ensures var s' := Step(Step(Step(s, SaveContext(w, CONTEXT_FIELDS)), Invalidate(w, true)), Release(w, true));
            && s'.db == s.db && s'.locks == s.locks - {p} && (forall v :: v != w ==> s'.Of(v) == s.Of(v))
            && s'.Of(w).phase.Idle? && s'.Of(w).reply == reply
  {
  }

  /** Entering alone: what the seven steps do together. */
  lemma EnterRunsAlone(s: State, w: int, p: int, cfg: DungeonConfig)
    requires s.Of(w).phase.Idle? && p !in s.locks
    ensures Finished(s, Run(s, EnterScript(w, p, cfg)), w,
                     EnterAlone(s.db, p, cfg, GenerateBattleId(p, cfg.dungeonId, s.Of(w).sequence)))
  {
    hide Step, Run, EnterAlone, AfterLoad, GenerateBattleId;
    var e1, e2, e3 := EnterAcquire(w, p, cfg, Reached), EnterLoad(w, true), PendingRead(w, Seen);
    var e4, e5, e6, e7 := EnterCommit(w, Clean), SaveContext(w, CONTEXT_FIELDS), Invalidate(w, true), Release(w, true);
    RunSeven(s, e1, e2, e3, e4, e5, e6, e7);
    var id := GenerateBattleId(p, cfg.dungeonId, s.Of(w).sequence);
    EnterReads(s, w, p, cfg);
    var s2 := Step(Step(s, e1), e2);
    EnterCommits(s2, w, p, cfg, id);
    var s4 := Step(Step(s2, e3), e4);
    EnterEnds(s4, w, p, EnterAlone(s.db, p, cfg, id).reply);
    assert s4.locks - {p} == s.locks;
  }

  lemma RunEight(s: State, e1: Event, e2: Event, e3: Event, e4: Event, e5: Event, e6: Event, e7: Event, e8: Event)
    ensures Run(s, [e1, e2, e3, e4, e5, e6, e7, e8])
         == Step(Step(Step(Step(Step(Step(Step(Step(s, e1), e2), e3), e4), e5), e6), e7), e8)
  {
    hide Step;
    RunCons(s, e1, [e2, e3, e4, e5, e6, e7, e8]);
    assert [e1] + [e2, e3, e4, e5, e6, e7, e8] == [e1, e2, e3, e4, e5, e6, e7, e8];
    RunSeven(Step(s, e1), e2, e3, e4, e5, e6, e7, e8);
  }

  /** The battle was found, in the cache or in the database, and the answer is still open. */
  ghost predicate Open(t: Tables, phase: Phase, p: int, id: string, cfg: DungeonConfig, star: int)
  {
    && phase.SettleFound? && phase == SettleFound(p, phase.ctx, cfg, star)
    && phase.ctx.battleId == id && phase.ctx.playerId == p && phase.ctx.dungeonId == cfg.dungeonId
    && ContextFits(t, phase.ctx)
  }

  /** The settlement is going to read a cached context that lacks a field. */
  predicate ReadsTorn(s: State, id: string, cacheAnswered: bool)
  {
    cacheAnswered && TornContextAt(s.contexts, id)
  }

  /** Where the lookups of a settlement may end: still open, or already answered as from the database. */
  ghost predicate LookedUp(t: Tables, phase: Phase, p: int, id: string, cfg: DungeonConfig, star: int,
                           progressAnswered: bool)
  {
    Open(t, phase, p, id, cfg, star) ||
    (&& phase == Releasing(p, SettleAlone(t, p, id, cfg, star, progressAnswered).reply)
     && SettleAlone(t, p, id, cfg, star, progressAnswered).db == t)
  }

  lemma ContextIsChecked(s: State, w: int, p: int, ctx: BattleContext, cfg: DungeonConfig, star: int,
                         progressAnswered: bool)
    requires ContextFits(s.db, ctx) || FindBattle(s.db, ctx.battleId) == Some(ctx)
    ensures LookedUp(s.db, CheckContext(s, w, p, ctx, cfg, star).Of(w).phase,
                     p, ctx.battleId, cfg, star, progressAnswered)
  {
    hide SettleWrites;
  }

  lemma CacheIsRead(s: State, w: int, p: int, id: string, cfg: DungeonConfig, star: int,
                    cacheAnswered: bool, progressAnswered: bool)
    requires ContextsFit(s.db, s.contexts) && s.Of(w).phase == SettleLocked(p, id, cfg, star)
    requires !ReadsTorn(s, id, cacheAnswered)
    ensures ReadContext(s, w, cacheAnswered).locks == s.locks
    ensures ReadContext(s, w, cacheAnswered).Of(w).phase == SettleMissed(p, id, cfg, star)
         || LookedUp(s.db, ReadContext(s, w, cacheAnswered).Of(w).phase, p, id, cfg, star, progressAnswered)
  {
    hide SettleAlone, CheckContext, LookedUp, HashFits, DecodeContext;
    if cacheAnswered && id in s.contexts {
      ReadFits(s.db, id, s.contexts[id]);
      ContextIsChecked(s, w, p, DecodeContext(id, s.contexts[id]).value, cfg, star, progressAnswered);
    }
  }

  lemma BattleIsRead(s: State, w: int, p: int, id: string, cfg: DungeonConfig, star: int, progressAnswered: bool)
    requires s.Of(w).phase == SettleMissed(p, id, cfg, star)
    ensures LookedUp(s.db, ReadBattle(s, w, true).Of(w).phase, p, id, cfg, star, progressAnswered)
  {
    if id in s.db.battles {
      hide SettleAlone, CheckContext, LookedUp;
      ContextIsChecked(s, w, p, FindBattle(s.db, id).value, cfg, star, progressAnswered);
    }
  }

  lemma SettleReads(s: State, w: int, p: int, id: string, cfg: DungeonConfig, star: int,
                    cacheAnswered: bool, progressAnswered: bool)
    requires Safe(s) && s.Of(w).phase.Idle? && p !in s.locks && 0 < star <= cfg.maxStar
    requires !ReadsTorn(s, id, cacheAnswered)
    ensures var s' :=
              ReadBattle(ReadContext(Acquire(s, w, p, SettleLocked(p, id, cfg, star), Reached),
                          w, cacheAnswered), w, true);
            Reached4(s, s', w, p, s.db) && LookedUp(s.db, s'.Of(w).phase, p, id, cfg, star, progressAnswered)
  {
    assert ContextsFit(s.db, s.contexts);
    hide Safe, ContextsFit, SettleAlone, ReadContext, SettleWrites, FindBattle, CheckContext, LookedUp, DecodeContext;
    var s1 := Acquire(s, w, p, SettleLocked(p, id, cfg, star), Reached);
    assert s1.Of(w).phase == SettleLocked(p, id, cfg, star) && s1.locks == s.locks[p := Held(w)];
    CacheIsRead(s1, w, p, id, cfg, star, cacheAnswered, progressAnswered);
    var s2 := ReadContext(s1, w, cacheAnswered);
    if s2.Of(w).phase == SettleMissed(p, id, cfg, star) {
      hide ReadBattle;
      BattleIsRead(s2, w, p, id, cfg, star, progressAnswered);
    } else {
      assert ReadBattle(s2, w, true) == s2;
    }
  }

  /** A settlement uses only the battle id and the player of the context it was given. */
  lemma SettleUsesIdAndPlayer(t: Tables, ctx: BattleContext, ctx': BattleContext, cfg: DungeonConfig, star: int,
                              firstClear: bool)
    requires ctx.battleId == ctx'.battleId && ctx.playerId == ctx'.playerId
    ensures SettleWrites(t, ctx, cfg, star, firstClear) == SettleWrites(t, ctx', cfg, star, firstClear)
  {
  }

  lemma SettledBattleAborts(t: Tables, ctx: BattleContext, cfg: DungeonConfig, star: int, firstClear: bool)
    requires ctx.battleId in t.battles && t.battles[ctx.battleId].settled
    ensures SettleWrites(t, ctx, cfg, star, firstClear) == Aborted(AlreadySettled)
  {
  }

  function AfterSettle(p: int, id: string, reply: Reply): Phase
  {
    if reply.SettledReply? then SettleCommitted(p, id, reply) else Releasing(p, reply)
  }

  lemma SettleCommits(s: State, w: int, p: int, id: string, cfg: DungeonConfig, star: int, progressAnswered: bool)
    requires LookedUp(s.db, s.Of(w).phase, p, id, cfg, star, progressAnswered)
    ensures var s' := CommitSettle(ReadFirstClear(s, w, progressAnswered), w, Clean);
            var outcome := SettleAlone(s.db, p, id, cfg, star, progressAnswered);
            && s'.db == outcome.db && s'.locks == s.locks && (forall v :: v != w ==> s'.Of(v) == s.Of(v))
            && s'.Of(w).phase == AfterSettle(p, id, outcome.reply)
  {
    if s.Of(w).phase.SettleFound? {
      var ctx := s.Of(w).phase.ctx;
      var firstClear := !(progressAnswered && (p, cfg.dungeonId) in s.db.progress);
      SettleUsesIdAndPlayer(s.db, ctx, FindBattle(s.db, id).value, cfg, star, firstClear);
      if s.db.battles[id].settled {
        SettledBattleAborts(s.db, ctx, cfg, star, firstClear);
      }
      hide SettleWrites, SettleRewards;
    } else {
      hide SettleWrites, SettleRewards;
    }
  }

  lemma SettleEnds(s: State, w: int, p: int, id: string, reply: Reply, dropped: bool)
    requires s.Of(w).phase == Releasing(p, reply) || s.Of(w).phase == SettleCommitted(p, id, reply)
    ensures var s' := Unlock(DropSnapshot(DropContext(s, w, dropped), w, true), w, true);
            && s'.db == s.db && s'.locks == s.locks - {p} && (forall v :: v != w ==> s'.Of(v) == s.Of(v))
            && s'.Of(w).phase.Idle? && s'.Of(w).reply == reply
  {
  }

  // The settle script, three actions at a time, as the functions behind the events.

  lemma ReadEvents(s: State, w: int, p: int, id: string, cfg: DungeonConfig, star: int, answered: bool)
    requires 0 < star <= cfg.maxStar
    ensures Step(Step(Step(s, SettleAcquire(w, p, id, cfg, star, Reached)), ContextRead(w, answered)),
                 BattleRead(w, true))
         == ReadBattle(ReadContext(Acquire(s, w, p, SettleLocked(p, id, cfg, star), Reached), w, answered), w, true)
  {
    hide Acquire, ReadContext, ReadBattle;
  }

  lemma CommitEvents(s: State, w: int, answered: bool)
    ensures Step(Step(s, FirstClearRead(w, answered)), SettleCommit(w, Clean))
         == CommitSettle(ReadFirstClear(s, w, answered), w, Clean)
  {
    hide ReadFirstClear, CommitSettle;
  }

  lemma EndEvents(s: State, w: int, dropped: bool)
    ensures Step(Step(Step(s, DeleteContext(w, dropped)), Invalidate(w, true)), Release(w, true))
         == Unlock(DropSnapshot(DropContext(s, w, dropped), w, true), w, true)
  {
    hide DropContext, DropSnapshot, Unlock;
  }

  lemma SettleFinishes(s: State, w: int, p: int, id: string, cfg: DungeonConfig, star: int,
                       cacheAnswered: bool, progressAnswered: bool, dropped: bool)
    requires Safe(s) && s.Of(w).phase.Idle? && p !in s.locks && 0 < star <= cfg.maxStar
    requires !ReadsTorn(s, id, cacheAnswered)
    ensures Finished(s, Run(s, SettleScript(w, p, id, cfg, star, cacheAnswered, progressAnswered, dropped)), w,
                     SettleAlone(s.db, p, id, cfg, star, progressAnswered))
  {
    hide Safe, Step, Run, SettleAlone, LookedUp, Acquire, ReadContext, ReadBattle, ReadFirstClear, CommitSettle,
      DropContext, DropSnapshot, Unlock;
    var e1, e2, e3 := SettleAcquire(w, p, id, cfg, star, Reached), ContextRead(w, cacheAnswered), BattleRead(w, true);
    var e4, e5 := FirstClearRead(w, progressAnswered), SettleCommit(w, Clean);
    var e6, e7, e8 := DeleteContext(w, dropped), Invalidate(w, true), Release(w, true);
    RunEight(s, e1, e2, e3, e4, e5, e6, e7, e8);
    SettleReads(s, w, p, id, cfg, star, cacheAnswered, progressAnswered);
    var s3 := Step(Step(Step(s, e1), e2), e3);
    var s5 := Step(Step(s3, e4), e5);
    ReadEvents(s, w, p, id, cfg, star, cacheAnswered);
    CommitEvents(s3, w, progressAnswered);
    EndEvents(s5, w, dropped);
    SettleCommits(s3, w, p, id, cfg, star, progressAnswered);
    SettleEnds(s5, w, p, id, SettleAlone(s.db, p, id, cfg, star, progressAnswered).reply, dropped);
    assert s5.locks - {p} == s.locks;
  }

  /** An idle worker takes no part in the rest of the script. */
  lemma IdleSkips(s: State, w: int)
    requires s.Of(w).phase.Idle?
    ensures ReadBattle(s, w, true) == s && DropContext(s, w, true) == DropContext(s, w, false) == s
    ensures forall answered :: ReadFirstClear(s, w, answered) == s
    ensures CommitSettle(s, w, Clean) == s && DropSnapshot(s, w, true) == s && Unlock(s, w, true) == s
  {
    hide SettleWrites, FindBattle, CheckContext;
  }

  lemma TornReadRestarts(s: State, w: int, p: int, id: string, cfg: DungeonConfig, star: int)
    requires s.Of(w).phase.Idle? && p !in s.locks && TornContextAt(s.contexts, id)
    ensures var s' := ReadContext(Acquire(s, w, p, SettleLocked(p, id, cfg, star), Reached), w, true);
            && s'.db == s.db && s'.contexts == s.contexts && s'.locks.Keys == s.locks.Keys + {p}
            && s'.Of(w) == Worker(1, Idle, NoReply) && forall v :: v != w ==> s'.Of(v) == s.Of(v)
  {
    hide DecodeContext;
  }

  /** Saving a new battle's context leaves a torn one exactly if some of its fields were written but not all. */
  lemma SaveTearsExactly(contexts: map<string, Hash>, ctx: BattleContext, names: set<string>)
    requires ctx.battleId !in contexts && ContextRepresentable(ctx)
    ensures TornContextAt(SavedContexts(contexts, ctx, names), ctx.battleId)
       <==> !(names !! CONTEXT_FIELDS) && !(CONTEXT_FIELDS <= names)
  {
    hide DecodeContext, EncodeContext, ContextRepresentable, Stored;
    TornContext(ctx, names);
  }

  /** A settlement that reads a torn context dies without an answer: tables and cache are as before, so
      the next attempt will die too, and the player's lock stays behind. */
  lemma TornContextKills(s: State, w: int, p: int, id: string, cfg: DungeonConfig, star: int,
                         progressAnswered: bool, dropped: bool)
    requires s.Of(w).phase.Idle? && p !in s.locks && 0 < star <= cfg.maxStar && TornContextAt(s.contexts, id)
    ensures var s' := Run(s, SettleScript(w, p, id, cfg, star, true, progressAnswered, dropped));
            && s'.db == s.db && s'.contexts == s.contexts && s'.locks.Keys == s.locks.Keys + {p}
            && s'.Of(w) == Worker(1, Idle, NoReply) && forall v :: v != w ==> s'.Of(v) == s.Of(v)
  {
    hide Step, Run, Acquire, ReadContext, ReadBattle, ReadFirstClear, CommitSettle, DropContext, DropSnapshot, Unlock,
      TornContextAt;
    var e1, e2, e3 := SettleAcquire(w, p, id, cfg, star, Reached), ContextRead(w, true), BattleRead(w, true);
    var e4, e5 := FirstClearRead(w, progressAnswered), SettleCommit(w, Clean);
    var e6, e7, e8 := DeleteContext(w, dropped), Invalidate(w, true), Release(w, true);
    RunEight(s, e1, e2, e3, e4, e5, e6, e7, e8);
    var s2 := ReadContext(Acquire(s, w, p, SettleLocked(p, id, cfg, star), Reached), w, true);
    TornReadRestarts(s, w, p, id, cfg, star);
    IdleSkips(s2, w);
    ReadEvents(s, w, p, id, cfg, star, true);
    CommitEvents(s2, w, progressAnswered);
    EndEvents(s2, w, dropped);
  }

  /** Settling alone, in any reachable state: whether the battle context was cached, absent, expired or left
      behind by a failed delete, the reply and the tables are those of a settlement that never looks at the
      cache, and the lock is given back - exactly unless it reads a torn context. */
  lemma SettleRunsAlone(s: State, w: int, p: int, id: string, cfg: DungeonConfig, star: int,
                        cacheAnswered: bool, progressAnswered: bool, dropped: bool)
    requires Safe(s) && s.Of(w).phase.Idle? && p !in s.locks && 0 < star <= cfg.maxStar
    ensures Finished(s, Run(s, SettleScript(w, p, id, cfg, star, cacheAnswered, progressAnswered, dropped)), w,
                     SettleAlone(s.db, p, id, cfg, star, progressAnswered))
       <==> !ReadsTorn(s, id, cacheAnswered)
  {
    hide Safe, Run, SettleAlone, TornContextAt;
    if ReadsTorn(s, id, cacheAnswered) {
      TornContextKills(s, w, p, id, cfg, star, progressAnswered, dropped);
      assert p in s.locks.Keys + {p};
    } else {
      SettleFinishes(s, w, p, id, cfg, star, cacheAnswered, progressAnswered, dropped);
    }
  }

  // ---- what a request leaves in Redis ----

  lemma EnterReadsNoCache(s: State, w: int, p: int, cfg: DungeonConfig)
    ensures var s' := Step(Step(Step(Step(s, EnterAcquire(w, p, cfg, Reached)), EnterLoad(w, true)),
                                PendingRead(w, Seen)), EnterCommit(w, Clean));
            s'.contexts == s.contexts && s'.snapshots == s.snapshots
  {
    hide Acquire, Load, CheckPending, CommitEnter;
  }

  lemma EnterEndsCaching(s: State, w: int, p: int, cfg: DungeonConfig, id: string, reply: Reply)
    requires s.Of(w).phase == AfterCommit(p, cfg, id, reply) && (reply.Entered? ==> reply.battleId == id)
    ensures var s' := Step(Step(Step(s, SaveContext(w, CONTEXT_FIELDS)), Invalidate(w, true)), Release(w, true));
            && s'.Of(w).reply == reply
            && (!reply.Entered? ==> s'.contexts == s.contexts && s'.snapshots == s.snapshots)
            && (reply.Entered? ==>
                  && s'.snapshots == s.snapshots - {p}
                  && s'.contexts == SavedContexts(s.contexts, EnteredContext(id, p, cfg), CONTEXT_FIELDS))
  {
    hide SavedContexts;
  }

  lemma WholeContextReads(contexts: map<string, Hash>, ctx: BattleContext)
    requires ContextRepresentable(ctx)
    ensures var after := SavedContexts(contexts, ctx, CONTEXT_FIELDS);
            && ctx.battleId in after && DecodeContext(ctx.battleId, after[ctx.battleId]) == Some(ctx)
            && after == contexts[ctx.battleId := after[ctx.battleId]]
  {
    hide DecodeContext, EncodeContext, ContextRepresentable;
    var before := if ctx.battleId in contexts then contexts[ctx.battleId] else map[];
    ContextKeys(ctx);
    StoredAll(before, EncodeContext(ctx), CONTEXT_FIELDS);
    ContextRoundTrip(before, ctx);
  }

  /** After an undisturbed enter that succeeds the cache holds the new battle, column by column and ready to
      be settled, and no snapshot of the player; after a refusal the caches are as before. */
  lemma EnterLeaves(s: State, w: int, p: int, cfg: DungeonConfig)
    requires s.Of(w).phase.Idle? && p !in s.locks
    ensures var s' := Run(s, EnterScript(w, p, cfg));
            var reply := s'.Of(w).reply;
            if reply.Entered? then
              var id := reply.battleId;
              var ctx := BattleContext(id, p, cfg.dungeonId, cfg.costStamina, cfg.maxStar, false);
              && s'.snapshots == s.snapshots - {p}
              && (ContextRepresentable(ctx) ==>
                    && id in s'.contexts && DecodeContext(id, s'.contexts[id]) == Some(ctx)
                    && s'.contexts == s.contexts[id := s'.contexts[id]])
            else s'.snapshots == s.snapshots && s'.contexts == s.contexts
  {
    var e1, e2, e3 := EnterAcquire(w, p, cfg, Reached), EnterLoad(w, true), PendingRead(w, Seen);
    var e4, e5, e6, e7 := EnterCommit(w, Clean), SaveContext(w, CONTEXT_FIELDS), Invalidate(w, true), Release(w, true);
    RunSeven(s, e1, e2, e3, e4, e5, e6, e7);
    var id := GenerateBattleId(p, cfg.dungeonId, s.Of(w).sequence);
    EnterReads(s, w, p, cfg);
    hide Step, Run, EnterAlone, AfterLoad, AfterCommit, GenerateBattleId, SavedContexts, DecodeContext,
      ContextRepresentable;
    var s2 := Step(Step(s, e1), e2);
    EnterCommits(s2, w, p, cfg, id);
    EnterReadsNoCache(s, w, p, cfg);
    var reply := EnterAlone(s.db, p, cfg, id).reply;
    EnterEndsCaching(Step(Step(s2, e3), e4), w, p, cfg, id, reply);
    if reply.Entered? && ContextRepresentable(EnteredContext(id, p, cfg)) {
      WholeContextReads(s.contexts, EnteredContext(id, p, cfg));
    }
  }

  lemma SettleReadsNoCache(s: State, w: int, p: int, id: string, cfg: DungeonConfig, star: int, cacheAnswered: bool,
                           progressAnswered: bool)
    ensures var s' := CommitSettle(ReadFirstClear(ReadBattle(ReadContext(
                Acquire(s, w, p, SettleLocked(p, id, cfg, star), Reached), w, cacheAnswered), w, true),
                w, progressAnswered), w, Clean);
            s'.contexts == s.contexts && s'.snapshots == s.snapshots
  {
    hide Acquire, ReadContext, ReadBattle, ReadFirstClear, CommitSettle;
  }

  lemma SettleEndsDropping(s: State, w: int, p: int, id: string, reply: Reply, dropped: bool)
    requires s.Of(w).phase == AfterSettle(p, id, reply)
    ensures var s' := Unlock(DropSnapshot(DropContext(s, w, dropped), w, true), w, true);
            && s'.Of(w).reply == reply
            && s'.snapshots == (if reply.SettledReply? then s.snapshots - {p} else s.snapshots)
            && s'.contexts == (if reply.SettledReply? && dropped then s.contexts - {id} else s.contexts)
  {
  }

  /** After an undisturbed settlement that succeeds neither the battle's context nor a snapshot of the player is
      left, unless deleting the context failed; after a refusal the caches are as before. */
  lemma SettleLeaves(s: State, w: int, p: int, id: string, cfg: DungeonConfig, star: int,
                     cacheAnswered: bool, progressAnswered: bool, dropped: bool)
    requires Safe(s) && s.Of(w).phase.Idle? && p !in s.locks && 0 < star <= cfg.maxStar
    requires !ReadsTorn(s, id, cacheAnswered)
    ensures var s' := Run(s, SettleScript(w, p, id, cfg, star, cacheAnswered, progressAnswered, dropped));
            var settled := s'.Of(w).reply.SettledReply?;
            && s'.snapshots == (if settled then s.snapshots - {p} else s.snapshots)
            && s'.contexts == (if settled && dropped then s.contexts - {id} else s.contexts)
  {
    hide Safe, Step, Run, SettleAlone, LookedUp, AfterSettle, Acquire, ReadContext, ReadBattle, ReadFirstClear,
      CommitSettle, DropContext, DropSnapshot, Unlock;
    var e1, e2, e3 := SettleAcquire(w, p, id, cfg, star, Reached), ContextRead(w, cacheAnswered), BattleRead(w, true);
    var e4, e5 := FirstClearRead(w, progressAnswered), SettleCommit(w, Clean);
    var e6, e7, e8 := DeleteContext(w, dropped), Invalidate(w, true), Release(w, true);
    RunEight(s, e1, e2, e3, e4, e5, e6, e7, e8);
    SettleReads(s, w, p, id, cfg, star, cacheAnswered, progressAnswered);
    var s3 := Step(Step(Step(s, e1), e2), e3);
    var s5 := Step(Step(s3, e4), e5);
    ReadEvents(s, w, p, id, cfg, star, cacheAnswered);
    CommitEvents(s3, w, progressAnswered);
    EndEvents(s5, w, dropped);
    SettleReadsNoCache(s, w, p, id, cfg, star, cacheAnswered, progressAnswered);
    SettleCommits(s3, w, p, id, cfg, star, progressAnswered);
    SettleEndsDropping(s5, w, p, id, SettleAlone(s.db, p, id, cfg, star, progressAnswered).reply, dropped);
  }

  lemma OtherCacheIsSafe(s: State, cache: map<string, Hash>)
    requires Safe(s) && ContextsFit(s.db, cache)
    ensures Safe(s.(contexts := cache))
    ensures forall v :: s.(contexts := cache).Of(v) == s.Of(v)
  {
    assert forall v :: s.(contexts := cache).Of(v) == s.Of(v);
  }

  /** Same answer, same tables, same locks left. */
  predicate SameOutcome(s: State, s': State, w: int)
  {
    s.Of(w).reply == s'.Of(w).reply && s.db == s'.db && s.locks.Keys == s'.locks.Keys
  }

  lemma SettleAnswers(t: Tables, p: int, id: string, cfg: DungeonConfig, star: int, progressAnswered: bool)
    ensures SettleAlone(t, p, id, cfg, star, progressAnswered).reply != NoReply
  {
    hide SettleWrites;
  }

  /** In every reachable state, exchanging the context cache for any other cache of genuine fields - an empty
      one, say - changes neither the reply nor the tables nor the locks of a settlement, exactly if both or
      neither make it read a torn context.  So the cache is transparent exactly if the entry it holds for
      this battle is absent, not read, or whole. */
  lemma CacheIsTransparent(s0: State, events: seq<Event>, cache: map<string, Hash>, w: int, p: int, id: string,
                           cfg: DungeonConfig, star: int, cacheAnswered: bool, cacheAnswered': bool, dropped: bool)
    requires Initial(s0)
    requires Run(s0, events).Of(w).phase.Idle? && p !in Run(s0, events).locks && 0 < star <= cfg.maxStar
    requires ContextsFit(Run(s0, events).db, cache)
    ensures var s, other := Run(s0, events), Run(s0, events).(contexts := cache);
            var done := Run(s, SettleScript(w, p, id, cfg, star, cacheAnswered, true, dropped));
            var done' := Run(other, SettleScript(w, p, id, cfg, star, cacheAnswered', true, true));
            SameOutcome(done, done', w) <==> (ReadsTorn(s, id, cacheAnswered) <==> ReadsTorn(other, id, cacheAnswered'))
  {
    hide Initial, Safe, ContextsFit, Step, Run, SettleAlone, Balanced, Grows, TornContextAt;
    InitialIsSafe(s0);
    RunIsSafe(s0, events);
    var s := Run(s0, events);
    var other := s.(contexts := cache);
    OtherCacheIsSafe(s, cache);
    SettleAnswers(s.db, p, id, cfg, star, true);
    if ReadsTorn(s, id, cacheAnswered) {
      TornContextKills(s, w, p, id, cfg, star, true, dropped);
    } else {
      SettleFinishes(s, w, p, id, cfg, star, cacheAnswered, true, dropped);
    }
    if ReadsTorn(other, id, cacheAnswered') {
      TornContextKills(other, w, p, id, cfg, star, true, true);
    } else {
      SettleFinishes(other, w, p, id, cfg, star, cacheAnswered', true, true);
    }
  }

  /** An enter request succeeds exactly under these conditions, and then reports the stamina it left. */
  lemma EnterSucceedsExactly(t: Tables, p: int, cfg: DungeonConfig, id: string)
    ensures EnterAlone(t, p, cfg, id).reply.Entered? <==>
              && p in t.players && t.players[p].level >= cfg.requiredLevel
              && p in t.assets && t.assets[p].stamina >= cfg.costStamina && cfg.costStamina != 0
              && !HasPending(t, p) && id !in t.battles
    ensures var done := EnterAlone(t, p, cfg, id);
            if done.reply.Entered? then
              && done.reply == Entered(id, StaminaOf(done.db, p))
              && done.db.battles == t.battles[id := BattleRow(p, cfg.dungeonId, false, cfg.costStamina)]
              && done.db.progress == t.progress && done.db.rewards == t.rewards && done.db.players == t.players
            else done.db == t
  {
    hide HasPending;
  }

  /** Every answer to an enter request, the refusals with their codes included, exactly. */
  lemma EnterAnswersExactly(t: Tables, p: int, cfg: DungeonConfig, id: string)
    ensures EnterAnswer(t, p, cfg, id, EnterAlone(t, p, cfg, id).reply)
  {
    hide HasPending;
  }

  /** Every answer to a settle request on consistent tables, exactly; a success reports what it paid. */
  lemma SettleAnswersExactly(t: Tables, stars: map<string, int>, p: int, id: string, cfg: DungeonConfig, star: int)
    requires Consistent(t, stars)
    ensures var done := SettleAlone(t, p, id, cfg, star, true);
            && SettleAnswer(t, p, id, cfg, done.reply)
            && (done.reply.SettledReply? ==> TellsPayment(done.reply.rewards, t, done.db, p, id))
  {
    hide TellsPayment;
    if id in t.battles && t.battles[id].playerId == p && t.battles[id].dungeonId == cfg.dungeonId {
      var ctx := FindBattle(t, id).value;
      var firstClear := (p, cfg.dungeonId) !in t.progress;
      SettleCommitsExactly(t, stars, ctx, cfg, star, firstClear);
      if !t.battles[id].settled { PaymentIsTold(t, ctx, cfg, star, firstClear); }
      hide SettleWrites, SettleRewards;
    }
  }

  /** On consistent tables a settlement succeeds exactly for a pending battle of this player and dungeon;
      it reports a first clear exactly when no progress row existed. */
  lemma SettleSucceedsExactly(t: Tables, stars: map<string, int>, p: int, id: string, cfg: DungeonConfig, star: int)
    requires Consistent(t, stars)
    ensures var done := SettleAlone(t, p, id, cfg, star, true);
            && (done.reply.SettledReply? <==> Pending(t, id, p) && t.battles[id].dungeonId == cfg.dungeonId)
            && (done.reply.SettledReply? ==>
                  && done.reply.firstClear == ((p, cfg.dungeonId) !in t.progress)
                  && SettledIn(done.db, id, p, cfg.dungeonId))
            && (!done.reply.SettledReply? ==> done.db == t && done.reply.Refusal?)
  {
    if id in t.battles && t.battles[id].playerId == p && t.battles[id].dungeonId == cfg.dungeonId {
      var ctx := FindBattle(t, id).value;
      var firstClear := (p, cfg.dungeonId) !in t.progress;
      SettleCommitsExactly(t, stars, ctx, cfg, star, firstClear);
      if !t.battles[id].settled {
        SettleEffect(t, ctx, cfg, star, firstClear);
      }
      hide SettleWrites;
    }
  }

  // ---- where the promises break ----

  /** Entering adds one unfinished battle, of this player and under this id. */
  lemma EnterAddsPending(t: Tables, p: int, cfg: DungeonConfig, id: string)
    requires EnterWrites(t, p, cfg, id).Written?
    ensures !Pending(t, id, p)
    ensures forall x, q :: Pending(EnterWrites(t, p, cfg, id).tables, x, q) <==> Pending(t, x, q) || (x == id && q == p)
  {
  }

  /** A second unfinished battle of the player appears exactly when one existed at commit time: the pending
      check was stale or its SELECT failed unseen.  Nothing changes for the other players. */
  lemma SecondPendingExactly(t: Tables, p: int, cfg: DungeonConfig, id: string)
    requires EnterWrites(t, p, cfg, id).Written?
    ensures var t' := EnterWrites(t, p, cfg, id).tables;
            && (OnePendingOf(t', p) <==> !HasPending(t, p))
            && (forall q :: q != p ==> (OnePendingOf(t', q) <==> OnePendingOf(t, q)))
            && (OnePending(t') <==> OnePending(t) && !HasPending(t, p))
  {
    var t' := EnterWrites(t, p, cfg, id).tables;
    EnterAddsPending(t, p, cfg, id);
    hide EnterWrites;
    if HasPending(t, p) {
      var other :| other in t.battles && Pending(t, other, p);
      assert Pending(t', other, p) && Pending(t', id, p);
    }
    hide Pending;
    if OnePending(t') {
      assert forall x, y, q :: Pending(t, x, q) && Pending(t, y, q) ==> Pending(t', x, q) && Pending(t', y, q);
    }
  }

  /** A settlement earns the bonus of its player and dungeon exactly if it believes in a first clear. */
  lemma SettleAddsBonus(t: Tables, stars: map<string, int>, ctx: BattleContext, cfg: DungeonConfig, star: int,
                        firstClear: bool)
    requires Consistent(t, stars) && Settleable(t, ctx, cfg, firstClear)
    requires SettleWrites(t, ctx, cfg, star, firstClear).Written?
    ensures !Bonus(t, ctx.battleId, ctx.playerId, cfg.dungeonId)
    ensures forall x, q, e :: Bonus(SettleWrites(t, ctx, cfg, star, firstClear).tables, x, q, e) <==>
              Bonus(t, x, q, e) || (firstClear && x == ctx.battleId && q == ctx.playerId && e == cfg.dungeonId)
  {
    SettleEffect(t, ctx, cfg, star, firstClear);
    hide SettleWrites;
  }

  /** A bonus was earned exactly where there is a progress row. */
  lemma EarnedWhereCleared(t: Tables, stars: map<string, int>, p: int, d: int)
    requires Consistent(t, stars)
    ensures (exists id :: Bonus(t, id, p, d)) <==> (p, d) in t.progress
  {
    if (p, d) in t.progress {
      assert BonusPaid(t, p, d);
      var id :| SettledIn(t, id, p, d) && RewardKey(p, id, Diamond) in t.rewards;
      assert Bonus(t, id, p, d);
    }
  }

  /** A second first-clear bonus is paid exactly when the settlement believes in a first clear although
      a progress row exists at commit time: its read was stale or unanswered.  Nothing changes for other
      players and dungeons. */
  lemma SecondBonusExactly(t: Tables, stars: map<string, int>, ctx: BattleContext, cfg: DungeonConfig, star: int,
                           firstClear: bool)
    requires Consistent(t, stars) && Settleable(t, ctx, cfg, firstClear)
    requires SettleWrites(t, ctx, cfg, star, firstClear).Written?
    ensures var t', p, d := SettleWrites(t, ctx, cfg, star, firstClear).tables, ctx.playerId, cfg.dungeonId;
            && (OneBonusOf(t', p, d) <==> OneBonusOf(t, p, d) && (firstClear ==> (p, d) !in t.progress))
            && (forall q, e :: (q, e) != (p, d) ==> (OneBonusOf(t', q, e) <==> OneBonusOf(t, q, e)))
            && (OneBonus(t') <==> OneBonus(t) && (firstClear ==> (p, d) !in t.progress))
  {
    var t', p, d := SettleWrites(t, ctx, cfg, star, firstClear).tables, ctx.playerId, cfg.dungeonId;
    SettleAddsBonus(t, stars, ctx, cfg, star, firstClear);
    EarnedWhereCleared(t, stars, p, d);
    hide SettleWrites, Bonus, Consistent, Settleable;
    if firstClear && (p, d) in t.progress {
      var id :| Bonus(t, id, p, d);
      assert Bonus(t', id, p, d) && Bonus(t', ctx.battleId, p, d);
    }
    if OneBonus(t') {
      assert forall x, y, q, e ::
        Bonus(t, x, q, e) && Bonus(t, y, q, e) ==> Bonus(t', x, q, e) && Bonus(t', y, q, e);
    }
  }

  /** A first-clear SELECT that fails is taken for "no row": settling a cleared dungeon then pays the
      first-clear bonus a second time, with nobody interfering. */
  lemma UnansweredReadPaysAgain(s: State, w: int, p: int, id: string, cfg: DungeonConfig, star: int)
    requires Safe(s) && s.Of(w).phase.Idle? && p !in s.locks && 0 < star <= cfg.maxStar
    requires Pending(s.db, id, p) && s.db.battles[id].dungeonId == cfg.dungeonId && (p, cfg.dungeonId) in s.db.progress
    requires !TornContextAt(s.contexts, id)
    ensures !OneBonusOf(Run(s, SettleScript(w, p, id, cfg, star, true, false, true)).db, p, cfg.dungeonId)
    ensures !OneBonus(Run(s, SettleScript(w, p, id, cfg, star, true, false, true)).db)
  {
    assert Consistent(s.db, s.stars);
    hide Safe, OneBonus, OneBonusOf, OnePending, Run, SettleWrites;
    SettleFinishes(s, w, p, id, cfg, star, true, false, true);
    var ctx := FindBattle(s.db, id).value;
    SettleCommitsExactly(s.db, s.stars, ctx, cfg, star, true);
    SecondBonusExactly(s.db, s.stars, ctx, cfg, star, true);
  }

  /** Worker a's lock expires between its pending check and its commit; worker b runs in between. */
  function ExpiryRun(a: int, b: int, p: int, cfg: DungeonConfig): seq<Event>
  {
    [EnterAcquire(a, p, cfg, Reached), EnterLoad(a, true), PendingRead(a, Seen), ExpireLock(p),
     EnterAcquire(b, p, cfg, Reached), EnterLoad(b, true), PendingRead(b, Seen),
     EnterCommit(a, Clean), EnterCommit(b, Clean)]
  }

  lemma RunNine(s: State, e: seq<Event>)
    requires |e| == 9
    ensures Run(s, e)
         == Step(Step(Step(Step(Step(Step(Step(Step(Step(s, e[0]), e[1]), e[2]), e[3]), e[4]), e[5]), e[6]),
                 e[7]), e[8])
  {
    hide Step;
    RunEight(Step(s, e[0]), e[1], e[2], e[3], e[4], e[5], e[6], e[7], e[8]);
    RunCons(s, e[0], [e[1], e[2], e[3], e[4], e[5], e[6], e[7], e[8]]);
    assert e == [e[0]] + [e[1], e[2], e[3], e[4], e[5], e[6], e[7], e[8]];
  }

  /** The player may enter: level, stamina for two battles, nothing unfinished, a real cost. */
  predicate MayEnterTwice(t: Tables, p: int, cfg: DungeonConfig)
  {
    && p in t.players && t.players[p].level >= cfg.requiredLevel
    && p in t.assets && t.assets[p].stamina >= 2 * cfg.costStamina && cfg.costStamina > 0
    && !HasPending(t, p)
  }

  lemma EnterChecks(s: State, w: int, p: int, cfg: DungeonConfig)
    requires s.Of(w).phase.Idle? && p !in s.locks && MayEnterTwice(s.db, p, cfg)
    ensures var s' := Step(Step(Step(s, EnterAcquire(w, p, cfg, Reached)), EnterLoad(w, true)), PendingRead(w, Seen));
            var id := GenerateBattleId(p, cfg.dungeonId, s.Of(w).sequence);
            && Reached4(s, s', w, p, s.db)
            && s'.Of(w).phase == EnterChecked(p, cfg, StaminaOf(s.db, p), id)
  {
    EnterReads(s, w, p, cfg);
    hide GenerateBattleId, HasPending, EnterAlone, Acquire, Load;
  }

  lemma CommitsOneBattle(s: State, w: int, p: int, cfg: DungeonConfig, stamina: int, id: string)
    requires s.Of(w).phase == EnterChecked(p, cfg, stamina, id) && id !in s.db.battles
    requires p in s.db.assets && s.db.assets[p].stamina >= cfg.costStamina > 0
    ensures var s' := Step(s, EnterCommit(w, Clean));
            && s'.db.battles == s.db.battles[id := BattleRow(p, cfg.dungeonId, false, cfg.costStamina)]
            && p in s'.db.assets && s'.db.assets[p].stamina == s.db.assets[p].stamina - cfg.costStamina
            && forall v :: v != w ==> s'.Of(v) == s.Of(v)
  {
  }

  lemma CommitsBothBattles(s: State, a: int, b: int, p: int, cfg: DungeonConfig, first: string, second: string)
    requires MayEnterTwice(s.db, p, cfg) && a != b && first != second
    requires s.Of(a).phase == EnterChecked(p, cfg, StaminaOf(s.db, p), first) && first !in s.db.battles
    requires s.Of(b).phase == EnterChecked(p, cfg, StaminaOf(s.db, p), second) && second !in s.db.battles
    ensures !OnePending(Step(Step(s, EnterCommit(a, Clean)), EnterCommit(b, Clean)).db)
  {
    hide HasPending, Step;
    CommitsOneBattle(s, a, p, cfg, StaminaOf(s.db, p), first);
    var s1 := Step(s, EnterCommit(a, Clean));
    CommitsOneBattle(s1, b, p, cfg, StaminaOf(s.db, p), second);
    var s2 := Step(s1, EnterCommit(b, Clean));
    assert Pending(s2.db, first, p) && Pending(s2.db, second, p);
  }

  /** A lock that expires under its holder lets two workers through the pending check: from every state
      in which a player may enter twice, this run leaves two unfinished battles. */
  lemma ExpiryBreaksOnePending(s: State, a: int, b: int, p: int, cfg: DungeonConfig)
    requires s.Of(a).phase.Idle? && s.Of(b).phase.Idle? && s.Of(a).sequence != s.Of(b).sequence
    requires p !in s.locks && MayEnterTwice(s.db, p, cfg)
    requires GenerateBattleId(p, cfg.dungeonId, s.Of(a).sequence) !in s.db.battles
    requires GenerateBattleId(p, cfg.dungeonId, s.Of(b).sequence) !in s.db.battles
    ensures !OnePending(Run(s, ExpiryRun(a, b, p, cfg)).db)
  {
    hide Step, OnePending, MayEnterTwice, HasPending;
    var e := ExpiryRun(a, b, p, cfg);
    var first := GenerateBattleId(p, cfg.dungeonId, s.Of(a).sequence);
    var second := GenerateBattleId(p, cfg.dungeonId, s.Of(b).sequence);
    assert first != second by {
      if first == second {
        TaggedIdInjective("battle-", p, cfg.dungeonId, s.Of(a).sequence, p, cfg.dungeonId, s.Of(b).sequence);
      }
    }
    RunNine(s, e);
    hide Run, GenerateBattleId;
    EnterChecks(s, a, p, cfg);
    var s3 := Step(Step(Step(s, e[0]), e[1]), e[2]);
    ExpiryStep(s3, p);
    var s4 := Step(s3, e[3]);
    EnterChecks(s4, b, p, cfg);
    CommitsBothBattles(Step(Step(Step(s4, e[4]), e[5]), e[6]), a, b, p, cfg, first, second);
  }

  lemma ExpiryStep(s: State, p: int)
    ensures Step(s, ExpireLock(p)) == s.(locks := s.locks - {p})
    ensures forall v :: Step(s, ExpireLock(p)).Of(v) == s.Of(v)
  {
  }
}
