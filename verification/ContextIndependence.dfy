/**
 Runs that never read a cached battle context.  Every run is compared with the run in which each cache hit
 is answered by the battle row instead, whatever the interleaving and whatever fails.
 */
module ContextIndependence {
  import opened Common
  import opened Tables
  import opened Records
  import opened DungeonProtocol
  import opened DungeonCluster
  import opened DungeonSafety
  import opened DungeonRequests
  import opened DungeonTrails
  import opened Runs

  /** The worker is about to read a cached context. */
  predicate Hits(s: State, e: Event)
  {
    e.ContextRead? && e.answered && s.Of(e.w).phase.SettleLocked? && s.Of(e.w).phase.battleId in s.contexts
  }

  /** What takes the place of an event: the cache stays silent and the battle row is read at once. */
  function Bypassed(s: State, e: Event): seq<Event>
  {
    if Hits(s, e) then [ContextRead(e.w, false), BattleRead(e.w, true)] else [e]
  }

  function Bypassing(s: State, events: seq<Event>): seq<Event>
    decreases |events|
  {
    if events == [] then []
    else
      var n := |events| - 1;
      Bypassing(s, events[..n]) + Bypassed(Run(s, events[..n]), events[n])
  }

  // ---- when two clusters look alike ----

  const TOO_LATE := Refusal(BattleAlreadySettled, AlreadySettled)

  predicate SameBattle(a: BattleContext, b: BattleContext)
  {
    a.battleId == b.battleId && a.playerId == b.playerId && a.dungeonId == b.dungeonId
  }

  predicate Settling(phase: Phase) { phase.SettleFound? || phase.SettleRead? }

  predicate IsSettled(t: Tables, id: string) { id in t.battles && t.battles[id].settled }

  /** The one was found unsettled in the cache, but the row already says what its commit will find out. */
  predicate FoundTooLate(t: Tables, x: Phase, y: Phase)
  {
    Settling(x) && IsSettled(t, x.ctx.battleId) && y == Releasing(x.playerId, TOO_LATE)
  }

  predicate AlikePhases(t: Tables, x: Phase, y: Phase)
  {
    FoundTooLate(t, x, y) ||
    match x
    case SettleFound(p, ctx, cfg, star) =>
      y.SettleFound? && SameBattle(ctx, y.ctx) && y == SettleFound(p, y.ctx, cfg, star)
    case SettleRead(p, ctx, cfg, star, first) =>
      y.SettleRead? && SameBattle(ctx, y.ctx) && y == SettleRead(p, y.ctx, cfg, star, first)
    case _ => x == y
  }

  predicate AlikeWorkers(t: Tables, x: Worker, y: Worker)
  {
    x.sequence == y.sequence && x.reply == y.reply && AlikePhases(t, x.phase, y.phase)
  }

  predicate SameStores(a: State, b: State)
  {
    a.db == b.db && a.locks == b.locks && a.contexts == b.contexts && a.snapshots == b.snapshots && a.stars == b.stars
  }

  /** Same tables, locks and caches; every worker has given the same answer, stands at the same place and
      will give the same answer there. */
  ghost predicate Alike(a: State, b: State)
  {
    SameStores(a, b) && forall w :: AlikeWorkers(a.db, a.Of(w), b.Of(w))
  }

  lemma WorkersAlike(a: State, b: State, w: int)
    requires Alike(a, b)
    ensures SameStores(a, b) && AlikeWorkers(a.db, a.Of(w), b.Of(w))
  {
  }

  lemma StillTooLate(t: Tables, t': Tables, x: Worker, y: Worker)
    requires Grows(t, t') && AlikeWorkers(t, x, y)
    ensures AlikeWorkers(t', x, y)
  {
  }

  /** A step of worker w leaves the clusters alike exactly if it leaves the worker alike. */
  lemma OneMovesExactly(a: State, b: State, a': State, b': State, w: int)
    requires Alike(a, b) && SameStores(a', b') && Grows(a.db, a'.db)
    requires forall v :: v != w ==> a'.Of(v) == a.Of(v) && b'.Of(v) == b.Of(v)
    ensures Alike(a', b') <==> AlikeWorkers(a'.db, a'.Of(w), b'.Of(w))
  {
    hide AlikeWorkers, Grows, SameStores;
    forall v | v != w ensures AlikeWorkers(a'.db, a'.Of(v), b'.Of(v)) {
      WorkersAlike(a, b, v);
      StillTooLate(a.db, a'.db, a.Of(v), b.Of(v));
    }
  }

  // ---- a step depends on the stores and on its own worker ----

  predicate OfEnvironment(e: Event)
  {
    e.ExpireLock? || e.ExpireContext? || e.WriteSnapshot? || e.ExpireSnapshot?
  }

  predicate Agree(a: State, b: State, w: int)
  {
    SameStores(a, b) && a.Of(w) == b.Of(w)
  }

  lemma AcquiresAgree(a: State, b: State, w: int, p: int, next: Phase, lock: LockFate)
    requires Agree(a, b, w)
    ensures Agree(Acquire(a, w, p, next, lock), Acquire(b, w, p, next, lock), w)
  {
  }

  lemma ChecksAgree(a: State, b: State, w: int, answered: bool, pending: PendingFate)
    requires Agree(a, b, w)
    ensures Agree(Load(a, w, answered), Load(b, w, answered), w)
    ensures Agree(CheckPending(a, w, pending), CheckPending(b, w, pending), w)
  {
    hide HasPending, GenerateBattleId, StaminaOf, EnterRefusal;
  }

  lemma CommitsAgree(a: State, b: State, w: int, tx: TxFate)
    requires Agree(a, b, w)
    ensures Agree(CommitEnter(a, w, tx), CommitEnter(b, w, tx), w)
    ensures Agree(CommitSettle(a, w, tx), CommitSettle(b, w, tx), w)
  {
    hide EnterWrites, SettleWrites, EnterRefusal, SettleRefusal, SettleRewards, EnteredContext;
  }

  lemma ReadsAgree(a: State, b: State, w: int, answered: bool)
    requires Agree(a, b, w)
    ensures Agree(ReadContext(a, w, answered), ReadContext(b, w, answered), w)
    ensures Agree(ReadBattle(a, w, answered), ReadBattle(b, w, answered), w)
    ensures Agree(ReadFirstClear(a, w, answered), ReadFirstClear(b, w, answered), w)
  {
    hide FindBattle, DecodeContext, Orphaned;
  }

  lemma CachesAgree(a: State, b: State, w: int, names: set<string>, done: bool)
    requires Agree(a, b, w)
    ensures Agree(SaveEntered(a, w, names), SaveEntered(b, w, names), w)
    ensures Agree(DropContext(a, w, done), DropContext(b, w, done), w)
    ensures Agree(DropSnapshot(a, w, done), DropSnapshot(b, w, done), w)
  {
    hide SavedContexts;
  }

  lemma EndsAgree(a: State, b: State, w: int, done: bool)
    requires Agree(a, b, w)
    ensures Agree(Unlock(a, w, done), Unlock(b, w, done), w)
    ensures Agree(Restart(a, w), Restart(b, w), w)
  {
    hide Orphaned;
  }

  lemma EnterEventsAgree(a: State, b: State, e: Event)
    requires IsEnterEvent(e) && Agree(a, b, e.w)
    ensures Agree(Step(a, e), Step(b, e), e.w)
  {
    hide Agree, Acquire, Load, CheckPending, CommitEnter, SaveEntered;
    match e
    case EnterAcquire(w, p, cfg, lock) => AcquiresAgree(a, b, w, p, EnterLocked(p, cfg), lock);
    case EnterLoad(w, answered) => ChecksAgree(a, b, w, answered, Seen);
    case PendingRead(w, pending) => ChecksAgree(a, b, w, true, pending);
    case EnterCommit(w, tx) => CommitsAgree(a, b, w, tx);
    case SaveContext(w, names) => CachesAgree(a, b, w, names, true);
  }

  lemma SettleEventsAgree(a: State, b: State, e: Event)
    requires IsSettleEvent(e) && Agree(a, b, e.w)
    ensures Agree(Step(a, e), Step(b, e), e.w)
  {
    hide Agree, Acquire, ReadContext, ReadBattle, ReadFirstClear, CommitSettle, DropContext;
    match e
    case SettleAcquire(w, p, id, cfg, star, lock) => AcquiresAgree(a, b, w, p, SettleLocked(p, id, cfg, star), lock);
    case ContextRead(w, answered) => ReadsAgree(a, b, w, answered);
    case BattleRead(w, answered) => ReadsAgree(a, b, w, answered);
    case FirstClearRead(w, answered) => ReadsAgree(a, b, w, answered);
    case SettleCommit(w, tx) => CommitsAgree(a, b, w, tx);
    case DeleteContext(w, done) => CachesAgree(a, b, w, {}, done);
  }

  lemma StepsAgree(a: State, b: State, e: Event)
    requires !OfEnvironment(e) && Agree(a, b, e.w)
    ensures Agree(Step(a, e), Step(b, e), e.w)
  {
    hide Agree;
    if IsEnterEvent(e) {
      hide Step;
      EnterEventsAgree(a, b, e);
    } else if IsSettleEvent(e) {
      hide Step;
      SettleEventsAgree(a, b, e);
    } else {
      hide DropSnapshot, Unlock, Restart;
      match e
      case Invalidate(w, done) => CachesAgree(a, b, w, {}, done);
      case Release(w, done) => EndsAgree(a, b, w, done);
      case Crash(w) => EndsAgree(a, b, w, true);
      case _ =>
    }
  }

  lemma StepMovesOne(s: State, e: Event)
    requires !OfEnvironment(e)
    ensures forall v :: v != e.w ==> Step(s, e).Of(v) == s.Of(v)
  {
    hide Step;
    forall v | v != e.w ensures Step(s, e).Of(v) == s.Of(v) {
      OthersLeaveMeAlone(s, e, v);
    }
  }

  // ---- the one place where they differ ----

  predicate Late(a: State, b: State, w: int)
  {
    FoundTooLate(a.db, a.Of(w).phase, b.Of(w).phase)
  }

  /** The exact condition, event by event, for the clusters to stay alike: no torn context is read, and a
      request whose fate the bypassing cluster knows already is neither broken off by a lock release nor
      by another error. */
  predicate Fits(a: State, b: State, e: Event)
  {
    match e
    case ContextRead(w, _) => Hits(a, e) ==> !TornContextAt(a.contexts, a.Of(w).phase.battleId)
    case SettleCommit(w, tx) =>
      Late(a, b, w) && a.Of(w).phase.SettleRead? && tx.RolledBack? ==> tx.error == AlreadySettled
    case Release(w, _) => !Late(a, b, w)
    case _ => true
  }

  lemma SettlingSkips(s: State, e: Event)
    requires !OfEnvironment(e) && !e.FirstClearRead? && !e.SettleCommit? && !e.Crash? && !e.Release?
    requires Settling(s.Of(e.w).phase) || s.Of(e.w).phase.Releasing?
    ensures Step(s, e) == s
  {
  }

  lemma FirstClearStaysAlike(a: State, b: State, w: int, answered: bool)
    requires SameStores(a, b) && AlikeWorkers(a.db, a.Of(w), b.Of(w)) && Settling(a.Of(w).phase)
    ensures var a', b' := ReadFirstClear(a, w, answered), ReadFirstClear(b, w, answered);
            SameStores(a', b') && AlikeWorkers(a'.db, a'.Of(w), b'.Of(w))
  {
  }

  lemma LateCommitAlikeExactly(a: State, b: State, w: int, tx: TxFate)
    requires SameStores(a, b) && Late(a, b, w) && a.Of(w).phase.SettleRead?
    ensures var a', b' := CommitSettle(a, w, tx), CommitSettle(b, w, tx);
            && b' == b && SameStores(a', b')
            && a'.Of(w).sequence == a.Of(w).sequence && a'.Of(w).reply == a.Of(w).reply
            && (AlikePhases(a'.db, a'.Of(w).phase, b.Of(w).phase) <==> (tx.RolledBack? ==> tx.error == AlreadySettled))
  {
    hide SettleWrites, SettleRewards;
    var x := a.Of(w).phase;
    SettledBattleAborts(a.db, x.ctx, x.cfg, x.star, x.firstClear);
  }

  lemma SameCommitStaysAlike(a: State, b: State, w: int, tx: TxFate)
    requires SameStores(a, b) && a.Of(w).phase.SettleRead? && b.Of(w).phase.SettleRead?
    requires AlikePhases(a.db, a.Of(w).phase, b.Of(w).phase)
    ensures var a', b' := CommitSettle(a, w, tx), CommitSettle(b, w, tx);
            && SameStores(a', b')
            && a'.Of(w).sequence == a.Of(w).sequence && a'.Of(w).reply == a.Of(w).reply
            && b'.Of(w).sequence == b.Of(w).sequence && b'.Of(w).reply == b.Of(w).reply
            && a'.Of(w).phase == b'.Of(w).phase
  {
    hide SettleWrites, SettleRewards, SettleRefusal, SettleOf;
    var x, y := a.Of(w).phase, b.Of(w).phase;
    SettleOfAnyContext(a.db, x.ctx, x.cfg, x.star, x.firstClear);
    SettleOfAnyContext(a.db, y.ctx, x.cfg, x.star, x.firstClear);
  }

  lemma SettleCommitAlikeExactly(a: State, b: State, w: int, tx: TxFate)
    requires SameStores(a, b) && AlikeWorkers(a.db, a.Of(w), b.Of(w)) && Settling(a.Of(w).phase)
    ensures var a', b' := CommitSettle(a, w, tx), CommitSettle(b, w, tx);
            && SameStores(a', b')
            && (AlikeWorkers(a'.db, a'.Of(w), b'.Of(w)) <==> Fits(a, b, SettleCommit(w, tx)))
  {
    hide SettleWrites, SettleRewards, SettleRefusal;
    if a.Of(w).phase.SettleRead? {
      hide CommitSettle;
      if Late(a, b, w) {
        LateCommitAlikeExactly(a, b, w, tx);
      } else {
        SameCommitStaysAlike(a, b, w, tx);
        NoSettling(a, w, tx);
      }
    }
  }

  lemma NoSettling(s: State, w: int, tx: TxFate)
    requires s.Of(w).phase.SettleRead?
    ensures !Settling(CommitSettle(s, w, tx).Of(w).phase)
  {
    hide SettleWrites, SettleRewards, SettleRefusal;
  }

  lemma EndsAlikeExactly(a: State, b: State, w: int, done: bool)
    requires SameStores(a, b) && AlikeWorkers(a.db, a.Of(w), b.Of(w)) && Settling(a.Of(w).phase)
    ensures var a', b' := Unlock(a, w, done), Unlock(b, w, done);
            SameStores(a', b') && AlikeWorkers(a'.db, a'.Of(w), b'.Of(w)) <==> Fits(a, b, Release(w, done))
    ensures var a', b' := Restart(a, w), Restart(b, w);
            SameStores(a', b') && AlikeWorkers(a'.db, a'.Of(w), b'.Of(w))
  {
    hide Orphaned;
  }

  /** A cached context and the battle row lead to the same place, up to a settlement the cache has not heard of. */
  lemma HitAlikeExactly(a: State, b: State, w: int)
    requires Safe(a) && SameStores(a, b) && AlikeWorkers(a.db, a.Of(w), b.Of(w)) && Hits(a, ContextRead(w, true))
    ensures var a', b' := ReadContext(a, w, true), ReadBattle(ReadContext(b, w, false), w, true);
            var alike := SameStores(a', b') && AlikeWorkers(a'.db, a'.Of(w), b'.Of(w));
            alike <==> !TornContextAt(a.contexts, a.Of(w).phase.battleId)
  {
    hide Consistent, HashFits, DecodeContext, Orphaned;
    var id := a.Of(w).phase.battleId;
    assert HashFits(a.db, id, a.contexts[id]);
    KnownBattle(a, id);
    if !TornContextAt(a.contexts, id) { ReadFits(a.db, id, a.contexts[id]); }
  }

  lemma KnownBattle(s: State, id: string)
    requires Safe(s) && id in s.contexts
    ensures FindBattle(s.db, id).Some?
  {
    assert HashFits(s.db, id, s.contexts[id]);
  }

  lemma EnvironmentStaysAlike(a: State, b: State, e: Event)
    requires Alike(a, b) && OfEnvironment(e)
    ensures Alike(Step(a, e), Step(b, e))
  {
    hide AlikeWorkers, SavedSnapshots;
    var a', b' := Step(a, e), Step(b, e);
    forall w ensures AlikeWorkers(a'.db, a'.Of(w), b'.Of(w)) {
      assert a'.Of(w) == a.Of(w) && b'.Of(w) == b.Of(w);
    }
  }

  lemma SettlingStepAlikeExactly(a: State, b: State, e: Event)
    requires !OfEnvironment(e) && SameStores(a, b) && AlikeWorkers(a.db, a.Of(e.w), b.Of(e.w))
    requires Settling(a.Of(e.w).phase)
    ensures SameStores(Step(a, e), Step(b, e)) && AlikeWorkers(Step(a, e).db, Step(a, e).Of(e.w), Step(b, e).Of(e.w))
       <==> Fits(a, b, e)
  {
    hide SameStores, AlikeWorkers, ReadFirstClear, CommitSettle, Unlock, Restart;
    if !e.FirstClearRead? && !e.SettleCommit? && !e.Crash? && !e.Release? {
      hide Step;
      SettlingHasCompany(a, b, e.w);
      SettlingSkips(a, e);
      SettlingSkips(b, e);
    } else {
      match e
      case FirstClearRead(w, answered) => FirstClearStaysAlike(a, b, w, answered);
      case SettleCommit(w, tx) => SettleCommitAlikeExactly(a, b, w, tx);
      case Release(w, done) => EndsAlikeExactly(a, b, w, done);
      case Crash(w) => EndsAlikeExactly(a, b, w, true);
      case _ =>
    }
  }

  lemma SettlingHasCompany(a: State, b: State, w: int)
    requires AlikeWorkers(a.db, a.Of(w), b.Of(w)) && Settling(a.Of(w).phase)
    ensures Settling(b.Of(w).phase) || b.Of(w).phase.Releasing?
  {
  }

  lemma SamePlaceAgrees(a: State, b: State, w: int)
    requires SameStores(a, b) && AlikeWorkers(a.db, a.Of(w), b.Of(w)) && !Settling(a.Of(w).phase)
    ensures Agree(a, b, w) && !Late(a, b, w)
  {
  }

  lemma AgreedIsAlike(a: State, b: State, w: int)
    requires Agree(a, b, w)
    ensures SameStores(a, b) && AlikeWorkers(a.db, a.Of(w), b.Of(w))
  {
  }

  lemma WorkerStepAlikeExactly(a: State, b: State, e: Event)
    requires !OfEnvironment(e) && !Hits(a, e) && SameStores(a, b) && AlikeWorkers(a.db, a.Of(e.w), b.Of(e.w))
    ensures SameStores(Step(a, e), Step(b, e)) && AlikeWorkers(Step(a, e).db, Step(a, e).Of(e.w), Step(b, e).Of(e.w))
       <==> Fits(a, b, e)
  {
    hide Step, SameStores, AlikeWorkers, Agree, Settling, Late, Hits;
    if Settling(a.Of(e.w).phase) {
      SettlingStepAlikeExactly(a, b, e);
    } else {
      SamePlaceAgrees(a, b, e.w);
      StepsAgree(a, b, e);
      AgreedIsAlike(Step(a, e), Step(b, e), e.w);
    }
  }

  /** Every event keeps the clusters alike exactly under the stated condition. */
  lemma StepAlikeExactly(a: State, b: State, e: Event)
    requires Safe(a) && Alike(a, b)
    ensures Alike(Step(a, e), Run(b, Bypassed(a, e))) <==> Fits(a, b, e)
  {
    hide Step, Run, Safe, Alike, SameStores, AlikeWorkers, Fits, Balanced, Grows;
    var a', b' := Step(a, e), Run(b, Bypassed(a, e));
    StepIsSafe(a, e);
    BypassedRuns(a, b, e);
    if OfEnvironment(e) {
      EnvironmentStaysAlike(a, b, e);
      EnvironmentFits(a, b, e);
    } else {
      WorkersAlike(a, b, e.w);
      StepMovesOne(a, e);
      if Hits(a, e) {
        HitEvents(b, e.w);
        HitStepAlike(a, b, e);
      } else {
        StepMovesOne(b, e);
        WorkerStepAlikeExactly(a, b, e);
      }
      if SameStores(a', b') {
        OneMovesExactly(a, b, a', b', e.w);
      } else {
        NotAlike(a', b');
      }
    }
  }

  lemma NotAlike(a: State, b: State)
    requires !SameStores(a, b)
    ensures !Alike(a, b)
  {
  }

  lemma EnvironmentFits(a: State, b: State, e: Event)
    requires OfEnvironment(e)
    ensures Fits(a, b, e)
  {
  }

  lemma BypassedRuns(a: State, b: State, e: Event)
    ensures Run(b, Bypassed(a, e)) ==
              if Hits(a, e) then Step(Step(b, ContextRead(e.w, false)), BattleRead(e.w, true)) else Step(b, e)
  {
    hide Step;
    RunSnoc(b, [], e);
    assert [] + [e] == [e];
    if Hits(a, e) {
      RunSnoc(b, [], ContextRead(e.w, false));
      RunSnoc(b, [ContextRead(e.w, false)], BattleRead(e.w, true));
      assert [] + [ContextRead(e.w, false)] == [ContextRead(e.w, false)];
      assert [ContextRead(e.w, false)] + [BattleRead(e.w, true)] == [ContextRead(e.w, false), BattleRead(e.w, true)];
    }
  }

  lemma HitEvents(s: State, w: int)
    ensures forall v :: v != w ==> Step(Step(s, ContextRead(w, false)), BattleRead(w, true)).Of(v) == s.Of(v)
  {
    hide Step;
    StepMovesOne(s, ContextRead(w, false));
    StepMovesOne(Step(s, ContextRead(w, false)), BattleRead(w, true));
  }

  lemma HitStepAlike(a: State, b: State, e: Event)
    requires Safe(a) && SameStores(a, b) && Hits(a, e) && AlikeWorkers(a.db, a.Of(e.w), b.Of(e.w))
    ensures var a', b' := Step(a, e), Step(Step(b, ContextRead(e.w, false)), BattleRead(e.w, true));
            SameStores(a', b') && AlikeWorkers(a'.db, a'.Of(e.w), b'.Of(e.w)) <==> Fits(a, b, e)
  {
    hide Safe, SameStores, AlikeWorkers, ReadContext, ReadBattle;
    HitAlikeExactly(a, b, e.w);
  }

  // ---- runs ----

  /** At every moment of the run. */
  ghost predicate AlikeThroughout(s: State, events: seq<Event>)
  {
    forall i :: 0 <= i <= |events| ==> Alike(Run(s, events[..i]), Run(s, Bypassing(s, events[..i])))
  }

  ghost predicate FitsThroughout(s: State, events: seq<Event>)
  {
    forall i :: 0 <= i < |events| ==> Fits(Run(s, events[..i]), Run(s, Bypassing(s, events[..i])), events[i])
  }

  lemma AlikeItself(s: State)
    ensures Alike(s, s)
  {
  }

  /** A run and the run that bypasses the cache are alike at every moment - same tables, locks and caches,
      same replies - exactly if each event meets the condition. */
  lemma {:induction false} RunBypassesExactly(s: State, events: seq<Event>)
    requires Safe(s)
    ensures AlikeThroughout(s, events) <==> FitsThroughout(s, events)
    decreases |events|
  {
    hide Safe, Step, Run, Alike, Fits, Bypassed;
    if events == [] {
      assert events[..0] == [];
      EmptyRun(s);
      AlikeItself(s);
    } else {
      var n := |events| - 1;
      var before := events[..n];
      assert forall i :: 0 <= i <= n ==> before[..i] == events[..i];
      assert events[..|events|] == events == before + [events[n]];
      RunBypassesExactly(s, before);
      RunIsSafe(s, before);
      RunSnoc(s, before, events[n]);
      RunConcat(s, Bypassing(s, before), Bypassed(Run(s, before), events[n]));
      assert AlikeThroughout(s, events) <==>
        AlikeThroughout(s, before) && Alike(Run(s, events), Run(s, Bypassing(s, events)));
      if AlikeThroughout(s, before) {
        assert before[..n] == before;
        StepAlikeExactly(Run(s, before), Run(s, Bypassing(s, before)), events[n]);
      }
      assert FitsThroughout(s, events) <==>
        FitsThroughout(s, before) && Fits(Run(s, before), Run(s, Bypassing(s, before)), events[n]);
    }
  }

  lemma EmptyRun(s: State)
    ensures Run(s, []) == s && Run(s, Bypassing(s, [])) == s
  {
  }

  // ---- runs in which requests end in order ----

  /** As far as the run itself shows: it reads no torn context, a lock is not released before its settlement
      is decided, and no other error hides that a battle is settled already. */
  predicate InOrder(s: State, e: Event)
  {
    match e
    case ContextRead(w, _) => Hits(s, e) ==> !TornContextAt(s.contexts, s.Of(w).phase.battleId)
    case SettleCommit(w, tx) =>
      s.Of(w).phase.SettleRead? && IsSettled(s.db, s.Of(w).phase.ctx.battleId) ==> !tx.RolledBack?
    case Release(w, _) => !Settling(s.Of(w).phase)
    case _ => true
  }

  ghost predicate RunsInOrder(s: State, events: seq<Event>)
  {
    forall i :: 0 <= i < |events| ==> InOrder(Run(s, events[..i]), events[i])
  }

  lemma InOrderFits(a: State, b: State, e: Event)
    requires InOrder(a, e)
    ensures Fits(a, b, e)
  {
  }

  lemma AlikeAnswers(a: State, b: State)
    requires Alike(a, b)
    ensures SameStores(a, b)
    ensures forall w :: a.Of(w).reply == b.Of(w).reply && (a.Of(w).phase.Idle? <==> b.Of(w).phase.Idle?)
  {
    forall w ensures a.Of(w).reply == b.Of(w).reply && (a.Of(w).phase.Idle? <==> b.Of(w).phase.Idle?) {
      WorkersAlike(a, b, w);
    }
  }

  /** In every run from an idle cluster, whatever the interleaving, expiries, crashes and statement failures:
      if it is in order, the run that bypasses the context cache leaves the same tables, locks and caches,
      and every worker has given the same answers. */
  lemma RunIgnoresContexts(s: State, events: seq<Event>)
    requires Initial(s) && RunsInOrder(s, events)
    ensures var a, b := Run(s, events), Run(s, Bypassing(s, events));
            && SameStores(a, b)
            && forall w :: a.Of(w).reply == b.Of(w).reply && (a.Of(w).phase.Idle? <==> b.Of(w).phase.Idle?)
  {
    hide Initial, Safe, Run, Alike, Fits, InOrder, SameStores;
    InitialIsSafe(s);
    forall i | 0 <= i < |events|
      ensures Fits(Run(s, events[..i]), Run(s, Bypassing(s, events[..i])), events[i])
    {
      InOrderFits(Run(s, events[..i]), Run(s, Bypassing(s, events[..i])), events[i]);
    }
    RunBypassesExactly(s, events);
    assert AlikeThroughout(s, events);
    assert events[..|events|] == events;
    AlikeAnswers(Run(s, events), Run(s, Bypassing(s, events)));
  }

  ghost predicate NeverHits(s: State, events: seq<Event>)
  {
    forall i :: 0 <= i < |events| ==> !Hits(Run(s, events[..i]), events[i])
  }

  lemma AlikeMisses(a: State, b: State, e: Event)
    requires Alike(a, b) && !Hits(a, e)
    ensures !Hits(b, e)
  {
    if e.ContextRead? { WorkersAlike(a, b, e.w); }
  }

  lemma SnocNeverHits(s: State, events: seq<Event>, e: Event)
    requires NeverHits(s, events) && !Hits(Run(s, events), e)
    ensures NeverHits(s, events + [e])
  {
    hide Run, Hits;
    assert (events + [e])[..|events|] == events;
    assert forall i :: 0 <= i < |events| ==> (events + [e])[..i] == events[..i];
  }

  /** The bypassing run reads no cached context at all. */
  lemma {:induction false} BypassingNeverHits(s: State, events: seq<Event>)
    requires AlikeThroughout(s, events)
    ensures NeverHits(s, Bypassing(s, events))
    decreases |events|
  {
    hide Run, Alike, Hits;
    if events != [] {
      var n := |events| - 1;
      var before, e := events[..n], events[n];
      assert forall i :: 0 <= i <= n ==> before[..i] == events[..i];
      BypassingNeverHits(s, before);
      assert Alike(Run(s, events[..n]), Run(s, Bypassing(s, events[..n])));
      var done := Bypassing(s, before);
      if Hits(Run(s, before), e) {
        HitIsRead(Run(s, before), e);
        SilentNeverHits(Run(s, done), ContextRead(e.w, false));
        SnocNeverHits(s, done, ContextRead(e.w, false));
        SilentNeverHits(Run(s, done + [ContextRead(e.w, false)]), BattleRead(e.w, true));
        SnocNeverHits(s, done + [ContextRead(e.w, false)], BattleRead(e.w, true));
        assert done + [ContextRead(e.w, false)] + [BattleRead(e.w, true)] == Bypassing(s, events);
      } else {
        AlikeMisses(Run(s, before), Run(s, done), e);
        SnocNeverHits(s, done, e);
      }
    }
  }

  lemma HitIsRead(s: State, e: Event)
    requires Hits(s, e)
    ensures e.ContextRead?
  {
  }

  lemma SilentNeverHits(s: State, e: Event)
    requires !e.ContextRead? || !e.answered
    ensures !Hits(s, e)
  {
  }
}
