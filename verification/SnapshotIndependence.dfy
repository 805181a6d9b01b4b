/** The player snapshots in Redis never influence what the dungeon protocol does to anything else. */
module SnapshotIndependence {
  import opened Records
  import opened Tables
  import opened DungeonProtocol

  /** The state with its snapshots wiped. */
  function Forget(s: State): State
  {
    s.(snapshots := map[])
  }

  predicate SnapshotOnly(e: Event)
  {
    e.WriteSnapshot? || e.ExpireSnapshot?
  }

  function WithoutSnapshotEvents(events: seq<Event>): seq<Event>
  {
    if events == [] then []
    else
      var n := |events| - 1;
      WithoutSnapshotEvents(events[..n]) + if SnapshotOnly(events[n]) then [] else [events[n]]
  }

  lemma ForgetKeepsWorkers(s: State, w: int)
    ensures Forget(s).Of(w) == s.Of(w)
  {
  }

  lemma AcquireForgets(s: State, w: int, p: int, next: Phase, lock: LockFate)
    ensures Forget(Acquire(Forget(s), w, p, next, lock)) == Forget(Acquire(s, w, p, next, lock))
  {
    ForgetKeepsWorkers(s, w);
  }

  lemma LoadForgets(s: State, w: int, answered: bool)
    ensures Forget(Load(Forget(s), w, answered)) == Forget(Load(s, w, answered))
  {
    hide StaminaOf, GenerateBattleId;
    ForgetKeepsWorkers(s, w);
  }

  lemma CheckPendingForgets(s: State, w: int, pending: PendingFate)
    ensures Forget(CheckPending(Forget(s), w, pending)) == Forget(CheckPending(s, w, pending))
  {
    hide HasPending;
    ForgetKeepsWorkers(s, w);
  }

  lemma EnterCommitForgets(s: State, w: int, tx: TxFate)
    ensures Forget(CommitEnter(Forget(s), w, tx)) == Forget(CommitEnter(s, w, tx))
  {
    hide EnterWrites, EnterRefusal, EnteredContext;
    ForgetKeepsWorkers(s, w);
  }

  lemma SettleCommitForgets(s: State, w: int, tx: TxFate)
    ensures Forget(CommitSettle(Forget(s), w, tx)) == Forget(CommitSettle(s, w, tx))
  {
    hide SettleWrites, SettleRewards, SettleRefusal;
    ForgetKeepsWorkers(s, w);
  }

  lemma SettleForgets(s: State, w: int, answered: bool)
    ensures Forget(ReadContext(Forget(s), w, answered)) == Forget(ReadContext(s, w, answered))
    ensures Forget(ReadBattle(Forget(s), w, answered)) == Forget(ReadBattle(s, w, answered))
  {
    hide FindBattle, CheckContext, DecodeContext, Restart;
    ForgetKeepsWorkers(s, w);
    EndForgets(s, w, true);
    forall p, ctx, cfg, star
      ensures Forget(CheckContext(Forget(s), w, p, ctx, cfg, star)) == Forget(CheckContext(s, w, p, ctx, cfg, star))
    {
      CheckForgets(s, w, p, ctx, cfg, star);
    }
  }

  lemma CheckForgets(s: State, w: int, p: int, ctx: BattleContext, cfg: DungeonConfig, star: int)
    ensures Forget(CheckContext(Forget(s), w, p, ctx, cfg, star)) == Forget(CheckContext(s, w, p, ctx, cfg, star))
  {
    ForgetKeepsWorkers(s, w);
  }

  lemma FirstClearForgets(s: State, w: int, answered: bool)
    ensures Forget(ReadFirstClear(Forget(s), w, answered)) == Forget(ReadFirstClear(s, w, answered))
  {
    ForgetKeepsWorkers(s, w);
  }

  lemma SaveForgets(s: State, w: int, names: set<string>)
    ensures Forget(SaveEntered(Forget(s), w, names)) == Forget(SaveEntered(s, w, names))
  {
    hide SavedContexts;
    ForgetKeepsWorkers(s, w);
  }

  lemma CacheForgets(s: State, w: int, done: bool)
    ensures Forget(DropContext(Forget(s), w, done)) == Forget(DropContext(s, w, done))
    ensures Forget(DropSnapshot(Forget(s), w, done)) == Forget(DropSnapshot(s, w, done))
  {
    ForgetKeepsWorkers(s, w);
  }

  lemma EndForgets(s: State, w: int, done: bool)
    ensures Forget(Unlock(Forget(s), w, done)) == Forget(Unlock(s, w, done))
    ensures Forget(Restart(Forget(s), w)) == Forget(Restart(s, w))
  {
    ForgetKeepsWorkers(s, w);
  }

  lemma EnterEventForgets(s: State, e: Event)
    requires IsEnterEvent(e)
    ensures Forget(Step(Forget(s), e)) == Forget(Step(s, e))
  {
    hide Acquire, Load, CheckPending, CommitEnter, SaveEntered;
    match e
    case EnterAcquire(w, p, cfg, lock) => AcquireForgets(s, w, p, EnterLocked(p, cfg), lock);
    case EnterLoad(w, answered) => LoadForgets(s, w, answered);
    case PendingRead(w, pending) => CheckPendingForgets(s, w, pending);
    case EnterCommit(w, tx) => EnterCommitForgets(s, w, tx);
    case SaveContext(w, names) => SaveForgets(s, w, names);
  }

  lemma SettleEventForgets(s: State, e: Event)
    requires IsSettleEvent(e)
    ensures Forget(Step(Forget(s), e)) == Forget(Step(s, e))
  {
    hide Acquire, ReadContext, ReadBattle, ReadFirstClear, CommitSettle, DropContext;
    match e
    case SettleAcquire(w, p, id, cfg, star, lock) => AcquireForgets(s, w, p, SettleLocked(p, id, cfg, star), lock);
    case ContextRead(w, answered) => SettleForgets(s, w, answered);
    case BattleRead(w, answered) => SettleForgets(s, w, answered);
    case FirstClearRead(w, answered) => FirstClearForgets(s, w, answered);
    case SettleCommit(w, tx) => SettleCommitForgets(s, w, tx);
    case DeleteContext(w, done) => CacheForgets(s, w, done);
  }

  lemma StepForgets(s: State, e: Event)
    ensures Forget(Step(Forget(s), e)) == Forget(Step(s, e))
    ensures SnapshotOnly(e) ==> Forget(Step(s, e)) == Forget(s)
  {
    if IsEnterEvent(e) {
      hide Step, Forget;
      EnterEventForgets(s, e);
    } else if IsSettleEvent(e) {
      hide Step, Forget;
      SettleEventForgets(s, e);
    } else {
      hide DropSnapshot, Unlock, Restart;
      match e
      case Invalidate(w, done) => CacheForgets(s, w, done);
      case Release(w, done) => EndForgets(s, w, done);
      case Crash(w) => EndForgets(s, w, true);
      case _ =>
    }
  }

  /** In every run, whatever anyone writes into the snapshot cache and whenever snapshots expire, the
      tables, locks, contexts and replies are those of the run without any of it, from a wiped cache. */
  lemma {:induction false} RunIgnoresSnapshots(s: State, events: seq<Event>)
    ensures Forget(Run(s, events)) == Forget(Run(Forget(s), WithoutSnapshotEvents(events)))
    decreases |events|
  {
    hide Step;
    if events != [] {
      var n := |events| - 1;
      var before, e := events[..n], events[n];
      RunIgnoresSnapshots(s, before);
      var here, there := Run(s, before), Run(Forget(s), WithoutSnapshotEvents(before));
      StepForgets(here, e);
      RunSnoc(s, before, e);
      assert before + [e] == events;
      if !SnapshotOnly(e) {
        StepForgets(there, e);
        RunSnoc(Forget(s), WithoutSnapshotEvents(before), e);
      } else {
        assert WithoutSnapshotEvents(before) + [] == WithoutSnapshotEvents(before);
      }
    }
  }
}
