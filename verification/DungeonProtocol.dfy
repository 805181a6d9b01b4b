/**
 The dungeon protocol as a step system: any number of dungeon_server workers share the database and
 Redis, and their enter and settle requests interleave freely.  Each event is one externally visible
 action of one worker, or an action of the environment.  Every choice the environment makes (a failed
 statement, a lost reply, an expiry, a crash) is part of the event, so a run is just a list of events.
 An event that does not fit the worker's phase changes nothing.
 */
module DungeonProtocol {
  import opened Common
  import opened Tables
  import opened Decimal
  import opened Hashes
  import opened Records
  import opened Runs

  datatype ErrorCode =
    | Ok | SessionInvalid | PlayerNotFound | PlayerBusy | DungeonNotFound | DungeonLocked | StaminaNotEnough
    | BattleNotFound | BattleMismatch | BattleAlreadySettled | InvalidStar | StorageError

  datatype Reply =
    | NoReply
    | Entered(battleId: string, remainStamina: int)
    | SettledReply(firstClear: bool, rewards: seq<Reward>)
    | Refusal(code: ErrorCode, message: Message)

  /** Where a worker stands inside one request; everything but Idle is between Acquire and Release. */
  datatype Phase =
    | Idle
    | EnterLocked(playerId: int, cfg: DungeonConfig)
    | EnterLoaded(playerId: int, cfg: DungeonConfig, stamina: int, battleId: string)
    | EnterChecked(playerId: int, cfg: DungeonConfig, stamina: int, battleId: string)
    | EnterCommitted(playerId: int, ctx: BattleContext, remain: int)
    | SettleLocked(playerId: int, battleId: string, cfg: DungeonConfig, star: int)
    | SettleMissed(playerId: int, battleId: string, cfg: DungeonConfig, star: int)
    | SettleFound(playerId: int, ctx: BattleContext, cfg: DungeonConfig, star: int)
    | SettleRead(playerId: int, ctx: BattleContext, cfg: DungeonConfig, star: int, firstClear: bool)
    | SettleCommitted(playerId: int, battleId: string, reply: Reply)
    | Invalidating(playerId: int, reply: Reply)
    | Releasing(playerId: int, reply: Reply)

  /** `sequence` is the worker's own battle-id counter; `reply` its latest answer. */
  datatype Worker = Worker(sequence: nat, phase: Phase, reply: Reply)

  /** Redis stores only the lock key.  Who set it, and whether that request is still running, is an
      annotation no step reads. */
  datatype Holder = Held(worker: int) | Orphan

  /** Contexts and snapshots are the hashes Redis holds, whole or in part.  `stars` is a history variable:
      the star each battle was settled with. */
  datatype State = State(
    db: Tables,
    locks: map<int, Holder>,
    contexts: map<string, Hash>,
    snapshots: map<int, Hash>,
    workers: map<int, Worker>,
    stars: map<string, int>)
  {
    function Of(w: int): Worker
    {
      if w in workers then workers[w] else Worker(1, Idle, NoReply)
    }

    /** A worker moves on; nothing else changes. */
    function Move(w: int, phase: Phase): (s: State)
      ensures s.db == db && s.stars == stars && s.locks == locks && s.contexts == contexts && s.snapshots == snapshots
      ensures s.workers.Keys == workers.Keys + {w} && s.Of(w) == Of(w).(phase := phase)
      ensures forall v :: v != w ==> s.Of(v) == Of(v)
    {
      this.(workers := workers[w := Of(w).(phase := phase)])
    }

    /** A worker answers its request and is idle again; nothing else changes. */
    function Answer(w: int, reply: Reply): (s: State)
      ensures s.db == db && s.stars == stars && s.locks == locks && s.contexts == contexts && s.snapshots == snapshots
      ensures s.workers.Keys == workers.Keys + {w} && s.Of(w) == Of(w).(phase := Idle, reply := reply)
      ensures forall v :: v != w ==> s.Of(v) == Of(v)
    {
      this.(workers := workers[w := Of(w).(phase := Idle, reply := reply)])
    }
  }

  // Outcomes the environment picks.
  datatype LockFate = Reached | Unreached | AnswerLost           // SET NX EX
  datatype PendingFate = Seen | Unseen | NotBegun(error: Message) // the SELECT swallows its errors
  datatype TxFate = Clean | RolledBack(error: Message) | CommitUnacknowledged(error: Message)

  datatype Event =
    | EnterAcquire(w: int, playerId: int, cfg: DungeonConfig, lock: LockFate)
    | EnterLoad(w: int, answered: bool)
    | PendingRead(w: int, pending: PendingFate)
    | EnterCommit(w: int, tx: TxFate)
    | SaveContext(w: int, names: set<string>)
    | SettleAcquire(w: int, playerId: int, battleId: string, cfg: DungeonConfig, star: int, lock: LockFate)
    | ContextRead(w: int, answered: bool)
    | BattleRead(w: int, answered: bool)
    | FirstClearRead(w: int, answered: bool)
    | SettleCommit(w: int, tx: TxFate)
    | DeleteContext(w: int, done: bool)
    | Invalidate(w: int, done: bool)
    | Release(w: int, done: bool)
    | Crash(w: int)
    | ExpireLock(playerId: int)
    | ExpireContext(battleId: string)
    | WriteSnapshot(playerId: int, state: PlayerState, names: set<string>)
    | ExpireSnapshot(playerId: int)

  predicate IsEnterEvent(e: Event)
  {
    e.EnterAcquire? || e.EnterLoad? || e.PendingRead? || e.EnterCommit? || e.SaveContext?
  }

  predicate IsSettleEvent(e: Event)
  {
    e.SettleAcquire? || e.ContextRead? || e.BattleRead? || e.FirstClearRead? || e.SettleCommit? || e.DeleteContext?
  }

  function GenerateBattleId(playerId: int, dungeonId: int, sequence: nat): string
  {
    TaggedId("battle-", playerId, dungeonId, sequence)
  }

  lemma BattleIdText(p: int, dungeonId: int, n: nat)
    ensures GenerateBattleId(p, dungeonId, n)
         == "battle-" + (PrintInt(p) + ("-" + (PrintInt(dungeonId) + ("-" + PrintInt(n)))))
  {
  }

  function EnterRefusal(message: Message): Reply
  {
    Refusal(if message == StaminaNotEnoughText then StaminaNotEnough
            else if message == UnfinishedBattle then PlayerBusy
            else StorageError, message)
  }

  function SettleRefusal(message: Message): Reply
  {
    Refusal(if message == AlreadySettled then BattleAlreadySettled else StorageError, message)
  }

  const BUSY := Refusal(PlayerBusy, PlayerIsBusy)

  function EnteredContext(id: string, p: int, cfg: DungeonConfig): BattleContext
  {
    BattleContext(id, p, cfg.dungeonId, cfg.costStamina, cfg.maxStar, false)
  }

  function SettleRewards(cfg: DungeonConfig, firstClear: bool): seq<Reward>
  {
    if firstClear then [Reward(Gold, cfg.normalGold), Reward(Diamond, cfg.firstClearDiamond)]
    else [Reward(Gold, cfg.normalGold)]
  }

  // ---- the steps of a worker; a step that does not fit its phase changes nothing ----

  /** SET key NX EX: only an absent key is set; a lost answer leaves a lock nobody will release. */
  function Acquire(s: State, w: int, p: int, next: Phase, lock: LockFate): (r: State)
    ensures r.db == s.db && r.stars == s.stars
    ensures r.contexts == s.contexts && r.snapshots == s.snapshots
    ensures forall v :: v != w ==> r.Of(v) == s.Of(v)
  {
    if !s.Of(w).phase.Idle? then s
    else if lock.Unreached? || p in s.locks then s.Answer(w, BUSY)
    else if lock.Reached? then s.(locks := s.locks[p := Held(w)]).Move(w, next)
    else s.(locks := s.locks[p := Orphan]).Answer(w, BUSY)
  }

  function StaminaOf(t: Tables, p: int): int
  {
    if p in t.assets then t.assets[p].stamina else 0
  }

  function Load(s: State, w: int, answered: bool): (r: State)
    ensures r.db == s.db && r.stars == s.stars
    ensures r.contexts == s.contexts && r.snapshots == s.snapshots && r.locks == s.locks
    ensures forall v :: v != w ==> r.Of(v) == s.Of(v)
  {
    var me := s.Of(w);
    if !me.phase.EnterLocked? then s
    else
      var p, cfg := me.phase.playerId, me.phase.cfg;
      if !answered || p !in s.db.players then
        s.Move(w, Releasing(p, Refusal(PlayerNotFound, PlayerNotFoundText)))
      else if s.db.players[p].level < cfg.requiredLevel then
        s.Move(w, Releasing(p, Refusal(DungeonLocked, LevelNotEnough)))
      else if StaminaOf(s.db, p) < cfg.costStamina then
        s.Move(w, Releasing(p, Refusal(StaminaNotEnough, StaminaNotEnoughText)))
      else
        var id := GenerateBattleId(p, cfg.dungeonId, me.sequence);
        var next := EnterLoaded(p, cfg, StaminaOf(s.db, p), id);
        s.(workers := s.workers[w := me.(sequence := me.sequence + 1, phase := next)])
  }

  function CheckPending(s: State, w: int, pending: PendingFate): (r: State)
    ensures r.db == s.db && r.stars == s.stars
    ensures r.contexts == s.contexts && r.snapshots == s.snapshots && r.locks == s.locks
    ensures forall v :: v != w ==> r.Of(v) == s.Of(v)
  {
    var phase := s.Of(w).phase;
    if !phase.EnterLoaded? then s
    else if pending.NotBegun? then s.Move(w, Releasing(phase.playerId, EnterRefusal(pending.error)))
    else if pending.Seen? && HasPending(s.db, phase.playerId) then
      s.Move(w, Releasing(phase.playerId, EnterRefusal(UnfinishedBattle)))
    else s.Move(w, EnterChecked(phase.playerId, phase.cfg, phase.stamina, phase.battleId))
  }

  function CommitEnter(s: State, w: int, tx: TxFate): (r: State)
    ensures r.locks == s.locks && r.contexts == s.contexts && r.snapshots == s.snapshots
    ensures r.stars == s.stars
    ensures r.db == s.db || (s.Of(w).phase.EnterChecked? &&
              EnterWrites(s.db, s.Of(w).phase.playerId, s.Of(w).phase.cfg, s.Of(w).phase.battleId) == Written(r.db))
    ensures forall v :: v != w ==> r.Of(v) == s.Of(v)
  {
    var phase := s.Of(w).phase;
    if !phase.EnterChecked? then s
    else
      var p := phase.playerId;
      var written := EnterWrites(s.db, p, phase.cfg, phase.battleId);
      if tx.RolledBack? then s.Move(w, Releasing(p, EnterRefusal(tx.error)))
      else if written.Aborted? then s.Move(w, Releasing(p, EnterRefusal(written.message)))
      else
        var after := s.(db := written.tables);
        if tx.Clean? then
          after.Move(w, EnterCommitted(p, EnteredContext(phase.battleId, p, phase.cfg),
                                      phase.stamina - phase.cfg.costStamina))
        else
          after.Move(w, Releasing(p, EnterRefusal(tx.error)))
  }

  /** HSET of the named fields; without any, no key comes into being. */
  function SavedContexts(contexts: map<string, Hash>, ctx: BattleContext, names: set<string>): map<string, Hash>
  {
    if names !! CONTEXT_FIELDS then contexts
    else
      var before := if ctx.battleId in contexts then contexts[ctx.battleId] else map[];
      contexts[ctx.battleId := Stored(before, EncodeContext(ctx), names)]
  }

  function SavedSnapshots(snapshots: map<int, Hash>, p: int, state: PlayerState, names: set<string>): map<int, Hash>
  {
    if names !! SNAPSHOT_FIELDS then snapshots
    else
      var before := if p in snapshots then snapshots[p] else map[];
      snapshots[p := Stored(before, EncodeSnapshot(state), names)]
  }

  function SaveEntered(s: State, w: int, names: set<string>): (r: State)
    ensures r.db == s.db && r.stars == s.stars
    ensures r.snapshots == s.snapshots && r.locks == s.locks
    ensures forall v :: v != w ==> r.Of(v) == s.Of(v)
  {
    var phase := s.Of(w).phase;
    if !phase.EnterCommitted? then s
    else
      s.(contexts := SavedContexts(s.contexts, phase.ctx, names))
       .Move(w, Invalidating(phase.playerId, Entered(phase.ctx.battleId, phase.remain)))
  }

  /** The checks on a battle context, wherever it was found. */
  function CheckContext(s: State, w: int, p: int, ctx: BattleContext, cfg: DungeonConfig, star: int): (r: State)
    ensures r.db == s.db && r.stars == s.stars
    ensures r.contexts == s.contexts && r.snapshots == s.snapshots && r.locks == s.locks
    ensures forall v :: v != w ==> r.Of(v) == s.Of(v)
  {
    if ctx.playerId != p || ctx.dungeonId != cfg.dungeonId then
      s.Move(w, Releasing(p, Refusal(BattleMismatch, ContextMismatch)))
    else if ctx.settled then
      s.Move(w, Releasing(p, Refusal(BattleAlreadySettled, AlreadySettled)))
    else
      s.Move(w, SettleFound(p, ctx, cfg, star))
  }

  /** The cached context is there but cannot be read: a field is missing, and map::at throws. */
  predicate TornContextAt(contexts: map<string, Hash>, id: string)
  {
    id in contexts && DecodeContext(id, contexts[id]).None?
  }

  /** HGETALL.  Nobody catches what reading a torn context throws: the process dies, and the lock it holds
      stays behind. */
  function ReadContext(s: State, w: int, answered: bool): (r: State)
    ensures r.db == s.db && r.stars == s.stars
    ensures r.contexts == s.contexts && r.snapshots == s.snapshots
    ensures forall v :: v != w ==> r.Of(v) == s.Of(v)
  {
    var phase := s.Of(w).phase;
    if !phase.SettleLocked? then s
    else if answered && TornContextAt(s.contexts, phase.battleId) then Restart(s, w)
    else if answered && phase.battleId in s.contexts then
      var found := DecodeContext(phase.battleId, s.contexts[phase.battleId]).value;
      CheckContext(s, w, phase.playerId, found, phase.cfg, phase.star)
    else s.Move(w, SettleMissed(phase.playerId, phase.battleId, phase.cfg, phase.star))
  }

  function ReadBattle(s: State, w: int, answered: bool): (r: State)
    ensures r.db == s.db && r.stars == s.stars
    ensures r.contexts == s.contexts && r.snapshots == s.snapshots && r.locks == s.locks
    ensures forall v :: v != w ==> r.Of(v) == s.Of(v)
  {
    var phase := s.Of(w).phase;
    if !phase.SettleMissed? then s
    else
      var found := if answered then FindBattle(s.db, phase.battleId) else None;
      if found.None? then s.Move(w, Releasing(phase.playerId, Refusal(BattleNotFound, BattleNotFoundText)))
      else CheckContext(s, w, phase.playerId, found.value, phase.cfg, phase.star)
  }

  function ReadFirstClear(s: State, w: int, answered: bool): (r: State)
    ensures r.db == s.db && r.stars == s.stars
    ensures r.contexts == s.contexts && r.snapshots == s.snapshots && r.locks == s.locks
    ensures forall v :: v != w ==> r.Of(v) == s.Of(v)
  {
    var phase := s.Of(w).phase;
    if !phase.SettleFound? then s
    else
      var firstClear := !(answered && (phase.ctx.playerId, phase.cfg.dungeonId) in s.db.progress);
      s.Move(w, SettleRead(phase.playerId, phase.ctx, phase.cfg, phase.star, firstClear))
  }

  function CommitSettle(s: State, w: int, tx: TxFate): (r: State)
    ensures r.locks == s.locks && r.contexts == s.contexts && r.snapshots == s.snapshots
    ensures (r.db == s.db && r.stars == s.stars) || (s.Of(w).phase.SettleRead? &&
              var phase := s.Of(w).phase;
              && SettleWrites(s.db, phase.ctx, phase.cfg, phase.star, phase.firstClear) == Written(r.db)
              && r.stars == s.stars[phase.ctx.battleId := phase.star])
    ensures forall v :: v != w ==> r.Of(v) == s.Of(v)
  {
    var phase := s.Of(w).phase;
    if !phase.SettleRead? then s
    else
      var p := phase.playerId;
      var written := SettleWrites(s.db, phase.ctx, phase.cfg, phase.star, phase.firstClear);
      if tx.RolledBack? then s.Move(w, Releasing(p, SettleRefusal(tx.error)))
      else if written.Aborted? then s.Move(w, Releasing(p, SettleRefusal(written.message)))
      else
        var after := s.(db := written.tables, stars := s.stars[phase.ctx.battleId := phase.star]);
        if tx.Clean? then
          after.Move(w, SettleCommitted(p, phase.ctx.battleId,
                                       SettledReply(phase.firstClear, SettleRewards(phase.cfg, phase.firstClear))))
        else
          after.Move(w, Releasing(p, SettleRefusal(tx.error)))
  }

  function DropContext(s: State, w: int, done: bool): (r: State)
    ensures r.db == s.db && r.stars == s.stars
    ensures r.snapshots == s.snapshots && r.locks == s.locks
    ensures forall v :: v != w ==> r.Of(v) == s.Of(v)
  {
    var phase := s.Of(w).phase;
    if !phase.SettleCommitted? then s
    else
      s.(contexts := if done then s.contexts - {phase.battleId} else s.contexts)
       .Move(w, Invalidating(phase.playerId, phase.reply))
  }

  function DropSnapshot(s: State, w: int, done: bool): (r: State)
    ensures r.db == s.db && r.stars == s.stars
    ensures r.contexts == s.contexts && r.locks == s.locks
    ensures forall v :: v != w ==> r.Of(v) == s.Of(v)
  {
    var phase := s.Of(w).phase;
    if !phase.Invalidating? then s
    else
      s.(snapshots := if done then s.snapshots - {phase.playerId} else s.snapshots)
       .Move(w, Releasing(phase.playerId, phase.reply))
  }

  function Orphaned(locks: map<int, Holder>, w: int): map<int, Holder>
  {
    map p | p in locks :: if locks[p] == Held(w) then Orphan else locks[p]
  }

  /** DEL takes the key whoever set it; if it fails, nobody is left to release it. */
  function Unlock(s: State, w: int, done: bool): (r: State)
    ensures r.db == s.db && r.stars == s.stars
    ensures r.contexts == s.contexts && r.snapshots == s.snapshots
    ensures forall v :: v != w ==> r.Of(v) == s.Of(v)
  {
    var phase := s.Of(w).phase;
    if !phase.Releasing? then s
    else
      s.(locks := if done then s.locks - {phase.playerId} else Orphaned(s.locks, w)).Answer(w, phase.reply)
  }

  function Restart(s: State, w: int): (r: State)
    ensures r.db == s.db && r.stars == s.stars
    ensures r.contexts == s.contexts && r.snapshots == s.snapshots
    ensures forall v :: v != w ==> r.Of(v) == s.Of(v)
  {
    s.(locks := Orphaned(s.locks, w), workers := s.workers[w := Worker(1, Idle, NoReply)])
  }

  function Step(s: State, e: Event): State
  {
    match e
    case EnterAcquire(w, p, cfg, lock) => Acquire(s, w, p, EnterLocked(p, cfg), lock)
    case EnterLoad(w, answered) => Load(s, w, answered)
    case PendingRead(w, pending) => CheckPending(s, w, pending)
    case EnterCommit(w, tx) => CommitEnter(s, w, tx)
    case SaveContext(w, names) => SaveEntered(s, w, names)
    case SettleAcquire(w, p, id, cfg, star, lock) =>
      if 0 < star <= cfg.maxStar then Acquire(s, w, p, SettleLocked(p, id, cfg, star), lock) else s
    case ContextRead(w, answered) => ReadContext(s, w, answered)
    case BattleRead(w, answered) => ReadBattle(s, w, answered)
    case FirstClearRead(w, answered) => ReadFirstClear(s, w, answered)
    case SettleCommit(w, tx) => CommitSettle(s, w, tx)
    case DeleteContext(w, done) => DropContext(s, w, done)
    case Invalidate(w, done) => DropSnapshot(s, w, done)
    case Release(w, done) => Unlock(s, w, done)
    case Crash(w) => Restart(s, w)
    case ExpireLock(p) => s.(locks := s.locks - {p})
    case ExpireContext(id) => s.(contexts := s.contexts - {id})
    case WriteSnapshot(p, state, names) => s.(snapshots := SavedSnapshots(s.snapshots, p, state, names))
    case ExpireSnapshot(p) => s.(snapshots := s.snapshots - {p})
  }

  function Run(s: State, events: seq<Event>): State
  {
    Fold(Step, s, events)
  }

  lemma RunSnoc(s: State, events: seq<Event>, e: Event)
    ensures Run(s, events + [e]) == Step(Run(s, events), e)
  {
    FoldSnoc(Step, s, events, e);
  }

  lemma RunCons(s: State, e: Event, events: seq<Event>)
    ensures Run(s, [e] + events) == Run(Step(s, e), events)
  {
    FoldCons(Step, s, e, events);
  }

  lemma RunConcat(s: State, first: seq<Event>, second: seq<Event>)
    ensures Run(s, first + second) == Run(Run(s, first), second)
  {
    FoldConcat(Step, s, first, second);
  }

  /** A cluster before its first request: no worker busy, no lock, no cache, no battle. */
  ghost predicate Initial(s: State)
  {
    && Solvent(s.db) && s.db.battles == map[] && s.db.progress == map[] && s.db.rewards == map[]
    && s.locks == map[] && s.contexts == map[] && s.stars == map[]
    && forall w :: s.Of(w).phase.Idle?
  }
}
