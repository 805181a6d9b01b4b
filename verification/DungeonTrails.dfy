/**
 What one request adds to the history of the shared stores: which events are its own, in what order and
 how often, and what its one commit did to the tables, whatever the others do in between.
 */
module DungeonTrails {
  import opened Common
  import opened Tables
  import opened DungeonProtocol
  import opened DungeonReplies
  import opened DungeonCluster
  import opened DungeonSafety

  datatype Request = EnterRequest | SettleRequest

  predicate OfRequest(request: Request, me: int, e: Event)
  {
    && (e.Invalidate? || e.Release? || if request.EnterRequest? then IsEnterEvent(e) else IsSettleEvent(e))
    && e.w == me
  }

  predicate EndsWith(trace: seq<Event>, e: Event)
  {
    trace != [] && trace[|trace| - 1] == e
  }

  predicate IsCommit(e: Event) { e.EnterCommit? || e.SettleCommit? }

  /** The place of an event in its request. */
  function Rank(e: Event): nat
  {
    match e
    case EnterAcquire(_, _, _, _) => 0
    case SettleAcquire(_, _, _, _, _, _) => 0
    case EnterLoad(_, _) => 1
    case ContextRead(_, _) => 1
    case PendingRead(_, _) => 2
    case BattleRead(_, _) => 2
    case FirstClearRead(_, _) => 3
    case EnterCommit(_, _) => 4
    case SettleCommit(_, _) => 4
    case SaveContext(_, _) => 5
    case DeleteContext(_, _) => 5
    case Invalidate(_, _) => 6
    case _ => 7
  }

  /** From position `from` on, this worker's own events are events of one request, ranked from `low` to
      below `high`, in order and none twice; the only commit among them, if any, is at `at`. */
  ghost predicate Trail(trace: seq<Event>, from: nat, me: int, request: Request, low: nat, high: nat, at: Option<nat>)
  {
    && (at.Some? ==> from <= at.value < |trace| && !NotBy(me, trace[at.value]) && IsCommit(trace[at.value]))
    && (forall i :: from <= i < |trace| && !NotBy(me, trace[i]) ==>
          && OfRequest(request, me, trace[i]) && low <= Rank(trace[i]) < high
          && (IsCommit(trace[i]) ==> at == Some(i)))
    && (forall i, j :: from <= i < j < |trace| && !NotBy(me, trace[i]) && !NotBy(me, trace[j]) ==>
          Rank(trace[i]) < Rank(trace[j]))
  }

  lemma TrailGrows(before: seq<Event>, after: seq<Event>, from: nat, me: int, request: Request,
                   low: nat, mid: nat, high: nat, at: Option<nat>, at': Option<nat>)
    requires from <= |before| && before <= after && low <= mid <= high && (at.None? || at'.None?)
    requires Trail(before, from, me, request, low, mid, at) && Trail(after, |before|, me, request, mid, high, at')
    ensures Trail(after, from, me, request, low, high, if at.Some? then at else at')
  {
    hide Rank, OfRequest;
    assert forall i :: 0 <= i < |before| ==> before[i] == after[i];
  }

  /** The others act: nothing is added to the trail. */
  lemma OthersLeaveNoTrail(trace: seq<Event>, others: seq<Event>, me: int, request: Request, rank: nat)
    requires NoneBy(me, others)
    ensures Trail(trace + others, |trace|, me, request, rank, rank, None)
  {
    assert forall i :: |trace| <= i < |trace + others| ==> (trace + others)[i] == others[i - |trace|];
  }

  lemma OneStep(trace: seq<Event>, e: Event, me: int, request: Request)
    requires OfRequest(request, me, e)
    ensures Trail(trace + [e], |trace|, me, request, Rank(e), Rank(e) + 1, if IsCommit(e) then Some(|trace|) else None)
  {
    hide Rank;
  }

  /** The others act, then this worker takes one step. */
  lemma StepTrail(trace: seq<Event>, others: seq<Event>, e: Event, me: int, request: Request)
    requires NoneBy(me, others) && OfRequest(request, me, e)
    ensures Trail(trace + others + [e], |trace|, me, request, Rank(e), Rank(e) + 1,
                  if IsCommit(e) then Some(|trace| + |others|) else None)
  {
    hide Rank;
    OthersLeaveNoTrail(trace, others, me, request, Rank(e));
    OneStep(trace + others, e, me, request);
    hide OfRequest;
    TrailGrows(trace + others, trace + others + [e], |trace|, me, request, Rank(e), Rank(e), Rank(e) + 1,
               None, if IsCommit(e) then Some(|trace + others|) else None);
  }

  lemma WiderTrail(trace: seq<Event>, from: nat, me: int, request: Request,
                   low: nat, high: nat, low': nat, high': nat, at: Option<nat>)
    requires Trail(trace, from, me, request, low, high, at) && low' <= low && high <= high'
    ensures Trail(trace, from, me, request, low', high', at)
  {
    hide Rank, OfRequest;
  }

  // ---- the read and the commit ----

  /** The read a request's commit goes by: where it is in the history, whether it was answered, and the
      tables it saw.  An enter request loads the player, a settlement looks for a progress row. */
  datatype Read = Read(at: nat, answered: bool, tables: Tables)

  /** The commit of a request: where it is in the history, how it went, the statement that did not go
      through, if any, and the tables before and after it. */
  datatype Commit = Commit(at: nat, tx: TxFate, failed: Option<Statement>, before: Tables, after: Tables)

  const NO_READ := Read(0, false, Tables(map[], map[], map[], map[], map[]))

  function ReadEvent(request: Request, me: int, answered: bool): Event
  {
    if request.EnterRequest? then EnterLoad(me, answered) else FirstClearRead(me, answered)
  }

  function CommitEvent(request: Request, me: int, tx: TxFate): Event
  {
    if request.EnterRequest? then EnterCommit(me, tx) else SettleCommit(me, tx)
  }

  ghost predicate WasRead(origin: State, trace: seq<Event>, from: nat, me: int, request: Request, read: Read)
  {
    && from <= read.at < |trace| && trace[read.at] == ReadEvent(request, me, read.answered)
    && read.tables == Run(origin, trace[..read.at]).db
  }

  ghost predicate Happened(origin: State, trace: seq<Event>, me: int, request: Request, commit: Commit)
  {
    && commit.at < |trace| && trace[commit.at] == CommitEvent(request, me, commit.tx)
    && commit.before == Run(origin, trace[..commit.at]).db && commit.after == Run(origin, trace[..commit.at + 1]).db
  }

  /** From position `from` on, if there is a commit, the read comes first and both happened as recorded. */
  ghost predicate Accounted(origin: State, trace: seq<Event>, from: nat, me: int, request: Request, read: Read,
                            commit: Option<Commit>)
  {
    commit.Some? ==>
      && WasRead(origin, trace, from, me, request, read) && read.at < commit.value.at
      && Happened(origin, trace, me, request, commit.value)
  }

  lemma StaysRead(origin: State, before: seq<Event>, after: seq<Event>, from: nat, me: int, request: Request,
                  read: Read)
    requires before <= after && WasRead(origin, before, from, me, request, read)
    ensures WasRead(origin, after, from, me, request, read)
  {
    assert after[..read.at] == before[..read.at];
  }

  /** The history goes on, and may be looked at from further back. */
  lemma StaysAccounted(origin: State, before: seq<Event>, after: seq<Event>, from: nat, from': nat, me: int,
                       request: Request, read: Read, commit: Option<Commit>)
    requires before <= after && from' <= from && Accounted(origin, before, from, me, request, read, commit)
    ensures Accounted(origin, after, from', me, request, read, commit)
  {
    hide Run;
    if commit.Some? {
      StaysRead(origin, before, after, from, me, request, read);
      var at := commit.value.at;
      assert after[..at] == before[..at] && after[..at + 1] == before[..at + 1];
    }
  }

  function PlaceOf(commit: Option<Commit>): Option<nat>
  {
    if commit.Some? then Some(commit.value.at) else None
  }

  /** None of this worker's events since `from` changed any table. */
  ghost predicate LeftTablesAlone(origin: State, trace: seq<Event>, from: nat, me: int)
  {
    forall i :: from <= i < |trace| && !NotBy(me, trace[i]) ==>
      Run(origin, trace[..i + 1]).db == Run(origin, trace[..i]).db
  }

  /** A request changes tables with its commit or not at all. */
  lemma OnlyCommitsWrite(origin: State, trace: seq<Event>, from: nat, me: int, request: Request,
                         low: nat, high: nat, commit: Option<Commit>)
    requires Trail(trace, from, me, request, low, high, PlaceOf(commit))
    requires commit.Some? ==>
               Happened(origin, trace, me, request, commit.value) && commit.value.before == commit.value.after
    ensures LeftTablesAlone(origin, trace, from, me)
  {
    hide Step, Run, Rank;
    forall i | from <= i < |trace| && !NotBy(me, trace[i])
      ensures Run(origin, trace[..i + 1]).db == Run(origin, trace[..i]).db
    {
      if !IsCommit(trace[i]) {
        assert trace[..i + 1] == trace[..i] + [trace[i]];
        RunSnoc(origin, trace[..i], trace[i]);
        OtherStepsKeepTables(Run(origin, trace[..i]), trace[i]);
      }
    }
  }

  // ---- what the reply tells about the tables ----

  /** An enter request reports success exactly when its commit took the stamina and added the battle and
      the answer to COMMIT arrived, and then the stamina it read less the cost.  A commit whose answer was
      `lost` did the same; any other changed nothing, and is refused for lack of stamina exactly if its UPDATE
      did not go through. */
  ghost predicate EnterTold(reply: Reply, lost: bool, commit: Option<Commit>, read: Read, p: int, cfg: DungeonConfig,
                            id: string)
  {
    && (reply.Entered? || reply.Refusal?) && (lost <==> commit.Some? && commit.value.tx.CommitUnacknowledged?)
    && (reply.Entered? ==>
          && !lost && reply.battleId == id && read.answered
          && reply.remainStamina == StaminaOf(read.tables, p) - cfg.costStamina)
    && (reply.Entered? || lost ==>
          commit.Some? && EnterWrites(commit.value.before, p, cfg, id) == Written(commit.value.after))
    && (!reply.Entered? && !lost && commit.Some? ==> commit.value.after == commit.value.before)
    && (reply.Refusal? && commit.Some? ==>
          FailedAs(reply, commit.value, TakeStamina(p, cfg.costStamina), StaminaNotEnough, StaminaNotEnoughText))
  }

  /** A refusal after a commit was tried: one code if this statement did not go through, a storage error with
      the text of MySQL otherwise. */
  predicate FailedAs(reply: Reply, commit: Commit, statement: Statement, code: ErrorCode, message: Message)
    requires reply.Refusal?
  {
    if commit.failed == Some(statement) then reply == Refusal(code, message)
    else reply.code == StorageError && reply.message.SqlError?
  }

  /** Why an enter request that took the lock is refused, by the tables it loaded the player from and, if it
      came that far, by its transaction. */
  predicate EnterRefusedFor(reply: Reply, commit: Option<Commit>, read: Read, p: int, cfg: DungeonConfig)
  {
    reply.Refusal? ==>
      var stamina := if p in read.tables.assets then read.tables.assets[p].stamina else 0;
      if !read.answered || p !in read.tables.players then
        commit.None? && reply == Refusal(PlayerNotFound, PlayerNotFoundText)
      else if read.tables.players[p].level < cfg.requiredLevel then
        commit.None? && reply == Refusal(DungeonLocked, LevelNotEnough)
      else if stamina < cfg.costStamina then
        commit.None? && reply == Refusal(StaminaNotEnough, StaminaNotEnoughText)
      else if commit.None? then
        reply == Refusal(PlayerBusy, UnfinishedBattle) || (reply.code == StorageError && reply.message.SqlError?)
      else
        FailedAs(reply, commit.value, TakeStamina(p, cfg.costStamina), StaminaNotEnough, StaminaNotEnoughText)
  }

  /** The request loaded the player where `read` says, and if it was refused, that is why. */
  ghost predicate EnterExplained(origin: State, trace: seq<Event>, from: nat, me: int, reply: Reply,
                                 commit: Option<Commit>, read: Read, p: int, cfg: DungeonConfig)
  {
    WasRead(origin, trace, from, me, EnterRequest, read) && EnterRefusedFor(reply, commit, read, p, cfg)
  }

  lemma StaysExplained(origin: State, before: seq<Event>, after: seq<Event>, from: nat, from': nat, me: int,
                       reply: Reply, commit: Option<Commit>, read: Read, p: int, cfg: DungeonConfig)
    requires before <= after && from' <= from && EnterExplained(origin, before, from, me, reply, commit, read, p, cfg)
    ensures EnterExplained(origin, after, from', me, reply, commit, read, p, cfg)
  {
    hide EnterRefusedFor, Run;
    StaysRead(origin, before, after, from, me, EnterRequest, read);
  }

  /** The remaining stamina reported is the committed one exactly if the stamina read was still the player's
      at the commit. */
  lemma RemainIsTold(reply: Reply, lost: bool, commit: Option<Commit>, read: Read, p: int, cfg: DungeonConfig,
                     id: string)
    requires EnterTold(reply, lost, commit, read, p, cfg, id) && reply.Entered?
    ensures reply.remainStamina == StaminaOf(commit.value.after, p)
       <==> StaminaOf(read.tables, p) == StaminaOf(commit.value.before, p)
  {
    hide EnterWrites;
    EnterEffect(commit.value.before, p, cfg, id);
  }

  /** The writes of a settlement; of the context they depend on the battle id and the player only. */
  function SettleOf(t: Tables, p: int, id: string, cfg: DungeonConfig, star: int, firstClear: bool): TxResult
  {
    SettleWrites(t, BattleContext(id, p, cfg.dungeonId, 0, 0, false), cfg, star, firstClear)
  }

  lemma SettleOfAnyContext(t: Tables, ctx: BattleContext, cfg: DungeonConfig, star: int, firstClear: bool)
    ensures SettleWrites(t, ctx, cfg, star, firstClear)
         == SettleOf(t, ctx.playerId, ctx.battleId, cfg, star, firstClear)
  {
  }

  /** What a settlement takes for a first clear: an unanswered look counts as "no row". */
  predicate LooksFirst(read: Read, p: int, d: int)
  {
    !(read.answered && (p, d) in read.tables.progress)
  }

  /** The same for a settlement, which reports and pays the first clear it believes in, and reports exactly
      the payments it made. */
  ghost predicate SettleTold(reply: Reply, lost: bool, commit: Option<Commit>, read: Read, p: int, id: string,
                             cfg: DungeonConfig, star: int)
  {
    var firstClear := LooksFirst(read, p, cfg.dungeonId);
    && !reply.Entered? && (lost <==> commit.Some? && commit.value.tx.CommitUnacknowledged?)
    && (reply.SettledReply? ==> !lost && reply.firstClear == firstClear)
    && (reply.SettledReply? ==> reply.rewards == SettleRewards(cfg, firstClear))
    && (reply.SettledReply? ==>
          commit.Some? && TellsPayment(reply.rewards, commit.value.before, commit.value.after, p, id))
    && (reply.SettledReply? || lost ==>
          commit.Some? && SettleOf(commit.value.before, p, id, cfg, star, firstClear) == Written(commit.value.after))
    && (!reply.SettledReply? && !lost && commit.Some? ==> commit.value.after == commit.value.before)
    && (reply.Refusal? && commit.Some? ==>
          FailedAs(reply, commit.value, MarkSettled(id), BattleAlreadySettled, AlreadySettled))
  }

  /** The refusals of a settlement that never came to its transaction. */
  predicate RefusedUntried(reply: Reply)
  {
    || reply == Refusal(PlayerBusy, PlayerIsBusy) || reply == Refusal(BattleNotFound, BattleNotFoundText)
    || reply == Refusal(BattleMismatch, ContextMismatch) || reply == Refusal(BattleAlreadySettled, AlreadySettled)
  }

  /** With nobody interfering, the commit starts from the tables before the request and ends with those after. */
  ghost predicate CommitAlone(t: Tables, t': Tables, commit: Option<Commit>)
  {
    if commit.Some? then commit.value.before == t && commit.value.after == t' else t' == t
  }
}
