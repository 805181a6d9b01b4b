/**
 The two transactions of the dungeon server, statement by statement, under every choice of failing
 statement.  Each call is proved to be exactly two events of the protocol: its unlocked read, and its
 commit.
 */
module MySqlDungeon {
  import opened Common
  import opened Tables
  import opened DungeonProtocol
  import opened DungeonReplies
  import opened DungeonCluster
  import opened DungeonTrails

  datatype EnterResult = EnterResult(success: bool, remainStamina: int, error: Message, ctx: BattleContext)

  datatype SettleResult = SettleResult(success: bool, firstClear: bool, error: Message, rewards: seq<Reward>)

  /** Where a finished call leaves its worker. */
  function AfterEnter(p: int, result: EnterResult): Phase
  {
    if result.success then EnterCommitted(p, result.ctx, result.remainStamina)
    else Releasing(p, EnterRefusal(result.error))
  }

  function AfterSettle(p: int, id: string, result: SettleResult): Phase
  {
    if result.success then SettleCommitted(p, id, SettledReply(result.firstClear, result.rewards))
    else Releasing(p, SettleRefusal(result.error))
  }

  /** The statements of the settle transaction, in order. */
  function SettleScriptOf(ctx: BattleContext, cfg: DungeonConfig, star: int, firstClear: bool): (script: seq<Statement>)
    ensures |script| == if firstClear then 5 else 4
  {
    [MarkSettled(ctx.battleId),
     CreditAssets(ctx.playerId, cfg.normalGold, if firstClear then Some(cfg.firstClearDiamond) else None),
     UpsertProgress(ctx.playerId, cfg.dungeonId, star, firstClear),
     InsertReward(RewardKey(ctx.playerId, ctx.battleId, Gold), cfg.normalGold)]
    + if firstClear then [InsertReward(RewardKey(ctx.playerId, ctx.battleId, Diamond), cfg.firstClearDiamond)] else []
  }

  /** Where the enter transaction leaves the stores and its worker. */
  lemma EnterCommitEffect(s: State, me: int, p: int, stamina: int, cfg: DungeonConfig, id: string, tx: TxFate)
    requires s.Of(me).phase == EnterChecked(p, cfg, stamina, id)
    ensures var s', written := Step(s, EnterCommit(me, tx)), EnterWrites(s.db, p, cfg, id);
            var committed := written.Written? && !tx.RolledBack?;
            var remain := stamina - cfg.costStamina;
            && s'.db == (if committed then written.tables else s.db)
            && s'.locks == s.locks && s'.contexts == s.contexts && s'.snapshots == s.snapshots
            && s'.Of(me) == s.Of(me).(phase :=
                 if committed && tx.Clean? then EnterCommitted(p, EnteredContext(id, p, cfg), remain)
                 else Releasing(p,
                   EnterRefusal(if written.Aborted? && !tx.RolledBack? then written.message else tx.error)))
  {
    hide EnterWrites, EnterRefusal, EnteredContext;
  }

  /** Where the settle transaction leaves the stores and its worker. */
  lemma SettleCommitEffect(s: State, me: int, ctx: BattleContext, cfg: DungeonConfig, star: int, firstClear: bool,
                           tx: TxFate)
    requires s.Of(me).phase == SettleRead(ctx.playerId, ctx, cfg, star, firstClear)
    ensures var s', written := Step(s, SettleCommit(me, tx)), SettleWrites(s.db, ctx, cfg, star, firstClear);
            var committed := written.Written? && !tx.RolledBack?;
            var reply := SettledReply(firstClear, SettleRewards(cfg, firstClear));
            && s'.db == (if committed then written.tables else s.db)
            && s'.locks == s.locks && s'.contexts == s.contexts && s'.snapshots == s.snapshots
            && s'.Of(me) == s.Of(me).(phase :=
                 if committed && tx.Clean? then SettleCommitted(ctx.playerId, ctx.battleId, reply)
                 else Releasing(ctx.playerId,
                   SettleRefusal(if written.Aborted? && !tx.RolledBack? then written.message else tx.error)))
  {
    hide SettleWrites, SettleRefusal, SettleRewards;
  }

  lemma FirstClearEffect(s: State, me: int, ctx: BattleContext, cfg: DungeonConfig, star: int, answered: bool)
    requires s.Of(me).phase == SettleFound(ctx.playerId, ctx, cfg, star)
    ensures var s' := Step(s, FirstClearRead(me, answered));
            var firstClear := !(answered && (ctx.playerId, cfg.dungeonId) in s.db.progress);
            && s'.db == s.db && s'.locks == s.locks && s'.contexts == s.contexts && s'.snapshots == s.snapshots
            && s'.Of(me) == s.Of(me).(phase := SettleRead(ctx.playerId, ctx, cfg, star, firstClear))
  {
  }

  class MySqlDungeonRepository {
    const cluster: Cluster
    const mysql: MySqlClient

    constructor (mysql: MySqlClient)
      ensures this.mysql == mysql && cluster == mysql.cluster
    {
      this.mysql := mysql;
      this.cluster := mysql.cluster;
    }

    ghost predicate Valid()
      reads this, mysql, cluster
    {
      mysql.cluster == cluster && cluster.Valid() && !mysql.changed
    }

    /** The writes of the enter transaction up to, but not including, COMMIT.  `failed` is the statement
        that did not go through; the error is "stamina not enough" exactly if that was the UPDATE, be it
        for lack of stamina or for any other reason. */
    method EnterStatements(p: int, cfg: DungeonConfig, id: string)
      returns (ok: bool, error: Message, fault: bool, ghost failed: Option<Statement>)
      requires mysql.cluster == cluster && !mysql.changed
      modifies mysql, cluster`faults
      ensures ok ==> EnterWrites(cluster.db, p, cfg, id) == Written(mysql.Current()) && mysql.changed
      ensures !ok && !fault ==> EnterWrites(cluster.db, p, cfg, id) == Aborted(error)
      ensures cluster.faults == old(cluster.faults) + if fault then 1 else 0
      ensures ok ==> !fault
      ensures ok <==> failed.None?
      ensures failed.Some? ==>
                && failed.value in [TakeStamina(p, cfg.costStamina),
                                    InsertBattle(id, p, cfg.dungeonId, cfg.costStamina)]
                && (error == StaminaNotEnoughText <==> failed.value.TakeStamina?)
                && (error == StaminaNotEnoughText || error.SqlError?)
    {
      var rows: nat := 0;
      failed := None;
      ok, rows, error, fault := mysql.Execute(TakeStamina(p, cfg.costStamina), rows);
      if !ok || rows != 1 {
        ok, failed := false, Some(TakeStamina(p, cfg.costStamina));
        if rows == 0 { error := StaminaNotEnoughText; }
        return;
      }
      var ignored: nat;
      ok, ignored, error, fault := mysql.Execute(InsertBattle(id, p, cfg.dungeonId, cfg.costStamina), 0);
      if !ok { failed := Some(InsertBattle(id, p, cfg.dungeonId, cfg.costStamina)); }
    }

    /** START TRANSACTION and the unlocked check for an unfinished battle. */
    method CheckUnfinished(me: int, p: int, ghost stamina: int, ghost cfg: DungeonConfig, ghost id: string)
      returns (proceed: bool, error: Message, pending: PendingFate)
      requires Valid() && cluster.View().Of(me).phase == EnterLoaded(p, cfg, stamina, id)
      modifies mysql, cluster
      ensures Valid() && cluster.View() == Step(old(cluster.View()), PendingRead(me, pending))
      ensures cluster.View().Of(me) == old(cluster.View().Of(me)).(phase :=
                if proceed then EnterChecked(p, cfg, stamina, id) else Releasing(p, EnterRefusal(error)))
      ensures cluster.trace == old(cluster.trace) + [PendingRead(me, pending)]
      ensures !proceed ==> if pending.NotBegun? then error == pending.error && error.SqlError?
                           else error == UnfinishedBattle && pending.Seen? && HasPending(old(cluster.db), p)
      ensures cluster.faults >= old(cluster.faults) && (cluster.faults == old(cluster.faults) ==> pending == Seen)
      ensures cluster.locks == old(cluster.locks)
    {
      hide Run, HasPending;
      var before := cluster.View();
      proceed, error := mysql.BeginTransaction();
      if !proceed {
        pending := NotBegun(error);
        cluster.Record(before, PendingRead(me, pending));
        return;
      }
      var answered := mysql.Answered();
      if answered && HasPending(cluster.db, p) {
        proceed, error, pending := false, UnfinishedBattle, Seen;
        mysql.Rollback();
      } else {
        pending := if answered then Seen else Unseen;
      }
      cluster.Record(before, PendingRead(me, pending));
    }

    /** The writes of the enter transaction and its COMMIT or ROLLBACK. */
    method WriteEntered(me: int, p: int, stamina: int, cfg: DungeonConfig, id: string)
      returns (result: EnterResult, tx: TxFate, ghost failed: Option<Statement>)
      requires Valid() && cluster.View().Of(me).phase == EnterChecked(p, cfg, stamina, id)
      modifies mysql, cluster
      ensures Valid() && cluster.View() == Step(old(cluster.View()), EnterCommit(me, tx))
      ensures cluster.View().Of(me) == old(cluster.View().Of(me)).(phase := AfterEnter(p, result))
      ensures result.ctx == BattleContext(id, p, cfg.dungeonId, cfg.costStamina, cfg.maxStar, false)
      ensures result.success ==> result.remainStamina == stamina - cfg.costStamina
      ensures cluster.trace == old(cluster.trace) + [EnterCommit(me, tx)]
      ensures result.success || tx.CommitUnacknowledged? ==>
                EnterWrites(old(cluster.db), p, cfg, id) == Written(cluster.db)
      ensures !result.success && !tx.CommitUnacknowledged? ==> cluster.db == old(cluster.db)
      ensures result.success ==> failed.None? && !tx.CommitUnacknowledged?
      ensures !result.success ==>
                && (result.error == StaminaNotEnoughText <==> failed == Some(TakeStamina(p, cfg.costStamina)))
                && (result.error == StaminaNotEnoughText || result.error.SqlError?)
      ensures cluster.faults >= old(cluster.faults) && (cluster.faults == old(cluster.faults) ==> tx == Clean)
      ensures cluster.locks == old(cluster.locks)
    {
      hide Run, Step, EnterWrites, EnterRefusal;
      var before := cluster.View();
      result := EnterResult(false, 0, DUPLICATE_KEY, EnteredContext(id, p, cfg));
      var transactionOk, error, fault;
      transactionOk, error, fault, failed := EnterStatements(p, cfg, id);
      if !transactionOk {
        mysql.Rollback();
        result, tx := result.(error := error), if fault then RolledBack(error) else Clean;
      } else {
        var committed, commitError, applied := mysql.Commit();
        if committed {
          result, tx := result.(success := true, remainStamina := stamina - cfg.costStamina), Clean;
        } else {
          mysql.Rollback();
          result, tx := result.(error := commitError),
            if applied then CommitUnacknowledged(commitError) else RolledBack(commitError);
        }
      }
      EnterCommitEffect(before, me, p, stamina, cfg, id, tx);
      cluster.Record(before, EnterCommit(me, tx));
    }

    /** Enter: check for an unfinished battle, then take the stamina and insert the battle row, all
        inside one transaction.  Other workers may act between the check and the first write. */
    method EnterDungeon(me: int, p: int, stamina: int, cfg: DungeonConfig, id: string, others: seq<Event>)
      returns (result: EnterResult, ghost pending: PendingFate, ghost tx: Option<TxFate>, ghost commit: Option<Commit>)
      requires Valid() && NoneBy(me, others)
      requires cluster.View().Of(me).phase == EnterLoaded(p, cfg, stamina, id)
      modifies mysql, cluster
      ensures Valid() && cluster.View().Of(me) == old(cluster.View().Of(me)).(phase := AfterEnter(p, result))
      ensures result.ctx == BattleContext(id, p, cfg.dungeonId, cfg.costStamina, cfg.maxStar, false)
      ensures result.success ==> result.remainStamina == stamina - cfg.costStamina
      ensures cluster.trace == old(cluster.trace) + [PendingRead(me, pending)]
                               + if tx.Some? then others + [EnterCommit(me, tx.value)] else []
      ensures cluster.faults >= old(cluster.faults)
      ensures cluster.faults == old(cluster.faults) ==> pending == Seen && (tx.Some? ==> tx.value == Clean)
      ensures cluster.faults == old(cluster.faults) && others == [] ==>
                cluster.View() == Step(Step(old(cluster.View()), PendingRead(me, Seen)), EnterCommit(me, Clean))
      ensures others == [] ==> cluster.locks == old(cluster.locks)
      ensures commit.Some? == tx.Some?
      ensures commit.Some? ==>
                && commit.value.at == |old(cluster.trace)| + 1 + |others| && commit.value.tx == tx.value
                && Happened(cluster.origin, cluster.trace, me, EnterRequest, commit.value)
                && (if result.success || tx.value.CommitUnacknowledged?
                    then EnterWrites(commit.value.before, p, cfg, id) == Written(commit.value.after)
                    else commit.value.after == commit.value.before)
      ensures result.success ==> tx.Some? && !tx.value.CommitUnacknowledged?
      ensures !result.success && commit.Some? ==>
                && (result.error == StaminaNotEnoughText <==>
                      commit.value.failed == Some(TakeStamina(p, cfg.costStamina)))
                && (result.error == StaminaNotEnoughText || result.error.SqlError?)
      ensures commit.None? ==> if pending.NotBegun? then result.error.SqlError? else result.error == UnfinishedBattle
      ensures others == [] ==> CommitAlone(old(cluster.db), cluster.db, commit)
    {
      hide Run, Step, EnterWrites;
      tx, commit := None, None;
      var proceed, error, fate := CheckUnfinished(me, p, stamina, cfg, id);
      pending := fate;
      if !proceed {
        PendingChangesNothing(old(cluster.View()), me, fate);
        ReleasingSkipsCommit(cluster.View(), me);
        result := EnterResult(false, 0, error, EnteredContext(id, p, cfg));
        return;
      }
      PendingChangesNothing(old(cluster.View()), me, fate);
      cluster.Others(me, others);
      ghost var before, tables := cluster.trace, cluster.db;
      var written;
      ghost var failed;
      result, written, failed := WriteEntered(me, p, stamina, cfg, id);
      assert cluster.trace[..|before|] == before && cluster.trace[..|before| + 1] == cluster.trace;
      tx, commit := Some(written), Some(Commit(|before|, written, failed, tables, cluster.db));
    }

    /** The writes of the settle transaction up to, but not including, COMMIT.  `failed` is the statement
        that did not go through; the error is "battle already settled" exactly if that was the first
        UPDATE, be it because the battle was settled or for any other reason. */
    method SettleStatements(ctx: BattleContext, cfg: DungeonConfig, star: int, firstClear: bool)
      returns (ok: bool, error: Message, fault: bool, ghost failed: Option<Statement>)
      requires mysql.cluster == cluster && !mysql.changed
      modifies mysql, cluster`faults
      ensures ok ==> SettleWrites(cluster.db, ctx, cfg, star, firstClear) == Written(mysql.Current()) && mysql.changed
      ensures !ok && !fault ==> SettleWrites(cluster.db, ctx, cfg, star, firstClear) == Aborted(error)
      ensures cluster.faults == old(cluster.faults) + if fault then 1 else 0
      ensures ok ==> !fault
      ensures ok <==> failed.None?
      ensures failed.Some? ==>
                && failed.value in SettleScriptOf(ctx, cfg, star, firstClear)
                && (error == AlreadySettled <==> failed.value.MarkSettled?)
                && (error == AlreadySettled || error.SqlError?)
    {
      var rows: nat := 0;
      failed := None;
      ok, rows, error, fault := mysql.Execute(MarkSettled(ctx.battleId), rows);
      if !ok || rows != 1 {
        ok, failed := false, Some(MarkSettled(ctx.battleId));
        if rows == 0 { error := AlreadySettled; }
        return;
      }
      var ignored: nat;
      ghost var script := SettleScriptOf(ctx, cfg, star, firstClear);
      var bonus := if firstClear then Some(cfg.firstClearDiamond) else None;
      ok, ignored, error, fault := mysql.Execute(CreditAssets(ctx.playerId, cfg.normalGold, bonus), 0);
      if !ok {
        failed := Some(script[1]);
        return;
      }
      ok, ignored, error, fault := mysql.Execute(UpsertProgress(ctx.playerId, cfg.dungeonId, star, firstClear), 0);
      if !ok {
        failed := Some(script[2]);
        return;
      }
      ok, ignored, error, fault :=
        mysql.Execute(InsertReward(RewardKey(ctx.playerId, ctx.battleId, Gold), cfg.normalGold), 0);
      if !ok {
        failed := Some(script[3]);
        return;
      }
      if !firstClear { return; }
      var diamond := RewardKey(ctx.playerId, ctx.battleId, Diamond);
      ok, ignored, error, fault := mysql.Execute(InsertReward(diamond, cfg.firstClearDiamond), 0);
      if !ok { failed := Some(script[4]); }
    }

    /** START TRANSACTION, the writes, and COMMIT or ROLLBACK. */
    method WriteSettled(me: int, ctx: BattleContext, cfg: DungeonConfig, star: int, firstClear: bool)
      returns (result: SettleResult, tx: TxFate, ghost failed: Option<Statement>)
      requires Valid() && cluster.View().Of(me).phase == SettleRead(ctx.playerId, ctx, cfg, star, firstClear)
      modifies mysql, cluster
      ensures Valid() && cluster.View() == Step(old(cluster.View()), SettleCommit(me, tx))
      ensures cluster.View().Of(me)
           == old(cluster.View().Of(me)).(phase := AfterSettle(ctx.playerId, ctx.battleId, result))
      ensures cluster.trace == old(cluster.trace) + [SettleCommit(me, tx)]
      ensures result.firstClear == firstClear && result.rewards == SettleRewards(cfg, firstClear)
      ensures result.success || tx.CommitUnacknowledged? ==>
                SettleWrites(old(cluster.db), ctx, cfg, star, firstClear) == Written(cluster.db)
      ensures !result.success && !tx.CommitUnacknowledged? ==> cluster.db == old(cluster.db)
      ensures result.success ==> failed.None? && !tx.CommitUnacknowledged?
      ensures !result.success ==>
                && (result.error == AlreadySettled <==> failed == Some(MarkSettled(ctx.battleId)))
                && (result.error == AlreadySettled || result.error.SqlError?)
      ensures cluster.faults >= old(cluster.faults) && (cluster.faults == old(cluster.faults) ==> tx == Clean)
      ensures cluster.locks == old(cluster.locks)
    {
      hide Run, Step, SettleWrites, SettleRefusal, SettleRewards;
      var before := cluster.View();
      result := SettleResult(false, firstClear, DUPLICATE_KEY, SettleRewards(cfg, firstClear));
      failed := None;
      var begun, error := mysql.BeginTransaction();
      if !begun {
        result, tx := result.(error := error), RolledBack(error);
      } else {
        var transactionOk, fault;
        transactionOk, error, fault, failed := SettleStatements(ctx, cfg, star, firstClear);
        if !transactionOk {
          mysql.Rollback();
          result, tx := result.(error := error), if fault then RolledBack(error) else Clean;
        } else {
          var committed, commitError, applied := mysql.Commit();
          if committed {
            result, tx := result.(success := true), Clean;
          } else {
            mysql.Rollback();
            result, tx := result.(error := commitError),
            if applied then CommitUnacknowledged(commitError) else RolledBack(commitError);
          }
        }
      }
      SettleCommitEffect(before, me, ctx, cfg, star, firstClear, tx);
      cluster.Record(before, SettleCommit(me, tx));
    }

    /** Settle: look for a progress row outside any transaction, then mark the battle, credit the
        player, upsert the progress and log the rewards in one transaction.  Other workers may act
        between the look and the transaction. */
    method SettleDungeon(me: int, ctx: BattleContext, cfg: DungeonConfig, star: int, others: seq<Event>)
      returns (result: SettleResult, ghost read: Read, ghost commit: Commit)
      requires Valid() && NoneBy(me, others)
      requires cluster.View().Of(me).phase == SettleFound(ctx.playerId, ctx, cfg, star)
      modifies mysql, cluster
      ensures Valid()
      ensures cluster.View().Of(me)
           == old(cluster.View().Of(me)).(phase := AfterSettle(ctx.playerId, ctx.battleId, result))
      ensures cluster.trace ==
                old(cluster.trace) + [FirstClearRead(me, read.answered)] + others + [SettleCommit(me, commit.tx)]
      ensures cluster.faults >= old(cluster.faults)
      ensures cluster.faults == old(cluster.faults) ==> read.answered && commit.tx == Clean
      ensures cluster.faults == old(cluster.faults) && others == [] ==>
                cluster.View() == Step(Step(old(cluster.View()), FirstClearRead(me, true)), SettleCommit(me, Clean))
      ensures others == [] ==> cluster.locks == old(cluster.locks)
      ensures WasRead(cluster.origin, cluster.trace, |old(cluster.trace)|, me, SettleRequest, read)
      ensures read.at == |old(cluster.trace)| && commit.at == |old(cluster.trace)| + 1 + |others|
      ensures Happened(cluster.origin, cluster.trace, me, SettleRequest, commit)
      ensures result.firstClear == LooksFirst(read, ctx.playerId, cfg.dungeonId)
      ensures result.rewards == SettleRewards(cfg, result.firstClear)
      ensures if result.success || commit.tx.CommitUnacknowledged?
              then SettleWrites(commit.before, ctx, cfg, star, result.firstClear) == Written(commit.after)
              else commit.after == commit.before
      ensures result.success ==>
                TellsPayment(result.rewards, commit.before, commit.after, ctx.playerId, ctx.battleId)
      ensures result.success ==> !commit.tx.CommitUnacknowledged?
      ensures !result.success ==>
                && (result.error == AlreadySettled <==> commit.failed == Some(MarkSettled(ctx.battleId)))
                && (result.error == AlreadySettled || result.error.SqlError?)
      ensures others == [] ==> CommitAlone(old(cluster.db), cluster.db, Some(commit))
    {
      hide Run, Step, SettleWrites, SettleRewards, TellsPayment;
      var before := cluster.View();
      var seen := mysql.Answered();
      read := Read(|cluster.trace|, seen, cluster.db);
      assert cluster.trace[..|cluster.trace|] == cluster.trace;
      var firstClear := !(seen && (ctx.playerId, cfg.dungeonId) in cluster.db.progress);
      FirstClearEffect(before, me, ctx, cfg, star, seen);
      cluster.Record(before, FirstClearRead(me, seen));
      cluster.Others(me, others);
      ghost var history, tables := cluster.trace, cluster.db;
      var written;
      ghost var failed;
      result, written, failed := WriteSettled(me, ctx, cfg, star, firstClear);
      assert cluster.trace[..|history|] == history && cluster.trace[..|history| + 1] == cluster.trace;
      commit := Commit(|history|, written, failed, tables, cluster.db);
      assert cluster.trace[..read.at] == old(cluster.trace);
      if result.success { PaymentIsTold(tables, ctx, cfg, star, firstClear); }
    }
  }

  lemma PendingChangesNothing(s: State, me: int, pending: PendingFate)
    ensures Step(s, PendingRead(me, pending)).db == s.db
  {
  }

  lemma ReleasingSkipsCommit(s: State, me: int)
    requires s.Of(me).phase.Releasing?
    ensures Step(s, EnterCommit(me, Clean)) == s && Step(s, SettleCommit(me, Clean)) == s
  {
  }
}
