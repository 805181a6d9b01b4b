/**
 The relational store of the game back end: the five tables the dungeon server works on, and the
 effect of each SQL statement it issues.  A statement either succeeds and reports how many rows it
 changed, or is refused because it violates a key of the schema.
 */
module Tables {
  import opened Common

  datatype DungeonConfig = DungeonConfig(
    dungeonId: int, requiredLevel: int, costStamina: int, maxStar: int,
    normalGold: int, firstClearDiamond: int)

  datatype BattleContext = BattleContext(
    battleId: string, playerId: int, dungeonId: int, costStamina: int, maxStar: int, settled: bool)

  datatype Profile = Profile(
    playerId: int, accountId: int, name: string, level: int, stamina: int, gold: int, diamond: int)

  datatype DungeonProgress = DungeonProgress(dungeonId: int, bestStar: int, isFirstClear: bool)

  datatype PlayerState = PlayerState(profile: Profile, progress: seq<DungeonProgress>)

  datatype RewardKind = Gold | Diamond

  datatype Reward = Reward(kind: RewardKind, amount: int)

  // Rows.  `settled` is the status column: 0 while pending, 1 once settled.
  datatype PlayerRow = PlayerRow(accountId: int, name: string, level: int)
  datatype AssetRow = AssetRow(stamina: int, gold: int, diamond: int)
  datatype BattleRow = BattleRow(playerId: int, dungeonId: int, settled: bool, cost: int)
  datatype ProgressRow = ProgressRow(bestStar: int, isFirstClear: bool)
  datatype RewardKey = RewardKey(playerId: int, battleId: string, kind: RewardKind)

  /** Each map's key is the table's primary or unique key. */
  datatype Tables = Tables(
    players: map<int, PlayerRow>,
    assets: map<int, AssetRow>,
    progress: map<(int, int), ProgressRow>,
    battles: map<string, BattleRow>,
    rewards: map<RewardKey, int>)

  datatype Statement =
    | TakeStamina(playerId: int, cost: int)
    | InsertBattle(battleId: string, playerId: int, dungeonId: int, cost: int)
    | MarkSettled(battleId: string)
    | CreditAssets(playerId: int, gold: int, diamond: Option<int>)
    | UpsertProgress(playerId: int, dungeonId: int, star: int, firstClear: bool)
    | InsertReward(key: RewardKey, amount: int)

  datatype Effect = Refused | Done(tables: Tables, affected: nat)

  /** What one statement does to the tables.  UPDATE counts changed rows, not matched ones. */
  function Apply(t: Tables, statement: Statement): Effect
  {
    match statement
    case TakeStamina(p, cost) =>
      if p in t.assets && t.assets[p].stamina >= cost && cost != 0 then
        Done(t.(assets := t.assets[p := t.assets[p].(stamina := t.assets[p].stamina - cost)]), 1)
      else
        Done(t, 0)
    case InsertBattle(id, p, d, cost) =>
      if id in t.battles then Refused
      else Done(t.(battles := t.battles[id := BattleRow(p, d, false, cost)]), 1)
    case MarkSettled(id) =>
      if id in t.battles && !t.battles[id].settled then
        Done(t.(battles := t.battles[id := t.battles[id].(settled := true)]), 1)
      else
        Done(t, 0)
    case CreditAssets(p, gold, diamond) =>
      if p in t.assets then
        var row := t.assets[p];
        var extra := if diamond.Some? then diamond.value else 0;
        Done(t.(assets := t.assets[p := row.(gold := row.gold + gold, diamond := row.diamond + extra)]),
             if gold == 0 && extra == 0 then 0 else 1)
      else
        Done(t, 0)
    case UpsertProgress(p, d, star, firstClear) =>
      if p !in t.players then Refused
      else if (p, d) in t.progress then
        var row := t.progress[(p, d)];
        var best := if row.bestStar >= star then row.bestStar else star;
        Done(t.(progress := t.progress[(p, d) := ProgressRow(best, row.isFirstClear || firstClear)]), 2)
      else
        Done(t.(progress := t.progress[(p, d) := ProgressRow(star, firstClear)]), 1)
    case InsertReward(key, amount) =>
      if key in t.rewards then Refused
      else Done(t.(rewards := t.rewards[key := amount]), 1)
  }

  predicate Pending(t: Tables, id: string, p: int)
  {
    id in t.battles && t.battles[id].playerId == p && !t.battles[id].settled
  }

  predicate HasPending(t: Tables, p: int)
  {
    exists id :: id in t.battles && Pending(t, id, p)
  }

  /** The battle row as the dungeon server reads it back; the table does not store max_star. */
  function FindBattle(t: Tables, id: string): Option<BattleContext>
  {
    if id in t.battles then
      var row := t.battles[id];
      Some(BattleContext(id, row.playerId, row.dungeonId, row.cost, 3, row.settled))
    else None
  }

  // ---- the two transactions, as the row changes between BEGIN and COMMIT ----

  /** Error texts.  The service tells failures apart by comparing these, never by a code. */
  datatype Message =
    | PlayerIsBusy | PlayerNotFoundText | LevelNotEnough | StaminaNotEnoughText | UnfinishedBattle
    | BattleNotFoundText | ContextMismatch | AlreadySettled | SessionIsInvalid | ConfigNotFound
    | StarOutOfRange | OnlySuccess
    | SqlError(text: string)

  datatype TxResult = Aborted(message: Message) | Written(tables: Tables)

  /** The server's report of a violated primary or unique key. */
  const DUPLICATE_KEY := SqlError("duplicate key")

  function EnterWrites(t: Tables, p: int, cfg: DungeonConfig, id: string): TxResult
  {
    var taken := Apply(t, TakeStamina(p, cfg.costStamina));
    if taken.Refused? || taken.affected != 1 then Aborted(StaminaNotEnoughText)
    else
      var inserted := Apply(taken.tables, InsertBattle(id, p, cfg.dungeonId, cfg.costStamina));
      if inserted.Refused? then Aborted(DUPLICATE_KEY) else Written(inserted.tables)
  }

  function SettleWrites(t: Tables, ctx: BattleContext, cfg: DungeonConfig, star: int, firstClear: bool): TxResult
  {
    var marked := Apply(t, MarkSettled(ctx.battleId));
    if marked.Refused? || marked.affected != 1 then Aborted(AlreadySettled)
    else
      var bonus := if firstClear then Some(cfg.firstClearDiamond) else None;
      var credited := Apply(marked.tables, CreditAssets(ctx.playerId, cfg.normalGold, bonus));
      if credited.Refused? then Aborted(DUPLICATE_KEY) else
      var progressed := Apply(credited.tables, UpsertProgress(ctx.playerId, cfg.dungeonId, star, firstClear));
      if progressed.Refused? then Aborted(DUPLICATE_KEY) else
      var logged := Apply(progressed.tables, InsertReward(RewardKey(ctx.playerId, ctx.battleId, Gold), cfg.normalGold));
      if logged.Refused? then Aborted(DUPLICATE_KEY)
      else if !firstClear then Written(logged.tables)
      else
        var bonused := Apply(logged.tables,
          InsertReward(RewardKey(ctx.playerId, ctx.battleId, Diamond), cfg.firstClearDiamond));
        if bonused.Refused? then Aborted(DUPLICATE_KEY) else Written(bonused.tables)
  }

  // ---- bookkeeping: what the tables mean together ----

  predicate SettledIn(t: Tables, id: string, p: int, d: int)
  {
    id in t.battles && t.battles[id].playerId == p && t.battles[id].dungeonId == d && t.battles[id].settled
  }

  /** Foreign keys, and stamina never overdrawn. */
  ghost predicate Solvent(t: Tables)
  {
    && (forall p :: p in t.assets ==> p in t.players && t.assets[p].stamina >= 0)
    && (forall id :: id in t.battles ==> t.battles[id].playerId in t.assets)
  }

  /** A battle is settled exactly when its gold payment is on record; no other payment exists. */
  ghost predicate PaidWhenSettled(t: Tables)
  {
    && (forall id :: id in t.battles ==>
          (t.battles[id].settled <==> RewardKey(t.battles[id].playerId, id, Gold) in t.rewards))
    && (forall k :: k in t.rewards ==>
          k.battleId in t.battles && t.battles[k.battleId].playerId == k.playerId && t.battles[k.battleId].settled)
  }

  /** Some battle settled at (p, d) was settled with the recorded best star. */
  ghost predicate BestReached(t: Tables, stars: map<string, int>, p: int, d: int)
    requires (p, d) in t.progress
  {
    exists id :: SettledIn(t, id, p, d) && id in stars && stars[id] == t.progress[(p, d)].bestStar
  }

  /** Some battle settled at (p, d) was paid the first-clear diamonds. */
  ghost predicate BonusPaid(t: Tables, p: int, d: int)
  {
    exists id :: SettledIn(t, id, p, d) && RewardKey(p, id, Diamond) in t.rewards
  }

  /** `stars` records, for every settled battle, the star it was settled with.
      A progress row exists exactly where a battle is settled, holds the best of those stars,
      carries the first-clear mark, and some battle there earned the first-clear diamonds. */
  ghost predicate ProgressMeansCleared(t: Tables, stars: map<string, int>)
  {
    && (forall id :: id in stars <==> id in t.battles && t.battles[id].settled)
    && (forall id, p, d :: SettledIn(t, id, p, d) ==> (p, d) in t.progress && stars[id] <= t.progress[(p, d)].bestStar)
    && (forall p, d :: (p, d) in t.progress ==>
          t.progress[(p, d)].isFirstClear && BestReached(t, stars, p, d) && BonusPaid(t, p, d))
  }

  ghost predicate Consistent(t: Tables, stars: map<string, int>)
  {
    Solvent(t) && PaidWhenSettled(t) && ProgressMeansCleared(t, stars)
  }

  /** Stamina a player has spent on battles: the cost column summed over the player's battle rows. */
  ghost function Spent(t: Tables, p: int): int
  {
    SumOf(map id | id in t.battles && t.battles[id].playerId == p :: t.battles[id].cost)
  }

  /** What the reward log says a player was paid. */
  ghost function Earned(t: Tables, p: int, kind: RewardKind): int
  {
    SumOf(map k | k in t.rewards && k.playerId == p && k.kind == kind :: t.rewards[k])
  }

  /** Nothing is created or lost: every balance change is accounted for by a battle or a log row. */
  ghost predicate Balanced(t: Tables, t': Tables)
  {
    && t'.assets.Keys == t.assets.Keys
    && forall p :: p in t.assets ==>
         && t'.assets[p].stamina + Spent(t', p) == t.assets[p].stamina + Spent(t, p)
         && t'.assets[p].gold - Earned(t', p, Gold) == t.assets[p].gold - Earned(t, p, Gold)
         && t'.assets[p].diamond - Earned(t', p, Diamond) == t.assets[p].diamond - Earned(t, p, Diamond)
  }

  /** Rows are never deleted, settled battles stay settled, payments are never rewritten and
      the best star never drops. */
  ghost predicate Grows(t: Tables, t': Tables)
  {
    && t'.players == t.players
    && t'.assets.Keys == t.assets.Keys
    && (forall id :: id in t.battles ==>
          && id in t'.battles
          && t'.battles[id].(settled := false) == t.battles[id].(settled := false)
          && (t.battles[id].settled ==> t'.battles[id].settled))
    && (forall k :: k in t.rewards ==> k in t'.rewards && t'.rewards[k] == t.rewards[k])
    && (forall key :: key in t.progress ==> key in t'.progress && t'.progress[key].bestStar >= t.progress[key].bestStar)
  }

  // ---- the transactions keep the books ----

  /** The committed effect of an entry, column by column. */
  predicate EnteredBy(t: Tables, t': Tables, p: int, cfg: DungeonConfig, id: string)
    requires p in t.assets
  {
    && cfg.costStamina != 0 && t.assets[p].stamina >= cfg.costStamina && id !in t.battles
    && t'.players == t.players && t'.progress == t.progress && t'.rewards == t.rewards
    && t'.assets == t.assets[p := t.assets[p].(stamina := t.assets[p].stamina - cfg.costStamina)]
    && t'.battles == t.battles[id := BattleRow(p, cfg.dungeonId, false, cfg.costStamina)]
  }

  lemma EnterEffect(t: Tables, p: int, cfg: DungeonConfig, id: string)
    ensures EnterWrites(t, p, cfg, id).Written? ==>
              p in t.assets && EnteredBy(t, EnterWrites(t, p, cfg, id).tables, p, cfg, id)
  {
  }

  lemma EnteredStaysPaid(t: Tables, t': Tables, p: int, cfg: DungeonConfig, id: string)
    requires p in t.assets && EnteredBy(t, t', p, cfg, id) && Solvent(t) && PaidWhenSettled(t)
    ensures Solvent(t') && PaidWhenSettled(t')
  {
  }

  lemma EnteredGrows(t: Tables, t': Tables, p: int, cfg: DungeonConfig, id: string)
    requires p in t.assets && EnteredBy(t, t', p, cfg, id)
    ensures Grows(t, t')
  {
  }

  lemma EnteredStaysCleared(t: Tables, t': Tables, stars: map<string, int>, p: int, cfg: DungeonConfig, id: string)
    requires p in t.assets && EnteredBy(t, t', p, cfg, id) && ProgressMeansCleared(t, stars)
    ensures ProgressMeansCleared(t', stars)
  {
    assert forall x, q, d :: SettledIn(t', x, q, d) <==> SettledIn(t, x, q, d);
  }

  lemma EnterKeepsConsistent(t: Tables, stars: map<string, int>, p: int, cfg: DungeonConfig, id: string)
    requires Consistent(t, stars)
    requires EnterWrites(t, p, cfg, id).Written?
    ensures Consistent(EnterWrites(t, p, cfg, id).tables, stars)
    ensures Grows(t, EnterWrites(t, p, cfg, id).tables)
  {
    hide EnterWrites, EnteredBy, Solvent, PaidWhenSettled, ProgressMeansCleared, Grows;
    var t' := EnterWrites(t, p, cfg, id).tables;
    EnterEffect(t, p, cfg, id);
    EnteredStaysPaid(t, t', p, cfg, id);
    EnteredStaysCleared(t, t', stars, p, cfg, id);
    EnteredGrows(t, t', p, cfg, id);
  }

  lemma SpentInsert(t: Tables, t': Tables, id: string, row: BattleRow, q: int)
    requires id !in t.battles && t'.battles == t.battles[id := row]
    ensures Spent(t', q) == Spent(t, q) + if row.playerId == q then row.cost else 0
  {
    var before := map x | x in t.battles && t.battles[x].playerId == q :: t.battles[x].cost;
    var after := map x | x in t'.battles && t'.battles[x].playerId == q :: t'.battles[x].cost;
    if q == row.playerId {
      SumInsert(before, id, row.cost);
      assert after == before[id := row.cost];
    } else {
      assert after == before;
    }
  }

  lemma EnterBalances(t: Tables, p: int, cfg: DungeonConfig, id: string)
    requires EnterWrites(t, p, cfg, id).Written?
    ensures Balanced(t, EnterWrites(t, p, cfg, id).tables)
  {
    hide EnterWrites, Spent;
    var t' := EnterWrites(t, p, cfg, id).tables;
    EnterEffect(t, p, cfg, id);
    forall q | q in t.assets
      ensures t'.assets[q].stamina + Spent(t', q) == t.assets[q].stamina + Spent(t, q)
      ensures Earned(t', q, Gold) == Earned(t, q, Gold) && Earned(t', q, Diamond) == Earned(t, q, Diamond)
    {
      SpentInsert(t, t', id, BattleRow(p, cfg.dungeonId, false, cfg.costStamina), q);
    }
  }

  /** A settlement asks for one pending battle of the right player and dungeon, and credits the
      first-clear bonus at least when no progress row exists yet. */
  ghost predicate Settleable(t: Tables, ctx: BattleContext, cfg: DungeonConfig, firstClear: bool)
  {
    && ctx.battleId in t.battles
    && t.battles[ctx.battleId].playerId == ctx.playerId
    && t.battles[ctx.battleId].dungeonId == cfg.dungeonId
    && ((ctx.playerId, cfg.dungeonId) !in t.progress ==> firstClear)
  }

  /** On consistent tables a settlement aborts only because the battle is no longer pending:
      the credit finds its asset row and neither reward row hits the unique key. */
  lemma SettleCommitsExactly(t: Tables, stars: map<string, int>, ctx: BattleContext, cfg: DungeonConfig,
                              star: int, firstClear: bool)
    requires Consistent(t, stars) && Settleable(t, ctx, cfg, firstClear)
    ensures SettleWrites(t, ctx, cfg, star, firstClear).Written? <==> !t.battles[ctx.battleId].settled
    ensures SettleWrites(t, ctx, cfg, star, firstClear).Aborted? ==>
              SettleWrites(t, ctx, cfg, star, firstClear).message == AlreadySettled
  {
  }

  /** The committed effect of a settlement, column by column. */
  ghost predicate SettledBy(t: Tables, t': Tables, ctx: BattleContext, cfg: DungeonConfig, star: int, firstClear: bool)
    requires ctx.playerId in t.assets && ctx.battleId in t.battles
  {
    var p, d := ctx.playerId, cfg.dungeonId;
    var gold := RewardKey(p, ctx.battleId, Gold);
    var diamond := RewardKey(p, ctx.battleId, Diamond);
    var row := t.assets[p];
    && t'.players == t.players
    && t'.battles == t.battles[ctx.battleId := t.battles[ctx.battleId].(settled := true)]
    && t'.assets == t.assets[p := row.(gold := row.gold + cfg.normalGold,
                                       diamond := row.diamond + if firstClear then cfg.firstClearDiamond else 0)]
    && t'.rewards == (if firstClear then t.rewards[gold := cfg.normalGold][diamond := cfg.firstClearDiamond]
                      else t.rewards[gold := cfg.normalGold])
    && gold !in t.rewards && diamond !in t.rewards
    && t'.progress.Keys == t.progress.Keys + {(p, d)}
    && (forall key :: key in t.progress && key != (p, d) ==> t'.progress[key] == t.progress[key])
    && ((p, d) in t.progress ==>
          && t'.progress[(p, d)].bestStar >= t.progress[(p, d)].bestStar
          && t'.progress[(p, d)].bestStar >= star
          && (t'.progress[(p, d)].bestStar == star || t'.progress[(p, d)].bestStar == t.progress[(p, d)].bestStar)
          && (t.progress[(p, d)].isFirstClear ==> t'.progress[(p, d)].isFirstClear))
    && ((p, d) !in t.progress ==> t'.progress[(p, d)] == ProgressRow(star, firstClear))
  }

  lemma SettleEffect(t: Tables, ctx: BattleContext, cfg: DungeonConfig, star: int, firstClear: bool)
    requires Solvent(t) && PaidWhenSettled(t) && Settleable(t, ctx, cfg, firstClear)
    requires SettleWrites(t, ctx, cfg, star, firstClear).Written?
    ensures SettledBy(t, SettleWrites(t, ctx, cfg, star, firstClear).tables, ctx, cfg, star, firstClear)
    ensures !t.battles[ctx.battleId].settled
  {
  }

  lemma SettledStaysPaid(t: Tables, t': Tables, ctx: BattleContext, cfg: DungeonConfig, star: int, firstClear: bool)
    requires Solvent(t) && PaidWhenSettled(t) && Settleable(t, ctx, cfg, firstClear)
    requires SettledBy(t, t', ctx, cfg, star, firstClear) && !t.battles[ctx.battleId].settled
    ensures Solvent(t') && PaidWhenSettled(t')
  {
  }

  lemma SettledGrows(t: Tables, t': Tables, ctx: BattleContext, cfg: DungeonConfig, star: int, firstClear: bool)
    requires Solvent(t) && Settleable(t, ctx, cfg, firstClear)
    requires SettledBy(t, t', ctx, cfg, star, firstClear)
    ensures Grows(t, t')
  {
  }

  lemma SettledStillCleared(t: Tables, t': Tables, stars: map<string, int>, ctx: BattleContext, cfg: DungeonConfig,
                            star: int, firstClear: bool, p: int, d: int)
    requires Consistent(t, stars) && Settleable(t, ctx, cfg, firstClear)
    requires SettledBy(t, t', ctx, cfg, star, firstClear) && !t.battles[ctx.battleId].settled
    requires (p, d) in t.progress
    ensures BestReached(t', stars[ctx.battleId := star], p, d) && BonusPaid(t', p, d)
  {
    var best :| SettledIn(t, best, p, d) && best in stars && stars[best] == t.progress[(p, d)].bestStar;
    var paid :| SettledIn(t, paid, p, d) && RewardKey(p, paid, Diamond) in t.rewards;
    assert SettledIn(t', paid, p, d);
    if t'.progress[(p, d)].bestStar == t.progress[(p, d)].bestStar {
      assert SettledIn(t', best, p, d);
    } else {
      assert SettledIn(t', ctx.battleId, p, d);
    }
  }

  lemma SettledStaysCleared(t: Tables, t': Tables, stars: map<string, int>, ctx: BattleContext, cfg: DungeonConfig,
                            star: int, firstClear: bool)
    requires Consistent(t, stars) && Settleable(t, ctx, cfg, firstClear)
    requires SettledBy(t, t', ctx, cfg, star, firstClear) && !t.battles[ctx.battleId].settled
    ensures ProgressMeansCleared(t', stars[ctx.battleId := star])
  {
    var stars' := stars[ctx.battleId := star];
    assert forall x, q, e :: SettledIn(t', x, q, e) ==>
      SettledIn(t, x, q, e) || (x == ctx.battleId && q == ctx.playerId && e == cfg.dungeonId);
    forall p, d | (p, d) in t'.progress
      ensures BestReached(t', stars', p, d) && BonusPaid(t', p, d)
    {
      if (p, d) in t.progress {
        SettledStillCleared(t, t', stars, ctx, cfg, star, firstClear, p, d);
      } else {
        assert SettledIn(t', ctx.battleId, p, d);
      }
    }
  }

  lemma SettleKeepsConsistent(t: Tables, stars: map<string, int>, ctx: BattleContext, cfg: DungeonConfig,
                              star: int, firstClear: bool)
    requires Consistent(t, stars) && Settleable(t, ctx, cfg, firstClear)
    requires SettleWrites(t, ctx, cfg, star, firstClear).Written?
    ensures Consistent(SettleWrites(t, ctx, cfg, star, firstClear).tables, stars[ctx.battleId := star])
    ensures Grows(t, SettleWrites(t, ctx, cfg, star, firstClear).tables)
  {
    var t' := SettleWrites(t, ctx, cfg, star, firstClear).tables;
    SettleEffect(t, ctx, cfg, star, firstClear);
    hide SettleWrites, SettledBy, PaidWhenSettled, ProgressMeansCleared, Grows;
    SettledStaysPaid(t, t', ctx, cfg, star, firstClear);
    SettledGrows(t, t', ctx, cfg, star, firstClear);
    SettledStaysCleared(t, t', stars, ctx, cfg, star, firstClear);
  }

  lemma SettledSpendsNothing(t: Tables, t': Tables, ctx: BattleContext, q: int)
    requires ctx.battleId in t.battles
    requires t'.battles == t.battles[ctx.battleId := t.battles[ctx.battleId].(settled := true)]
    ensures Spent(t', q) == Spent(t, q)
  {
    assert (map x | x in t'.battles && t'.battles[x].playerId == q :: t'.battles[x].cost)
        == (map x | x in t.battles && t.battles[x].playerId == q :: t.battles[x].cost);
  }

  lemma EarnedInsert(t: Tables, t': Tables, key: RewardKey, amount: int, q: int, kind: RewardKind)
    requires key !in t.rewards && t'.rewards == t.rewards[key := amount]
    ensures Earned(t', q, kind) == Earned(t, q, kind) + if key.playerId == q && key.kind == kind then amount else 0
  {
    var before := map k | k in t.rewards && k.playerId == q && k.kind == kind :: t.rewards[k];
    var after := map k | k in t'.rewards && k.playerId == q && k.kind == kind :: t'.rewards[k];
    if key.playerId == q && key.kind == kind {
      SumInsert(before, key, amount);
      assert after == before[key := amount];
    } else {
      assert after == before;
    }
  }

  /** A settlement spends no stamina and is logged with exactly what it pays. */
  lemma SettledAccounts(t: Tables, t': Tables, ctx: BattleContext, cfg: DungeonConfig, star: int, firstClear: bool,
                        q: int)
    requires ctx.playerId in t.assets && ctx.battleId in t.battles && SettledBy(t, t', ctx, cfg, star, firstClear)
    ensures Spent(t', q) == Spent(t, q)
    ensures Earned(t', q, Gold) == Earned(t, q, Gold) + if q == ctx.playerId then cfg.normalGold else 0
    ensures Earned(t', q, Diamond) ==
              Earned(t, q, Diamond) + if q == ctx.playerId && firstClear then cfg.firstClearDiamond else 0
  {
    hide Spent, Earned;
    var gold := RewardKey(ctx.playerId, ctx.battleId, Gold);
    var diamond := RewardKey(ctx.playerId, ctx.battleId, Diamond);
    var logged := t.(rewards := t.rewards[gold := cfg.normalGold]);
    SettledSpendsNothing(t, t', ctx, q);
    forall kind ensures Earned(t', q, kind) == Earned(t, q, kind)
      + (if kind == Gold && q == ctx.playerId then cfg.normalGold else 0)
      + (if kind == Diamond && q == ctx.playerId && firstClear then cfg.firstClearDiamond else 0)
    {
      EarnedInsert(t, logged, gold, cfg.normalGold, q, kind);
      if firstClear {
        EarnedInsert(logged, t', diamond, cfg.firstClearDiamond, q, kind);
      } else {
        SameLogEarnsSame(logged, t', q, kind);
      }
    }
  }

  lemma SameLogEarnsSame(t: Tables, t': Tables, q: int, kind: RewardKind)
    requires t'.rewards == t.rewards
    ensures Earned(t', q, kind) == Earned(t, q, kind)
  {
  }

  lemma SettleBalances(t: Tables, stars: map<string, int>, ctx: BattleContext, cfg: DungeonConfig,
                       star: int, firstClear: bool)
    requires Consistent(t, stars) && Settleable(t, ctx, cfg, firstClear)
    requires SettleWrites(t, ctx, cfg, star, firstClear).Written?
    ensures Balanced(t, SettleWrites(t, ctx, cfg, star, firstClear).tables)
  {
    hide SettleWrites, Spent, Earned, PaidWhenSettled, ProgressMeansCleared;
    var t' := SettleWrites(t, ctx, cfg, star, firstClear).tables;
    SettleEffect(t, ctx, cfg, star, firstClear);
    forall q | q in t.assets
      ensures t'.assets[q].stamina + Spent(t', q) == t.assets[q].stamina + Spent(t, q)
      ensures t'.assets[q].gold - Earned(t', q, Gold) == t.assets[q].gold - Earned(t, q, Gold)
      ensures t'.assets[q].diamond - Earned(t', q, Diamond) == t.assets[q].diamond - Earned(t, q, Diamond)
    {
      SettledAccounts(t, t', ctx, cfg, star, firstClear, q);
    }
  }

  lemma BalancedTransitive(t0: Tables, t1: Tables, t2: Tables)
    requires Balanced(t0, t1) && Balanced(t1, t2)
    ensures Balanced(t0, t2)
  {
  }

  lemma GrowsTransitive(t0: Tables, t1: Tables, t2: Tables)
    requires Grows(t0, t1) && Grows(t1, t2)
    ensures Grows(t0, t2)
  {
  }
}
