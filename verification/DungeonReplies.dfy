/**
 What the replies of the dungeon server mean, said of the tables: which payments a settlement reports, and
 which refusal a player gets for what.
 */
module DungeonReplies {
  import opened Common
  import opened Tables
  import opened DungeonProtocol

  // ---- payments ----

  /** What a list of rewards says was paid of one kind. */
  function Listed(rewards: seq<Reward>, kind: RewardKind): int
  {
    if rewards == [] then 0
    else Listed(rewards[1..], kind) + if rewards[0].kind == kind then rewards[0].amount else 0
  }

  /** Between the two tables this battle was paid this much of a kind. */
  predicate NewlyPaid(t: Tables, t': Tables, p: int, id: string, kind: RewardKind, amount: int)
  {
    var key := RewardKey(p, id, kind);
    key !in t.rewards && key in t'.rewards && t'.rewards[key] == amount
  }

  /** The list names exactly the payments made for the battle, no kind twice; what it lists of a kind is
      what the reward log and the balance of the player have gained. */
  ghost predicate TellsPayment(rewards: seq<Reward>, t: Tables, t': Tables, p: int, id: string)
  {
    && (forall kind, amount :: Reward(kind, amount) in rewards <==> NewlyPaid(t, t', p, id, kind, amount))
    && (forall i, j :: 0 <= i < j < |rewards| ==> rewards[i].kind != rewards[j].kind)
    && (forall kind :: Earned(t', p, kind) == Earned(t, p, kind) + Listed(rewards, kind))
    && (p in t.assets ==>
          && p in t'.assets
          && t'.assets[p].gold == t.assets[p].gold + Listed(rewards, Gold)
          && t'.assets[p].diamond == t.assets[p].diamond + Listed(rewards, Diamond))
  }

  lemma ListedOne(gold: int)
    ensures Listed([Reward(Gold, gold)], Gold) == gold && Listed([Reward(Gold, gold)], Diamond) == 0
  {
  }

  lemma ListedTwo(gold: int, diamond: int)
    ensures var both := [Reward(Gold, gold), Reward(Diamond, diamond)];
            Listed(both, Gold) == gold && Listed(both, Diamond) == diamond
  {
    var both, rest := [Reward(Gold, gold), Reward(Diamond, diamond)], [Reward(Diamond, diamond)];
    assert both[1..] == rest && rest[1..] == [];
    assert Listed(rest, Gold) == 0 && Listed(rest, Diamond) == diamond;
  }

  /** The reward log and the balance after a settlement. */
  lemma SettlePays(t: Tables, ctx: BattleContext, cfg: DungeonConfig, star: int, firstClear: bool)
    requires SettleWrites(t, ctx, cfg, star, firstClear).Written?
    ensures var t', p, id := SettleWrites(t, ctx, cfg, star, firstClear).tables, ctx.playerId, ctx.battleId;
            var gold, diamond := RewardKey(p, id, Gold), RewardKey(p, id, Diamond);
            && gold !in t.rewards && (firstClear ==> diamond !in t.rewards)
            && t'.rewards == (if firstClear then t.rewards[gold := cfg.normalGold][diamond := cfg.firstClearDiamond]
                              else t.rewards[gold := cfg.normalGold])
            && (p in t.assets ==>
                  && p in t'.assets && t'.assets[p].gold == t.assets[p].gold + cfg.normalGold
                  && t'.assets[p].diamond == t.assets[p].diamond + if firstClear then cfg.firstClearDiamond else 0)
  {
  }

  /** What the log has gained of one kind. */
  lemma SettleEarns(t: Tables, ctx: BattleContext, cfg: DungeonConfig, star: int, firstClear: bool, kind: RewardKind)
    requires SettleWrites(t, ctx, cfg, star, firstClear).Written?
    ensures Earned(SettleWrites(t, ctx, cfg, star, firstClear).tables, ctx.playerId, kind) ==
              Earned(t, ctx.playerId, kind) +
                (match kind case Gold => cfg.normalGold case Diamond => if firstClear then cfg.firstClearDiamond else 0)
  {
    hide SettleWrites, Earned;
    SettlePays(t, ctx, cfg, star, firstClear);
    var t', p := SettleWrites(t, ctx, cfg, star, firstClear).tables, ctx.playerId;
    var gold, diamond := RewardKey(p, ctx.battleId, Gold), RewardKey(p, ctx.battleId, Diamond);
    var logged := t.(rewards := t.rewards[gold := cfg.normalGold]);
    EarnedInsert(t, logged, gold, cfg.normalGold, p, kind);
    if firstClear {
      EarnedInsert(logged, t', diamond, cfg.firstClearDiamond, p, kind);
    } else {
      SameLogEarnsSame(logged, t', p, kind);
    }
  }

  /** The rewards a settlement answers with are those it has paid. */
  lemma PaymentIsTold(t: Tables, ctx: BattleContext, cfg: DungeonConfig, star: int, firstClear: bool)
    requires SettleWrites(t, ctx, cfg, star, firstClear).Written?
    ensures TellsPayment(SettleRewards(cfg, firstClear), t, SettleWrites(t, ctx, cfg, star, firstClear).tables,
                         ctx.playerId, ctx.battleId)
  {
    hide SettleWrites, Earned, Listed;
    SettlePays(t, ctx, cfg, star, firstClear);
    ListedOne(cfg.normalGold);
    ListedTwo(cfg.normalGold, cfg.firstClearDiamond);
    forall kind ensures Earned(SettleWrites(t, ctx, cfg, star, firstClear).tables, ctx.playerId, kind)
                     == Earned(t, ctx.playerId, kind) + Listed(SettleRewards(cfg, firstClear), kind) {
      SettleEarns(t, ctx, cfg, star, firstClear, kind);
    }
    var rewards := SettleRewards(cfg, firstClear);
    assert rewards[0] == Reward(Gold, cfg.normalGold);
    assert firstClear ==> rewards[1] == Reward(Diamond, cfg.firstClearDiamond);
  }

  // ---- answers ----

  /** The answer to an enter request, by what the tables say before it. */
  ghost predicate EnterAnswer(t: Tables, p: int, cfg: DungeonConfig, id: string, reply: Reply)
  {
    var known := p in t.players;
    var ranked := known && t.players[p].level >= cfg.requiredLevel;
    var stamina := if p in t.assets then t.assets[p].stamina else 0;
    var rested := ranked && stamina >= cfg.costStamina;
    var free := rested && !HasPending(t, p);
    && (reply == Refusal(PlayerNotFound, PlayerNotFoundText) <==> !known)
    && (reply == Refusal(DungeonLocked, LevelNotEnough) <==> known && !ranked)
    && (reply == Refusal(StaminaNotEnough, StaminaNotEnoughText) <==>
         (ranked && !rested) || (free && (p !in t.assets || cfg.costStamina == 0)))
    && (reply == Refusal(PlayerBusy, UnfinishedBattle) <==> rested && HasPending(t, p))
    && (reply == Refusal(StorageError, DUPLICATE_KEY) <==>
         free && p in t.assets && cfg.costStamina != 0 && id in t.battles)
    && (reply == Entered(id, stamina - cfg.costStamina) <==>
         free && p in t.assets && cfg.costStamina != 0 && id !in t.battles)
  }

  /** The answer to a settle request, by what consistent tables say before it. */
  ghost predicate SettleAnswer(t: Tables, p: int, id: string, cfg: DungeonConfig, reply: Reply)
  {
    var found := id in t.battles;
    var matching := found && t.battles[id].playerId == p && t.battles[id].dungeonId == cfg.dungeonId;
    && (reply == Refusal(BattleNotFound, BattleNotFoundText) <==> !found)
    && (reply == Refusal(BattleMismatch, ContextMismatch) <==> found && !matching)
    && (reply == Refusal(BattleAlreadySettled, AlreadySettled) <==> matching && t.battles[id].settled)
    && (reply.SettledReply? <==> matching && !t.battles[id].settled)
    && (reply.SettledReply? ==> (reply.firstClear <==> (p, cfg.dungeonId) !in t.progress))
  }
}
