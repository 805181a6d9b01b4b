/**
 One unfinished battle per player and one first-clear bonus per player and dungeon, over whole runs with
 locks expiring, reads failing and workers crashing at will: exactly which runs keep them.
 */
module DungeonUniqueness {
  import opened Common
  import opened Tables
  import opened DungeonProtocol
  import opened DungeonSafety
  import opened DungeonLocking
  import opened DungeonRequests
  import opened Runs

  /** This event makes the row changes of an enter transaction visible. */
  predicate Enters(s: State, e: Event)
  {
    && e.EnterCommit? && !e.tx.RolledBack?
    && var phase := s.Of(e.w).phase;
       phase.EnterChecked? && EnterWrites(s.db, phase.playerId, phase.cfg, phase.battleId).Written?
  }

  /** This event makes the row changes of a settle transaction visible. */
  predicate Settles(s: State, e: Event)
  {
    && e.SettleCommit? && !e.tx.RolledBack?
    && var phase := s.Of(e.w).phase;
       phase.SettleRead? && SettleWrites(s.db, phase.ctx, phase.cfg, phase.star, phase.firstClear).Written?
  }

  /** If the event enters a battle for this player, it finds none unfinished. */
  predicate FindsNonePending(s: State, e: Event, p: int)
  {
    Enters(s, e) && s.Of(e.w).phase.playerId == p ==> !HasPending(s.db, p)
  }

  /** If the event settles a first clear of this player and dungeon, it finds no progress row there. */
  predicate FindsNoProgress(s: State, e: Event, p: int, d: int)
  {
    Settles(s, e) ==>
      var phase := s.Of(e.w).phase;
      phase.firstClear && phase.playerId == p && phase.cfg.dungeonId == d ==> (p, d) !in s.db.progress
  }

  // ---- single events ----

  lemma TablesAfter(s: State, e: Event)
    ensures var phase := if e.EnterCommit? || e.SettleCommit? then s.Of(e.w).phase else Idle;
            Step(s, e).db ==
              if Enters(s, e) then EnterWrites(s.db, phase.playerId, phase.cfg, phase.battleId).tables
              else if Settles(s, e) then SettleWrites(s.db, phase.ctx, phase.cfg, phase.star, phase.firstClear).tables
              else s.db
  {
    if e.EnterCommit? {
      hide EnterWrites, EnterRefusal, EnteredContext;
    } else if e.SettleCommit? {
      hide SettleWrites, SettleRewards, SettleRefusal;
    } else {
      OtherStepsKeepTables(s, e);
      hide Step;
    }
  }

  lemma SettlerFits(s: State, e: Event)
    requires Safe(s) && Settles(s, e)
    ensures var phase := s.Of(e.w).phase;
            && Consistent(s.db, s.stars) && Settleable(s.db, phase.ctx, phase.cfg, phase.firstClear)
            && phase.ctx.playerId == phase.playerId
  {
    PhaseIsSafe(s, e.w);
    hide Consistent, SettleWrites;
  }

  lemma SettlingFinishesOnly(t: Tables, stars: map<string, int>, ctx: BattleContext, cfg: DungeonConfig, star: int,
                             firstClear: bool)
    requires Consistent(t, stars) && Settleable(t, ctx, cfg, firstClear)
    requires SettleWrites(t, ctx, cfg, star, firstClear).Written?
    ensures forall x, q :: Pending(SettleWrites(t, ctx, cfg, star, firstClear).tables, x, q) ==> Pending(t, x, q)
  {
    SettleEffect(t, ctx, cfg, star, firstClear);
    hide SettleWrites;
  }

  lemma EnteringPaysNoBonus(t: Tables, p: int, cfg: DungeonConfig, id: string)
    requires PaidWhenSettled(t) && EnterWrites(t, p, cfg, id).Written?
    ensures forall x, q, d :: Bonus(EnterWrites(t, p, cfg, id).tables, x, q, d) <==> Bonus(t, x, q, d)
  {
  }

  /** A player with at most one unfinished battle still has at most one after an event exactly if the event
      meets the condition. */
  lemma PendingStepExactly(s: State, e: Event, p: int)
    requires Safe(s) && OnePendingOf(s.db, p)
    ensures OnePendingOf(Step(s, e).db, p) <==> FindsNonePending(s, e, p)
  {
    hide Step, Safe, HasPending, EnterWrites, SettleWrites, Enters, Settles, OnePendingOf;
    TablesAfter(s, e);
    if Enters(s, e) {
      EntererOf(s, e);
      var phase := s.Of(e.w).phase;
      SecondPendingExactly(s.db, phase.playerId, phase.cfg, phase.battleId);
    } else if Settles(s, e) {
      SettlesOnly(s, e);
      var phase := s.Of(e.w).phase;
      SettlerFits(s, e);
      SettlingFinishesOnly(s.db, s.stars, phase.ctx, phase.cfg, phase.star, phase.firstClear);
      FewerPending(s.db, Step(s, e).db, p);
    }
  }

  lemma EntererOf(s: State, e: Event)
    requires Enters(s, e)
    ensures e.EnterCommit? && s.Of(e.w).phase.EnterChecked?
    ensures var phase := s.Of(e.w).phase; EnterWrites(s.db, phase.playerId, phase.cfg, phase.battleId).Written?
    ensures !Settles(s, e)
  {
  }

  lemma SettlesOnly(s: State, e: Event)
    requires Settles(s, e)
    ensures e.SettleCommit? && s.Of(e.w).phase.SettleRead?
    ensures var phase := s.Of(e.w).phase;
            SettleWrites(s.db, phase.ctx, phase.cfg, phase.star, phase.firstClear).Written?
    ensures !Enters(s, e)
  {
  }

  lemma FewerPending(t: Tables, t': Tables, p: int)
    requires OnePendingOf(t, p) && forall x, q :: Pending(t', x, q) ==> Pending(t, x, q)
    ensures OnePendingOf(t', p)
  {
  }

  lemma SameBonuses(t: Tables, t': Tables, p: int, d: int)
    requires forall x, q, e :: Bonus(t', x, q, e) <==> Bonus(t, x, q, e)
    ensures OneBonusOf(t', p, d) <==> OneBonusOf(t, p, d)
  {
    hide Bonus;
    if OneBonusOf(t', p, d) {
      assert forall x, y :: Bonus(t, x, p, d) && Bonus(t, y, p, d) ==> Bonus(t', x, p, d) && Bonus(t', y, p, d);
    }
  }

  /** After an event at most one bonus was paid for a player and dungeon exactly if that was so before and
      the event meets the condition: a second bonus is never taken back. */
  lemma BonusStepExactly(s: State, e: Event, p: int, d: int)
    requires Safe(s)
    ensures OneBonusOf(Step(s, e).db, p, d) <==> OneBonusOf(s.db, p, d) && FindsNoProgress(s, e, p, d)
  {
    assert PaidWhenSettled(s.db);
    hide Step, Safe, EnterWrites, SettleWrites, Enters, Settles, OneBonusOf, PaidWhenSettled;
    TablesAfter(s, e);
    if Enters(s, e) {
      EntererOf(s, e);
      var phase := s.Of(e.w).phase;
      EnteringPaysNoBonus(s.db, phase.playerId, phase.cfg, phase.battleId);
      SameBonuses(s.db, Step(s, e).db, p, d);
    } else if Settles(s, e) {
      SettlesOnly(s, e);
      var phase := s.Of(e.w).phase;
      SettlerFits(s, e);
      SecondBonusExactly(s.db, s.stars, phase.ctx, phase.cfg, phase.star, phase.firstClear);
    }
  }

  /** The remaining stamina an enter request is going to report is the committed one exactly if the stamina
      it read is still the player's when it commits. */
  lemma RemainIsTrueExactly(s: State, e: Event)
    requires Enters(s, e) && e.tx.Clean?
    ensures var s', p := Step(s, e), s.Of(e.w).phase.playerId;
            && s'.Of(e.w).phase.EnterCommitted?
            && (s'.Of(e.w).phase.remain == StaminaOf(s'.db, p) <==> s.Of(e.w).phase.stamina == StaminaOf(s.db, p))
  {
    var phase := s.Of(e.w).phase;
    EnterEffect(s.db, phase.playerId, phase.cfg, phase.battleId);
    hide EnterWrites, EnteredContext;
  }

  // ---- runs ----

  ghost predicate OnePendingThroughout(s: State, events: seq<Event>, p: int)
  {
    forall i :: 0 <= i <= |events| ==> OnePendingOf(Run(s, events[..i]).db, p)
  }

  ghost predicate NonePendingFound(s: State, events: seq<Event>, p: int)
  {
    forall i :: 0 <= i < |events| ==> FindsNonePending(Run(s, events[..i]), events[i], p)
  }

  ghost predicate NoProgressFound(s: State, events: seq<Event>, p: int, d: int)
  {
    forall i :: 0 <= i < |events| ==> FindsNoProgress(Run(s, events[..i]), events[i], p, d)
  }

  /** A player has at most one unfinished battle throughout a run exactly if every enter commit of that
      player finds none. */
  lemma {:induction false} RunKeepsOnePendingExactly(s: State, events: seq<Event>, p: int)
    requires Safe(s) && OnePendingOf(s.db, p)
    ensures OnePendingThroughout(s, events, p) <==> NonePendingFound(s, events, p)
    decreases |events|
  {
    hide Safe, Step, OnePendingOf, FindsNonePending;
    if events == [] {
      assert events[..0] == [];
    } else {
      var n := |events| - 1;
      var before := events[..n];
      assert forall i :: 0 <= i <= n ==> before[..i] == events[..i];
      assert events[..|events|] == events == before + [events[n]];
      RunKeepsOnePendingExactly(s, before, p);
      RunIsSafe(s, before);
      RunSnoc(s, before, events[n]);
      assert OnePendingThroughout(s, events, p) <==>
        OnePendingThroughout(s, before, p) && OnePendingOf(Run(s, events).db, p);
      assert NonePendingFound(s, events, p) <==>
        NonePendingFound(s, before, p) && FindsNonePending(Run(s, before), events[n], p);
      if OnePendingThroughout(s, before, p) {
        assert before[..n] == before;
        PendingStepExactly(Run(s, before), events[n], p);
      }
    }
  }

  /** After a run at most one bonus has been paid for a player and dungeon exactly if every settlement of a
      first clear there found no progress row. */
  lemma {:induction false} RunPaysOneBonusExactly(s: State, events: seq<Event>, p: int, d: int)
    requires Safe(s)
    ensures OneBonusOf(Run(s, events).db, p, d) <==> OneBonusOf(s.db, p, d) && NoProgressFound(s, events, p, d)
    decreases |events|
  {
    hide Safe, Step, OneBonusOf, FindsNoProgress;
    if events != [] {
      var n := |events| - 1;
      var before := events[..n];
      assert forall i :: 0 <= i <= n ==> before[..i] == events[..i];
      assert events == before + [events[n]];
      RunPaysOneBonusExactly(s, before, p, d);
      RunIsSafe(s, before);
      RunSnoc(s, before, events[n]);
      BonusStepExactly(Run(s, before), events[n], p, d);
      assert NoProgressFound(s, events, p, d) <==>
        NoProgressFound(s, before, p, d) && FindsNoProgress(Run(s, before), events[n], p, d);
    }
  }

  lemma PaidOnceExactly(t: Tables, stars: map<string, int>, p: int, d: int)
    requires Consistent(t, stars) && (p, d) in t.progress
    ensures BonusOnce(t, p, d) <==> OneBonusOf(t, p, d)
  {
    EarnedWhereCleared(t, stars, p, d);
    hide Consistent, Bonus;
    if OneBonusOf(t, p, d) {
      var id :| Bonus(t, id, p, d);
      assert forall other :: Bonus(t, other, p, d) ==> other == id;
    }
  }

  /** What the player lock is for, over every run from an idle cluster, faithful or not: a player has at most
      one unfinished battle throughout exactly if no enter commit of the player finds one, and each dungeon
      the player has cleared has paid its bonus exactly once exactly if no settlement of a first clear there
      found it cleared. */
  lemma PromisesKeptExactly(s: State, events: seq<Event>, p: int)
    requires Initial(s)
    ensures OnePendingThroughout(s, events, p) <==> NonePendingFound(s, events, p)
    ensures forall d :: (p, d) in Run(s, events).db.progress ==>
              (BonusOnce(Run(s, events).db, p, d) <==> NoProgressFound(s, events, p, d))
  {
    InitialIsSafe(s);
    assert OnePendingOf(s.db, p);
    assert forall d :: OneBonusOf(s.db, p, d);
    hide Run, Initial, OnePendingOf, OneBonusOf, BonusOnce, Balanced, Grows;
    RunKeepsOnePendingExactly(s, events, p);
    RunIsSafe(s, events);
    forall d | (p, d) in Run(s, events).db.progress
      ensures BonusOnce(Run(s, events).db, p, d) <==> NoProgressFound(s, events, p, d)
    {
      RunPaysOneBonusExactly(s, events, p, d);
      PaidOnceExactly(Run(s, events).db, Run(s, events).stars, p, d);
    }
  }
}
