/**
 When a cached player snapshot can be trusted: what a player load yields from the tables, and what keeps
 the cached copies equal to it while enter and settle requests run.
 */
module SnapshotCoherence {
  import opened Common
  import opened Tables
  import opened DungeonProtocol
  import opened DungeonSafety
  import opened Hashes
  import opened Records
  import opened Runs

  // ---- what loading a player from the tables yields ----

  function ProfileOf(t: Tables, p: int): Profile
    requires p in t.players
  {
    var row := t.players[p];
    var assets := if p in t.assets then t.assets[p] else AssetRow(0, 0, 0);
    Profile(p, row.accountId, row.name, row.level, assets.stamina, assets.gold, assets.diamond)
  }

  predicate Ascending(list: seq<DungeonProgress>)
  {
    forall i, j :: 0 <= i < j < |list| ==> list[i].dungeonId < list[j].dungeonId
  }

  predicate IsRow(t: Tables, p: int, item: DungeonProgress)
  {
    var key := (p, item.dungeonId);
    key in t.progress && item == DungeonProgress(item.dungeonId, t.progress[key].bestStar, t.progress[key].isFirstClear)
  }

  predicate Lists(list: seq<DungeonProgress>, d: int)
  {
    exists i :: 0 <= i < |list| && list[i].dungeonId == d
  }

  /** The player's progress rows, each once, by ascending dungeon id. */
  ghost predicate ListsProgress(t: Tables, p: int, list: seq<DungeonProgress>)
  {
    && Ascending(list)
    && (forall i :: 0 <= i < |list| ==> IsRow(t, p, list[i]))
    && (forall d :: (p, d) in t.progress ==> Lists(list, d))
  }

  ghost predicate Represents(t: Tables, p: int, state: PlayerState)
  {
    p in t.players && state.profile == ProfileOf(t, p) && ListsProgress(t, p, state.progress)
  }

  /** The columns a player is shown: the player row, the asset row or zeros, and the progress rows. */
  predicate ShowsColumns(t: Tables, p: int, state: PlayerState)
  {
    && p in t.players && state.profile.playerId == p
    && state.profile.accountId == t.players[p].accountId && state.profile.name == t.players[p].name
    && state.profile.level == t.players[p].level
    && (p in t.assets ==>
          && state.profile.stamina == t.assets[p].stamina
          && state.profile.gold == t.assets[p].gold && state.profile.diamond == t.assets[p].diamond)
    && (p !in t.assets ==> state.profile.stamina == 0 && state.profile.gold == 0 && state.profile.diamond == 0)
    && forall i :: 0 <= i < |state.progress| ==>
         var item := state.progress[i];
         && (p, item.dungeonId) in t.progress && item.bestStar == t.progress[(p, item.dungeonId)].bestStar
         && (item.isFirstClear <==> t.progress[(p, item.dungeonId)].isFirstClear)
  }

  lemma RepresentsColumns(t: Tables, p: int, state: PlayerState)
    requires Represents(t, p, state)
    ensures ShowsColumns(t, p, state)
  {
    assert forall i :: 0 <= i < |state.progress| ==> IsRow(t, p, state.progress[i]);
  }

  predicate AllIn(a: seq<DungeonProgress>, b: seq<DungeonProgress>)
  {
    (b == [] ==> a == []) && forall i :: 0 <= i < |a| ==> a[i] in b
  }

  lemma LastsAgree(a: seq<DungeonProgress>, b: seq<DungeonProgress>)
    requires Ascending(a) && Ascending(b) && AllIn(a, b) && AllIn(b, a) && a != [] && b != []
    ensures a[|a| - 1] == b[|b| - 1]
  {
    var m, n := |a| - 1, |b| - 1;
    assert a[m] in b && b[n] in a;
    var i :| 0 <= i <= n && b[i] == a[m];
    var j :| 0 <= j <= m && a[j] == b[n];
    hide AllIn;
  }

  lemma WithoutLast(a: seq<DungeonProgress>, b: seq<DungeonProgress>)
    requires Ascending(a) && AllIn(a, b) && a != [] && b != [] && a[|a| - 1] == b[|b| - 1]
    ensures AllIn(a[..|a| - 1], b[..|b| - 1])
  {
    var m, n := |a| - 1, |b| - 1;
    assert a[0] in b && (m > 0 ==> a[0].dungeonId < a[m].dungeonId);
    forall k | 0 <= k < m ensures a[..m][k] in b[..n] {
      assert a[k] in b && a[k].dungeonId < a[m].dungeonId;
      var x :| 0 <= x < |b| && b[x] == a[k];
      assert b[..n][x] == a[k];
    }
  }

  lemma {:induction false} SameAscending(a: seq<DungeonProgress>, b: seq<DungeonProgress>)
    requires Ascending(a) && Ascending(b) && AllIn(a, b) && AllIn(b, a)
    ensures a == b
    decreases |a|
  {
    if a != [] && b != [] {
      LastsAgree(a, b);
      WithoutLast(a, b);
      WithoutLast(b, a);
      hide AllIn;
      var m, n := |a| - 1, |b| - 1;
      SameAscending(a[..m], b[..n]);
      assert a == a[..m] + [a[m]] && b == b[..n] + [b[n]];
    }
  }

  lemma RowsFound(t: Tables, p: int, a: seq<DungeonProgress>, b: seq<DungeonProgress>)
    requires ListsProgress(t, p, a) && ListsProgress(t, p, b)
    ensures AllIn(a, b)
  {
    assert a != [] ==> IsRow(t, p, a[0]) && Lists(b, a[0].dungeonId);
    forall i | 0 <= i < |a| ensures a[i] in b {
      assert IsRow(t, p, a[i]) && Lists(b, a[i].dungeonId);
      var j :| 0 <= j < |b| && b[j].dungeonId == a[i].dungeonId;
      assert IsRow(t, p, b[j]);
    }
  }

  /** In whatever order the rows arrive, there is only one state a load can end with. */
  lemma RepresentsOnce(t: Tables, p: int, a: PlayerState, b: PlayerState)
    requires Represents(t, p, a) && Represents(t, p, b)
    ensures a == b
  {
    RowsFound(t, p, a.progress, b.progress);
    RowsFound(t, p, b.progress, a.progress);
    SameAscending(a.progress, b.progress);
  }

  // ---- loads around a transaction ----

  /** After an enter the player is shown with the cost taken off the stamina, and otherwise as before. */
  lemma LoadAfterEnter(t: Tables, p: int, cfg: DungeonConfig, id: string, a: PlayerState, b: PlayerState)
    requires EnterWrites(t, p, cfg, id).Written? && Represents(t, p, a)
    requires Represents(EnterWrites(t, p, cfg, id).tables, p, b)
    ensures b == a.(profile := a.profile.(stamina := a.profile.stamina - cfg.costStamina))
  {
    var t' := EnterWrites(t, p, cfg, id).tables;
    var expected := a.(profile := a.profile.(stamina := a.profile.stamina - cfg.costStamina));
    EnterEffect(t, p, cfg, id);
    hide EnterWrites;
    assert forall i :: 0 <= i < |a.progress| ==> IsRow(t, p, a.progress[i]);
    assert Represents(t', p, expected);
    RepresentsOnce(t', p, b, expected);
  }

  /** The progress shown after a settlement: the dungeon with its best star so far, all others as before. */
  ghost predicate ProgressRaised(before: seq<DungeonProgress>, after: seq<DungeonProgress>, d: int, star: int,
                                 first: bool)
  {
    && (forall item :: item in after && item.dungeonId != d <==> item in before && item.dungeonId != d)
    && Lists(after, d)
    && forall item :: item in after && item.dungeonId == d ==>
         && (!Lists(before, d) ==> item.bestStar == star && item.isFirstClear == first)
         && forall prior :: prior in before && prior.dungeonId == d ==>
              && item.bestStar == (if prior.bestStar >= star then prior.bestStar else star)
              && item.isFirstClear == (prior.isFirstClear || first)
  }

  /** After a settlement the player is shown with the gold, the diamonds exactly on a first clear, and the
      progress it made, and otherwise as before. */
  lemma LoadAfterSettle(t: Tables, ctx: BattleContext, cfg: DungeonConfig, star: int, firstClear: bool,
                        a: PlayerState, b: PlayerState)
    requires SettleWrites(t, ctx, cfg, star, firstClear).Written? && ctx.playerId in t.assets
    requires Represents(t, ctx.playerId, a)
    requires Represents(SettleWrites(t, ctx, cfg, star, firstClear).tables, ctx.playerId, b)
    ensures b.profile == a.profile.(gold := a.profile.gold + cfg.normalGold,
                                    diamond := a.profile.diamond + if firstClear then cfg.firstClearDiamond else 0)
    ensures ProgressRaised(a.progress, b.progress, cfg.dungeonId, star, firstClear)
  {
    var t', p, d := SettleWrites(t, ctx, cfg, star, firstClear).tables, ctx.playerId, cfg.dungeonId;
    SettleRows(t, ctx, cfg, star, firstClear);
    hide SettleWrites;
    ListedRows(t, p, a.progress);
    ListedRows(t', p, b.progress);
    forall item ensures item in b.progress && item.dungeonId != d <==> item in a.progress && item.dungeonId != d {
      assert IsRow(t, p, item) && item.dungeonId != d <==> IsRow(t', p, item) && item.dungeonId != d;
    }
    assert (p, d) in t'.progress;
    assert Lists(a.progress, d) <==> (p, d) in t.progress;
  }

  /** The list holds exactly the rows. */
  lemma ListedRows(t: Tables, p: int, list: seq<DungeonProgress>)
    requires ListsProgress(t, p, list)
    ensures forall item :: item in list <==> IsRow(t, p, item)
    ensures forall d :: Lists(list, d) <==> (p, d) in t.progress
  {
    forall item | IsRow(t, p, item) ensures item in list {
      assert Lists(list, item.dungeonId);
      var i :| 0 <= i < |list| && list[i].dungeonId == item.dungeonId;
      assert IsRow(t, p, list[i]);
    }
    forall d | Lists(list, d) ensures (p, d) in t.progress {
      var i :| 0 <= i < |list| && list[i].dungeonId == d;
      assert IsRow(t, p, list[i]);
    }
  }

  // ---- commits touch one player ----

  ghost predicate SameRows(t: Tables, t': Tables, p: int)
  {
    && t'.players == t.players
    && (p in t'.assets <==> p in t.assets) && (p in t.assets ==> t'.assets[p] == t.assets[p])
    && (forall d :: (p, d) in t'.progress <==> (p, d) in t.progress)
    && (forall d :: (p, d) in t.progress ==> t'.progress[(p, d)] == t.progress[(p, d)])
  }

  predicate Touches(statement: Statement, p: int)
  {
    match statement
    case TakeStamina(q, _) => p == q
    case CreditAssets(q, _, _) => p == q
    case UpsertProgress(q, _, _, _) => p == q
    case _ => false
  }

  lemma After(t: Tables, statement: Statement, other: int) returns (t': Tables)
    requires Apply(t, statement).Done? && !Touches(statement, other)
    ensures t' == Apply(t, statement).tables && SameRows(t, t', other)
  {
    t' := Apply(t, statement).tables;
  }

  lemma SameRowsTwice(t0: Tables, t1: Tables, t2: Tables, p: int)
    requires SameRows(t0, t1, p) && SameRows(t1, t2, p)
    ensures SameRows(t0, t2, p)
  {
  }

  lemma EnterTouchesOne(t: Tables, p: int, cfg: DungeonConfig, id: string, other: int)
    requires EnterWrites(t, p, cfg, id).Written? && other != p
    ensures SameRows(t, EnterWrites(t, p, cfg, id).tables, other)
  {
  }

  lemma SettleTouchesOne(t: Tables, ctx: BattleContext, cfg: DungeonConfig, star: int, firstClear: bool, other: int)
    requires SettleWrites(t, ctx, cfg, star, firstClear).Written? && other != ctx.playerId
    ensures SameRows(t, SettleWrites(t, ctx, cfg, star, firstClear).tables, other)
  {
    hide Apply, SameRows;
    var t1 := After(t, MarkSettled(ctx.battleId), other);
    var t2 := After(t1, CreditAssets(ctx.playerId, cfg.normalGold,
              if firstClear then Some(cfg.firstClearDiamond) else None), other);
    var t3 := After(t2, UpsertProgress(ctx.playerId, cfg.dungeonId, star, firstClear), other);
    var t4 := After(t3, InsertReward(RewardKey(ctx.playerId, ctx.battleId, Gold), cfg.normalGold), other);
    SameRowsTwice(t, t1, t2, other);
    SameRowsTwice(t, t2, t3, other);
    SameRowsTwice(t, t3, t4, other);
    if firstClear {
      var t5 := After(t4, InsertReward(RewardKey(ctx.playerId, ctx.battleId, Diamond), cfg.firstClearDiamond), other);
      SameRowsTwice(t, t4, t5, other);
    }
  }

  // ---- what a load can see ----

  /** A load of this player yields the same from both. */
  ghost predicate SameView(t: Tables, t': Tables, p: int)
  {
    && (p in t.players <==> p in t'.players)
    && (p in t.players ==> ProfileOf(t, p) == ProfileOf(t', p))
    && (forall d :: (p, d) in t.progress <==> (p, d) in t'.progress)
    && (forall d :: (p, d) in t.progress && (p, d) in t'.progress ==> t.progress[(p, d)] == t'.progress[(p, d)])
  }

  lemma SameRowsLookSame(t: Tables, t': Tables, p: int)
    requires SameRows(t, t', p)
    ensures SameView(t, t', p)
  {
  }

  /** A state loaded from one is what a load of the other yields exactly if a load cannot tell them apart. */
  lemma RepresentsBoth(t: Tables, t': Tables, p: int, state: PlayerState)
    requires Represents(t, p, state)
    ensures Represents(t', p, state) <==> SameView(t, t', p)
  {
    if Represents(t', p, state) {
      forall d ensures (p, d) in t.progress <==> (p, d) in t'.progress
        ensures (p, d) in t.progress && (p, d) in t'.progress ==> t.progress[(p, d)] == t'.progress[(p, d)]
      {
        if (p, d) in t.progress || (p, d) in t'.progress {
          assert Lists(state.progress, d);
          var i :| 0 <= i < |state.progress| && state.progress[i].dungeonId == d;
          assert IsRow(t, p, state.progress[i]) && IsRow(t', p, state.progress[i]);
        }
      }
    }
    if SameView(t, t', p) {
      forall i | 0 <= i < |state.progress| ensures IsRow(t', p, state.progress[i]) {
        assert IsRow(t, p, state.progress[i]);
      }
    }
  }

  /** The cached hash can be read, and is what a load would yield. */
  ghost predicate Current(t: Tables, p: int, hash: Hash)
  {
    DecodeSnapshot(hash).Some? && Represents(t, p, DecodeSnapshot(hash).value)
  }

  lemma CurrentBoth(t: Tables, t': Tables, p: int, hash: Hash)
    requires Current(t, p, hash)
    ensures Current(t', p, hash) <==> SameView(t, t', p)
  {
    hide DecodeSnapshot, Represents, SameView;
    RepresentsBoth(t, t', p, DecodeSnapshot(hash).value);
  }

  /** Entering always shows: the stamina is different. */
  lemma EnterIsSeen(t: Tables, p: int, cfg: DungeonConfig, id: string)
    requires EnterWrites(t, p, cfg, id).Written? && p in t.players
    ensures !SameView(t, EnterWrites(t, p, cfg, id).tables, p)
  {
    hide EnterWrites;
    EnterEffect(t, p, cfg, id);
  }

  /** A settlement that pays nothing and reaches no better star in a dungeon cleared before. */
  predicate Unseen(t: Tables, ctx: BattleContext, cfg: DungeonConfig, star: int, firstClear: bool)
  {
    var key := (ctx.playerId, cfg.dungeonId);
    && cfg.normalGold == 0 && (firstClear ==> cfg.firstClearDiamond == 0)
    && key in t.progress && star <= t.progress[key].bestStar && (firstClear ==> t.progress[key].isFirstClear)
  }

  lemma SettleIsSeenExactly(t: Tables, ctx: BattleContext, cfg: DungeonConfig, star: int, firstClear: bool)
    requires SettleWrites(t, ctx, cfg, star, firstClear).Written?
    requires ctx.playerId in t.players && ctx.playerId in t.assets
    ensures SameView(t, SettleWrites(t, ctx, cfg, star, firstClear).tables, ctx.playerId)
       <==> Unseen(t, ctx, cfg, star, firstClear)
  {
    var t' := SettleWrites(t, ctx, cfg, star, firstClear).tables;
    var key := (ctx.playerId, cfg.dungeonId);
    SettleRows(t, ctx, cfg, star, firstClear);
    hide SettleWrites;
    if SameView(t, t', ctx.playerId) {
      assert key in t'.progress;
    }
  }

  /** The columns a load reads, after a settlement. */
  lemma SettleRows(t: Tables, ctx: BattleContext, cfg: DungeonConfig, star: int, firstClear: bool)
    requires SettleWrites(t, ctx, cfg, star, firstClear).Written? && ctx.playerId in t.assets
    ensures var t', p, key := SettleWrites(t, ctx, cfg, star, firstClear).tables,
              ctx.playerId, (ctx.playerId, cfg.dungeonId);
            && t'.players == t.players && p in t'.assets && t'.assets[p].stamina == t.assets[p].stamina
            && t'.assets[p].gold == t.assets[p].gold + cfg.normalGold
            && t'.assets[p].diamond == t.assets[p].diamond + (if firstClear then cfg.firstClearDiamond else 0)
            && t'.progress.Keys == t.progress.Keys + {key}
            && (forall other :: other in t.progress && other != key ==> t'.progress[other] == t.progress[other])
            && (key !in t.progress ==> t'.progress[key] == ProgressRow(star, firstClear))
            && (key in t.progress ==>
                 && t'.progress[key].bestStar ==
                    (if t.progress[key].bestStar >= star then t.progress[key].bestStar else star)
                 && t'.progress[key].isFirstClear == (t.progress[key].isFirstClear || firstClear))
  {
  }

  // ---- coherence ----

  /** Between the commit and the invalidation of a player's snapshot. */
  predicate Dirty(phase: Phase, p: int)
  {
    (phase.EnterCommitted? || phase.SettleCommitted? || phase.Invalidating?) && phase.playerId == p
  }

  predicate DirtyBy(s: State, w: int, p: int) { Dirty(s.Of(w).phase, p) }

  /** Some worker is about to delete this player's snapshot. */
  ghost predicate Awaited(s: State, p: int)
  {
    exists w :: DirtyBy(s, w, p)
  }

  ghost predicate AwaitedByOther(s: State, w: int, p: int)
  {
    exists v :: v != w && DirtyBy(s, v, p)
  }

  /** The snapshot cached for this player, if any, is what a load would yield, or about to be deleted. */
  ghost predicate FreshFor(s: State, p: int)
  {
    p in s.snapshots ==> Current(s.db, p, s.snapshots[p]) || Awaited(s, p)
  }

  ghost predicate Fresh(s: State)
  {
    forall p :: FreshFor(s, p)
  }

  /** Nothing stale comes to light when worker w stops being responsible for the player. */
  ghost predicate MayLetGo(s: State, w: int, p: int)
  {
    p in s.snapshots ==> Current(s.db, p, s.snapshots[p]) || AwaitedByOther(s, w, p)
  }

  /** The player has no snapshot, or one that is about to be deleted. */
  ghost predicate Covered(s: State, p: int)
  {
    p !in s.snapshots || Awaited(s, p)
  }

  /** The enter transaction is going to be committed, but its worker will not learn of it. */
  predicate EntersUnnoticed(s: State, w: int, tx: TxFate)
  {
    var phase := s.Of(w).phase;
    && tx.CommitUnacknowledged? && phase.EnterChecked?
    && EnterWrites(s.db, phase.playerId, phase.cfg, phase.battleId).Written?
  }

  predicate SettlesUnnoticed(s: State, w: int, tx: TxFate)
  {
    var phase := s.Of(w).phase;
    && tx.CommitUnacknowledged? && phase.SettleRead?
    && SettleWrites(s.db, phase.ctx, phase.cfg, phase.star, phase.firstClear).Written?
  }

  predicate SettlesUnseen(s: State, phase: Phase)
    requires phase.SettleRead?
  {
    Unseen(s.db, phase.ctx, phase.cfg, phase.star, phase.firstClear)
  }

  /** The exact condition, event by event, for every snapshot to stay fresh. */
  ghost predicate LeavesFresh(s: State, e: Event)
  {
    match e
    case WriteSnapshot(p, state, names) =>
      names !! SNAPSHOT_FIELDS || Awaited(s, p) || Current(s.db, p, SavedSnapshots(s.snapshots, p, state, names)[p])
    case Invalidate(w, done) =>
      done || !s.Of(w).phase.Invalidating? || MayLetGo(s, w, s.Of(w).phase.playerId)
    case Crash(w) =>
      forall p :: DirtyBy(s, w, p) ==> MayLetGo(s, w, p)
    case EnterCommit(w, tx) =>
      EntersUnnoticed(s, w, tx) ==> Covered(s, s.Of(w).phase.playerId)
    case SettleCommit(w, tx) =>
      SettlesUnnoticed(s, w, tx) ==> Covered(s, s.Of(w).phase.playerId) || SettlesUnseen(s, s.Of(w).phase)
    case _ => true
  }

  /** Nothing but an invalidation or a crash takes a worker out of the dirty phases. */
  lemma DirtyStays(s: State, e: Event, w: int, p: int)
    requires DirtyBy(s, w, p) && !(e.Invalidate? && e.w == w) && !(e.Crash? && e.w == w)
    ensures DirtyBy(Step(s, e), w, p)
  {
    hide EnterWrites, SettleWrites, FindBattle, HasPending, DecodeContext, SavedContexts, SavedSnapshots;
  }

  lemma AwaitedStays(s: State, e: Event, p: int)
    requires Awaited(s, p) && !e.Invalidate? && !e.Crash?
    ensures Awaited(Step(s, e), p)
  {
    hide Step, DirtyBy;
    var w :| DirtyBy(s, w, p);
    DirtyStays(s, e, w, p);
  }

  /** Who awaits the player after a step of worker w. */
  lemma AwaitedAfter(s: State, s': State, w: int, p: int)
    requires forall v :: v != w ==> s'.Of(v) == s.Of(v)
    ensures Awaited(s', p) <==> AwaitedByOther(s, w, p) || DirtyBy(s', w, p)
    ensures Awaited(s, p) <==> AwaitedByOther(s, w, p) || DirtyBy(s, w, p)
  {
    hide Dirty;
    forall v ensures v != w ==> (DirtyBy(s', v, p) <==> DirtyBy(s, v, p)) {
    }
  }

  lemma SnapshotsOnlyWritten(s: State, e: Event, p: int)
    requires p in Step(s, e).snapshots
    ensures (e.WriteSnapshot? && e.playerId == p && !(e.names !! SNAPSHOT_FIELDS))
         || (p in s.snapshots && Step(s, e).snapshots[p] == s.snapshots[p])
  {
    hide EnterWrites, SettleWrites, FindBattle, HasPending, DecodeContext, SavedContexts, Stored;
  }

  /** Same tables, as far as a load of this player can tell; same snapshot or none; still awaited if it was. */
  lemma FreshForStays(s: State, s': State, p: int)
    requires FreshFor(s, p) && SameView(s.db, s'.db, p)
    requires p in s'.snapshots ==> p in s.snapshots && s'.snapshots[p] == s.snapshots[p]
    requires Awaited(s, p) ==> Awaited(s', p)
    ensures FreshFor(s', p)
  {
    hide SameView, Awaited;
    if p in s'.snapshots && Current(s.db, p, s.snapshots[p]) {
      CurrentBoth(s.db, s'.db, p, s.snapshots[p]);
    }
  }

  // Event by event.

  lemma WriteFreshExactly(s: State, p: int, state: PlayerState, names: set<string>)
    requires Fresh(s)
    ensures Fresh(Step(s, WriteSnapshot(p, state, names))) <==> LeavesFresh(s, WriteSnapshot(p, state, names))
  {
    hide Current, Dirty, Stored;
    var s' := Step(s, WriteSnapshot(p, state, names));
    forall q ensures Awaited(s', q) <==> Awaited(s, q) {
      assert forall v :: s'.Of(v) == s.Of(v);
      AwaitedAfter(s, s', 0, q);
    }
    forall q | q != p ensures FreshFor(s', q) {
      assert FreshFor(s, q);
    }
    assert FreshFor(s, p);
    assert FreshFor(s', p) <==> LeavesFresh(s, WriteSnapshot(p, state, names));
  }

  /** Worker w stops being responsible for p and nothing else changes. */
  lemma LettingGo(s: State, s': State, w: int, p: int)
    requires Fresh(s) && s'.db == s.db && s'.snapshots == s.snapshots
    requires DirtyBy(s, w, p) && (forall q :: !DirtyBy(s', w, q)) && forall v :: v != w ==> s'.Of(v) == s.Of(v)
    ensures Fresh(s') <==> MayLetGo(s, w, p)
  {
    hide Current;
    forall q ensures q != p ==> FreshFor(s', q) {
      AwaitedAfter(s, s', w, q);
      assert FreshFor(s, q);
    }
    AwaitedAfter(s, s', w, p);
    assert FreshFor(s', p) <==> MayLetGo(s, w, p);
  }

  lemma InvalidateFreshExactly(s: State, w: int, done: bool)
    requires Fresh(s)
    ensures Fresh(Step(s, Invalidate(w, done))) <==> LeavesFresh(s, Invalidate(w, done))
  {
    hide Current;
    var s' := Step(s, Invalidate(w, done));
    var phase := s.Of(w).phase;
    if phase.Invalidating? {
      var p := phase.playerId;
      if done {
        forall q ensures FreshFor(s', q) {
          assert FreshFor(s, q);
          AwaitedAfter(s, s', w, q);
        }
      } else {
        LettingGo(s, s', w, p);
      }
    }
  }

  lemma CrashFreshExactly(s: State, w: int)
    requires Fresh(s)
    ensures Fresh(Step(s, Crash(w))) <==> LeavesFresh(s, Crash(w))
  {
    hide Current;
    var s' := Step(s, Crash(w));
    var phase := s.Of(w).phase;
    if phase.EnterCommitted? || phase.SettleCommitted? || phase.Invalidating? {
      LettingGo(s, s', w, phase.playerId);
      assert DirtyBy(s, w, phase.playerId);
    } else {
      forall q ensures FreshFor(s', q) {
        assert FreshFor(s, q);
        AwaitedAfter(s, s', w, q);
      }
    }
  }

  /** A commit of player p whose worker is dirty afterwards, or whose effect p's load does not show. */
  lemma CommitStaysFresh(s: State, s': State, p: int)
    requires Fresh(s) && s'.snapshots == s.snapshots
    requires (forall q :: q != p ==> SameView(s.db, s'.db, q)) && forall q :: Awaited(s, q) ==> Awaited(s', q)
    requires Awaited(s', p) || SameView(s.db, s'.db, p) || p !in s.snapshots
    ensures Fresh(s')
  {
    hide SameView, Awaited, Current;
    forall q ensures FreshFor(s', q) {
      assert FreshFor(s, q);
      if SameView(s.db, s'.db, q) { FreshForStays(s, s', q); }
    }
  }

  /** A commit of player p that is not awaited afterwards and shows. */
  lemma CommitTurnsStale(s: State, s': State, p: int)
    requires Fresh(s) && s'.snapshots == s.snapshots && p in s.snapshots
    requires !Awaited(s, p) && !Awaited(s', p) && !SameView(s.db, s'.db, p)
    ensures !Fresh(s')
  {
    hide SameView, Awaited, Current;
    assert FreshFor(s, p);
    CurrentBoth(s.db, s'.db, p, s.snapshots[p]);
    assert !FreshFor(s', p);
  }

  lemma EnterCommitFreshExactly(s: State, w: int, tx: TxFate)
    requires Safe(s) && Fresh(s)
    ensures Fresh(Step(s, EnterCommit(w, tx))) <==> LeavesFresh(s, EnterCommit(w, tx))
  {
    hide Fresh, EnterWrites, SameView, Awaited;
    var e := EnterCommit(w, tx);
    var s', phase := Step(s, e), s.Of(w).phase;
    if phase.EnterChecked? {
      var p := phase.playerId;
      var written := EnterWrites(s.db, p, phase.cfg, phase.battleId);
      EnterOutcome(s, w, tx);
      hide Step;
      forall q ensures Awaited(s, q) ==> Awaited(s', q) {
        if Awaited(s, q) { AwaitedStays(s, e, q); }
      }
      if tx.RolledBack? || written.Aborted? {
        NothingSeen(s, s');
        CommitStaysFresh(s, s', p);
      } else {
        forall q | q != p ensures SameView(s.db, s'.db, q) {
          EnterTouchesOne(s.db, p, phase.cfg, phase.battleId, q);
          SameRowsLookSame(s.db, s'.db, q);
        }
        EnterEffect(s.db, p, phase.cfg, phase.battleId);
        assert p in s.db.players;
        EnterIsSeen(s.db, p, phase.cfg, phase.battleId);
        AwaitedAfter(s, s', w, p);
        if tx.Clean? || p !in s.snapshots || Awaited(s, p) {
          CommitStaysFresh(s, s', p);
        } else {
          CommitTurnsStale(s, s', p);
        }
      }
    }
  }

  /** Where an enter commit leaves the tables and its worker. */
  lemma EnterOutcome(s: State, w: int, tx: TxFate)
    requires s.Of(w).phase.EnterChecked?
    ensures var s', phase := Step(s, EnterCommit(w, tx)), s.Of(w).phase;
            var written := EnterWrites(s.db, phase.playerId, phase.cfg, phase.battleId);
            && s'.snapshots == s.snapshots && (forall v :: v != w ==> s'.Of(v) == s.Of(v))
            && s'.db == (if tx.RolledBack? || written.Aborted? then s.db else written.tables)
            && forall q :: DirtyBy(s', w, q) <==> q == phase.playerId && tx.Clean? && written.Written?
  {
    hide EnterWrites;
  }

  lemma NothingSeen(s: State, s': State)
    requires s'.db == s.db
    ensures forall q :: SameView(s.db, s'.db, q)
  {
  }

  lemma SettlerIsKnown(s: State, w: int)
    requires Safe(s) && s.Of(w).phase.SettleRead?
    ensures var phase := s.Of(w).phase;
            phase.ctx.playerId == phase.playerId && phase.playerId in s.db.assets && phase.playerId in s.db.players
  {
    PhaseIsSafe(s, w);
  }

  lemma SettleCommitFreshExactly(s: State, w: int, tx: TxFate)
    requires Safe(s) && Fresh(s)
    ensures Fresh(Step(s, SettleCommit(w, tx))) <==> LeavesFresh(s, SettleCommit(w, tx))
  {
    hide Fresh, SettleWrites, SameView, Awaited, Safe, Unseen;
    var e := SettleCommit(w, tx);
    var s', phase := Step(s, e), s.Of(w).phase;
    if phase.SettleRead? {
      var p, ctx, cfg := phase.playerId, phase.ctx, phase.cfg;
      var written := SettleWrites(s.db, ctx, cfg, phase.star, phase.firstClear);
      SettlerIsKnown(s, w);
      SettleOutcome(s, w, tx);
      hide Step;
      forall q ensures Awaited(s, q) ==> Awaited(s', q) {
        if Awaited(s, q) { AwaitedStays(s, e, q); }
      }
      if tx.RolledBack? || written.Aborted? {
        NothingSeen(s, s');
        CommitStaysFresh(s, s', p);
      } else {
        forall q | q != p ensures SameView(s.db, s'.db, q) {
          SettleTouchesOne(s.db, ctx, cfg, phase.star, phase.firstClear, q);
          SameRowsLookSame(s.db, s'.db, q);
        }
        SettleIsSeenExactly(s.db, ctx, cfg, phase.star, phase.firstClear);
        AwaitedAfter(s, s', w, p);
        if tx.Clean? || p !in s.snapshots || Awaited(s, p) || Unseen(s.db, ctx, cfg, phase.star, phase.firstClear) {
          CommitStaysFresh(s, s', p);
        } else {
          CommitTurnsStale(s, s', p);
        }
      }
    }
  }

  lemma SettleOutcome(s: State, w: int, tx: TxFate)
    requires s.Of(w).phase.SettleRead?
    ensures var s', phase := Step(s, SettleCommit(w, tx)), s.Of(w).phase;
            var written := SettleWrites(s.db, phase.ctx, phase.cfg, phase.star, phase.firstClear);
            && s'.snapshots == s.snapshots && (forall v :: v != w ==> s'.Of(v) == s.Of(v))
            && s'.db == (if tx.RolledBack? || written.Aborted? then s.db else written.tables)
            && forall q :: DirtyBy(s', w, q) <==> q == phase.playerId && tx.Clean? && written.Written?
  {
    hide SettleWrites, SettleRewards;
  }

  lemma OthersStayFresh(s: State, e: Event)
    requires Fresh(s)
    requires !e.WriteSnapshot? && !e.Invalidate? && !e.Crash? && !e.EnterCommit? && !e.SettleCommit?
    ensures Fresh(Step(s, e))
  {
    hide Step, Awaited, SameView;
    var s' := Step(s, e);
    OtherStepsKeepTables(s, e);
    NothingSeen(s, s');
    forall p ensures FreshFor(s', p) {
      assert FreshFor(s, p);
      if p in s'.snapshots { SnapshotsOnlyWritten(s, e, p); }
      if Awaited(s, p) { AwaitedStays(s, e, p); }
      FreshForStays(s, s', p);
    }
  }

  /** Every event keeps every snapshot fresh exactly under the stated condition: failed invalidations, lost
      COMMIT answers, crashes after a commit and writes of outdated or partial snapshots included. */
  lemma FreshExactly(s: State, e: Event)
    requires Safe(s) && Fresh(s)
    ensures Fresh(Step(s, e)) <==> LeavesFresh(s, e)
  {
    hide Safe, Fresh, Step, Awaited, AwaitedByOther, Current, MayLetGo;
    match e
    case WriteSnapshot(p, state, names) => WriteFreshExactly(s, p, state, names);
    case Invalidate(w, done) => InvalidateFreshExactly(s, w, done);
    case Crash(w) => CrashFreshExactly(s, w);
    case EnterCommit(w, tx) => EnterCommitFreshExactly(s, w, tx);
    case SettleCommit(w, tx) => SettleCommitFreshExactly(s, w, tx);
    case _ => OthersStayFresh(s, e);
  }

  ghost predicate FreshThroughout(s: State, events: seq<Event>)
  {
    forall i :: 0 <= i <= |events| ==> Fresh(Run(s, events[..i]))
  }

  ghost predicate FreshSteps(s: State, events: seq<Event>)
  {
    forall i :: 0 <= i < |events| ==> LeavesFresh(Run(s, events[..i]), events[i])
  }

  /** A run keeps every snapshot fresh throughout exactly if each of its events meets the condition in the
      state it finds. */
  lemma {:induction false} RunIsFreshExactly(s: State, events: seq<Event>)
    requires Safe(s) && Fresh(s)
    ensures FreshThroughout(s, events) <==> FreshSteps(s, events)
    decreases |events|
  {
    hide Safe, Fresh, Step, LeavesFresh;
    if events == [] {
      assert events[..0] == [];
    } else {
      var n := |events| - 1;
      var before := events[..n];
      assert forall i :: 0 <= i <= n ==> before[..i] == events[..i];
      assert events[..|events|] == events == before + [events[n]];
      RunIsFreshExactly(s, before);
      RunIsSafe(s, before);
      RunSnoc(s, before, events[n]);
      assert FreshThroughout(s, events) <==> FreshThroughout(s, before) && Fresh(Run(s, events));
      assert FreshSteps(s, events) <==> FreshSteps(s, before) && LeavesFresh(Run(s, before), events[n]);
      if FreshThroughout(s, before) {
        assert Fresh(Run(s, before[..n]));
        assert before[..n] == before;
        FreshExactly(Run(s, before), events[n]);
      }
    }
  }

  ghost predicate NoneBusy(s: State)
  {
    forall w :: s.Of(w).phase.Idle?
  }

  /** Every cached snapshot is what a load would yield. */
  ghost predicate Coherent(s: State)
  {
    forall p :: p in s.snapshots ==> Current(s.db, p, s.snapshots[p])
  }

  lemma FreshAndIdleIsCoherent(s: State)
    requires NoneBusy(s)
    ensures Fresh(s) <==> Coherent(s)
  {
    hide Current;
    assert forall p :: !Awaited(s, p);
    if Fresh(s) {
      forall p | p in s.snapshots ensures Current(s.db, p, s.snapshots[p]) {
        assert FreshFor(s, p);
      }
    }
  }

  /** From an idle cluster without snapshots, with any number of workers, any interleaving and locks expiring
      at will: as long as each event meets the condition, a cached snapshot is what a load would yield
      whenever no request is running. */
  lemma CachedSnapshotsAreCurrent(s: State, events: seq<Event>)
    requires Initial(s) && s.snapshots == map[] && FreshSteps(s, events)
    ensures Fresh(Run(s, events))
    ensures NoneBusy(Run(s, events)) ==> Coherent(Run(s, events))
  {
    assert forall p :: FreshFor(s, p);
    hide Run, Fresh, FreshSteps, Coherent;
    InitialIsSafe(s);
    RunIsFreshExactly(s, events);
    assert FreshThroughout(s, events);
    assert events[..|events|] == events;
    if NoneBusy(Run(s, events)) { FreshAndIdleIsCoherent(Run(s, events)); }
  }

  // ---- events that never leave a stale snapshot ----

  /** Whatever the state: commits that are acknowledged or take no effect, deletions that are carried out,
      and everything that writes no snapshot. */
  predicate Harmless(e: Event)
  {
    && !e.WriteSnapshot? && !e.Crash? && (e.Invalidate? ==> e.done)
    && (e.EnterCommit? || e.SettleCommit? ==> !e.tx.CommitUnacknowledged?)
  }

  lemma {:induction false} HarmlessRunStaysFresh(s: State, events: seq<Event>)
    requires Safe(s) && Fresh(s) && forall i :: 0 <= i < |events| ==> Harmless(events[i])
    ensures Safe(Run(s, events)) && Fresh(Run(s, events))
    decreases |events|
  {
    hide Safe, Fresh, Step;
    if events != [] {
      var n := |events| - 1;
      HarmlessRunStaysFresh(s, events[..n]);
      var mid := Run(s, events[..n]);
      assert events == events[..n] + [events[n]];
      RunSnoc(s, events[..n], events[n]);
      assert LeavesFresh(mid, events[n]);
      FreshExactly(mid, events[n]);
      hide Balanced, Grows;
      StepIsSafe(mid, events[n]);
    }
  }

  /** Between the requests of a serial run. */
  ghost predicate Serial(s: State)
  {
    Safe(s) && NoneBusy(s) && Coherent(s)
  }

  lemma InitialIsSerial(s: State)
    requires Initial(s) && s.snapshots == map[]
    ensures Serial(s)
  {
    InitialIsSafe(s);
    hide Safe;
  }

  /** A COMMIT whose answer is lost leaves a stale snapshot exactly if the player has one that no other
      worker is about to delete. */
  lemma LostCommitLeavesStale(s: State, w: int, error: Message)
    requires Safe(s) && Fresh(s) && s.Of(w).phase.EnterChecked?
    requires EnterWrites(s.db, s.Of(w).phase.playerId, s.Of(w).phase.cfg, s.Of(w).phase.battleId).Written?
    ensures !Fresh(Step(s, EnterCommit(w, CommitUnacknowledged(error))))
       <==> s.Of(w).phase.playerId in s.snapshots && !Awaited(s, s.Of(w).phase.playerId)
  {
    hide Step, Safe, Fresh, Awaited, EnterWrites;
    FreshExactly(s, EnterCommit(w, CommitUnacknowledged(error)));
  }
}
