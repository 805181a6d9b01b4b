/**
 Loading a player: the cached snapshot if there is one, otherwise the tables, and then the cache is filled.
 */
module PlayerServices {
  import opened Common
  import opened Tables
  import opened DungeonProtocol
  import opened DungeonCluster
  import opened DungeonSafety
  import opened Hashes
  import opened Records
  import opened Sessions
  import opened SnapshotCoherence

  // ---- sorting by dungeon id ----

  predicate Sorted(list: seq<DungeonProgress>)
  {
    forall i, j :: 0 <= i < j < |list| ==> list[i].dungeonId <= list[j].dungeonId
  }

  lemma InsertKeepsSorted(sorted: seq<DungeonProgress>, at: nat, item: DungeonProgress)
    requires Sorted(sorted) && at <= |sorted|
    requires at > 0 ==> sorted[at - 1].dungeonId <= item.dungeonId
    requires forall i :: at <= i < |sorted| ==> sorted[i].dungeonId > item.dungeonId
    ensures Sorted(sorted[..at] + [item] + sorted[at..])
  {
    var r := sorted[..at] + [item] + sorted[at..];
    forall i | 0 <= i < |r| ensures r[i] == if i < at then sorted[i] else if i == at then item else sorted[i - 1] {
    }
  }

  lemma InsertPermutes(sorted: seq<DungeonProgress>, at: nat, item: DungeonProgress)
    requires at <= |sorted|
    ensures multiset(sorted[..at] + [item] + sorted[at..]) == multiset(sorted) + multiset{item}
  {
    assert sorted == sorted[..at] + sorted[at..];
  }

  /** One step of the sort: put the item behind everything that is not larger. */
  method InsertByDungeon(sorted: seq<DungeonProgress>, item: DungeonProgress) returns (longer: seq<DungeonProgress>)
    requires Sorted(sorted)
    ensures Sorted(longer) && multiset(longer) == multiset(sorted) + multiset{item}
  {
    var at := |sorted|;
    while at > 0 && sorted[at - 1].dungeonId > item.dungeonId
      invariant 0 <= at <= |sorted| && forall i :: at <= i < |sorted| ==> sorted[i].dungeonId > item.dungeonId
    {
      at := at - 1;
    }
    InsertKeepsSorted(sorted, at, item);
    InsertPermutes(sorted, at, item);
    longer := sorted[..at] + [item] + sorted[at..];
  }

  lemma TakeOneMore(list: seq<DungeonProgress>, n: nat)
    requires n < |list|
    ensures multiset(list[..n + 1]) == multiset(list[..n]) + multiset{list[n]}
  {
    assert list[..n + 1] == list[..n] + [list[n]];
  }

  /** std::sort with the comparison by dungeon id: some ordered rearrangement. */
  method SortByDungeon(list: seq<DungeonProgress>) returns (sorted: seq<DungeonProgress>)
    ensures Sorted(sorted) && multiset(sorted) == multiset(list)
  {
    sorted := [];
    for n := 0 to |list|
      invariant Sorted(sorted) && multiset(sorted) == multiset(list[..n])
    {
      hide Sorted;
      TakeOneMore(list, n);
      sorted := InsertByDungeon(sorted, list[n]);
    }
    assert list[..|list|] == list;
  }

  /** The player's rows as the database returns them: each once, in no particular order. */
  ghost predicate AllRows(t: Tables, p: int, rows: seq<DungeonProgress>)
  {
    && (forall i :: 0 <= i < |rows| ==> IsRow(t, p, rows[i]))
    && (forall i, j :: 0 <= i < j < |rows| ==> rows[i].dungeonId != rows[j].dungeonId)
    && (forall d :: (p, d) in t.progress ==> Lists(rows, d))
  }

  lemma SortedRowsList(t: Tables, p: int, rows: seq<DungeonProgress>, sorted: seq<DungeonProgress>)
    requires AllRows(t, p, rows) && Sorted(sorted) && multiset(sorted) == multiset(rows)
    ensures ListsProgress(t, p, sorted)
  {
    forall i | 0 <= i < |sorted| ensures IsRow(t, p, sorted[i]) {
      assert sorted[i] in multiset(rows);
    }
    forall d | (p, d) in t.progress ensures Lists(sorted, d) {
      var k :| 0 <= k < |rows| && rows[k].dungeonId == d;
      assert rows[k] in multiset(sorted);
      var j :| 0 <= j < |sorted| && sorted[j] == rows[k];
    }
    forall i, j | 0 <= i < j < |sorted| ensures sorted[i].dungeonId < sorted[j].dungeonId {
      if sorted[i].dungeonId == sorted[j].dungeonId {
        assert IsRow(t, p, sorted[i]) && IsRow(t, p, sorted[j]);
        CountsTwo(sorted, i, j);
        CountsOnce(rows, sorted[i]);
      }
    }
  }

  lemma CountsTwo(list: seq<DungeonProgress>, i: nat, j: nat)
    requires i < j < |list| && list[i] == list[j]
    ensures multiset(list)[list[i]] >= 2
  {
    assert list[..j] == list[..i] + [list[i]] + list[i + 1..j];
    assert list == list[..j] + [list[j]] + list[j + 1..];
  }

  lemma {:induction false} CountsOnce(rows: seq<DungeonProgress>, item: DungeonProgress)
    requires forall i, j :: 0 <= i < j < |rows| ==> rows[i].dungeonId != rows[j].dungeonId
    ensures multiset(rows)[item] <= 1
    decreases |rows|
  {
    if rows != [] {
      var n := |rows| - 1;
      assert rows == rows[..n] + [rows[n]];
      CountsOnce(rows[..n], item);
      if rows[n] == item {
        assert forall i :: 0 <= i < n ==> rows[..n][i].dungeonId != item.dungeonId;
        assert item !in rows[..n];
        assert multiset(rows[..n])[item] == 0;
      }
    }
  }

  /** Nothing in the state that is not in the tables; a load that missed the progress query has no more. */
  predicate PartOf(t: Tables, p: int, state: PlayerState)
  {
    p in t.players && state.profile == ProfileOf(t, p)
    && forall i :: 0 <= i < |state.progress| ==> IsRow(t, p, state.progress[i])
  }

  predicate NoProgress(t: Tables, p: int)
  {
    forall key :: key in t.progress ==> key.0 != p
  }

  lemma PartShowsColumns(t: Tables, p: int, state: PlayerState)
    requires PartOf(t, p, state)
    ensures ShowsColumns(t, p, state)
  {
    assert forall i :: 0 <= i < |state.progress| ==> IsRow(t, p, state.progress[i]);
  }

  /** The columns have the types the schema gives them. */
  ghost predicate ColumnsFit(t: Tables)
  {
    && (forall p :: p in t.players ==> Fits64(p) && Fits64(t.players[p].accountId) && Fits32(t.players[p].level))
    && (forall p :: p in t.assets ==>
          Fits32(t.assets[p].stamina) && Fits64(t.assets[p].gold) && Fits64(t.assets[p].diamond))
    && (forall p, d :: (p, d) in t.progress ==> Fits32(d) && Fits32(t.progress[(p, d)].bestStar))
  }

  lemma LoadedIsRepresentable(t: Tables, p: int, state: PlayerState)
    requires ColumnsFit(t) && PartOf(t, p, state)
    ensures Representable(state)
  {
    assert forall i :: 0 <= i < |state.progress| ==> IsRow(t, p, state.progress[i]);
  }

  class MySqlPlayerRepository {
    const mysql: MySqlClient

    constructor (mysql: MySqlClient)
      ensures this.mysql == mysql
    {
      this.mysql := mysql;
    }

    /** SELECT from player_dungeon: the rows in some order, and none exactly when there are none or the
        query fails. */
    method QueryProgress(p: int) returns (rows: seq<DungeonProgress>, ghost answered: bool)
      modifies mysql.cluster`faults
      ensures mysql.cluster.faults == old(mysql.cluster.faults) + if answered then 0 else 1
      ensures if answered then AllRows(mysql.cluster.db, p, rows) else rows == []
    {
      rows := [];
      var reached := mysql.Answered();
      answered := reached;
      if !reached { return; }
      var progress := mysql.cluster.db.progress;
      var left := set key | key in progress && key.0 == p;
      while left != {}
        invariant forall i :: 0 <= i < |rows| ==> IsRow(mysql.cluster.db, p, rows[i]) && (p, rows[i].dungeonId) !in left
        invariant forall i, j :: 0 <= i < j < |rows| ==> rows[i].dungeonId != rows[j].dungeonId
        invariant forall key :: key in left ==> key in progress && key.0 == p
        invariant forall d :: (p, d) in progress && (p, d) !in left ==> Lists(rows, d)
        decreases left
      {
        var key :| key in left;
        ghost var before := rows;
        rows := rows + [DungeonProgress(key.1, progress[key].bestStar, progress[key].isFirstClear)];
        left := left - {key};
        assert IsRow(mysql.cluster.db, p, rows[|before|]);
        forall d | (p, d) in progress && (p, d) !in left ensures Lists(rows, d) {
          if d == key.1 {
            assert rows[|before|].dungeonId == d;
          } else {
            var i :| 0 <= i < |before| && before[i].dungeonId == d;
            assert rows[i].dungeonId == d;
          }
        }
      }
    }

    /** LoadPlayerState: profile and assets in one query, progress in another, then sorted.  A failed
        progress query goes unnoticed and yields a player without progress, which is wrong exactly if the
        player has some.  Reading a number too wide for the program throws, which the column types rule
        out.  `answered` says whether the progress query was. */
    method LoadPlayerState(p: int) returns (state: Option<PlayerState>, threw: bool, ghost answered: bool)
      modifies mysql.cluster`faults
      ensures mysql.cluster.faults >= old(mysql.cluster.faults)
      ensures threw ==> state.None? && !ColumnsFit(mysql.cluster.db)
      ensures state.Some? ==> LoadedFrom(mysql.cluster.db, p, state.value, answered)
      ensures state.Some? ==> ShowsColumns(mysql.cluster.db, p, state.value)
      ensures mysql.cluster.faults == old(mysql.cluster.faults) ==>
                (state.Some? || threw <==> p in mysql.cluster.db.players) && (state.Some? ==> answered)
    {
      hide AllRows, ListsProgress, Representable, ColumnsFit, Sorted, ShowsColumns;
      threw, answered := false, false;
      var found := mysql.Answered();
      if !found || p !in mysql.cluster.db.players { return None, false, false; }
      var profile := ProfileOf(mysql.cluster.db, p);
      var rows;
      rows, answered := QueryProgress(p);
      var sorted := SortByDungeon(rows);
      var loaded := PlayerState(profile, sorted);
      LoadedRows(mysql.cluster.db, p, rows, loaded, answered);
      if ColumnsFit(mysql.cluster.db) { LoadedIsRepresentable(mysql.cluster.db, p, loaded); }
      if !Representable(loaded) { return None, true, answered; }
      PartShowsColumns(mysql.cluster.db, p, loaded);
      state := Some(loaded);
    }
  }

  /** What a load returns: the player as the tables have it exactly if the progress query was answered or
      had nothing to find. */
  ghost predicate LoadedFrom(t: Tables, p: int, state: PlayerState, answered: bool)
  {
    && PartOf(t, p, state) && Representable(state)
    && (Represents(t, p, state) <==> answered || NoProgress(t, p))
    && (!answered ==> state.progress == [])
  }

  lemma LoadedRows(t: Tables, p: int, rows: seq<DungeonProgress>, state: PlayerState, answered: bool)
    requires p in t.players && state.profile == ProfileOf(t, p)
    requires Sorted(state.progress) && multiset(state.progress) == multiset(rows)
    requires if answered then AllRows(t, p, rows) else rows == []
    ensures PartOf(t, p, state) && (Represents(t, p, state) <==> answered || NoProgress(t, p))
    ensures !answered ==> state.progress == []
  {
    if answered {
      hide AllRows, Sorted;
      SortedRowsList(t, p, rows, state.progress);
    } else {
      assert |multiset(state.progress)| == 0;
      if !NoProgress(t, p) {
        var key :| key in t.progress && key.0 == p;
        assert (p, key.1) == key && !Lists(state.progress, key.1);
      }
    }
  }

  datatype LoadReply = LoadRefused(code: ErrorCode) | LoadThrew | Loaded(state: PlayerState, fromCache: bool)

  /** The answer of a load that never looks at the cache, apart from where it came from. */
  ghost predicate Uncached(t: Tables, admitted: bool, p: int, reply: LoadReply)
  {
    if !admitted then reply == LoadRefused(SessionInvalid)
    else if p !in t.players then reply == LoadRefused(PlayerNotFound)
    else reply.Loaded? && Represents(t, p, reply.state)
  }

  /** The reply was loaded from the tables. */
  predicate Missed(reply: LoadReply) { reply.Loaded? && !reply.fromCache }

  /** The fields of the snapshot that arrive are stored, over whatever was there. */
  lemma WholeSnapshotReads(snapshots: map<int, Hash>, p: int, state: PlayerState)
    requires Representable(state)
    ensures var after := SavedSnapshots(snapshots, p, state, SNAPSHOT_FIELDS);
            p in after && DecodeSnapshot(after[p]) == Some(state)
  {
    hide DecodeSnapshot, EncodeSnapshot, Representable;
    var before := if p in snapshots then snapshots[p] else map[];
    SnapshotKeys(state);
    StoredAll(before, EncodeSnapshot(state), SNAPSHOT_FIELDS);
    SnapshotRoundTrip(before, state);
  }

  /** A snapshot stored where there was none cannot be read exactly if some fields arrive and some do not. */
  lemma PartSnapshotIsTorn(snapshots: map<int, Hash>, p: int, state: PlayerState, names: set<string>)
    requires p !in snapshots && Representable(state) && names <= SNAPSHOT_FIELDS
    ensures var after := SavedSnapshots(snapshots, p, state, names);
            && (p in after <==> names != {})
            && (TornSnapshotAt(after, p) <==> names != {} && names != SNAPSHOT_FIELDS)
            && (p in after && !TornSnapshotAt(after, p) ==> DecodeSnapshot(after[p]) == Some(state))
  {
    hide DecodeSnapshot, EncodeSnapshot, Representable;
    TornSnapshot(state, names);
  }

  lemma SnapshotWritten(s: State, p: int, state: PlayerState, names: set<string>)
    ensures Step(s, WriteSnapshot(p, state, names)) == s.(snapshots := SavedSnapshots(s.snapshots, p, state, names))
  {
    hide SavedSnapshots;
  }

  /** Filling the cache between requests leaves the cluster in order exactly if what is then cached for the
      player, if anything changed, is current. */
  lemma SavedSerialExactly(s: State, p: int, state: PlayerState, names: set<string>)
    requires Serial(s)
    ensures Serial(Step(s, WriteSnapshot(p, state, names)))
       <==> names !! SNAPSHOT_FIELDS || Current(s.db, p, SavedSnapshots(s.snapshots, p, state, names)[p])
  {
    hide Step, Safe, Fresh, Coherent, Current, Stored, Dirty;
    var e := WriteSnapshot(p, state, names);
    var s' := Step(s, e);
    SnapshotWritten(s, p, state, names);
    FreshAndIdleIsCoherent(s);
    FreshExactly(s, e);
    SavedIsSafe(s, e);
    assert forall w :: s'.Of(w) == s.Of(w);
    NoneAwaited(s, p);
    FreshAndIdleIsCoherent(s');
  }

  lemma SavedIsSafe(s: State, e: Event)
    requires Safe(s)
    ensures Safe(Step(s, e))
  {
    hide Step, Safe, Balanced, Grows;
    StepIsSafe(s, e);
  }

  lemma NoneAwaited(s: State, p: int)
    requires NoneBusy(s)
    ensures !Awaited(s, p)
  {
  }

  lemma MissedSerialExactly(s: State, p: int, state: PlayerState, names: set<string>, answered: bool)
    requires Serial(s) && p !in s.snapshots && LoadedFrom(s.db, p, state, answered) && names <= SNAPSHOT_FIELDS
    ensures Serial(Step(s, WriteSnapshot(p, state, names)))
       <==> names == {} || (names == SNAPSHOT_FIELDS && (answered || NoProgress(s.db, p)))
  {
    hide Step, Serial, Represents, Representable, PartOf, NoProgress, DecodeSnapshot, EncodeSnapshot, Stored;
    SavedSerialExactly(s, p, state, names);
    PartSnapshotIsTorn(s.snapshots, p, state, names);
  }

  class PlayerService {
    const me: int // not a dungeon worker: every event of the dungeon servers is somebody else's
    const cluster: Cluster
    const players: MySqlPlayerRepository
    const cache: RedisPlayerCacheRepository

    constructor (me: int, cluster: Cluster, mysql: MySqlClient)
      requires mysql.cluster == cluster
      ensures Wired() && this.me == me && this.cluster == cluster
    {
      this.me, this.cluster := me, cluster;
      players := new MySqlPlayerRepository(mysql);
      cache := new RedisPlayerCacheRepository(cluster);
    }

    ghost predicate Wired()
    {
      players.mysql.cluster == cluster && cache.cluster == cluster
    }

    /** LoadPlayer.  It takes no lock, so others may act between its reads and its write.  Its own only
        event is the snapshot written after a miss.  `seen` are the tables it loads from, `answered` says
        whether the progress query was, and `names` which fields of the snapshot were stored. */
    method LoadPlayer(session: Option<Session>, p: int, others: Interference)
      returns (reply: LoadReply, ghost seen: Tables, ghost answered: bool, ghost names: set<string>)
      requires Wired() && cluster.Valid() && Foreign(me, others)
      modifies cluster
      ensures cluster.Valid() && cluster.faults >= old(cluster.faults)
      ensures old(cluster.trace) <= cluster.trace && NoneBy(me, cluster.trace[|old(cluster.trace)|..])
      // where the reply comes from
      ensures reply == LoadRefused(SessionInvalid) <==> !Admits(session, p)
      ensures !Admits(session, p) ==> cluster.trace == old(cluster.trace)
      ensures reply.Loaded? && reply.fromCache ==>
                p in old(cluster.snapshots) && Some(reply.state) == DecodeSnapshot(old(cluster.snapshots)[p])
      ensures Missed(reply) ==> LoadedFrom(seen, p, reply.state, answered) && ShowsColumns(seen, p, reply.state)
      ensures reply.Loaded? && reply.fromCache && Current(old(cluster.db), p, old(cluster.snapshots)[p]) ==>
                ShowsColumns(old(cluster.db), p, reply.state)
      ensures Quiet(others) ==> seen == cluster.db == old(cluster.db)
      // what is cached afterwards
      ensures Missed(reply) && names == SNAPSHOT_FIELDS ==>
                p in cluster.snapshots && DecodeSnapshot(cluster.snapshots[p]) == Some(reply.state)
      ensures Quiet(others) ==>
                cluster.trace == old(cluster.trace) +
                  if Missed(reply) then [WriteSnapshot(p, reply.state, names)] else []
      ensures Quiet(others) ==>
                cluster.snapshots == if Missed(reply) then SavedSnapshots(old(cluster.snapshots), p, reply.state, names)
                                     else old(cluster.snapshots)
      // between requests
      ensures Quiet(others) && old(Serial(cluster.View())) && !Missed(reply) ==> Serial(cluster.View())
      ensures Quiet(others) && old(Serial(cluster.View())) && Missed(reply) && p !in old(cluster.snapshots) ==>
                (Serial(cluster.View()) <==>
                   names == {} || (names == SNAPSHOT_FIELDS && (answered || NoProgress(cluster.db, p))))
      ensures Quiet(others) && cluster.faults == old(cluster.faults) && old(Serial(cluster.View())) ==>
                Serial(cluster.View())
      // without faults
      ensures Quiet(others) && cluster.faults == old(cluster.faults) && ColumnsFit(cluster.db) ==>
                && (reply.LoadThrew? <==> Admits(session, p) && TornSnapshotAt(old(cluster.snapshots), p))
                && (Uncached(cluster.db, Admits(session, p), p, reply) <==>
                     (Admits(session, p) && p in old(cluster.snapshots) ==>
                       Current(cluster.db, p, old(cluster.snapshots)[p])))
                && (reply.Loaded? ==> p in cluster.snapshots && reply.fromCache == (p in old(cluster.snapshots)))
    {
      hide Step, Run, Represents, ColumnsFit, DecodeSnapshot, LoadedFrom, NoProgress, Serial, ShowsColumns;
      seen, answered, names := cluster.db, false, {};
      if !Admits(session, p) { return LoadRefused(SessionInvalid), seen, answered, names; }
      ghost var torn := TornSnapshotAt(cluster.snapshots, p);
      var cached, threw;
      ghost var reached;
      cached, threw, reached := cache.FindByPlayerId(p);
      if threw { return LoadThrew, seen, answered, names; }
      if cached.Some? {
        CurrentMeansKnown(cluster.db, p, cached.value);
        if Represents(cluster.db, p, cached.value) { RepresentsColumns(cluster.db, p, cached.value); }
        return Loaded(cached.value, true), seen, answered, names;
      }
      reply, seen, answered, names := LoadAndCache(p, others);
      if reply.Loaded? { LoadedPlayer(seen, p, reply.state, answered); }
    }

    /** The miss: load from the tables and fill the cache. */
    method LoadAndCache(p: int, others: Interference)
      returns (reply: LoadReply, ghost seen: Tables, ghost answered: bool, ghost names: set<string>)
      requires Wired() && cluster.Valid() && Foreign(me, others)
      modifies cluster
      ensures cluster.Valid() && cluster.faults >= old(cluster.faults)
      ensures old(cluster.trace) <= cluster.trace && NoneBy(me, cluster.trace[|old(cluster.trace)|..])
      ensures reply.Loaded? ==> !reply.fromCache && LoadedFrom(seen, p, reply.state, answered)
      ensures reply.Loaded? ==> ShowsColumns(seen, p, reply.state)
      ensures reply != LoadRefused(SessionInvalid)
      ensures reply.LoadThrew? ==> !ColumnsFit(seen)
      ensures Quiet(others) ==> seen == cluster.db == old(cluster.db)
      ensures reply.Loaded? && names == SNAPSHOT_FIELDS ==>
                p in cluster.snapshots && DecodeSnapshot(cluster.snapshots[p]) == Some(reply.state)
      ensures Quiet(others) ==>
                cluster.trace == old(cluster.trace) +
                  if reply.Loaded? then [WriteSnapshot(p, reply.state, names)] else []
      ensures Quiet(others) ==>
                cluster.snapshots == if reply.Loaded? then SavedSnapshots(old(cluster.snapshots), p, reply.state, names)
                                     else old(cluster.snapshots)
      ensures Quiet(others) && !reply.Loaded? ==> cluster.View() == old(cluster.View())
      ensures Quiet(others) && old(Serial(cluster.View())) && reply.Loaded? && p !in old(cluster.snapshots) ==>
                (Serial(cluster.View()) <==>
                   names == {} || (names == SNAPSHOT_FIELDS && (answered || NoProgress(cluster.db, p))))
      ensures cluster.faults == old(cluster.faults) && reply.Loaded? ==> answered && names == SNAPSHOT_FIELDS
      ensures cluster.faults == old(cluster.faults) && !reply.Loaded? && !reply.LoadThrew? ==>
                p !in seen.players && reply == LoadRefused(PlayerNotFound)
      ensures cluster.faults == old(cluster.faults) && old(Serial(cluster.View())) && Quiet(others) ==>
                Serial(cluster.View())
    {
      hide Step, Run, Represents, ColumnsFit, DecodeSnapshot, LoadedFrom, NoProgress, Serial, SavedSnapshots,
        ShowsColumns;
      names := {};
      cluster.Others(me, others(0));
      seen := cluster.db;
      var state, threw;
      state, threw, answered := players.LoadPlayerState(p);
      if threw { return LoadThrew, seen, answered, names; }
      if state.None? { return LoadRefused(PlayerNotFound), seen, answered, names; }
      cluster.Others(me, others(1));
      reply := Loaded(state.value, false);
      names := FillCache(p, state.value, seen, answered);
    }

    /** Store the loaded snapshot, or as many of its fields as get through. */
    method FillCache(p: int, state: PlayerState, ghost seen: Tables, ghost answered: bool)
      returns (ghost names: set<string>)
      requires Wired() && cluster.Valid() && LoadedFrom(seen, p, state, answered)
      modifies cluster
      ensures cluster.Valid() && cluster.trace == old(cluster.trace) + [WriteSnapshot(p, state, names)]
      ensures cluster.db == old(cluster.db)
      ensures cluster.faults >= old(cluster.faults)
      ensures cluster.faults == old(cluster.faults) ==> names == SNAPSHOT_FIELDS
      ensures cluster.snapshots == SavedSnapshots(old(cluster.snapshots), p, state, names)
      ensures names == SNAPSHOT_FIELDS ==> p in cluster.snapshots && DecodeSnapshot(cluster.snapshots[p]) == Some(state)
      ensures old(Serial(cluster.View())) && seen == cluster.db && p !in old(cluster.snapshots) ==>
                (Serial(cluster.View()) <==>
                   names == {} || (names == SNAPSHOT_FIELDS && (answered || NoProgress(cluster.db, p))))
      ensures old(Serial(cluster.View())) && seen == cluster.db && answered && names == SNAPSHOT_FIELDS ==>
                Serial(cluster.View())
    {
      hide Step, Run, Represents, DecodeSnapshot, LoadedFrom, NoProgress, Serial, SavedSnapshots, Representable;
      LoadedPlayer(seen, p, state, answered);
      var before := cluster.View();
      var saved := cache.Save(state);
      names := saved;
      WholeSnapshotReads(before.snapshots, p, state);
      SnapshotWritten(before, p, state, saved);
      cluster.Record(before, WriteSnapshot(p, state, saved));
      if Serial(before) && seen == before.db {
        if p !in before.snapshots { MissedSerialExactly(before, p, state, saved, answered); }
        if answered && saved == SNAPSHOT_FIELDS { LoadedIsCurrent(before, p, state); }
      }
    }
  }

  lemma CurrentMeansKnown(t: Tables, p: int, state: PlayerState)
    ensures Represents(t, p, state) ==> p in t.players
  {
  }

  lemma LoadedPlayer(t: Tables, p: int, state: PlayerState, answered: bool)
    requires LoadedFrom(t, p, state, answered)
    ensures state.profile.playerId == p && p in t.players && Representable(state)
    ensures answered ==> Represents(t, p, state)
  {
    hide Represents, Representable;
  }

  lemma LoadedIsCurrent(s: State, p: int, state: PlayerState)
    requires Serial(s) && Represents(s.db, p, state) && Representable(state)
    ensures Serial(Step(s, WriteSnapshot(p, state, SNAPSHOT_FIELDS)))
  {
    hide Step, Serial, Represents, Representable, DecodeSnapshot, SavedSnapshots;
    WholeSnapshotReads(s.snapshots, p, state);
    SavedSerialExactly(s, p, state, SNAPSHOT_FIELDS);
  }
}
