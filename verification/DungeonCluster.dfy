/**
 The stores the dungeon servers share, as one mutable object, and the repositories that act on them.
 The object remembers, as ghost state, the run of the protocol it has been through; every repository
 call is tied to one protocol event, so what is proved about runs holds of the mutable stores.
 */
module DungeonCluster {
  import opened Common
  import opened Tables
  import opened DungeonProtocol
  import opened Hashes
  import opened Records

  /** An event of the environment or of another worker. */
  predicate NotBy(me: int, e: Event)
  {
    match e
    case ExpireLock(_) => true
    case ExpireContext(_) => true
    case WriteSnapshot(_, _, _) => true
    case ExpireSnapshot(_) => true
    case _ => e.w != me
  }

  predicate NoneBy(me: int, events: seq<Event>)
  {
    forall i :: 0 <= i < |events| ==> NotBy(me, events[i])
  }

  /** What the others do at each point where they may act. */
  type Interference = nat -> seq<Event>

  ghost predicate Foreign(me: int, others: Interference)
  {
    forall i: nat :: NoneBy(me, others(i))
  }

  ghost predicate Quiet(others: Interference)
  {
    forall i: nat :: others(i) == []
  }

  lemma OthersLeaveMeAlone(s: State, e: Event, me: int)
    requires NotBy(me, e)
    ensures Step(s, e).Of(me) == s.Of(me)
  {
    hide Acquire, Load, CheckPending, CommitEnter, SaveEntered, ReadContext, ReadBattle, ReadFirstClear, CommitSettle,
      DropContext, DropSnapshot, Unlock, Restart;
  }

  /** Events of other workers leave this one where it is, over whole runs. */
  lemma {:induction false} RunLeavesMeAlone(s: State, events: seq<Event>, me: int)
    requires NoneBy(me, events)
    ensures Run(s, events).Of(me) == s.Of(me)
    decreases |events|
  {
    hide Step;
    if events != [] {
      var n := |events| - 1;
      RunLeavesMeAlone(s, events[..n], me);
      assert events == events[..n] + [events[n]];
      RunSnoc(s, events[..n], events[n]);
      OthersLeaveMeAlone(Run(s, events[..n]), events[n], me);
    }
  }

  class Cluster {
    var db: Tables
    var locks: map<int, Holder>
    var contexts: map<string, Hash>
    var snapshots: map<int, Hash>
    var workers: map<int, Worker>
    var stars: map<string, int>
    ghost const origin: State
    ghost var trace: seq<Event>
    ghost var faults: nat // how often MySQL or Redis has failed a request of this process

    function View(): State
      reads this
    {
      State(db, locks, contexts, snapshots, workers, stars)
    }

    /** The stores are where the recorded run has taken them. */
    ghost predicate Valid()
      reads this
    {
      View() == Run(origin, trace)
    }

    /** Record the event that a repository call has just carried out on the stores. */
    method Record(before: State, e: Event)
      requires before == Run(origin, trace)
      requires workers == before.workers && stars == before.stars
      requires db == Step(before, e).db && locks == Step(before, e).locks
      requires contexts == Step(before, e).contexts && snapshots == Step(before, e).snapshots
      modifies this`workers, this`stars, this`trace
      ensures Valid() && View() == Step(before, e) && trace == old(trace) + [e]
    {
      hide Step, Run;
      workers, stars := Step(before, e).workers, Step(before, e).stars;
      trace := trace + [e];
      RunSnoc(origin, old(trace), e);
    }

    /** Other workers and the environment act. */
    method Others(me: int, events: seq<Event>)
      requires Valid() && NoneBy(me, events)
      modifies this`db, this`locks, this`contexts, this`snapshots, this`workers, this`stars, this`trace
      ensures Valid() && trace == old(trace) + events
      ensures events == [] ==> View() == old(View())
      ensures View().Of(me) == old(View().Of(me))
    {
      hide Step, Run;
      for i := 0 to |events|
        invariant Valid() && trace == old(trace) + events[..i]
        invariant i == 0 ==> View() == old(View())
        invariant View().Of(me) == old(View().Of(me))
      {
        var before := View();
        var after := Step(before, events[i]);
        db, locks, contexts, snapshots := after.db, after.locks, after.contexts, after.snapshots;
        Record(before, events[i]);
        OthersLeaveMeAlone(before, events[i], me);
        assert events[..i + 1] == events[..i] + [events[i]];
      }
      assert events[..|events|] == events;
    }
  }

  /** The cached snapshot is there but cannot be read. */
  predicate TornSnapshotAt(snapshots: map<int, Hash>, p: int)
  {
    p in snapshots && DecodeSnapshot(snapshots[p]).None?
  }

  /** SET NX EX and DEL on the player lock key. */
  class RedisPlayerLockRepository {
    const cluster: Cluster

    constructor (cluster: Cluster)
      ensures this.cluster == cluster
    {
      this.cluster := cluster;
    }

    method Acquire(me: int, p: int) returns (acquired: bool, fate: LockFate)
      modifies cluster`locks, cluster`faults
      ensures acquired <==> fate.Reached? && p !in old(cluster.locks)
      ensures cluster.locks == if fate.Unreached? || p in old(cluster.locks) then old(cluster.locks)
                               else old(cluster.locks)[p := if fate.Reached? then Held(me) else Orphan]
      ensures cluster.faults == old(cluster.faults) + if fate.Reached? then 0 else 1
    {
      var inserted := p !in cluster.locks;
      fate := *;
      acquired := inserted && fate.Reached?;
      if inserted && !fate.Unreached? {
        cluster.locks := cluster.locks[p := if fate.Reached? then Held(me) else Orphan];
      }
      if !fate.Reached? { cluster.faults := cluster.faults + 1; }
    }

    method Release(me: int, p: int) returns (done: bool)
      modifies cluster`locks, cluster`faults
      ensures cluster.locks == if done then old(cluster.locks) - {p} else Orphaned(old(cluster.locks), me)
      ensures cluster.faults == old(cluster.faults) + if done then 0 else 1
    {
      done := *;
      if done {
        cluster.locks := cluster.locks - {p};
      } else {
        cluster.locks := Orphaned(cluster.locks, me); // nobody is left to delete the key
        cluster.faults := cluster.faults + 1;
      }
    }
  }

  class RedisBattleContextRepository {
    const cluster: Cluster

    constructor (cluster: Cluster)
      ensures this.cluster == cluster
    {
      this.cluster := cluster;
    }

    /** HSET of one field after the other, until one fails: any of them may be written. */
    method Save(ctx: BattleContext) returns (names: set<string>)
      modifies cluster`contexts, cluster`faults
      ensures names <= CONTEXT_FIELDS
      ensures cluster.faults == old(cluster.faults) + if names == CONTEXT_FIELDS then 0 else 1
      ensures cluster.contexts == SavedContexts(old(cluster.contexts), ctx, names)
    {
      names := *;
      names := names * CONTEXT_FIELDS;
      cluster.contexts := SavedContexts(cluster.contexts, ctx, names);
      if names != CONTEXT_FIELDS { cluster.faults := cluster.faults + 1; }
    }

    /** The context exactly when Redis answers with a hash that can be read; it throws exactly when Redis
        answers with one that lacks a field or holds an unreadable number. */
    method FindByBattleId(id: string) returns (found: Option<BattleContext>, threw: bool, answered: bool)
      modifies cluster`faults
      ensures threw <==> answered && TornContextAt(cluster.contexts, id)
      ensures found.Some? <==> answered && id in cluster.contexts && !TornContextAt(cluster.contexts, id)
      ensures found.Some? ==> found == DecodeContext(id, cluster.contexts[id])
      ensures cluster.faults == old(cluster.faults) + if answered then 0 else 1
    {
      hide DecodeContext;
      answered := *;
      found, threw := None, false;
      if answered && id in cluster.contexts {
        found := DecodeContext(id, cluster.contexts[id]);
        threw := found.None?;
      }
      if !answered { cluster.faults := cluster.faults + 1; }
    }

    method Delete(id: string) returns (done: bool)
      modifies cluster`contexts, cluster`faults
      ensures cluster.faults == old(cluster.faults) + if done then 0 else 1
      ensures cluster.contexts == if done then old(cluster.contexts) - {id} else old(cluster.contexts)
    {
      done := *;
      if done { cluster.contexts := cluster.contexts - {id}; } else { cluster.faults := cluster.faults + 1; }
    }
  }

  class RedisPlayerCacheRepository {
    const cluster: Cluster

    constructor (cluster: Cluster)
      ensures this.cluster == cluster
    {
      this.cluster := cluster;
    }

    /** HSET of one field after the other, until one fails: any of them may be written. */
    method Save(state: PlayerState) returns (names: set<string>)
      modifies cluster`snapshots, cluster`faults
      ensures names <= SNAPSHOT_FIELDS
      ensures cluster.faults == old(cluster.faults) + if names == SNAPSHOT_FIELDS then 0 else 1
      ensures cluster.snapshots == SavedSnapshots(old(cluster.snapshots), state.profile.playerId, state, names)
    {
      names := *;
      names := names * SNAPSHOT_FIELDS;
      cluster.snapshots := SavedSnapshots(cluster.snapshots, state.profile.playerId, state, names);
      if names != SNAPSHOT_FIELDS { cluster.faults := cluster.faults + 1; }
    }

    /** The snapshot exactly when Redis answers with a hash that can be read; it throws exactly when Redis
        answers with one that lacks a field or holds an unreadable number. */
    method FindByPlayerId(p: int) returns (found: Option<PlayerState>, threw: bool, ghost answered: bool)
      modifies cluster`faults
      ensures threw <==> answered && TornSnapshotAt(cluster.snapshots, p)
      ensures found.Some? <==> answered && p in cluster.snapshots && !TornSnapshotAt(cluster.snapshots, p)
      ensures found.Some? ==> found == DecodeSnapshot(cluster.snapshots[p])
      ensures cluster.faults == old(cluster.faults) + if answered then 0 else 1
    {
      hide DecodeSnapshot;
      var reached: bool := *;
      answered, found, threw := reached, None, false;
      if reached && p in cluster.snapshots {
        found := DecodeSnapshot(cluster.snapshots[p]);
        threw := found.None?;
      }
      if !reached { cluster.faults := cluster.faults + 1; }
    }

    method Invalidate(p: int) returns (done: bool)
      modifies cluster`snapshots, cluster`faults
      ensures cluster.faults == old(cluster.faults) + if done then 0 else 1
      ensures cluster.snapshots == if done then old(cluster.snapshots) - {p} else old(cluster.snapshots)
    {
      done := *;
      if done { cluster.snapshots := cluster.snapshots - {p}; } else { cluster.faults := cluster.faults + 1; }
    }
  }

  /** One MySQL connection.  The row changes of an open transaction collect in `working` until COMMIT
      makes them visible; a statement sees the changes made before it on the same connection. */
  class MySqlClient {
    const cluster: Cluster
    var working: Tables
    var changed: bool

    constructor (cluster: Cluster)
      ensures this.cluster == cluster && !changed
    {
      this.cluster := cluster;
      working := Tables(map[], map[], map[], map[], map[]);
      changed := false;
    }

    function Current(): Tables
      reads this, cluster
    {
      if changed then working else cluster.db
    }

    /** START TRANSACTION takes no row lock and changes nothing. */
    method BeginTransaction() returns (ok: bool, error: Message)
      modifies cluster`faults
      ensures error.SqlError? && cluster.faults == old(cluster.faults) + if ok then 0 else 1
    {
      ok := *;
      error := AnyError();
      if !ok { cluster.faults := cluster.faults + 1; }
    }

    /** Whether a SELECT is answered; QueryOne turns an error into an empty result. */
    method Answered() returns (answered: bool)
      modifies cluster`faults
      ensures cluster.faults == old(cluster.faults) + if answered then 0 else 1
    {
      answered := *;
      if !answered { cluster.faults := cluster.faults + 1; }
    }

    /** One changing statement: it may fail for any reason, and fails if it violates a key.  The row
        count is overwritten only on success. */
    method Execute(statement: Statement, rows: nat) returns (ok: bool, affected: nat, error: Message, fault: bool)
      modifies this, cluster`faults
      ensures ok ==> Apply(old(Current()), statement) == Done(Current(), affected) && changed && !fault
      ensures !ok ==> affected == rows && changed == old(changed) && working == old(working)
      ensures !ok && !fault ==> Apply(Current(), statement).Refused? && error == DUPLICATE_KEY
      ensures error.SqlError? && cluster.faults == old(cluster.faults) + if fault then 1 else 0
    {
      ok, affected := false, rows;
      error := AnyError();
      fault := *;
      if fault {
        cluster.faults := cluster.faults + 1;
      } else {
        match Apply(Current(), statement) {
          case Refused => error := DUPLICATE_KEY;
          case Done(tables, count) =>
            working, changed := tables, true;
            ok, affected := true, count;
        }
      }
    }

    /** COMMIT: the changes become visible as a whole or not at all; a failure may hide a success. */
    method Commit() returns (ok: bool, error: Message, applied: bool)
      modifies this, cluster`db, cluster`faults
      ensures cluster.db == if applied then old(Current()) else old(cluster.db)
      ensures ok ==> applied && !changed
      ensures error.SqlError? && cluster.faults == old(cluster.faults) + if ok then 0 else 1
    {
      ok, applied := *, *;
      applied := applied || ok;
      error := AnyError();
      if applied {
        if changed { cluster.db := working; }
        changed := false;
      }
      if !ok { cluster.faults := cluster.faults + 1; }
    }

    /** ROLLBACK: whether it is answered or the connection is gone, the changes are. */
    method Rollback()
      modifies this
      ensures !changed
    {
      changed := false;
    }
  }

  method AnyError() returns (error: Message)
    ensures error.SqlError?
  {
    var text: string := *;
    error := SqlError(text);
  }
}
