/**
 The dungeon and player servers as the gateway sees them: each request looks its session up in the shared
 session store, and what it then does it does in the name of the account's latest session and to the rows
 of that session's own player.
 */
module Backend {
  import opened Common
  import opened Decimal
  import opened Tables
  import opened DungeonProtocol
  import opened DungeonReplies
  import opened DungeonRequests
  import opened DungeonSafety
  import opened DungeonCluster
  import opened DungeonServices
  import opened DungeonTrails
  import opened Gateway
  import opened PlayerServices
  import opened Sessions
  import opened SnapshotCoherence

  /** The session was issued under this id, for this player. */
  ghost predicate Owns(sessions: RedisSessionRepository, id: string, p: int)
    reads sessions
  {
    id in sessions.issued && sessions.issued[id].sessionId == id && sessions.issued[id].playerId == p
  }

  /** At this moment the store still has the session as a whole. */
  ghost predicate Live(sessions: RedisSessionRepository, id: string, p: int)
    reads sessions, sessions.redis
  {
    WholeAt(sessions.redis.store, sessions.redis.now, id) && Owns(sessions, id, p)
  }

  /** No other player's level, assets or progress changed. */
  ghost predicate TouchedOnly(t: Tables, t': Tables, p: int)
  {
    forall q :: q != p ==> SameRows(t, t', q)
  }

  lemma EnterTouchedOnly(t: Tables, t': Tables, reply: DungeonProtocol.Reply, lost: bool, commit: Option<Commit>,
                         read: Read, p: int, cfg: DungeonConfig, id: string)
    requires EnterTold(reply, lost, commit, read, p, cfg, id) && CommitAlone(t, t', commit)
    ensures TouchedOnly(t, t', p)
  {
    hide EnterWrites, SameRows;
    forall q | q != p ensures SameRows(t, t', q) {
      if t' == t { NothingTouched(t, q); } else { EnterTouchesOne(t, p, cfg, id, q); }
    }
  }

  lemma SettleTouchedOnly(t: Tables, t': Tables, reply: DungeonProtocol.Reply, lost: bool, commit: Option<Commit>,
                          read: Read, p: int, id: string, cfg: DungeonConfig, star: int)
    requires SettleTold(reply, lost, commit, read, p, id, cfg, star) && CommitAlone(t, t', commit)
    ensures TouchedOnly(t, t', p)
  {
    hide SettleWrites, SameRows, SettleRewards;
    forall q | q != p ensures SameRows(t, t', q) {
      if t' == t {
        NothingTouched(t, q);
      } else {
        var firstClear := LooksFirst(read, p, cfg.dungeonId);
        SettleTouchesOne(t, BattleContext(id, p, cfg.dungeonId, 0, 0, false), cfg, star, firstClear, q);
      }
    }
  }

  lemma NothingTouched(t: Tables, p: int)
    ensures SameRows(t, t, p)
  {
  }

  lemma NoOneTouched(t: Tables, p: int)
    ensures TouchedOnly(t, t, p)
  {
  }

  /** A request that the gateway forwards to the dungeon server. */
  datatype DungeonRequest =
    | Enter(dungeonId: int)
    | Settle(success: bool, battleId: string, dungeonId: int, star: int)

  /** What an admitted request makes of the stores, and its reply, when nobody interferes and nothing fails. */
  ghost predicate Follows(request: DungeonRequest, me: int, configs: map<int, DungeonConfig>, p: int, s: State,
                          s': State, reply: Option<DungeonProtocol.Reply>)
  {
    if request.dungeonId !in configs then s' == s && reply == Some(Refusal(DungeonNotFound, ConfigNotFound))
    else
      var cfg := configs[request.dungeonId];
      match request
      case Enter(d) =>
        && s' == Run(s, EnterScript(me, p, cfg)) && reply.Some?
        && if p in s.locks then reply.value == Refusal(PlayerBusy, PlayerIsBusy)
           else EnterAnswer(s.db, p, cfg, GenerateBattleId(p, d, s.Of(me).sequence), reply.value)
      case Settle(_, id, _, star) =>
        if star <= 0 || star > cfg.maxStar then s' == s && reply == Some(Refusal(InvalidStar, StarOutOfRange))
        else
          && s' == Run(s, SettleScript(me, p, id, cfg, star, true, true, true))
          && (reply.None? <==> p !in s.locks && TornContextAt(s.contexts, id))
          && (reply.Some? && p in s.locks ==> reply.value == Refusal(PlayerBusy, PlayerIsBusy))
          && (reply.Some? && p !in s.locks && Safe(s) ==> SettleAnswer(s.db, p, id, cfg, reply.value))
  }

  /** Look the session up; a hash that lacks a field ends the process. */
  method LookUpSession(sessions: RedisSessionRepository, id: string, p: int)
    returns (session: Option<Session>, died: bool)
    requires sessions.Valid()
    modifies sessions.redis`now, sessions.redis`faults
    ensures sessions.Valid() && (old(sessions.OnePerAccount()) ==> sessions.OnePerAccount())
    ensures sessions.redis.now >= old(sessions.redis.now) && sessions.redis.faults >= old(sessions.redis.faults)
    ensures Admits(session, p) ==>
              !died && Live(sessions, id, p)
              && (old(sessions.OnePerAccount()) ==> IsLatest(sessions, sessions.issued[id]))
    ensures died ==> TornAt(sessions.redis.store, sessions.redis.now, id)
    ensures sessions.redis.faults == old(sessions.redis.faults) ==>
              && (Admits(session, p) <==> Live(sessions, id, p))
              && (died <==> TornAt(sessions.redis.store, sessions.redis.now, id))
  {
    hide WholeAt, TornAt;
    ghost var answered;
    session, died, answered := sessions.FindById(id);
  }

  /** EnterDungeon as the dungeon server does it.  `admitted`: the session was found and is this player's. */
  method EnterDungeon(sessions: RedisSessionRepository, service: DungeonService, id: string, p: int, dungeonId: int,
                      others: Interference)
    returns (reply: Option<DungeonProtocol.Reply>, ghost admitted: bool)
    requires sessions.Valid() && service.Valid() && Foreign(service.me, others)
    modifies sessions.redis`now, sessions.redis`faults, service, service.cluster, service.repository.mysql
    ensures sessions.Valid() && service.Valid() && (old(sessions.OnePerAccount()) ==> sessions.OnePerAccount())
    ensures sessions.redis.now >= old(sessions.redis.now) && sessions.redis.faults >= old(sessions.redis.faults)
    ensures admitted ==>
              Live(sessions, id, p) && (old(sessions.OnePerAccount()) ==> IsLatest(sessions, sessions.issued[id]))
    ensures sessions.redis.faults == old(sessions.redis.faults) ==>
              && (admitted <==> Live(sessions, id, p))
              && (reply.None? <==> TornAt(sessions.redis.store, sessions.redis.now, id))
    ensures reply.None? ==>
              TornAt(sessions.redis.store, sessions.redis.now, id)
              && service.cluster.trace == old(service.cluster.trace) + [Crash(service.me)]
    ensures reply.Some? && !admitted ==>
              reply.value == Refusal(SessionInvalid, SessionIsInvalid)
              && service.cluster.trace == old(service.cluster.trace)
    ensures Quiet(others) ==> TouchedOnly(old(service.cluster.db), service.cluster.db, p)
    ensures Quiet(others) && service.cluster.db != old(service.cluster.db) ==> admitted
    ensures reply.Some? && reply.value.Entered? ==> admitted && dungeonId in service.configs
    ensures reply.Some? ==> !reply.value.SettledReply?
    ensures Quiet(others) && reply.Some? && reply.value.Entered? && dungeonId in service.configs ==>
              EnterWrites(old(service.cluster.db), p, service.configs[dungeonId], reply.value.battleId)
                == Written(service.cluster.db)
    ensures admitted && Quiet(others) && service.cluster.faults == old(service.cluster.faults) ==>
              Follows(Enter(dungeonId), service.me, service.configs, p, old(service.cluster.View()),
                      service.cluster.View(), reply)
  {
    hide WholeAt, TornAt, EnterWrites, EnterTold, SettleOf, SettleTold, CommitAlone, Accounted, LeftTablesAlone,
      EndsWith, Step, Run, TouchedOnly, LocksAfter, Serial, Trail, TornContextAt, Exclusive, Known, IsLatest, Owns,
      TellsPayment, SettleAnswer, EnterAnswer, Safe, EnterExplained, RefusedUntried, EnterScript, SettleScript;
    var session, died := LookUpSession(sessions, id, p);
    admitted := Admits(session, p);
    ghost var before := service.cluster.db;
    if died {
      service.Restart();
      NoOneTouched(before, p);
      return None, admitted;
    }
    var answer;
    ghost var fate, done, lost, commit, read;
    ghost var number := GenerateBattleId(p, dungeonId, service.sequence);
    answer, fate, done, lost, commit, read := service.EnterDungeon(session, p, dungeonId, others);
    reply := Some(answer);
    if Quiet(others) && admitted && dungeonId in service.configs {
      EnterTouchedOnly(before, service.cluster.db, answer, lost, commit, read, p, service.configs[dungeonId], number);
    } else {
      NoOneTouched(before, p);
    }
  }

  /** SettleDungeon as the dungeon server does it; a torn context ends the process as a torn session does. */
  method SettleDungeon(sessions: RedisSessionRepository, service: DungeonService, success: bool, id: string, p: int,
                       battleId: string,
                       dungeonId: int, star: int, others: Interference)
    returns (reply: Option<DungeonProtocol.Reply>, ghost admitted: bool)
    requires sessions.Valid() && service.Valid() && Foreign(service.me, others)
    modifies sessions.redis`now, sessions.redis`faults, service, service.cluster, service.repository.mysql
    ensures sessions.Valid() && service.Valid() && (old(sessions.OnePerAccount()) ==> sessions.OnePerAccount())
    ensures sessions.redis.now >= old(sessions.redis.now) && sessions.redis.faults >= old(sessions.redis.faults)
    ensures admitted ==>
              success && Live(sessions, id, p)
              && (old(sessions.OnePerAccount()) ==> IsLatest(sessions, sessions.issued[id]))
    ensures sessions.redis.faults == old(sessions.redis.faults) ==> (admitted <==> success && Live(sessions, id, p))
    ensures reply.None? && !admitted ==>
              success && TornAt(sessions.redis.store, sessions.redis.now, id)
              && service.cluster.trace == old(service.cluster.trace) + [Crash(service.me)]
    ensures Quiet(others) && reply.None? && admitted ==>
              p !in old(service.cluster.locks) && TornContextAt(old(service.cluster.contexts), battleId)
              && service.cluster.locks.Keys == old(service.cluster.locks.Keys) + {p}
    ensures reply.Some? && !admitted ==>
              reply.value == (if success then Refusal(SessionInvalid, SessionIsInvalid)
                              else Refusal(StorageError, OnlySuccess))
              && service.cluster.trace == old(service.cluster.trace)
    ensures Quiet(others) ==> TouchedOnly(old(service.cluster.db), service.cluster.db, p)
    ensures Quiet(others) && service.cluster.db != old(service.cluster.db) ==> admitted
    ensures reply.Some? && reply.value.SettledReply? ==> admitted && dungeonId in service.configs
    ensures reply.Some? ==> !reply.value.Entered?
    ensures Quiet(others) && reply.Some? && reply.value.SettledReply? && dungeonId in service.configs ==>
              SettleOf(old(service.cluster.db), p, battleId, service.configs[dungeonId], star, reply.value.firstClear)
                == Written(service.cluster.db)
    ensures Quiet(others) && reply.Some? && reply.value.SettledReply? ==>
              TellsPayment(reply.value.rewards, old(service.cluster.db), service.cluster.db, p, battleId)
    ensures admitted && Quiet(others) && service.cluster.faults == old(service.cluster.faults) ==>
              Follows(Settle(success, battleId, dungeonId, star), service.me, service.configs, p,
                      old(service.cluster.View()), service.cluster.View(), reply)
    ensures sessions.redis.faults == old(sessions.redis.faults) && !admitted ==>
              (reply.None? <==> success && TornAt(sessions.redis.store, sessions.redis.now, id))
  {
    hide WholeAt, TornAt, EnterWrites, EnterTold, SettleOf, SettleTold, CommitAlone, Accounted, LeftTablesAlone,
      EndsWith, Step, Run, TouchedOnly, Serial, Trail, TornContextAt, Exclusive, Known, IsLatest, Owns,
      TellsPayment, SettleAnswer, EnterAnswer, Safe, EnterExplained, RefusedUntried, EnterScript, SettleScript;
    var session, died := None, false;
    if success { session, died := LookUpSession(sessions, id, p); }
    admitted := Admits(session, p);
    ghost var before := service.cluster.db;
    if died {
      service.Restart();
      NoOneTouched(before, p);
      return None, admitted;
    }
    var answer, threw;
    ghost var fate, done, lost, commit, read;
    answer, threw, fate, done, lost, commit, read :=
      service.SettleDungeon(success, session, p, battleId, dungeonId, star, others);
    reply := if threw then None else Some(answer);
    if Quiet(others) && admitted && dungeonId in service.configs {
      SettleTouchedOnly(before, service.cluster.db, answer, lost, commit, read, p, battleId,
                        service.configs[dungeonId], star);
    } else {
      NoOneTouched(before, p);
    }
  }

  /** LoadPlayer as the player server does it. */
  method LoadPlayer(sessions: RedisSessionRepository, service: PlayerService, id: string, p: int, others: Interference)
    returns (reply: LoadReply, ghost admitted: bool)
    requires sessions.Valid() && service.Wired() && service.cluster.Valid() && Foreign(service.me, others)
    modifies sessions.redis`now, sessions.redis`faults, service.cluster
    ensures sessions.Valid() && service.cluster.Valid() && (old(sessions.OnePerAccount()) ==> sessions.OnePerAccount())
    ensures sessions.redis.now >= old(sessions.redis.now) && sessions.redis.faults >= old(sessions.redis.faults)
    ensures admitted ==>
              Live(sessions, id, p) && (old(sessions.OnePerAccount()) ==> IsLatest(sessions, sessions.issued[id]))
    ensures sessions.redis.faults == old(sessions.redis.faults) ==> (admitted <==> Live(sessions, id, p))
    ensures reply.Loaded? ==> admitted
    ensures Quiet(others) ==> service.cluster.db == old(service.cluster.db)
    ensures !admitted ==>
              service.cluster.trace == old(service.cluster.trace)
              && (if reply.LoadThrew? then TornAt(sessions.redis.store, sessions.redis.now, id)
                  else reply == LoadRefused(SessionInvalid))
    ensures Quiet(others) && service.cluster.faults == old(service.cluster.faults)
            && sessions.redis.faults == old(sessions.redis.faults)
            && !TornAt(sessions.redis.store, sessions.redis.now, id)
            && ColumnsFit(service.cluster.db) ==>
              (Uncached(service.cluster.db, Live(sessions, id, p), p, reply) <==>
                (Live(sessions, id, p) && p in old(service.cluster.snapshots) ==>
                   Current(service.cluster.db, p, old(service.cluster.snapshots)[p])))
    ensures admitted && Quiet(others) && service.cluster.faults == old(service.cluster.faults)
            && ColumnsFit(service.cluster.db) ==>
              (Uncached(service.cluster.db, true, p, reply) <==>
                (p in old(service.cluster.snapshots) ==>
                   Current(service.cluster.db, p, old(service.cluster.snapshots)[p])))
  {
    hide WholeAt, TornAt, Step, Run, Serial, Current, Uncached, ColumnsFit, LoadedFrom, TornSnapshotAt, NoProgress;
    var session, died := LookUpSession(sessions, id, p);
    admitted := Admits(session, p);
    if died { return LoadThrew, admitted; }
    ghost var seen, answered, names;
    reply, seen, answered, names := service.LoadPlayer(session, p, others);
  }

  // ---- from the gateway to the rows ----

  /** What the client hears: a refusal of the gateway itself, nothing usable from the server behind it, or
      the server's reply. */
  datatype Heard<R> = Turned(died: bool) | Unheard | Heard(reply: R)

  /** The player a request is about: its own field when that is set, the context's otherwise. */
  function PlayerOf(ctx: RequestContext, playerId: Int64): Int64
  {
    if playerId != 0 then playerId else ctx.playerId
  }

  /** A successful reply, and the row changes it stands for. */
  ghost predicate Reports(reply: DungeonProtocol.Reply, request: DungeonRequest, configs: map<int, DungeonConfig>,
                          t: Tables, t': Tables, p: int)
  {
    && request.dungeonId in configs
    && match request
       case Enter(d) => reply.Entered? && EnterWrites(t, p, configs[d], reply.battleId) == Written(t')
       case Settle(_, id, d, star) =>
         && reply.SettledReply? && SettleOf(t, p, id, configs[d], star, reply.firstClear) == Written(t')
         && TellsPayment(reply.rewards, t, t', p, id)
  }

  predicate Succeeds(reply: DungeonProtocol.Reply) { reply.Entered? || reply.SettledReply? }

  /** The reply to a request that is not admitted. */
  function NotAdmitted(request: DungeonRequest): DungeonProtocol.Reply
  {
    if request.Settle? && !request.success then Refusal(StorageError, OnlySuccess)
    else Refusal(SessionInvalid, SessionIsInvalid)
  }

  /** The dungeon server's part. */
  method ServeDungeonRequest(sessions: RedisSessionRepository, service: DungeonService, id: string, p: int,
                             request: DungeonRequest, others: Interference)
    returns (reply: Option<DungeonProtocol.Reply>, ghost admitted: bool)
    requires sessions.Valid() && service.Valid() && Foreign(service.me, others)
    modifies sessions.redis`now, sessions.redis`faults, service, service.cluster, service.repository.mysql
    ensures sessions.Valid() && service.Valid() && (old(sessions.OnePerAccount()) ==> sessions.OnePerAccount())
    ensures admitted ==>
              Owns(sessions, id, p) && (old(sessions.OnePerAccount()) ==> IsLatest(sessions, sessions.issued[id]))
    ensures reply.Some? && Succeeds(reply.value) ==> admitted
    ensures Quiet(others) ==> TouchedOnly(old(service.cluster.db), service.cluster.db, p)
    ensures Quiet(others) && service.cluster.db != old(service.cluster.db) ==> admitted
    ensures Quiet(others) && reply.Some? && Succeeds(reply.value) ==>
              Reports(reply.value, request, service.configs, old(service.cluster.db), service.cluster.db, p)
    ensures sessions.redis.faults >= old(sessions.redis.faults) && sessions.redis.now >= old(sessions.redis.now)
    ensures sessions.redis.faults == old(sessions.redis.faults) ==>
              (admitted <==> (request.Settle? ==> request.success) && Live(sessions, id, p))
    ensures sessions.redis.faults == old(sessions.redis.faults) && !admitted ==>
              (reply.None? <==>
                (request.Settle? ==> request.success) && TornAt(sessions.redis.store, sessions.redis.now, id))
    ensures admitted && Quiet(others) && service.cluster.faults == old(service.cluster.faults) ==>
              Follows(request, service.me, service.configs, p, old(service.cluster.View()), service.cluster.View(),
                      reply)
    ensures reply.Some? && !admitted ==> reply.value == NotAdmitted(request)
  {
    hide WholeAt, TornAt, TouchedOnly, EnterWrites, SettleOf, Step, Run, TornContextAt, Exclusive, Known, Follows,
      TellsPayment, Owns, IsLatest;
    match request {
      case Enter(dungeonId) => reply, admitted := EnterDungeon(sessions, service, id, p, dungeonId, others);
      case Settle(success, battleId, dungeonId, star) =>
        reply, admitted := SettleDungeon(sessions, service, success, id, p, battleId, dungeonId, star, others);
    }
  }

  /** The connection is bound to the session and player the context names. */
  ghost predicate BoundTo(gateway: GatewayServer, connection: nat, ctx: RequestContext)
    reads gateway.authorizer
  {
    connection in gateway.authorizer.clientBindings && Names(gateway.authorizer.clientBindings[connection], ctx)
  }

  /** The exchange with the dungeon server: the request may get lost, and so may its reply. */
  method ForwardDungeonRequest(sessions: RedisSessionRepository, service: DungeonService, id: string, p: int,
                               request: DungeonRequest, others: Interference)
    returns (heard: Heard<DungeonProtocol.Reply>, ghost admitted: bool, ghost exchange: Exchange,
             ghost reply: Option<DungeonProtocol.Reply>)
    requires sessions.Valid() && service.Valid() && Foreign(service.me, others)
    modifies sessions.redis`now, sessions.redis`faults, service, service.cluster, service.repository.mysql
    ensures sessions.Valid() && service.Valid() && (old(sessions.OnePerAccount()) ==> sessions.OnePerAccount())
    ensures sessions.redis.faults >= old(sessions.redis.faults) && sessions.redis.now >= old(sessions.redis.now)
    ensures exchange.NotDelivered? ==> !admitted && service.cluster.trace == old(service.cluster.trace)
    ensures !exchange.NotDelivered? && sessions.redis.faults == old(sessions.redis.faults) ==>
              (admitted <==> (request.Settle? ==> request.success) && Live(sessions, id, p))
              && (!admitted ==>
                    (reply.None? <==> (request.Settle? ==> request.success)
                                      && TornAt(sessions.redis.store, sessions.redis.now, id)))
    ensures admitted ==>
              Owns(sessions, id, p) && (old(sessions.OnePerAccount()) ==> IsLatest(sessions, sessions.issued[id]))
    ensures admitted && Quiet(others) && service.cluster.faults == old(service.cluster.faults) ==>
              Follows(request, service.me, service.configs, p, old(service.cluster.View()), service.cluster.View(),
                      reply)
    ensures reply.Some? && !admitted ==> reply.value == NotAdmitted(request)
    ensures Quiet(others) ==> TouchedOnly(old(service.cluster.db), service.cluster.db, p)
    ensures Quiet(others) && service.cluster.db != old(service.cluster.db) ==> admitted
    ensures heard == if exchange.Answered? && reply.Some? then Heard(reply.value) else Unheard
    ensures heard.Heard? && Succeeds(heard.reply) ==> admitted
    ensures Quiet(others) && heard.Heard? && Succeeds(heard.reply) ==>
              Reports(heard.reply, request, service.configs, old(service.cluster.db), service.cluster.db, p)
  {
    hide WholeAt, TornAt, TouchedOnly, Reports, Follows, Step, Run, Exclusive, Known, IsLatest, Owns, Live;
    heard, admitted, reply := Unheard, false, None;
    NoOneTouched(service.cluster.db, p);
    var fate: Exchange := *;
    exchange := fate;
    if fate.NotDelivered? { return; }
    var answer;
    answer, admitted := ServeDungeonRequest(sessions, service, id, p, request, others);
    reply := answer;
    if fate.Answered? && answer.Some? { heard := Heard(answer.value); }
  }

  /** A dungeon request from the client to the rows and back.  Whatever binding the gateway went by, however
      stale: rows change only if the connection is bound to what the request names and the session is the
      account's latest, and they are the rows of that session's own player; and a success the client hears
      of stands for exactly the row changes made.  A request that gets through and is delivered is admitted,
      without faults, exactly for a live session and its own player, and then follows the script; its reply
      is heard exactly if it comes back.  `exchange` is what became of the exchange, `reply` the server's. */
  method HandleDungeonRequest(gateway: GatewayServer, service: DungeonService, connection: nat, ctx: RequestContext,
                              playerId: Int64, request: DungeonRequest, others: Interference)
    returns (heard: Heard<DungeonProtocol.Reply>, ghost admitted: bool, ghost at: int, ghost exchange: Exchange,
             ghost reply: Option<DungeonProtocol.Reply>)
    requires gateway.Valid() && gateway.IsOpen(connection) && service.Valid() && Foreign(service.me, others)
    modifies gateway.authorizer, gateway.sessions.redis`now, gateway.sessions.redis`faults
    modifies service, service.cluster, service.repository.mysql
    ensures gateway.Valid() && service.Valid()
    ensures old(gateway.sessions.OnePerAccount()) ==> gateway.sessions.OnePerAccount()
    // who gets through
    ensures Decided(gateway, connection, ctx, at, heard.Turned?, heard == Turned(true))
    ensures heard.Turned? || exchange.NotDelivered? ==> !admitted && service.cluster.trace == old(service.cluster.trace)
    ensures !heard.Turned? && !exchange.NotDelivered?
            && gateway.sessions.redis.faults == old(gateway.sessions.redis.faults) ==>
              (admitted <==>
                (request.Settle? ==> request.success) && Live(gateway.sessions, ctx.sessionId, PlayerOf(ctx, playerId)))
              && (!admitted ==>
                    (reply.None? <==>
                      && (request.Settle? ==> request.success)
                      && TornAt(gateway.sessions.redis.store, gateway.sessions.redis.now, ctx.sessionId)))
    ensures reply.Some? && !admitted ==> reply.value == NotAdmitted(request)
    ensures admitted ==>
              && BoundTo(gateway, connection, ctx)
              && Owns(gateway.sessions, ctx.sessionId, if playerId != 0 then playerId else ctx.playerId)
              && (old(gateway.sessions.OnePerAccount()) ==>
                    IsLatest(gateway.sessions, gateway.sessions.issued[ctx.sessionId]))
    // what the server does
    ensures admitted && Quiet(others) && service.cluster.faults == old(service.cluster.faults) ==>
              Follows(request, service.me, service.configs, PlayerOf(ctx, playerId), old(service.cluster.View()),
                      service.cluster.View(), reply)
    ensures Quiet(others) ==>
              TouchedOnly(old(service.cluster.db), service.cluster.db, PlayerOf(ctx, playerId))
    ensures Quiet(others) && service.cluster.db != old(service.cluster.db) ==> admitted
    // what the client hears
    ensures !heard.Turned? ==> heard == if exchange.Answered? && reply.Some? then Heard(reply.value) else Unheard
    ensures heard.Heard? && Succeeds(heard.reply) ==> admitted
    ensures Quiet(others) && heard.Heard? && Succeeds(heard.reply) ==>
              Reports(heard.reply, request, service.configs, old(service.cluster.db), service.cluster.db,
                      PlayerOf(ctx, playerId))
  {
    hide WholeAt, TornAt, Restorable, TouchedOnly, Reports, Follows, Step, Run, Exclusive, Known, IsLatest, Owns, Live;
    admitted, exchange, reply := false, NotDelivered, None;
    ghost var before := service.cluster.db;
    NoOneTouched(before, PlayerOf(ctx, playerId));
    var status := gateway.Authorize(connection, ctx);
    at := gateway.sessions.redis.now;
    if !LetsThrough(status) {
      heard := Turned(status.Died?);
      return;
    }
    heard, admitted, exchange, reply :=
      ForwardDungeonRequest(gateway.sessions, service, ctx.sessionId, PlayerOf(ctx, playerId), request, others);
  }

  /** The same for a load: a player's state is heard by exactly the account's latest session, when nothing
      fails, and then it is the one an uncached load would show exactly if the cached one is current. */
  method HandleLoad(gateway: GatewayServer, service: PlayerService, connection: nat, ctx: RequestContext,
                    playerId: Int64, others: Interference)
    returns (heard: Heard<LoadReply>, ghost admitted: bool, ghost at: int, ghost exchange: Exchange,
             ghost reply: LoadReply)
    requires gateway.Valid() && gateway.IsOpen(connection) && service.Wired() && service.cluster.Valid()
    requires Foreign(service.me, others)
    modifies gateway.authorizer, gateway.sessions.redis`now, gateway.sessions.redis`faults, service.cluster
    ensures gateway.Valid() && service.cluster.Valid()
    ensures old(gateway.sessions.OnePerAccount()) ==> gateway.sessions.OnePerAccount()
    ensures Decided(gateway, connection, ctx, at, heard.Turned?, heard == Turned(true))
    ensures heard.Turned? || exchange.NotDelivered? ==> !admitted
    ensures !heard.Turned? && !exchange.NotDelivered?
            && gateway.sessions.redis.faults == old(gateway.sessions.redis.faults) ==>
              (admitted <==> Live(gateway.sessions, ctx.sessionId, PlayerOf(ctx, playerId)))
    ensures admitted ==>
              && BoundTo(gateway, connection, ctx)
              && Owns(gateway.sessions, ctx.sessionId, if playerId != 0 then playerId else ctx.playerId)
              && (old(gateway.sessions.OnePerAccount()) ==>
                    IsLatest(gateway.sessions, gateway.sessions.issued[ctx.sessionId]))
    ensures !admitted ==> service.cluster.trace == old(service.cluster.trace)
    ensures !admitted && !heard.Turned? && !exchange.NotDelivered? ==>
              if reply.LoadThrew? then TornAt(gateway.sessions.redis.store, gateway.sessions.redis.now, ctx.sessionId)
              else reply == LoadRefused(SessionInvalid)
    ensures admitted && Quiet(others) && service.cluster.faults == old(service.cluster.faults)
            && ColumnsFit(service.cluster.db) ==>
              (Uncached(service.cluster.db, true, PlayerOf(ctx, playerId), reply) <==>
                (PlayerOf(ctx, playerId) in old(service.cluster.snapshots) ==>
                   Current(service.cluster.db, PlayerOf(ctx, playerId),
                           old(service.cluster.snapshots)[PlayerOf(ctx, playerId)])))
    ensures !heard.Turned? ==>
              heard == if exchange.Answered? && !reply.LoadThrew? then Heard(reply) else Unheard
    ensures heard.Heard? && heard.reply.Loaded? ==> admitted
    ensures Quiet(others) ==> service.cluster.db == old(service.cluster.db)
  {
    hide WholeAt, TornAt, Restorable, Step, Run, Exclusive, Known, Serial, Current, Uncached, ColumnsFit, IsLatest,
      TornSnapshotAt, Owns;
    admitted, exchange, reply := false, NotDelivered, LoadThrew;
    var status := gateway.Authorize(connection, ctx);
    at := gateway.sessions.redis.now;
    if !LetsThrough(status) {
      heard := Turned(status.Died?);
      return;
    }
    var fate: Exchange := *;
    exchange := fate;
    heard := Unheard;
    if fate.NotDelivered? { return; }
    var answer;
    answer, admitted := LoadPlayer(gateway.sessions, service, ctx.sessionId, PlayerOf(ctx, playerId), others);
    reply := answer;
    if fate.Answered? && !answer.LoadThrew? { heard := Heard(answer); }
  }
}
