/**
 The gateway: it remembers which session each client connection belongs to and forwards requests only
 for that session.  A binding is not checked against the session store again, so it may outlive its
 session; what this composition shows is that nothing is ever served on the strength of such a binding.
 */
module Gateway {
  import opened Common
  import opened Decimal
  import opened PasswordHashers
  import opened Redis
  import opened Sessions
  import opened TcpServer

  datatype RequestContext = RequestContext(sessionId: string, playerId: Int64)

  datatype ClientBinding = ClientBinding(sessionId: string, playerId: Int64)

  /** Died: an exception that nobody catches has ended the process. */
  datatype Status = Bound | Restored | Mismatch | RestoreFailed | Died

  predicate LetsThrough(status: Status) { status.Bound? || status.Restored? }

  function BindingOf(session: Session): ClientBinding
  {
    ClientBinding(session.sessionId, session.playerId)
  }

  predicate Names(binding: ClientBinding, ctx: RequestContext)
  {
    binding == ClientBinding(ctx.sessionId, ctx.playerId)
  }

  /** The binding names a session that was issued, and that session's own player. */
  predicate Fits(binding: ClientBinding, issued: map<string, Session>)
  {
    binding.sessionId in issued && issued[binding.sessionId].playerId == binding.playerId
  }

  /** At this moment the context names a session that can be looked up, and that session's own player. */
  predicate Restorable(store: Store, now: int, issued: map<string, Session>, ctx: RequestContext)
  {
    && ctx.sessionId != "" && ctx.playerId != 0
    && WholeAt(store, now, ctx.sessionId) && ctx.sessionId in issued && issued[ctx.sessionId].playerId == ctx.playerId
  }

  class SessionBindingAuthorizer {
    const sessions: RedisSessionRepository
    var clientBindings: map<nat, ClientBinding>

    constructor (sessions: RedisSessionRepository)
      ensures this.sessions == sessions && clientBindings == map[]
    {
      this.sessions, clientBindings := sessions, map[];
    }

    /** RestoreBindingFromSession: a binding exactly for a session that is found and belongs to the player
        asked for; it throws exactly when the session's hash lacks a field. */
    method RestoreBindingFromSession(ctx: RequestContext) returns (binding: Option<ClientBinding>, threw: bool)
      requires sessions.Valid()
      modifies sessions.redis`now, sessions.redis`faults
      ensures sessions.Valid() && (old(sessions.OnePerAccount()) ==> sessions.OnePerAccount())
      ensures sessions.redis.now >= old(sessions.redis.now) && sessions.redis.faults >= old(sessions.redis.faults)
      ensures binding.Some? ==>
                Names(binding.value, ctx) && Restorable(sessions.redis.store, sessions.redis.now, sessions.issued, ctx)
      ensures threw ==> binding.None? && TornAt(sessions.redis.store, sessions.redis.now, ctx.sessionId)
      ensures sessions.redis.faults == old(sessions.redis.faults) ==>
                && (binding.Some? <==> Restorable(sessions.redis.store, sessions.redis.now, sessions.issued, ctx))
                && (threw <==> ctx.sessionId != "" && ctx.playerId != 0
                               && TornAt(sessions.redis.store, sessions.redis.now, ctx.sessionId))
    {
      hide WholeAt, TornAt;
      if ctx.sessionId == "" || ctx.playerId == 0 { return None, false; }
      var session;
      ghost var answered;
      session, threw, answered := sessions.FindById(ctx.sessionId);
      if session.None? || session.value.playerId != ctx.playerId { return None, threw; }
      binding := Some(ClientBinding(session.value.sessionId, session.value.playerId));
    }

    /** ValidateOrRestore.  A bound connection is judged by its binding alone, without asking the store. */
    method ValidateOrRestore(connection: nat, ctx: RequestContext) returns (status: Status)
      requires sessions.Valid()
      modifies this, sessions.redis`now, sessions.redis`faults
      ensures sessions.Valid() && (old(sessions.OnePerAccount()) ==> sessions.OnePerAccount())
      ensures sessions.redis.now >= old(sessions.redis.now) && sessions.redis.faults >= old(sessions.redis.faults)
      ensures connection in old(clientBindings) ==>
                && status == (if Names(old(clientBindings)[connection], ctx) then Bound else Mismatch)
                && clientBindings == old(clientBindings)
                && sessions.redis.now == old(sessions.redis.now) && sessions.redis.faults == old(sessions.redis.faults)
      ensures connection !in old(clientBindings) ==> status.Restored? || status.RestoreFailed? || status.Died?
      ensures status.RestoreFailed? || status.Died? ==> clientBindings == old(clientBindings)
      ensures status.Died? ==> TornAt(sessions.redis.store, sessions.redis.now, ctx.sessionId)
      ensures status.Restored? ==>
                && clientBindings == old(clientBindings)[connection := ClientBinding(ctx.sessionId, ctx.playerId)]
                && Restorable(sessions.redis.store, sessions.redis.now, sessions.issued, ctx)
      ensures connection !in old(clientBindings) && sessions.redis.faults == old(sessions.redis.faults) ==>
                && (status.Restored? <==> Restorable(sessions.redis.store, sessions.redis.now, sessions.issued, ctx))
                && (status.Died? <==> ctx.sessionId != "" && ctx.playerId != 0
                                      && TornAt(sessions.redis.store, sessions.redis.now, ctx.sessionId))
    {
      hide Restorable, TornAt;
      if connection in clientBindings {
        status := if clientBindings[connection].sessionId == ctx.sessionId
                     && clientBindings[connection].playerId == ctx.playerId
                  then Bound else Mismatch;
        return;
      }
      var restored, threw := RestoreBindingFromSession(ctx);
      if threw { return Status.Died; }
      if restored.None? { return RestoreFailed; }
      clientBindings := clientBindings[connection := restored.value];
      status := Restored;
    }

    method Bind(connection: nat, sessionId: string, playerId: Int64)
      modifies this
      ensures clientBindings == old(clientBindings)[connection := ClientBinding(sessionId, playerId)]
    {
      clientBindings := clientBindings[connection := ClientBinding(sessionId, playerId)];
    }

    method Unbind(connection: nat)
      modifies this
      ensures clientBindings == old(clientBindings) - {connection}
    {
      clientBindings := clientBindings - {connection};
    }
  }

  // ---- the services behind the gateway ----

  datatype Account = Account(accountId: Int64, passwordHash: string, defaultPlayerId: Int64, enabled: bool)

  datatype LoginResult = AccountNotFound | AccountDisabled | InvalidPassword | LoggedIn(session: Session)

  class LoginService {
    const accounts: map<string, Account>
    const derive: Derivation
    const sessions: RedisSessionRepository

    constructor (accounts: map<string, Account>, derive: Derivation, sessions: RedisSessionRepository)
      ensures this.accounts == accounts && this.derive == derive && this.sessions == sessions
    {
      this.accounts, this.derive, this.sessions := accounts, derive, sessions;
    }

    predicate Accepts(name: string, password: seq<Byte>)
    {
      name in accounts && accounts[name].enabled && VerifyPassword(derive, password, accounts[name].passwordHash)
    }

    /** Login: a session is created exactly for an enabled account and its password; it is the account's
        latest from then on. */
    method Login(name: string, password: seq<Byte>, clock: Int64) returns (result: LoginResult)
      requires sessions.Valid()
      modifies sessions, sessions.redis
      ensures sessions.Valid() && sessions.redis.faults >= old(sessions.redis.faults)
      ensures result.LoggedIn? <==> Accepts(name, password)
      ensures result.InvalidPassword? <==>
                name in accounts && accounts[name].enabled
                && !VerifyPassword(derive, password, accounts[name].passwordHash)
      ensures result.AccountNotFound? <==> name !in accounts
      ensures result.AccountDisabled? <==> name in accounts && !accounts[name].enabled
      ensures result.LoggedIn? ==>
                var s := result.session;
                && s.accountId == accounts[name].accountId && s.playerId == accounts[name].defaultPlayerId
                && s.sessionId !in old(sessions.issued) && sessions.issued == old(sessions.issued)[s.sessionId := s]
                && sessions.latest == old(sessions.latest)[s.accountId := s.sessionId]
      ensures !result.LoggedIn? ==> sessions.issued == old(sessions.issued) && sessions.latest == old(sessions.latest)
      ensures forall b :: Fits(b, old(sessions.issued)) ==> Fits(b, sessions.issued)
      ensures old(sessions.OnePerAccount()) && sessions.redis.faults == old(sessions.redis.faults) ==>
                sessions.OnePerAccount()
    {
      if name !in accounts { return AccountNotFound; }
      var account := accounts[name];
      if !account.enabled { return AccountDisabled; }
      if !VerifyPassword(derive, password, account.passwordHash) { return InvalidPassword; }
      var session, at, fates := sessions.Create(account.accountId, account.defaultPlayerId, clock);
      result := LoggedIn(session);
    }
  }

  datatype Operation = LoadPlayer | EnterDungeon | SettleDungeon

  /** What a service was asked to do, in whose name, or why it refused. */
  datatype Served = Refused | Died | Done(operation: Operation, session: Session, playerId: Int64)

  /** The first lines of LoadPlayer, EnterDungeon and SettleDungeon.  The player asked for is the request's
      own field when it is set and the context's otherwise. */
  method Serve(sessions: RedisSessionRepository, operation: Operation, ctx: RequestContext, playerId: Int64)
    returns (served: Served)
    requires sessions.Valid()
    modifies sessions.redis`now, sessions.redis`faults
    ensures sessions.Valid() && (old(sessions.OnePerAccount()) ==> sessions.OnePerAccount())
    ensures sessions.redis.now >= old(sessions.redis.now) && sessions.redis.faults >= old(sessions.redis.faults)
    ensures served.Done? ==>
              && served.operation == operation && served.playerId == (if playerId != 0 then playerId else ctx.playerId)
              && ActedFor(sessions, served, ctx)
              && (old(sessions.OnePerAccount()) ==> IsLatest(sessions, served.session))
    ensures served.Died? ==> TornAt(sessions.redis.store, sessions.redis.now, ctx.sessionId)
    ensures sessions.redis.faults == old(sessions.redis.faults) ==> ServedExactly(sessions, served, ctx, playerId)
  {
    hide WholeAt, TornAt;
    var player := if playerId != 0 then playerId else ctx.playerId;
    var session, threw, answered := sessions.FindById(ctx.sessionId);
    if threw { return Served.Died; }
    if !Admits(session, player) { return Refused; }
    served := Done(operation, session.value, player);
  }

  /** The service acted in the name of the session the context names, and for that session's own player. */
  ghost predicate ActedFor(sessions: RedisSessionRepository, served: Served, ctx: RequestContext)
    requires served.Done?
    reads sessions
  {
    && ctx.sessionId in sessions.issued && served.session == sessions.issued[ctx.sessionId]
    && served.session.sessionId == ctx.sessionId && served.session.playerId == served.playerId
  }

  /** What a service does when Redis answers: it acts for a live session and its own player, dies of a hash
      that lacks a field, and refuses everything else. */
  ghost predicate ServedExactly(sessions: RedisSessionRepository, served: Served, ctx: RequestContext, playerId: Int64)
    reads sessions, sessions.redis
  {
    var store, now := sessions.redis.store, sessions.redis.now;
    && (served.Done? <==>
         && WholeAt(store, now, ctx.sessionId) && ctx.sessionId in sessions.issued
         && sessions.issued[ctx.sessionId].playerId == if playerId != 0 then playerId else ctx.playerId)
    && (served.Died? <==> TornAt(store, now, ctx.sessionId))
  }

  ghost predicate IsLatest(sessions: RedisSessionRepository, s: Session)
    reads sessions
  {
    s.accountId in sessions.latest && sessions.latest[s.accountId] == s.sessionId
  }

  // ---- the gateway itself ----

  datatype Message =
    | UnknownMessage
    | Ping
    | Unparsable
    | LoginMessage(name: string, password: seq<Byte>)
    | PlayerMessage(operation: Operation, ctx: RequestContext, playerId: Int64)

  /** NoAnswer: the gateway itself has died. */
  datatype Reply =
    | BadGateway | Pong | SessionRejected | UpstreamError | NoAnswer
    | LoginAnswer(result: LoginResult)
    | ServiceAnswer(served: Served)

  /** What becomes of an exchange with an upstream server: the request may be carried out although its
      answer is lost or rejected. */
  datatype Exchange = NotDelivered | AnswerLost | Answered

  class GatewayServer {
    const server: EpollTcpServer
    const sessions: RedisSessionRepository
    const authorizer: SessionBindingAuthorizer
    const login: LoginService

    constructor (sessions: RedisSessionRepository, login: LoginService)
      requires sessions.Valid() && login.sessions == sessions
      ensures Valid() && this.sessions == sessions && authorizer.clientBindings == map[]
    {
      this.sessions, this.login := sessions, login;
      server := new EpollTcpServer();
      authorizer := new SessionBindingAuthorizer(sessions);
    }

    predicate IsOpen(connection: nat)
      reads server
    {
      exists fd :: fd in server.connections && server.connections[fd] == connection
    }

    /** Bindings exist only for open connections, and each fits a session that was really issued. */
    ghost predicate Valid()
      reads this, server, authorizer, sessions, sessions.redis
    {
      && server.Valid() && sessions.Valid() && authorizer.sessions == sessions && login.sessions == sessions
      && forall c :: c in authorizer.clientBindings ==>
           IsOpen(c) && Fits(authorizer.clientBindings[c], sessions.issued)
    }

    method AcceptConnections(script: seq<Accept>) returns (ok: bool)
      requires Valid()
      modifies server
      ensures Valid() && forall c: nat :: old(IsOpen(c)) ==> IsOpen(c)
      ensures forall c: nat ::
                IsOpen(c) && !old(IsOpen(c)) ==> c >= old(server.nextConnectionId) && c !in authorizer.clientBindings
    {
      ok := server.AcceptConnections(script);
      assert forall fd :: fd in old(server.connections) ==> server.connections[fd] == old(server.connections)[fd];
    }

    /** A connection goes away, and its binding with it; the same descriptor may come back under a new id. */
    method Disconnect(fd: int)
      requires Valid()
      modifies server, authorizer
      ensures Valid() && server.connections == old(server.connections) - {fd}
      ensures authorizer.clientBindings ==
                if fd in old(server.connections) then old(authorizer.clientBindings) - {old(server.connections)[fd]}
                else old(authorizer.clientBindings)
    {
      hide Known;
      ghost var before := server.connections;
      var disconnected := server.CloseConnection(fd);
      if disconnected.Some? { authorizer.Unbind(disconnected.value); }
      forall c | c in authorizer.clientBindings ensures IsOpen(c) {
        var f :| f in before && before[f] == c;
        assert f in server.connections;
      }
    }

    /** Somebody logs in through another gateway; bindings here are none the wiser. */
    method LoginElsewhere(name: string, password: seq<Byte>, clock: Int64) returns (result: LoginResult)
      requires Valid()
      modifies sessions, sessions.redis
      ensures Valid() && result.LoggedIn? == login.Accepts(name, password)
      ensures old(sessions.OnePerAccount()) && sessions.redis.faults == old(sessions.redis.faults) ==>
                sessions.OnePerAccount()
    {
      hide IsOpen, Known, Exclusive, Fits;
      result := login.Login(name, password, clock);
    }

    /** The part of HandlePacket that every player request goes through. */
    method Authorize(connection: nat, ctx: RequestContext) returns (status: Status)
      requires Valid() && IsOpen(connection)
      modifies authorizer, sessions.redis`now, sessions.redis`faults
      ensures Valid() && (old(sessions.OnePerAccount()) ==> sessions.OnePerAccount())
      ensures sessions.redis.now >= old(sessions.redis.now) && sessions.redis.faults >= old(sessions.redis.faults)
      ensures Decided(this, connection, ctx, sessions.redis.now, !LetsThrough(status), status.Died?)
    {
      hide Known, Exclusive, TornAt, WholeAt;
      status := authorizer.ValidateOrRestore(connection, ctx);
    }

    /** HandlePacket.  How a player request is decided about is Decided's to say; whatever a service then does
        is done in the name of the account's latest session and for that session's own player, even when the
        binding is stale and whether or not its answer arrives, and an answer that does arrive is handed on.
        `exchange` is what became of the exchange with an upstream server, if there was one, `served` what the
        service did, and `at` the moment of the gateway's own lookup. */
    method HandlePacket(connection: nat, message: Message, clock: Int64)
      returns (reply: Reply, ghost exchange: Option<Exchange>, ghost served: Option<Served>, ghost at: int)
      requires Valid() && IsOpen(connection)
      modifies authorizer, sessions, sessions.redis
      ensures Valid()
      // what is forwarded
      ensures !message.PlayerMessage? && !message.LoginMessage? ==>
                exchange.None? && reply == (if message.Ping? then Pong else BadGateway)
                && authorizer.clientBindings == old(authorizer.clientBindings)
      ensures message.PlayerMessage? ==>
                Decided(this, connection, message.ctx, at, exchange.None?, reply.NoAnswer?)
                && (exchange.None? ==> reply.SessionRejected? || reply.NoAnswer?)
      // a login
      ensures message.LoginMessage? ==>
                exchange.Some? && LoggedInAs(this, connection, message.name, message.password, exchange.value, reply)
      // what a service does, and what is handed on
      ensures served.Some? <==> message.PlayerMessage? && exchange.Some? && !exchange.value.NotDelivered?
      ensures message.PlayerMessage? && exchange.Some? ==>
                reply == if exchange.value.Answered? && !served.value.Died? then ServiceAnswer(served.value)
                         else UpstreamError
      ensures served.Some? && sessions.redis.faults == old(sessions.redis.faults) ==>
                ServedExactly(sessions, served.value, message.ctx, message.playerId)
      ensures served.Some? && served.value.Done? ==>
                && served.value.operation == message.operation
                && ActedFor(sessions, served.value, message.ctx)
                && (old(sessions.OnePerAccount()) ==> IsLatest(sessions, served.value.session))
      ensures old(sessions.OnePerAccount()) && sessions.redis.faults == old(sessions.redis.faults) ==>
                sessions.OnePerAccount()
    {
      hide Known, Exclusive, TornAt, Restorable, IsOpen, Fits, ServedExactly, ActedFor, IsLatest, LoggedInAs;
      exchange, served, at := None, None, sessions.redis.now;
      match message {
        case UnknownMessage => reply := BadGateway;
        case Ping => reply := Pong;
        case Unparsable => reply := BadGateway;
        case LoginMessage(name, password) =>
          ghost var fate;
          reply, fate := ForwardLogin(connection, name, password, clock);
          exchange := Some(fate);
        case PlayerMessage(operation, ctx, playerId) =>
          var status := Authorize(connection, ctx);
          at := sessions.redis.now;
          if status.Died? {
            reply := NoAnswer;
            return;
          }
          if !LetsThrough(status) {
            reply := SessionRejected;
            return;
          }
          ghost var fate;
          reply, served, fate := ForwardToService(operation, ctx, playerId);
          exchange := Some(fate);
      }
    }

    /** The exchange with a service; a service that dies, or whose answer is lost, may have acted or not. */
    method ForwardToService(operation: Operation, ctx: RequestContext, playerId: Int64)
      returns (reply: Reply, ghost served: Option<Served>, ghost exchange: Exchange)
      requires Valid()
      modifies sessions.redis`now, sessions.redis`faults
      ensures Valid() && (old(sessions.OnePerAccount()) ==> sessions.OnePerAccount())
      ensures sessions.redis.now >= old(sessions.redis.now) && sessions.redis.faults >= old(sessions.redis.faults)
      ensures served.None? <==> exchange.NotDelivered?
      ensures reply == if exchange.Answered? && !served.value.Died? then ServiceAnswer(served.value) else UpstreamError
      ensures served.Some? && sessions.redis.faults == old(sessions.redis.faults) ==>
                ServedExactly(sessions, served.value, ctx, playerId)
      ensures served.Some? && served.value.Done? ==>
                && served.value.operation == operation && ActedFor(sessions, served.value, ctx)
                && (old(sessions.OnePerAccount()) ==> IsLatest(sessions, served.value.session))
    {
      hide Known, Exclusive, TornAt, WholeAt, ServedExactly, ActedFor, IsLatest;
      reply, served := UpstreamError, None;
      var fate: Exchange := *;
      exchange := fate;
      if fate.NotDelivered? { return; }
      var done := Serve(sessions, operation, ctx, playerId);
      served := Some(done);
      if fate.Answered? && !done.Died? { reply := ServiceAnswer(done); }
    }

    /** A login is forwarded without looking at any binding; the binding follows a successful answer. */
    method ForwardLogin(connection: nat, name: string, password: seq<Byte>, clock: Int64)
      returns (reply: Reply, ghost exchange: Exchange)
      requires Valid() && IsOpen(connection)
      modifies authorizer, sessions, sessions.redis
      ensures Valid() && LoggedInAs(this, connection, name, password, exchange, reply)
      ensures old(sessions.OnePerAccount()) && sessions.redis.faults == old(sessions.redis.faults) ==>
                sessions.OnePerAccount()
    {
      hide IsOpen, Known, Exclusive;
      var fate: Exchange := *;
      exchange := fate;
      if fate.NotDelivered? { return UpstreamError, exchange; }
      var result := login.Login(name, password, clock);
      if !fate.Answered? { return UpstreamError, exchange; }
      if result.LoggedIn? { BindLogin(connection, result.session); }
      reply := LoginAnswer(result);
    }

    method BindLogin(connection: nat, session: Session)
      requires Valid() && IsOpen(connection) && Fits(BindingOf(session), sessions.issued)
      modifies authorizer
      ensures Valid()
      ensures authorizer.clientBindings == old(authorizer.clientBindings)[connection := BindingOf(session)]
    {
      hide IsOpen, Known, Fits;
      authorizer.Bind(connection, session.sessionId, session.playerId);
    }
  }

  /** How the gateway decides about a player request, at the moment `at` of the lookup if there is one.  On a
      bound connection the binding alone counts; on an unbound one only a session that can be restored gets
      through and, when Redis answers, every such session does.  A connection that is not turned away is
      bound to what the request names, and nothing else changes. */
  twostate predicate Decided(gateway: GatewayServer, connection: nat, ctx: RequestContext, at: int, turned: bool,
                             died: bool)
    reads gateway, gateway.authorizer, gateway.sessions, gateway.sessions.redis
  {
    var sessions, before := gateway.sessions, old(gateway.authorizer.clientBindings);
    var restorable := Restorable(sessions.redis.store, at, sessions.issued, ctx);
    var torn := TornAt(sessions.redis.store, at, ctx.sessionId);
    && old(sessions.redis.now) <= at <= sessions.redis.now
    && sessions.redis.store == old(sessions.redis.store) && sessions.issued == old(sessions.issued)
    && gateway.authorizer.clientBindings ==
         (if turned then before else before[connection := ClientBinding(ctx.sessionId, ctx.playerId)])
    && (connection in before ==>
          !died && (turned <==> before[connection] != ClientBinding(ctx.sessionId, ctx.playerId)))
    && (connection !in before && !turned ==> restorable)
    && (died ==> turned && torn)
    && (connection !in before && sessions.redis.faults == old(sessions.redis.faults) ==>
          (turned <==> !restorable) && (died <==> ctx.sessionId != "" && ctx.playerId != 0 && torn))
  }

  /** What a login through the gateway does: a session is issued exactly if the request arrives with an enabled
      account's password, the answer is handed on exactly if it arrives, and the connection is bound to the
      session exactly by a successful answer. */
  twostate predicate LoggedInAs(gateway: GatewayServer, connection: nat, name: string, password: seq<Byte>,
                                exchange: Exchange, reply: Reply)
    reads gateway, gateway.authorizer, gateway.sessions, gateway.sessions.redis
  {
    var sessions, accounts := gateway.sessions, gateway.login.accounts;
    var bindings, before := gateway.authorizer.clientBindings, old(gateway.authorizer.clientBindings);
    var issued, known := sessions.issued, old(sessions.issued);
    && (exchange.NotDelivered? || !gateway.login.Accepts(name, password) <==> issued == known)
    && (exchange.Answered? <==> reply.LoginAnswer?) && (!exchange.Answered? <==> reply.UpstreamError?)
    && if !reply.LoginAnswer? then bindings == before
       else
         match reply.result
         case AccountNotFound => name !in accounts && bindings == before
         case AccountDisabled => name in accounts && !accounts[name].enabled && bindings == before
         case InvalidPassword =>
           && name in accounts && accounts[name].enabled && bindings == before
           && !VerifyPassword(gateway.login.derive, password, accounts[name].passwordHash)
         case LoggedIn(s) =>
           && name in accounts && accounts[name].enabled
           && VerifyPassword(gateway.login.derive, password, accounts[name].passwordHash)
           && s.accountId == accounts[name].accountId && s.playerId == accounts[name].defaultPlayerId
           && s.sessionId !in known && issued == known[s.sessionId := s]
           && bindings == before[connection := ClientBinding(s.sessionId, s.playerId)]
  }
}
