/**
 Login sessions.  An account has one session at a time; logging in again replaces it.  The store keeps
 two keys per account with separate expiry times: the session itself and the account's pointer to it.
 */
module Sessions {
  import opened Common
  import opened Decimal
  import opened Hashes
  import opened Redis

  datatype Session = Session(sessionId: string, accountId: Int64, playerId: Int64, createdAt: Int64)

  /** The check every service makes before anything else. */
  predicate Admits(session: Option<Session>, playerId: int)
  {
    session.Some? && session.value.playerId == playerId
  }

  function SessionIdFor(accountId: int, playerId: int, sequence: nat): string
  {
    TaggedId("sess-", accountId, playerId, sequence)
  }

  lemma SessionIdText(accountId: int, playerId: int, n: nat)
    ensures SessionIdFor(accountId, playerId, n)
         == "sess-" + (PrintInt(accountId) + ("-" + (PrintInt(playerId) + ("-" + PrintInt(n)))))
  {
  }

  // ---- the session as a hash ----

  function EncodeSession(s: Session): Hash
  {
    map["account_id" := PrintInt(s.accountId),
        "player_id" := PrintInt(s.playerId),
        "created_at_epoch_seconds" := PrintInt(s.createdAt)]
  }

  const SESSION_FIELDS := {"account_id", "player_id", "created_at_epoch_seconds"}

  /** None where map::at or std::stoll throws: a missing field, or one that is not a number. */
  function DecodeSession(id: string, fields: Hash): Option<Session>
  {
    if !(SESSION_FIELDS <= fields.Keys) then None
    else
      var account, player := Stoll(fields["account_id"]), Stoll(fields["player_id"]);
      var created := Stoll(fields["created_at_epoch_seconds"]);
      if account.None? || player.None? || created.None? then None
      else Some(Session(id, account.value, player.value, created.value))
  }

  lemma SessionKeys(s: Session)
    ensures EncodeSession(s).Keys == SESSION_FIELDS
  {
    hide PrintInt;
  }

  /** Any part of a stored session reads back as the session when it is the whole, for all 64-bit numbers,
      and otherwise cannot be read: map::at throws.  What is there stands under its own name. */
  lemma SessionRoundTrip(s: Session, fields: Hash)
    requires Part(fields, EncodeSession(s))
    ensures DecodeSession(s.sessionId, fields) == if SESSION_FIELDS <= fields.Keys then Some(s) else None
    ensures "account_id" in fields ==> Stoll(fields["account_id"]) == Some(s.accountId)
    ensures "player_id" in fields ==> Stoll(fields["player_id"]) == Some(s.playerId)
    ensures "created_at_epoch_seconds" in fields ==> Stoll(fields["created_at_epoch_seconds"]) == Some(s.createdAt)
  {
    StollPrinted(s.accountId);
    StollPrinted(s.playerId);
    StollPrinted(s.createdAt);
    hide Stoll, PrintInt;
    var whole := EncodeSession(s);
    assert whole["account_id"] == PrintInt(s.accountId) && whole["player_id"] == PrintInt(s.playerId);
  }

  // ---- what the store says about sessions ----

  ghost predicate Numbered(s: Session, bound: nat)
  {
    exists n: nat :: n < bound && s.sessionId == SessionIdFor(s.accountId, s.playerId, n)
  }

  /** The entry holds some of the session's fields, perhaps not all. */
  ghost predicate Stores(entry: Entry, s: Session)
  {
    entry.value.Fields? && entry.value.fields != map[] && Part(entry.value.fields, EncodeSession(s))
  }

  ghost predicate IdsKnown(issued: map<string, Session>, sequence: nat)
  {
    forall id :: id in issued ==> issued[id].sessionId == id && Numbered(issued[id], sequence)
  }

  ghost predicate SessionsKnown(store: Store, issued: map<string, Session>)
  {
    forall id :: SessionKey(id) in store ==> id in issued && Stores(store[SessionKey(id)], issued[id])
  }

  ghost predicate AccountsKnown(store: Store, issued: map<string, Session>)
  {
    forall a :: AccountSessionKey(a) in store ==>
      var value := store[AccountSessionKey(a)].value;
      value.Text? && value.text in issued && issued[value.text].accountId == a
  }

  /** Everything under session and account keys was put there by this login server. */
  ghost predicate Known(store: Store, issued: map<string, Session>, sequence: nat)
  {
    IdsKnown(issued, sequence) && SessionsKnown(store, issued) && AccountsKnown(store, issued)
  }

  /** The account's key is live, names this session and will not expire before it. */
  predicate PointsTo(store: Store, now: int, accountId: int, id: string)
    requires SessionKey(id) in store
  {
    var key := AccountSessionKey(accountId);
    TextAt(store, now, key) == Some(id) && NotBefore(store[key].expiry, store[SessionKey(id)].expiry)
  }

  /** Every live session is the one its account was given last, and its account's key points to it. */
  ghost predicate Exclusive(store: Store, now: int, issued: map<string, Session>, latest: map<int, string>)
  {
    forall id :: id in issued && Live(store, now, SessionKey(id)) ==>
      var a := issued[id].accountId;
      a in latest && latest[a] == id && PointsTo(store, now, a, id)
  }

  /** Time alone cannot break it: the account's key never expires first. */
  lemma TimeKeepsExclusive(store: Store, now: int, later: int, issued: map<string, Session>, latest: map<int, string>)
    requires Exclusive(store, now, issued, latest) && now <= later
    ensures Exclusive(store, later, issued, latest)
  {
    forall id | id in issued && Live(store, later, SessionKey(id))
      ensures PointsTo(store, later, issued[id].accountId, id)
    {
      assert Live(store, now, SessionKey(id));
    }
  }

  // ---- creating a session ----

  datatype Moments = Moments(got: int, deleted: int, stored: int, indexed: int)

  datatype Fates = Fates(got: bool, deleted: bool, stored: HashFate, indexed: bool)

  function Looked(store: Store, at: Moments, fates: Fates, s: Session): Option<string>
  {
    if fates.got then TextAt(store, at.got, AccountSessionKey(s.accountId)) else None
  }

  function Dropped(store: Store, at: Moments, fates: Fates, s: Session): Store
  {
    var previous := Looked(store, at, fates, s);
    if previous.Some? && fates.deleted then store - {SessionKey(previous.value)} else store
  }

  /** GET, DEL, HSET + EXPIRE, SET: what Create leaves in the store. */
  function Created(store: Store, at: Moments, fates: Fates, s: Session, ttl: int): Store
  {
    var stored := HSetEffect(Dropped(store, at, fates, s), at.stored, SessionKey(s.sessionId),
                             EncodeSession(s), ttl, fates.stored);
    if fates.indexed then
      stored[AccountSessionKey(s.accountId) := Entry(Text(s.sessionId), Deadline(at.indexed, ttl))]
    else stored
  }

  predicate InOrder(at: Moments)
  {
    at.got <= at.deleted <= at.stored <= at.indexed
  }

  /** The account's previous session was not deleted and has not run out by the end. */
  predicate PreviousSurvives(store: Store, at: Moments, fates: Fates, s: Session)
  {
    var previous := TextAt(store, at.got, AccountSessionKey(s.accountId));
    previous.Some? && !(fates.got && fates.deleted) && Live(store, at.indexed, SessionKey(previous.value))
  }

  /** Some field of the new session was written. */
  predicate Appears(fates: Fates)
  {
    !(SESSION_FIELDS !! fates.stored.names)
  }

  /** All of it was, and it was given its expiry. */
  predicate Bounded(fates: Fates)
  {
    SESSION_FIELDS <= fates.stored.names && fates.stored.expired
  }

  /** The new session's key is live at the end but its account's key does not cover it. */
  predicate NewUncovered(at: Moments, fates: Fates, ttl: int)
  {
    && Appears(fates)
    && (Bounded(fates) && ttl > 0 ==> at.indexed < at.stored + ttl)
    && (!fates.indexed || (!Bounded(fates) && ttl > 0))
  }

  lemma FreshId(issued: map<string, Session>, s: Session, sequence: nat)
    requires IdsKnown(issued, sequence)
    requires s.sessionId == SessionIdFor(s.accountId, s.playerId, sequence)
    ensures s.sessionId !in issued && IdsKnown(issued[s.sessionId := s], sequence + 1)
  {
    hide TaggedId;
    if s.sessionId in issued {
      var o := issued[s.sessionId];
      var n: nat :| n < sequence && o.sessionId == SessionIdFor(o.accountId, o.playerId, n);
      TaggedIdInjective("sess-", s.accountId, s.playerId, sequence, o.accountId, o.playerId, n);
    }
  }

  /** The entries after Create, key by key. */
  lemma CreatedEntries(store: Store, at: Moments, fates: Fates, s: Session, ttl: int)
    requires SessionKey(s.sessionId) !in store
    ensures var after, key := Created(store, at, fates, s, ttl), SessionKey(s.sessionId);
            && (key in after <==> Appears(fates))
            && (key in after ==>
                  && Stores(after[key], s)
                  && after[key].value.fields.Keys == SESSION_FIELDS * fates.stored.names
                  && after[key].expiry == if Bounded(fates) then Deadline(at.stored, ttl) else Never)
    ensures var after, key := Created(store, at, fates, s, ttl), AccountSessionKey(s.accountId);
            && (fates.indexed ==> key in after && after[key] == Entry(Text(s.sessionId), Deadline(at.indexed, ttl)))
            && (!fates.indexed ==> (key in after <==> key in store) && (key in store ==> after[key] == store[key]))
    ensures var after, previous := Created(store, at, fates, s, ttl), Looked(store, at, fates, s);
            forall key :: key != SessionKey(s.sessionId) && key != AccountSessionKey(s.accountId) ==>
              && (key in after <==>
                    key in store && !(previous.Some? && fates.deleted && key == SessionKey(previous.value)))
              && (key in after ==> after[key] == store[key])
  {
    hide EncodeSession, Looked;
    SessionKeys(s);
    StoredIsPart(EncodeSession(s), fates.stored.names);
    hide Stored;
    var fields := Stored(map[], EncodeSession(s), fates.stored.names);
    assert fields == map[] ==> fields.Keys == {};
  }

  lemma SessionsStayKnown(store: Store, at: Moments, fates: Fates, s: Session, ttl: int, issued: map<string, Session>)
    requires SessionsKnown(store, issued) && SessionKey(s.sessionId) !in store
    ensures SessionsKnown(Created(store, at, fates, s, ttl), issued[s.sessionId := s])
  {
    hide Stores, Created, Looked;
    CreatedEntries(store, at, fates, s, ttl);
  }

  lemma AccountsStayKnown(store: Store, at: Moments, fates: Fates, s: Session, ttl: int, issued: map<string, Session>)
    requires AccountsKnown(store, issued) && SessionKey(s.sessionId) !in store && s.sessionId !in issued
    ensures AccountsKnown(Created(store, at, fates, s, ttl), issued[s.sessionId := s])
  {
    hide Stores, Created, Looked;
    CreatedEntries(store, at, fates, s, ttl);
  }

  lemma CreateStaysKnown(store: Store, at: Moments, fates: Fates, s: Session, ttl: int,
                         issued: map<string, Session>, sequence: nat)
    requires Known(store, issued, sequence)
    requires s.sessionId == SessionIdFor(s.accountId, s.playerId, sequence)
    ensures Known(Created(store, at, fates, s, ttl), issued[s.sessionId := s], sequence + 1)
    ensures s.sessionId !in issued && SessionKey(s.sessionId) !in store
  {
    hide SessionIdFor, Created, IdsKnown, AccountsKnown;
    FreshId(issued, s, sequence);
    assert SessionKey(s.sessionId) !in store;
    hide SessionsKnown;
    SessionsStayKnown(store, at, fates, s, ttl, issued);
    AccountsStayKnown(store, at, fates, s, ttl, issued);
  }

  lemma NewIsCovered(store: Store, at: Moments, fates: Fates, s: Session, ttl: int)
    requires SessionKey(s.sessionId) !in store && InOrder(at)
    requires !NewUncovered(at, fates, ttl)
    requires Live(Created(store, at, fates, s, ttl), at.indexed, SessionKey(s.sessionId))
    ensures PointsTo(Created(store, at, fates, s, ttl), at.indexed, s.accountId, s.sessionId)
  {
    hide Stores, Created;
    CreatedEntries(store, at, fates, s, ttl);
  }

  lemma OthersStayCovered(store: Store, at: Moments, fates: Fates, s: Session, ttl: int,
                          issued: map<string, Session>, latest: map<int, string>, sequence: nat, id: string)
    requires Known(store, issued, sequence) && InOrder(at) && Exclusive(store, at.got, issued, latest)
    requires SessionKey(s.sessionId) !in store && !PreviousSurvives(store, at, fates, s)
    requires id in issued && id != s.sessionId && Live(Created(store, at, fates, s, ttl), at.indexed, SessionKey(id))
    ensures issued[id].accountId != s.accountId && issued[id].accountId in latest && latest[issued[id].accountId] == id
    ensures PointsTo(Created(store, at, fates, s, ttl), at.indexed, issued[id].accountId, id)
  {
    hide Stores, SessionIdFor, Numbered, Created;
    CreatedEntries(store, at, fates, s, ttl);
    assert Live(store, at.indexed, SessionKey(id)) && Live(store, at.got, SessionKey(id));
    assert PointsTo(store, at.got, issued[id].accountId, id);
    assert issued[id].accountId == s.accountId ==> TextAt(store, at.got, AccountSessionKey(s.accountId)) == Some(id);
  }

  /** Logging in leaves every account with only its latest session, covered by its key, exactly when the
      previous session is really gone and the new one is not left uncovered. */
  lemma CreateKeepsExclusiveExactly(store: Store, at: Moments, fates: Fates, s: Session, ttl: int,
                                    issued: map<string, Session>, latest: map<int, string>, sequence: nat)
    requires Known(store, issued, sequence) && InOrder(at) && Exclusive(store, at.got, issued, latest)
    requires s.sessionId == SessionIdFor(s.accountId, s.playerId, sequence)
    ensures Exclusive(Created(store, at, fates, s, ttl), at.indexed,
                      issued[s.sessionId := s], latest[s.accountId := s.sessionId])
       <==> !PreviousSurvives(store, at, fates, s) && !NewUncovered(at, fates, ttl)
  {
    hide Stores, SessionIdFor, Numbered, Created;
    CreateStaysKnown(store, at, fates, s, ttl, issued, sequence);
    CreatedEntries(store, at, fates, s, ttl);
    TimeKeepsExclusive(store, at.got, at.indexed, issued, latest);
    var after, issued', latest' := Created(store, at, fates, s, ttl),
      issued[s.sessionId := s], latest[s.accountId := s.sessionId];
    var previous := TextAt(store, at.got, AccountSessionKey(s.accountId));
    if PreviousSurvives(store, at, fates, s) {
      assert Live(after, at.indexed, SessionKey(previous.value));
    } else if NewUncovered(at, fates, ttl) {
      assert Live(after, at.indexed, SessionKey(s.sessionId));
    } else {
      forall id | id in issued' && Live(after, at.indexed, SessionKey(id))
        ensures issued'[id].accountId in latest' && latest'[issued'[id].accountId] == id
        ensures PointsTo(after, at.indexed, issued'[id].accountId, id)
      {
        if id == s.sessionId {
          NewIsCovered(store, at, fates, s, ttl);
        } else {
          OthersStayCovered(store, at, fates, s, ttl, issued, latest, sequence, id);
        }
      }
    }
  }

  /** A failed DEL, or a failed GET before it, leaves two live sessions of one account. */
  lemma FailedDeleteLeavesTwo(store: Store, at: Moments, fates: Fates, s: Session, ttl: int,
                              issued: map<string, Session>, sequence: nat, previous: string)
    requires Known(store, issued, sequence) && InOrder(at)
    requires s.sessionId == SessionIdFor(s.accountId, s.playerId, sequence)
    requires TextAt(store, at.got, AccountSessionKey(s.accountId)) == Some(previous)
    requires Live(store, at.indexed, SessionKey(previous))
    requires !(fates.got && fates.deleted) && Bounded(fates) && (ttl > 0 ==> at.indexed < at.stored + ttl)
    ensures previous != s.sessionId && previous in issued && issued[previous].accountId == s.accountId
    ensures Live(Created(store, at, fates, s, ttl), at.indexed, SessionKey(previous))
    ensures Live(Created(store, at, fates, s, ttl), at.indexed, SessionKey(s.sessionId))
  {
    hide EncodeSession, SessionIdFor, Numbered;
    CreateStaysKnown(store, at, fates, s, ttl, issued, sequence);
    CreatedEntries(store, at, fates, s, ttl);
  }

  /** Some, but not all, fields of a live hash are there: looking the session up throws. */
  predicate TornAt(store: Store, now: int, id: string)
  {
    var fields := HashAt(store, now, SessionKey(id));
    fields.Some? && !(SESSION_FIELDS <= fields.value.Keys)
  }

  predicate WholeAt(store: Store, now: int, id: string)
  {
    var fields := HashAt(store, now, SessionKey(id));
    fields.Some? && SESSION_FIELDS <= fields.value.Keys
  }

  /** After logging in the new session can be looked up exactly when every field was written and it has not
      run out yet; looking it up throws exactly when only some fields were. */
  lemma CreatedIsFoundExactly(store: Store, at: Moments, fates: Fates, s: Session, ttl: int)
    requires SessionKey(s.sessionId) !in store && InOrder(at)
    ensures TornAt(Created(store, at, fates, s, ttl), at.indexed, s.sessionId)
       <==> Appears(fates) && !(SESSION_FIELDS <= fates.stored.names)
    ensures WholeAt(Created(store, at, fates, s, ttl), at.indexed, s.sessionId)
       <==> SESSION_FIELDS <= fates.stored.names && (fates.stored.expired && ttl > 0 ==> at.indexed < at.stored + ttl)
  {
    hide EncodeSession, Created;
    assert "account_id" in SESSION_FIELDS;
    hide Stores;
    CreatedEntries(store, at, fates, s, ttl);
    CreatedIsHash(store, at, fates, s, ttl);
  }

  lemma CreatedIsHash(store: Store, at: Moments, fates: Fates, s: Session, ttl: int)
    requires SessionKey(s.sessionId) !in store
    ensures var after := Created(store, at, fates, s, ttl);
            SessionKey(s.sessionId) in after ==> after[SessionKey(s.sessionId)].value.Fields?
  {
    hide Created;
    CreatedEntries(store, at, fates, s, ttl);
  }

  /** The login server's repository.  The other servers look sessions up in the same store. */
  class RedisSessionRepository {
    const redis: RedisClient
    const ttl: int
    var sequence: nat
    ghost var issued: map<string, Session>
    ghost var latest: map<int, string>

    constructor (redis: RedisClient, ttl: int)
      requires redis.store == map[]
      ensures Valid() && OnePerAccount() && this.redis == redis && this.ttl == ttl && issued == map[]
    {
      this.redis, this.ttl, sequence, issued, latest := redis, ttl, 1, map[], map[];
    }

    ghost predicate Valid()
      reads this, redis
    {
      Known(redis.store, issued, sequence)
    }

    ghost predicate OnePerAccount()
      reads this, redis
    {
      Exclusive(redis.store, redis.now, issued, latest)
    }

    /** Create.  Without a Redis failure the account is left with exactly this session; which failures
        spoil that is stated exactly. */
    method Create(accountId: Int64, playerId: Int64, createdAt: Int64)
      returns (s: Session, ghost at: Moments, ghost fates: Fates)
      requires Valid()
      modifies this, redis
      ensures Valid() && sequence == old(sequence) + 1
      ensures s.accountId == accountId && s.playerId == playerId && s.createdAt == createdAt
      ensures s.sessionId ==
                "sess-" + (PrintInt(accountId) + ("-" + (PrintInt(playerId) + ("-" + PrintInt(old(sequence))))))
      ensures s.sessionId !in old(issued) && issued == old(issued)[s.sessionId := s]
      ensures latest == old(latest)[accountId := s.sessionId]
      ensures InOrder(at) && old(redis.now) <= at.got && at.indexed == redis.now
      ensures redis.store == Created(old(redis.store), at, fates, s, ttl)
      ensures TornAt(redis.store, redis.now, s.sessionId) <==> Appears(fates) && !(SESSION_FIELDS <= fates.stored.names)
      ensures redis.faults == old(redis.faults) ==> fates.got && fates.deleted && Bounded(fates) && fates.indexed
      ensures old(OnePerAccount()) ==>
                (OnePerAccount() <==>
                  !PreviousSurvives(old(redis.store), at, fates, s) && !NewUncovered(at, fates, ttl))
      ensures redis.faults >= old(redis.faults)
      ensures old(OnePerAccount()) && redis.faults == old(redis.faults) ==> OnePerAccount()
    {
      hide EncodeSession, Known, Exclusive, SessionIdFor, PrintInt, TornAt, WholeAt;
      SessionIdText(accountId, playerId, sequence);
      s := Session(SessionIdFor(accountId, playerId, sequence), accountId, playerId, createdAt);
      sequence := sequence + 1;

      var accountKey := AccountSessionKey(accountId);
      ghost var deleted := true;
      var previous, got := redis.Get(accountKey);
      ghost var gotAt := redis.now;
      if previous.Some? {
        deleted := redis.Del(SessionKey(previous.value));
      }
      ghost var deletedAt := redis.now;
      ghost var stored := redis.HSet(SessionKey(s.sessionId), EncodeSession(s), ttl);
      ghost var storedAt := redis.now;
      ghost var indexed := redis.Set(accountKey, s.sessionId, ttl);

      SessionKeys(s);
      at, fates := Moments(gotAt, deletedAt, storedAt, redis.now), Fates(got, deleted, stored, indexed);
      CreateStaysKnown(old(redis.store), at, fates, s, ttl, issued, old(sequence));
      CreatedIsFoundExactly(old(redis.store), at, fates, s, ttl);
      if old(OnePerAccount()) {
        TimeKeepsExclusive(old(redis.store), old(redis.now), at.got, issued, latest);
        CreateKeepsExclusiveExactly(old(redis.store), at, fates, s, ttl, issued, latest, old(sequence));
      }
      issued, latest := issued[s.sessionId := s], latest[accountId := s.sessionId];
    }

    /** FindById: a session is found exactly when Redis answers and the session is live and whole, and it
        is the session that was created under this id.  The call throws exactly when Redis answers with a
        hash that lacks a field. */
    method FindById(id: string) returns (found: Option<Session>, threw: bool, ghost answered: bool)
      requires Valid()
      modifies redis`now, redis`faults
      ensures Valid() && redis.now >= old(redis.now)
      ensures redis.faults == old(redis.faults) + if answered then 0 else 1
      ensures found.Some? <==> answered && WholeAt(redis.store, redis.now, id)
      ensures threw <==> answered && TornAt(redis.store, redis.now, id)
      ensures threw ==> found.None?
      ensures found.Some? ==> id in issued && found.value == issued[id] && issued[id].sessionId == id
      ensures old(OnePerAccount()) ==> OnePerAccount()
      ensures old(OnePerAccount()) && found.Some? ==>
                found.value.accountId in latest && latest[found.value.accountId] == id
    {
      hide DecodeSession, EncodeSession, Numbered;
      threw := false;
      var fields;
      fields, answered := redis.HGetAll(SessionKey(id));
      if old(OnePerAccount()) {
        TimeKeepsExclusive(redis.store, old(redis.now), redis.now, issued, latest);
      }
      if fields.None? { return None, false, answered; }
      SessionRoundTrip(issued[id], fields.value);
      found := DecodeSession(id, fields.value);
      threw := found.None?;
    }
  }

  /** The repository used without Redis.  Its two maps are mutually inverse. */
  class InMemorySessionRepository {
    var sessions: map<string, Session>
    var accountSessions: map<int, string>
    var sequence: nat

    constructor ()
      ensures Valid() && sessions == map[] && sequence == 1
    {
      sessions, accountSessions, sequence := map[], map[], 1;
    }

    ghost predicate Valid()
      reads this
    {
      && (forall id :: id in sessions ==>
            && sessions[id].sessionId == id && Numbered(sessions[id], sequence)
            && sessions[id].accountId in accountSessions && accountSessions[sessions[id].accountId] == id)
      && (forall a :: a in accountSessions ==>
          accountSessions[a] in sessions && sessions[accountSessions[a]].accountId == a)
    }

    /** The account's previous session, if any, is gone; all others stay; the new id was never in use. */
    method Create(accountId: Int64, playerId: Int64, createdAt: Int64) returns (s: Session)
      requires Valid()
      modifies this
      ensures Valid() && sequence == old(sequence) + 1
      ensures s.accountId == accountId && s.playerId == playerId && s.createdAt == createdAt
      ensures s.sessionId ==
                "sess-" + (PrintInt(accountId) + ("-" + (PrintInt(playerId) + ("-" + PrintInt(old(sequence))))))
      ensures s.sessionId !in old(sessions)
      ensures sessions
           == (map id | id in old(sessions) && old(sessions)[id].accountId != accountId ::
               old(sessions)[id])[s.sessionId := s]
    {
      hide SessionIdFor, PrintInt;
      SessionIdText(accountId, playerId, sequence);
      s := Session(SessionIdFor(accountId, playerId, sequence), accountId, playerId, createdAt);
      FreshId(sessions, s, sequence);
      hide Numbered;
      sequence := sequence + 1;
      if accountId in accountSessions {
        sessions := sessions - {accountSessions[accountId]};
      }
      sessions := sessions[s.sessionId := s];
      accountSessions := accountSessions[accountId := s.sessionId];
    }

    method FindById(id: string) returns (found: Option<Session>)
      requires Valid()
      ensures found == if id in sessions then Some(sessions[id]) else None
      ensures found.Some? ==> found.value.sessionId == id && accountSessions[found.value.accountId] == id
    {
      found := if id in sessions then Some(sessions[id]) else None;
    }
  }
}
