/**
 The key-value server: texts and hashes with expiry times.  Time passes before every command, and a
 command may fail to take effect; callers that ignore the result cannot tell.
 */
module Redis {
  import opened Common
  import opened Decimal
  import opened Hashes

  /** The keys the servers use.  The store is indexed by these rather than by their names; that no two
      of them have the same name is KeyNamesDiffer. */
  datatype Key =
    | SessionKey(sessionId: string)
    | AccountSessionKey(accountId: int)
    | PlayerLockKey(playerId: int)
    | BattleContextKey(battleId: string)
    | SnapshotKey(playerId: int)

  function Prefix(key: Key): string
  {
    match key
    case SessionKey(_) => "session:"
    case AccountSessionKey(_) => "account:session:"
    case PlayerLockKey(_) => "player:lock:"
    case BattleContextKey(_) => "battle:ctx:"
    case SnapshotKey(_) => "player:snapshot:"
  }

  function Suffix(key: Key): string
  {
    match key
    case SessionKey(id) => id
    case AccountSessionKey(a) => PrintInt(a)
    case PlayerLockKey(p) => PrintInt(p)
    case BattleContextKey(id) => id
    case SnapshotKey(p) => PrintInt(p)
  }

  function KeyName(key: Key): string { Prefix(key) + Suffix(key) }

  lemma KeyNamesDiffer(a: Key, b: Key)
    requires KeyName(a) == KeyName(b)
    ensures a == b
  {
    hide PrintInt;
    assert KeyName(a)[0] == Prefix(a)[0] && KeyName(b)[0] == Prefix(b)[0];
    assert a.PlayerLockKey? || a.SnapshotKey? ==> KeyName(a)[7] == Prefix(a)[7];
    assert b.PlayerLockKey? || b.SnapshotKey? ==> KeyName(b)[7] == Prefix(b)[7];
    assert Prefix(a) == Prefix(b);
    DropCommonPrefix(Prefix(a), Suffix(a), Suffix(b));
    if !a.SessionKey? && !a.BattleContextKey? {
      var x := if a.AccountSessionKey? then a.accountId else a.playerId;
      var y := if b.AccountSessionKey? then b.accountId else b.playerId;
      assert PrintInt(x) + "" == PrintInt(x) && PrintInt(y) + "" == PrintInt(y);
      PrintedIntSplits(x, y, "", "");
    }
  }

  datatype Expiry = Never | At(time: int)

  datatype Value = Text(text: string) | Fields(fields: Hash)

  datatype Entry = Entry(value: Value, expiry: Expiry)

  type Store = map<Key, Entry>

  predicate Live(store: Store, now: int, key: Key)
  {
    key in store && (store[key].expiry.At? ==> now < store[key].expiry.time)
  }

  predicate NotBefore(later: Expiry, earlier: Expiry)
  {
    later.Never? || (earlier.At? && earlier.time <= later.time)
  }

  function TextAt(store: Store, now: int, key: Key): Option<string>
  {
    if Live(store, now, key) && store[key].value.Text? then Some(store[key].value.text) else None
  }

  function HashAt(store: Store, now: int, key: Key): Option<Hash>
  {
    if Live(store, now, key) && store[key].value.Fields? then Some(store[key].value.fields) else None
  }

  /** EX and EXPIRE are only sent for a positive time to live. */
  function Deadline(now: int, ttl: int): Expiry
  {
    if ttl > 0 then At(now + ttl) else Never
  }

  /** How far one HSET per field and the final EXPIRE got: which fields were written, and whether EXPIRE
      was carried out. */
  datatype HashFate = HashFate(names: set<string>, expired: bool)

  predicate Complete(fields: Hash, fate: HashFate)
  {
    fields.Keys <= fate.names && fate.expired
  }

  /** A hash written only in part keeps the expiry it had; one written for the first time gets none. */
  function HSetEffect(store: Store, now: int, key: Key, fields: Hash, ttl: int, fate: HashFate): Store
  {
    if fields.Keys !! fate.names || TextAt(store, now, key).Some? then store
    else
      var before := HashAt(store, now, key);
      var kept := if before.Some? then before.value else map[];
      var expiry := if Complete(fields, fate) && ttl > 0 then At(now + ttl)
                    else if before.Some? then store[key].expiry else Never;
      store[key := Entry(Fields(Stored(kept, fields, fate.names)), expiry)]
  }

  class RedisClient {
    var now: int
    var store: Store
    ghost var faults: nat

    constructor ()
      ensures store == map[] && faults == 0
    {
      now, store, faults := *, map[], 0;
    }

    method Wait()
      modifies this`now
      ensures now >= old(now)
    {
      var seconds: int := *;
      if seconds > 0 { now := now + seconds; }
    }

    method Get(key: Key) returns (text: Option<string>, ghost answered: bool)
      modifies this`now, this`faults
      ensures now >= old(now) && faults == old(faults) + if answered then 0 else 1
      ensures text == if answered then TextAt(store, now, key) else None
    {
      Wait();
      var ok: bool := *;
      text, answered := None, ok;
      if ok { text := TextAt(store, now, key); } else { faults := faults + 1; }
    }

    method Set(key: Key, text: string, ttl: int) returns (ghost applied: bool)
      modifies this
      ensures now >= old(now) && faults == old(faults) + if applied then 0 else 1
      ensures store == if applied then old(store)[key := Entry(Text(text), Deadline(now, ttl))] else old(store)
    {
      Wait();
      var ok: bool := *;
      applied := ok;
      if ok { store := store[key := Entry(Text(text), Deadline(now, ttl))]; } else { faults := faults + 1; }
    }

    method Del(key: Key) returns (ghost applied: bool)
      modifies this
      ensures now >= old(now) && faults == old(faults) + if applied then 0 else 1
      ensures store == if applied then old(store) - {key} else old(store)
    {
      Wait();
      var ok: bool := *;
      applied := ok;
      if ok { store := store - {key}; } else { faults := faults + 1; }
    }

    method HSet(key: Key, fields: Hash, ttl: int) returns (ghost fate: HashFate)
      modifies this
      ensures now >= old(now) && faults == old(faults) + if Complete(fields, fate) then 0 else 1
      ensures store == HSetEffect(old(store), now, key, fields, ttl, fate)
    {
      Wait();
      var names: set<string> := *;
      var expired: bool := *;
      var outcome := HashFate(names, expired);
      fate := outcome;
      store := HSetEffect(store, now, key, fields, ttl, outcome);
      if !Complete(fields, outcome) { faults := faults + 1; }
    }

    method HGetAll(key: Key) returns (fields: Option<Hash>, ghost answered: bool)
      modifies this`now, this`faults
      ensures now >= old(now) && faults == old(faults) + if answered then 0 else 1
      ensures fields == if answered then HashAt(store, now, key) else None
    {
      Wait();
      var ok: bool := *;
      fields, answered := None, ok;
      if ok { fields := HashAt(store, now, key); } else { faults := faults + 1; }
    }
  }
}
