/**
 The cache of verified basic-auth credentials: entries by credential key, and an index of credential
 keys by user. The pair is held against a log of what was remembered and checked, and a single map
 computed from that log.

 A key is modelled as the bytes its MAC is taken over, the MAC being assumed injective. The clock is
 an argument of each call.
 */
module AuthCache {
  type byte = b: int | 0 <= b < 256

  type Bytes = seq<byte>

  /** A field whose length fits the eight bytes written before it. */
  type Field = s: Bytes | |s| < 0x1_0000_0000_0000_0000 witness []

  /** What of a user must be unchanged for an old verification to stand. */
  datatype UserState = UserState(passwordHash: Bytes, status: Bytes, tokensValidAfter: int)

  datatype Entry = Entry(userKey: Bytes, state: UserState, expiresAt: int)

  datatype Event =
    | Remembered(user: Field, password: Field, state: UserState, at: int)
    | Checked(user: Field, state: UserState, at: int)

  // ---------------------------------------------------------------- keys

  function BigEndian(n: nat, width: nat): (s: Bytes)
    ensures |s| == width
  {
    if width == 0 then [] else BigEndian(n / 256, width - 1) + [n % 256]
  }

  function FromBigEndian(s: Bytes): nat {
    if s == [] then 0 else FromBigEndian(s[..|s| - 1]) * 256 + s[|s| - 1]
  }

  function Range(width: nat): nat {
    if width == 0 then 1 else 256 * Range(width - 1)
  }

  lemma {:induction false} BigEndianRoundTrip(n: nat, width: nat)
    requires n < Range(width)
    ensures FromBigEndian(BigEndian(n, width)) == n
  {
    if width > 0 {
      BigEndianRoundTrip(n / 256, width - 1);
      assert BigEndian(n, width)[..width - 1] == BigEndian(n / 256, width - 1);
    }
  }

  lemma RangeOfEight()
    ensures Range(8) == 0x1_0000_0000_0000_0000
  {
    assert Range(4) == 0x1_0000_0000;
  }

  function Prefixed(value: Field): Bytes {
    BigEndian(|value|, 8) + value
  }

  const CREDENTIAL: Bytes := [99, 114, 101, 100, 101, 110, 116, 105, 97, 108, 0]
  const USER: Bytes := [117, 115, 101, 114, 0]

  function CredentialKey(user: Field, password: Field): Bytes {
    CREDENTIAL + Prefixed(user) + Prefixed(password)
  }

  function UserKey(user: Field): Bytes {
    USER + Prefixed(user)
  }

  /** A field written with its length can be read back whatever follows it. */
  lemma PrefixedIsReadable(a: Field, x: Bytes, b: Field, y: Bytes)
    requires Prefixed(a) + x == Prefixed(b) + y
    ensures a == b && x == y
  {
    var s := Prefixed(a) + x;
    assert s[..8] == BigEndian(|a|, 8);
    assert (Prefixed(b) + y)[..8] == BigEndian(|b|, 8);
    RangeOfEight();
    BigEndianRoundTrip(|a|, 8);
    BigEndianRoundTrip(|b|, 8);
    assert a == s[8..8 + |a|] && b == (Prefixed(b) + y)[8..8 + |b|];
    assert x == s[8 + |a|..] && y == (Prefixed(b) + y)[8 + |b|..];
  }

  /** No two pairs of username and password share a credential key, however their bytes are divided between the two. */
  lemma CredentialKeyIsInjective(u: Field, p: Field, v: Field, q: Field)
    requires CredentialKey(u, p) == CredentialKey(v, q)
    ensures u == v && p == q
  {
    var n := |CREDENTIAL|;
    assert CredentialKey(u, p)[n..] == Prefixed(u) + Prefixed(p);
    assert CredentialKey(v, q)[n..] == Prefixed(v) + Prefixed(q);
    PrefixedIsReadable(u, Prefixed(p), v, Prefixed(q));
    assert Prefixed(p) + [] == Prefixed(p) && Prefixed(q) + [] == Prefixed(q);
    PrefixedIsReadable(p, [], q, []);
  }

  lemma UserKeyIsInjective(u: Field, v: Field)
    requires UserKey(u) == UserKey(v)
    ensures u == v
  {
    var n := |USER|;
    assert UserKey(u)[n..] == Prefixed(u) + [] && UserKey(v)[n..] == Prefixed(v) + [];
    PrefixedIsReadable(u, [], v, []);
  }

  // ---------------------------------------------------------------- the reference

  predicate Stale(e: Entry, state: UserState, now: int) {
    e.expiresAt <= now || e.state != state
  }

  function Fresh(es: map<Bytes, Entry>, now: int): map<Bytes, Entry> {
    map k | k in es && now < es[k].expiresAt :: es[k]
  }

  /** A check drops the user's entries that are out of date. */
  function AfterCheck(es: map<Bytes, Entry>, user: Field, state: UserState, now: int): map<Bytes, Entry> {
    map k | k in es && !(es[k].userKey == UserKey(user) && Stale(es[k], state, now)) :: es[k]
  }

  /** A credential is remembered in place of its old entry, if there is room once expired entries are gone. */
  function AfterRemember(ttl: int, maxSize: nat, es: map<Bytes, Entry>,
                         user: Field, password: Field, state: UserState, now: int): map<Bytes, Entry>
  {
    var key := CredentialKey(user, password);
    var others := Fresh(es, now) - {key};
    if |others| >= maxSize then others else others[key := Entry(UserKey(user), state, now + ttl)]
  }

  function After(ttl: int, maxSize: nat, es: map<Bytes, Entry>, e: Event): map<Bytes, Entry> {
    match e
    case Remembered(user, password, state, at) => AfterRemember(ttl, maxSize, es, user, password, state, at)
    case Checked(user, state, at) => AfterCheck(es, user, state, at)
  }

  function Live(ttl: int, maxSize: nat, log: seq<Event>): map<Bytes, Entry> {
    if log == [] then map[]
    else
      var es := Live(ttl, maxSize, log[..|log| - 1]);
      After(ttl, maxSize, es, log[|log| - 1])
  }

  lemma LiveAfter(ttl: int, maxSize: nat, log: seq<Event>, e: Event)
    ensures Live(ttl, maxSize, log + [e]) == After(ttl, maxSize, Live(ttl, maxSize, log), e)
  {
    assert (log + [e])[..|log|] == log;
  }

  predicate Hit(es: map<Bytes, Entry>, user: Field, password: Field, state: UserState, now: int) {
    var key := CredentialKey(user, password);
    key in es && !Stale(es[key], state, now)
  }

  // ---------------------------------------------------------------- the cache

  class VerificationCache {
    const ttl: int
    const maxSize: nat
    var entries: map<Bytes, Entry>
    var byUser: map<Bytes, set<Bytes>>
    ghost var log: seq<Event>

    /** The index lists exactly the keys of each user's entries, and only users that have some. */
    ghost predicate Indexed()
      reads `entries, `byUser
    {
      && (forall k :: k in entries ==> entries[k].userKey in byUser && k in byUser[entries[k].userKey])
      && (forall u :: u in byUser ==> byUser[u] != {})
      && (forall u, k :: u in byUser && k in byUser[u] ==> k in entries && entries[k].userKey == u)
    }

    ghost predicate Valid()
      reads this
    {
      Indexed() && entries == Live(ttl, maxSize, log)
    }

    constructor (ttl: int, maxSize: nat)
      ensures Valid() && log == [] && this.ttl == ttl && this.maxSize == maxSize
    {
      this.ttl, this.maxSize := ttl, maxSize;
      entries, byUser, log := map[], map[], [];
    }

    method DeleteLocked(key: Bytes, userKey: Bytes)
      requires Indexed() && (key in entries ==> entries[key].userKey == userKey)
      modifies `entries, `byUser
      ensures Indexed() && entries == old(entries) - {key}
    {
      entries := entries - {key};
      if userKey in byUser {
        var keys := byUser[userKey] - {key};
        byUser := if keys == {} then byUser - {userKey} else byUser[userKey := keys];
      }
    }

    method Insert(key: Bytes, e: Entry)
      requires Indexed() && key !in entries
      modifies `entries, `byUser
      ensures Indexed() && entries == old(entries)[key := e]
    {
      entries := entries[key := e];
      byUser := byUser[e.userKey := (if e.userKey in byUser then byUser[e.userKey] else {}) + {key}];
    }

    /** The sweep of a check: over the user's keys, which it removes from under itself. */
    method DropStale(userKey: Bytes, state: UserState, now: int)
      requires Indexed()
      modifies `entries, `byUser
      ensures Indexed()
      ensures forall k :: k in entries ==> k in old(entries) && entries[k] == old(entries)[k]
      ensures forall k :: k in old(entries) ==>
                (k !in entries <==> old(entries)[k].userKey == userKey && Stale(old(entries)[k], state, now))
    {
      var todo := if userKey in byUser then byUser[userKey] else {};
      ghost var was := entries;
      assert forall k :: k in was && was[k].userKey == userKey ==> k in todo;
      hide Indexed, Stale;
      while todo != {}
        invariant Indexed()
        invariant forall k :: k in todo ==> k in was && was[k].userKey == userKey
        invariant forall k :: k in entries ==> k in was && entries[k] == was[k]
        invariant forall k :: k in entries && was[k].userKey == userKey && Stale(was[k], state, now) ==> k in todo
        invariant forall k :: k in was && k !in entries ==> was[k].userKey == userKey && Stale(was[k], state, now)
        decreases |todo|
      {
        var key :| key in todo;
        todo := todo - {key};
        if key !in entries || Stale(entries[key], state, now) {
          DeleteLocked(key, if key in entries then entries[key].userKey else []);
        }
      }
    }

    /** The sweep of a remember: over all entries. */
    method DropExpired(now: int)
      requires Indexed()
      modifies `entries, `byUser
      ensures Indexed() && entries == Fresh(old(entries), now)
    {
      hide Indexed;
      var todo := entries.Keys;
      ghost var was := entries;
      while todo != {}
        invariant Indexed() && todo <= entries.Keys
        invariant forall k :: k in entries ==> k in was && entries[k] == was[k] && (k in todo || now < was[k].expiresAt)
        invariant forall k :: k in was && k !in entries ==> was[k].expiresAt <= now
        decreases |todo|
      {
        var key :| key in todo;
        todo := todo - {key};
        if entries[key].expiresAt <= now {
          DeleteLocked(key, entries[key].userKey);
        }
      }
    }

    method IsValid(user: Field, password: Field, state: UserState, now: int) returns (hit: bool)
      requires Valid()
      modifies `entries, `byUser, `log
      ensures Valid() && log == old(log) + [Checked(user, state, now)]
      ensures hit == Hit(old(entries), user, password, state, now)
    {
      hide Live, UserKey, CredentialKey, Indexed;
      KeyedByUser(ttl, maxSize, log, user, password);
      LiveAfter(ttl, maxSize, log, Checked(user, state, now));
      DropStale(UserKey(user), state, now);
      assert entries == AfterCheck(old(entries), user, state, now);
      var key := CredentialKey(user, password);
      hit := key in entries && !Stale(entries[key], state, now);
      log := log + [Checked(user, state, now)];
    }

    method Remember(user: Field, password: Field, state: UserState, now: int)
      requires Valid()
      modifies `entries, `byUser, `log
      ensures Valid() && log == old(log) + [Remembered(user, password, state, now)]
    {
      hide Live, UserKey, CredentialKey, Indexed, Fresh, AfterCheck;
      LiveAfter(ttl, maxSize, log, Remembered(user, password, state, now));
      log := log + [Remembered(user, password, state, now)];
      DropExpired(now);
      var key := CredentialKey(user, password);
      var userKey := UserKey(user);
      if key in entries {
        DeleteLocked(key, entries[key].userKey);
      }
      assert entries == Fresh(old(entries), now) - {key};
      if |entries| >= maxSize {
        return;
      }
      Insert(key, Entry(userKey, state, now + ttl));
    }
  }

  // ---------------------------------------------------------------- what a hit means

  lemma {:induction false} SmallerMap(a: map<Bytes, Entry>, b: map<Bytes, Entry>)
    requires a.Keys <= b.Keys
    ensures |a| <= |b| && (a.Keys != b.Keys ==> |a| < |b|)
  {
    if a.Keys != b.Keys {
      var rest := b.Keys - a.Keys;
      assert b.Keys == a.Keys + rest && a.Keys !! rest;
      assert rest != {};
      assert |a.Keys| == |a| && |b.Keys| == |b|;
    } else {
      assert |a.Keys| == |a| && |b.Keys| == |b|;
    }
  }

  lemma {:induction false} LiveFits(ttl: int, maxSize: nat, log: seq<Event>)
    ensures |Live(ttl, maxSize, log)| <= maxSize
  {
    if log != [] {
      var before := log[..|log| - 1];
      LiveFits(ttl, maxSize, before);
      var es := Live(ttl, maxSize, before);
      match log[|log| - 1]
      case Checked(user, state, at) => SmallerMap(AfterCheck(es, user, state, at), es);
      case Remembered(user, password, state, at) => SmallerMap(Fresh(es, at) - {CredentialKey(user, password)}, es);
    }
  }

  /** A credential is stored exactly when it was cached already, or fewer entries than the limit are unexpired. */
  lemma StoredExactly(ttl: int, maxSize: nat, log: seq<Event>, user: Field, password: Field, state: UserState, now: int)
    ensures var es := Live(ttl, maxSize, log);
            CredentialKey(user, password) in Live(ttl, maxSize, log + [Remembered(user, password, state, now)])
            <==> CredentialKey(user, password) in es || |Fresh(es, now)| < maxSize
  {
    var es := Live(ttl, maxSize, log);
    var key := CredentialKey(user, password);
    assert (log + [Remembered(user, password, state, now)])[..|log|] == log;
    LiveFits(ttl, maxSize, log);
    var others := Fresh(es, now) - {key};
    SmallerMap(others, es);
    if key !in es {
      assert others == Fresh(es, now);
    }
  }

  lemma {:induction false} KeyedByUser(ttl: int, maxSize: nat, log: seq<Event>, user: Field, password: Field)
    ensures var es := Live(ttl, maxSize, log);
            var key := CredentialKey(user, password);
            key in es ==> es[key].userKey == UserKey(user)
  {
    if log != [] {
      KeyedByUser(ttl, maxSize, log[..|log| - 1], user, password);
      var e := log[|log| - 1];
      if e.Remembered? && CredentialKey(e.user, e.password) == CredentialKey(user, password) {
        CredentialKeyIsInjective(e.user, e.password, user, password);
      }
    }
  }

  predicate IsFor(e: Event, user: Field, password: Field) {
    e.Remembered? && e.user == user && e.password == password
  }

  /**
   Event `i` remembers the credential, nothing later does, it was stored, and no later check of the
   user saw another state.
   */
  predicate Stands(ttl: int, maxSize: nat, log: seq<Event>, i: nat, user: Field, password: Field) {
    && i < |log| && IsFor(log[i], user, password)
    && (forall j :: i < j < |log| ==> !IsFor(log[j], user, password))
    && CredentialKey(user, password) in Live(ttl, maxSize, log[..i + 1])
    && (forall j :: i < j < |log| && log[j].Checked? && log[j].user == user ==> log[j].state == log[i].state)
  }

  ghost predicate Clocked(log: seq<Event>, now: int) {
    forall i :: 0 <= i < |log| ==> log[i].at <= now
  }

  lemma StandsBefore(ttl: int, maxSize: nat, log: seq<Event>, e: Event, i: nat, user: Field, password: Field)
    requires i < |log|
    ensures Stands(ttl, maxSize, log + [e], i, user, password)
            <==> Stands(ttl, maxSize, log, i, user, password) && !IsFor(e, user, password)
                 && (e.Checked? && e.user == user ==> e.state == log[i].state)
  {
    var all := log + [e];
    assert all[..i + 1] == log[..i + 1];
    assert all[|log|] == e && forall j :: 0 <= j < |log| ==> all[j] == log[j];
  }

  /**
   A hit means: the latest time this exact username and password was remembered is less than the
   time to live ago, with the same user state, and no check since saw another state.
   */
  lemma {:induction false} HitMeansRemembered(ttl: int, maxSize: nat, log: seq<Event>,
                                              user: Field, password: Field, state: UserState, now: int)
    requires Hit(Live(ttl, maxSize, log), user, password, state, now)
    ensures exists i: nat ::
              Stands(ttl, maxSize, log, i, user, password) && log[i].state == state && now < log[i].at + ttl
  {
    if log != [] {
      var n := |log| - 1;
      var before, e := log[..n], log[n];
      assert log == before + [e];
      KeyedByUser(ttl, maxSize, log, user, password);
      if IsFor(e, user, password) {
        assert log[..n + 1] == log;
        assert Stands(ttl, maxSize, log, n, user, password);
      } else {
        if e.Remembered? && CredentialKey(e.user, e.password) == CredentialKey(user, password) {
          CredentialKeyIsInjective(e.user, e.password, user, password);
        }
        HitMeansRemembered(ttl, maxSize, before, user, password, state, now);
        var i: nat :| Stands(ttl, maxSize, before, i, user, password) && before[i].state == state
             && now < before[i].at + ttl;
        StandsBefore(ttl, maxSize, before, e, i, user, password);
      }
    }
  }

  lemma StillHit(ttl: int, maxSize: nat, log: seq<Event>, e: Event, user: Field, password: Field, state: UserState,
                 now: int)
    requires Hit(Live(ttl, maxSize, log), user, password, state, now) && e.at <= now
    requires !IsFor(e, user, password) && (e.Checked? && e.user == user ==> e.state == state)
    ensures Hit(After(ttl, maxSize, Live(ttl, maxSize, log), e), user, password, state, now)
  {
    hide Live, CredentialKey, UserKey;
    KeyedByUser(ttl, maxSize, log, user, password);
    if e.Checked? && UserKey(e.user) == UserKey(user) {
      UserKeyIsInjective(e.user, user);
    }
    if e.Remembered? && CredentialKey(e.user, e.password) == CredentialKey(user, password) {
      CredentialKeyIsInjective(e.user, e.password, user, password);
    }
  }

  /** And on a clock that does not run backwards, nothing else can make such a credential miss. */
  lemma {:induction false} RememberedMeansHit(ttl: int, maxSize: nat, log: seq<Event>, i: nat,
                                              user: Field, password: Field, state: UserState, now: int)
    requires Stands(ttl, maxSize, log, i, user, password) && log[i].state == state && now < log[i].at + ttl
    requires Clocked(log, now)
    ensures Hit(Live(ttl, maxSize, log), user, password, state, now)
  {
    hide Live, After, Hit;
    if i == |log| - 1 {
      JustRemembered(ttl, maxSize, log, user, password, state, now);
    } else {
      LastEventKeeps(ttl, maxSize, log, i, user, password);
      hide Stands;
      RememberedMeansHit(ttl, maxSize, log[..|log| - 1], i, user, password, state, now);
      StillHit(ttl, maxSize, log[..|log| - 1], log[|log| - 1], user, password, state, now);
      LiveAfter(ttl, maxSize, log[..|log| - 1], log[|log| - 1]);
      assert log == log[..|log| - 1] + [log[|log| - 1]];
    }
  }

  lemma JustRemembered(ttl: int, maxSize: nat, log: seq<Event>, user: Field, password: Field, state: UserState,
                       now: int)
    requires log != [] && Stands(ttl, maxSize, log, |log| - 1, user, password)
    requires log[|log| - 1].state == state && now < log[|log| - 1].at + ttl
    ensures Hit(Live(ttl, maxSize, log), user, password, state, now)
  {
    hide CredentialKey, UserKey, Fresh;
    assert log[..|log| - 1 + 1] == log;
  }

  lemma LastEventKeeps(ttl: int, maxSize: nat, log: seq<Event>, i: nat, user: Field, password: Field)
    requires i < |log| - 1 && Stands(ttl, maxSize, log, i, user, password)
    ensures var before, e := log[..|log| - 1], log[|log| - 1];
            && Stands(ttl, maxSize, before, i, user, password) && before[i] == log[i] && !IsFor(e, user, password)
            && (e.Checked? && e.user == user ==> e.state == log[i].state)
  {
    hide Live, CredentialKey;
    assert log == log[..|log| - 1] + [log[|log| - 1]];
    StandsBefore(ttl, maxSize, log[..|log| - 1], log[|log| - 1], i, user, password);
  }
}
