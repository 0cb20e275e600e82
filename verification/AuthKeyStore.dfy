/** The in-memory cache of registered SSH keys (internal/ssh/server/authkeystore.go). */
module AuthKeyStores {
  import opened Wrappers
  import opened Bytes

  /** Users are named by a string, and keys are compared by their marshalled form. */
  datatype User = User(name: ByteString)
  datatype PublicKey = PublicKey(marshalled: ByteString)
  datatype Entry = Entry(key: PublicKey, at: int)

  predicate Expired(e: Entry, now: int, ttl: int) {
    e.at + ttl <= now
  }

  predicate HasKey(entries: seq<Entry>, key: PublicKey) {
    exists i :: 0 <= i < |entries| && entries[i].key == key
  }

  predicate DuplicateFree(entries: seq<Entry>) {
    forall i, j :: 0 <= i < j < |entries| ==> entries[i].key != entries[j].key
  }

  predicate InOrder(entries: seq<Entry>) {
    forall i, j :: 0 <= i < j < |entries| ==> entries[i].at <= entries[j].at
  }

  /** r is the position of the last entry with a key, if there is one. */
  predicate IsLast(entries: seq<Entry>, key: PublicKey, r: Option<nat>) {
    match r
    case None => forall i :: 0 <= i < |entries| ==> entries[i].key != key
    case Some(j) => j < |entries| && entries[j].key == key && forall i :: j < i < |entries| ==> entries[i].key != key
  }

  function Last(entries: seq<Entry>, key: PublicKey): Option<nat> {
    if entries == [] then None
    else if entries[|entries| - 1].key == key then Some(|entries| - 1)
    else Last(entries[..|entries| - 1], key)
  }

  lemma {:induction false} LastIsLast(entries: seq<Entry>, key: PublicKey)
    ensures IsLast(entries, key, Last(entries, key))
  {
    if entries != [] && entries[|entries| - 1].key != key {
      LastIsLast(entries[..|entries| - 1], key);
    }
  }

  lemma LastIs(entries: seq<Entry>, key: PublicKey, r: Option<nat>)
    requires IsLast(entries, key, r)
    ensures Last(entries, key) == r
  {
    LastIsLast(entries, key);
  }

  /** The keys behind position i. */
  function KeysBehind(entries: seq<Entry>, i: nat): set<PublicKey> {
    set x | i < x < |entries| :: entries[x].key
  }

  /** What the store promises about a key, given a user's Adds so far: the last Add is younger than the
      TTL, and fewer than `max` distinct other keys were added since. */
  ghost predicate Registered(adds: seq<Entry>, key: PublicKey, now: int, ttl: int, max: nat) {
    var last := Last(adds, key);
    last.Some? && last.value < |adds| && now < adds[last.value].at + ttl && |KeysBehind(adds, last.value)| < max
  }

  // ---------------------------------------------------------------- the store without TTL and bound

  function Without(entries: seq<Entry>, key: PublicKey): seq<Entry> {
    match Last(entries, key)
    case None => entries
    case Some(i) => if i < |entries| then entries[..i] + entries[i + 1..] else entries
  }

  /** One entry a key, last added last. */
  function Full(adds: seq<Entry>): seq<Entry> {
    if adds == [] then []
    else Without(Full(adds[..|adds| - 1]), adds[|adds| - 1].key) + [adds[|adds| - 1]]
  }

  /** Positions in a list before and after the entry at p was taken out. */
  function Up(p: Option<nat>, i: nat): nat {
    if p.Some? && p.value <= i then i + 1 else i
  }

  function Down(p: Option<nat>, i: nat): nat {
    if p.Some? && p.value < i then i - 1 else i
  }

  /** r is the list with the entry at p taken out and e put at the end. */
  ghost predicate Refreshes(entries: seq<Entry>, p: Option<nat>, e: Entry, r: seq<Entry>) {
    && (p.Some? ==> p.value < |entries| && entries[p.value].key == e.key)
    && (p.None? ==> forall i :: 0 <= i < |entries| ==> entries[i].key != e.key)
    && |r| == |entries| + (if p.Some? then 0 else 1) && r[|r| - 1] == e
    && forall i :: 0 <= i < |r| - 1 ==> r[i] == entries[Up(p, i)]
  }

  lemma RefreshShape(entries: seq<Entry>, e: Entry)
    ensures Refreshes(entries, Last(entries, e.key), e, Without(entries, e.key) + [e])
  {
    LastIsLast(entries, e.key);
  }

  lemma RefreshKeeps(entries: seq<Entry>, p: Option<nat>, e: Entry, r: seq<Entry>)
    requires DuplicateFree(entries) && InOrder(entries) && Refreshes(entries, p, e, r)
    requires forall i :: 0 <= i < |entries| ==> entries[i].at <= e.at
    ensures DuplicateFree(r) && InOrder(r)
  {
  }

  lemma OnlyOne(entries: seq<Entry>, j: nat)
    requires DuplicateFree(entries) && j < |entries|
    ensures Last(entries, entries[j].key) == Some(j)
  {
    LastIs(entries, entries[j].key, Some(j));
  }

  lemma RefreshFinds(entries: seq<Entry>, p: Option<nat>, e: Entry, r: seq<Entry>, j: nat)
    requires DuplicateFree(r) && Refreshes(entries, p, e, r) && j < |entries| && entries[j].key != e.key
    ensures Down(p, j) < |r| && r[Down(p, j)] == entries[j] && Last(r, entries[j].key) == Some(Down(p, j))
  {
    assert Up(p, Down(p, j)) == j;
    OnlyOne(r, Down(p, j));
  }

  lemma RefreshMisses(entries: seq<Entry>, p: Option<nat>, e: Entry, r: seq<Entry>, key: PublicKey)
    requires Refreshes(entries, p, e, r) && e.key != key && IsLast(entries, key, None)
    ensures Last(r, key) == None
  {
    LastIs(r, key, None);
  }

  lemma RefreshKeysBehind(entries: seq<Entry>, p: Option<nat>, e: Entry, r: seq<Entry>, j: nat)
    requires DuplicateFree(entries) && Refreshes(entries, p, e, r) && j < |entries| && entries[j].key != e.key
    ensures KeysBehind(r, Down(p, j)) == KeysBehind(entries, j) + {e.key}
  {
    var j' := Down(p, j);
    forall k | k in KeysBehind(entries, j) + {e.key}
      ensures k in KeysBehind(r, j')
    {
      if k == e.key {
        assert r[|r| - 1].key in KeysBehind(r, j');
      } else {
        var x :| j < x < |entries| && entries[x].key == k;
        assert Up(p, Down(p, x)) == x;
        assert r[Down(p, x)].key == k;
      }
    }
    forall k | k in KeysBehind(r, j')
      ensures k in KeysBehind(entries, j) + {e.key}
    {
      var x :| j' < x < |r| && r[x].key == k;
      if x < |r| - 1 {
        assert entries[Up(p, x)].key == k;
      }
    }
  }

  lemma BehindGrows(adds: seq<Entry>, i: nat)
    requires i + 1 < |adds|
    ensures KeysBehind(adds, i) == KeysBehind(adds[..|adds| - 1], i) + {adds[|adds| - 1].key}
  {
    var n := |adds| - 1;
    assert adds[n].key in KeysBehind(adds, i);
    forall k | k in KeysBehind(adds[..n], i)
      ensures k in KeysBehind(adds, i)
    {
      var x :| i < x < n && adds[..n][x].key == k;
      assert adds[x].key == k;
    }
  }

  lemma {:induction false} FullIsOrdered(adds: seq<Entry>)
    requires InOrder(adds)
    ensures DuplicateFree(Full(adds)) && InOrder(Full(adds))
    ensures adds != [] ==> forall i :: 0 <= i < |Full(adds)| ==> Full(adds)[i].at <= adds[|adds| - 1].at
  {
    if adds != [] {
      var n := |adds| - 1;
      FullIsOrdered(adds[..n]);
      RefreshShape(Full(adds[..n]), adds[n]);
      RefreshKeeps(Full(adds[..n]), Last(Full(adds[..n]), adds[n].key), adds[n], Full(adds));
    }
  }

  /** It holds each key's last Add, in front of exactly the keys added since. */
  lemma {:induction false} FullMeans(adds: seq<Entry>, key: PublicKey)
    requires InOrder(adds)
    ensures match Last(adds, key)
            case None => IsLast(Full(adds), key, None) && Last(Full(adds), key) == None
            case Some(i) =>
              var j := Last(Full(adds), key);
              && j.Some? && j.value < |Full(adds)| && i < |adds| && Full(adds)[j.value] == adds[i]
              && KeysBehind(Full(adds), j.value) == KeysBehind(adds, i)
  {
    if adds != [] {
      var n := |adds| - 1;
      var before, e := adds[..n], adds[n];
      FullIsOrdered(before);
      FullIsOrdered(adds);
      RefreshShape(Full(before), e);
      if e.key == key {
        var full := Full(adds);
        OnlyOne(full, |full| - 1);
        assert KeysBehind(full, |full| - 1) == KeysBehind(adds, n) == {};
      } else {
        FullMeans(before, key);
        var p := Last(Full(before), e.key);
        var i := Last(before, key);
        if i.None? {
          RefreshMisses(Full(before), p, e, Full(adds), key);
          LastIsLast(Full(adds), key);
        } else {
          LastIsLast(before, key);
          LastIsLast(Full(before), key);
          RefreshFinds(Full(before), p, e, Full(adds), Last(Full(before), key).value);
          RefreshKeysBehind(Full(before), p, e, Full(adds), Last(Full(before), key).value);
          BehindGrows(adds, i.value);
        }
      }
    }
  }

  lemma {:induction false} BehindCount(entries: seq<Entry>, j: nat)
    requires DuplicateFree(entries) && j < |entries|
    ensures |KeysBehind(entries, j)| == |entries| - 1 - j
    decreases |entries| - j
  {
    if j + 1 == |entries| {
      assert KeysBehind(entries, j) == {};
    } else {
      BehindCount(entries, j + 1);
      var k := entries[j + 1].key;
      assert KeysBehind(entries, j) == KeysBehind(entries, j + 1) + {k};
    }
  }

  // ---------------------------------------------------------------- what the store keeps of it

  /** A suffix of the unbounded list within the bound. Every entry it no longer has is expired or has
      `max` newer keys behind it. */
  ghost predicate Keeps(entries: seq<Entry>, full: seq<Entry>, now: int, ttl: int, max: nat) {
    && |entries| <= max && |entries| <= |full| && entries == full[|full| - |entries|..]
    && forall i :: 0 <= i < |full| - |entries| ==> Expired(full[i], now, ttl) || |full| - 1 - i >= max
  }

  /** The unexpired entries of a list in order: everything from some position on. */
  ghost predicate IsLive(live: seq<Entry>, entries: seq<Entry>, now: int, ttl: int) {
    && |live| <= |entries| && live == entries[|entries| - |live|..]
    && (forall i :: 0 <= i < |entries| - |live| ==> Expired(entries[i], now, ttl))
    && (forall i :: 0 <= i < |live| ==> !Expired(live[i], now, ttl))
  }

  lemma PruneKeeps(live: seq<Entry>, entries: seq<Entry>, full: seq<Entry>, before: int, now: int, ttl: int, max: nat)
    requires Keeps(entries, full, before, ttl, max) && before <= now && IsLive(live, entries, now, ttl)
    ensures Keeps(live, full, now, ttl, max)
  {
    var d := |full| - |entries|;
    assert forall i :: d <= i < |full| ==> full[i] == entries[i - d];
    assert live == full[|full| - |live|..];
  }

  /** The key's position in a suffix follows from its position in the list. */
  function InSuffix(p: Option<nat>, d: nat): Option<nat> {
    if p.Some? && p.value >= d then Some(p.value - d) else None
  }

  lemma IsLastInSuffix(entries: seq<Entry>, full: seq<Entry>, key: PublicKey, p: Option<nat>)
    requires |entries| <= |full| && entries == full[|full| - |entries|..] && IsLast(full, key, p)
    ensures IsLast(entries, key, InSuffix(p, |full| - |entries|))
  {
    var d := |full| - |entries|;
    assert forall i :: 0 <= i < |entries| ==> entries[i] == full[d + i];
  }

  lemma LastInSuffix(entries: seq<Entry>, full: seq<Entry>, key: PublicKey)
    requires |entries| <= |full| && entries == full[|full| - |entries|..]
    ensures Last(entries, key) == InSuffix(Last(full, key), |full| - |entries|)
    ensures IsLast(full, key, Last(full, key)) && IsLast(entries, key, Last(entries, key))
  {
    var p := Last(full, key);
    LastIsLast(full, key);
    IsLastInSuffix(entries, full, key, p);
    LastIs(entries, key, InSuffix(p, |full| - |entries|));
  }

  /** Refreshing a key does the same to the suffix as to the whole list. */
  lemma RefreshSuffix(entries: seq<Entry>, full: seq<Entry>, e: Entry, p: Option<nat>, q: Option<nat>, r: seq<Entry>, r': seq<Entry>)
    requires |entries| <= |full| && entries == full[|full| - |entries|..]
    requires q == InSuffix(p, |full| - |entries|)
    requires Refreshes(entries, q, e, r) && Refreshes(full, p, e, r')
    ensures |r| <= |r'| && r == r'[|r'| - |r|..]
    ensures forall i :: 0 <= i < |r'| - |r| ==> Up(p, i) < |full| - |entries|
  {
    var d, d' := |full| - |entries|, |r'| - |r|;
    forall i | 0 <= i < |r| - 1
      ensures r[i] == r'[d' + i]
    {
      assert r[i] == entries[Up(q, i)];
      assert Up(p, d' + i) == d + Up(q, i);
    }
  }

  function Newest(entries: seq<Entry>, max: nat): seq<Entry> {
    if |entries| > max then entries[|entries| - max..] else entries
  }

  lemma AddKeeps(entries: seq<Entry>, full: seq<Entry>, e: Entry, r: seq<Entry>, r': seq<Entry>, now: int, ttl: int, max: nat)
    requires Keeps(entries, full, now, ttl, max) && DuplicateFree(full) && max > 0
    requires Refreshes(entries, Last(entries, e.key), e, r) && Refreshes(full, Last(full, e.key), e, r')
    ensures Keeps(Newest(r, max), r', now, ttl, max)
  {
    var p := Last(full, e.key);
    LastInSuffix(entries, full, e.key);
    RefreshSuffix(entries, full, e, p, Last(entries, e.key), r, r');
    forall i | 0 <= i < |r'| - |r|
      ensures Expired(r'[i], now, ttl) || |r'| - 1 - i >= max
    {
      assert r'[i] == full[Up(p, i)];
    }
    NewestKeeps(r, r', now, ttl, max);
  }

  /** Cutting a suffix to the bound drops only entries with the maximum of entries behind them. */
  lemma NewestKeeps(r: seq<Entry>, r': seq<Entry>, now: int, ttl: int, max: nat)
    requires |r| <= |r'| && r == r'[|r'| - |r|..]
    requires forall i :: 0 <= i < |r'| - |r| ==> Expired(r'[i], now, ttl) || |r'| - 1 - i >= max
    ensures Keeps(Newest(r, max), r', now, ttl, max)
  {
    var kept := Newest(r, max);
    assert kept == r'[|r'| - |kept|..];
  }

  /** What the store keeps for one user after the user's Adds so far. */
  ghost predicate Holds(entries: seq<Entry>, adds: seq<Entry>, clock: int, ttl: int, max: nat) {
    && InOrder(adds) && (forall i :: 0 <= i < |adds| ==> adds[i].at <= clock)
    && Keeps(entries, Full(adds), clock, ttl, max)
  }

  lemma HoldsBounded(entries: seq<Entry>, adds: seq<Entry>, clock: int, ttl: int, max: nat)
    requires Holds(entries, adds, clock, ttl, max)
    ensures |entries| <= max && DuplicateFree(entries) && InOrder(entries)
  {
    FullIsOrdered(adds);
    var d := |Full(adds)| - |entries|;
    assert forall i :: 0 <= i < |entries| ==> entries[i] == Full(adds)[d + i];
  }

  lemma HoldsLater(entries: seq<Entry>, adds: seq<Entry>, clock: int, now: int, ttl: int, max: nat)
    requires Holds(entries, adds, clock, ttl, max) && clock <= now
    ensures Holds(entries, adds, now, ttl, max)
  {
  }

  lemma HoldsPruned(live: seq<Entry>, entries: seq<Entry>, adds: seq<Entry>, clock: int, now: int, ttl: int, max: nat)
    requires Holds(entries, adds, clock, ttl, max) && clock <= now && IsLive(live, entries, now, ttl)
    ensures Holds(live, adds, now, ttl, max)
  {
    PruneKeeps(live, entries, Full(adds), clock, now, ttl, max);
  }

  lemma HoldsAdded(entries: seq<Entry>, adds: seq<Entry>, e: Entry, ttl: int, max: nat)
    requires Holds(entries, adds, e.at, ttl, max) && max > 0
    ensures Holds(Newest(Without(entries, e.key) + [e], max), adds + [e], e.at, ttl, max)
  {
    FullIsOrdered(adds);
    assert InOrder(adds + [e]);
    RefreshShape(entries, e);
    RefreshShape(Full(adds), e);
    FullMore(adds, e);
    AddKeeps(entries, Full(adds), e, Without(entries, e.key) + [e], Full(adds + [e]), e.at, ttl, max);
  }

  lemma FullMore(adds: seq<Entry>, e: Entry)
    ensures Full(adds + [e]) == Without(Full(adds), e.key) + [e]
  {
    assert (adds + [e])[..|adds + [e]| - 1] == adds;
  }

  /** Registered, said of the unbounded list: unexpired and fewer than `max` entries from its end. */
  lemma RegisteredInFull(adds: seq<Entry>, key: PublicKey, now: int, ttl: int, max: nat)
    requires InOrder(adds)
    ensures var full := Full(adds);
            var j := Last(full, key);
            Registered(adds, key, now, ttl, max) <==>
              j.Some? && j.value < |full| && !Expired(full[j.value], now, ttl) && |full| - 1 - j.value < max
  {
    FullIsOrdered(adds);
    FullMeans(adds, key);
    var j := Last(Full(adds), key);
    if j.Some? && j.value < |Full(adds)| {
      BehindCount(Full(adds), j.value);
    }
  }

  lemma HasKeyIsLast(entries: seq<Entry>, key: PublicKey)
    ensures HasKey(entries, key) <==> Last(entries, key).Some?
  {
    LastIsLast(entries, key);
  }

  /** The pruned list holds a key exactly when the key counts as registered. */
  lemma ListAnswers(entries: seq<Entry>, adds: seq<Entry>, key: PublicKey, now: int, ttl: int, max: nat)
    requires Holds(entries, adds, now, ttl, max)
    requires forall i :: 0 <= i < |entries| ==> !Expired(entries[i], now, ttl)
    ensures HasKey(entries, key) <==> Registered(adds, key, now, ttl, max)
  {
    var full := Full(adds);
    FullIsOrdered(adds);
    RegisteredInFull(adds, key, now, ttl, max);
    LastInSuffix(entries, full, key);
    HasKeyIsLast(entries, key);
    var j := Last(full, key);
    if j.Some? && j.value >= |full| - |entries| {
      assert full[j.value] == entries[j.value - (|full| - |entries|)];
    }
  }

  // ---------------------------------------------------------------- the store

  const DEFAULT_MAX: nat := 5

  function Get(m: map<User, seq<Entry>>, user: User): seq<Entry> {
    if user in m then m[user] else []
  }

  ghost predicate HoldsAll(keys: map<User, seq<Entry>>, adds: map<User, seq<Entry>>, clock: int, ttl: int, max: nat) {
    max > 0 && forall user :: HoldsFor(keys, adds, user, clock, ttl, max)
  }

  /** A user's list after pruning; a user without keys has no entry. */
  function Put(keys: map<User, seq<Entry>>, user: User, list: seq<Entry>): map<User, seq<Entry>> {
    if list == [] then keys - {user} else keys[user := list]
  }

  lemma GetPut(keys: map<User, seq<Entry>>, user: User, list: seq<Entry>, u: User)
    ensures Get(Put(keys, user, list), u) == if u == user then list else Get(keys, u)
  {
  }

  /** The invariant of one user, with the lists looked up. */
  ghost predicate HoldsFor(keys: map<User, seq<Entry>>, adds: map<User, seq<Entry>>, user: User, clock: int, ttl: int, max: nat) {
    Holds(Get(keys, user), Get(adds, user), clock, ttl, max)
  }

  lemma HoldsForPruned(keys: map<User, seq<Entry>>, adds: map<User, seq<Entry>>, user: User, list: seq<Entry>, u: User, clock: int, now: int, ttl: int, max: nat)
    requires HoldsFor(keys, adds, u, clock, ttl, max) && clock <= now && Holds(list, Get(adds, user), now, ttl, max)
    ensures HoldsFor(Put(keys, user, list), adds, u, now, ttl, max)
  {
    GetPut(keys, user, list, u);
    HoldsLater(Get(keys, u), Get(adds, u), clock, now, ttl, max);
  }

  lemma HoldsAllPruned(keys: map<User, seq<Entry>>, adds: map<User, seq<Entry>>, user: User, list: seq<Entry>, clock: int, now: int, ttl: int, max: nat)
    requires HoldsAll(keys, adds, clock, ttl, max) && clock <= now && Holds(list, Get(adds, user), now, ttl, max)
    ensures HoldsAll(Put(keys, user, list), adds, now, ttl, max)
  {
    forall u
      ensures HoldsFor(Put(keys, user, list), adds, u, now, ttl, max)
    {
      HoldsForPruned(keys, adds, user, list, u, clock, now, ttl, max);
    }
  }

  lemma HoldsAllUpdated(keys: map<User, seq<Entry>>, adds: map<User, seq<Entry>>, user: User, list: seq<Entry>, list': seq<Entry>, clock: int, ttl: int, max: nat)
    requires HoldsAll(keys, adds, clock, ttl, max) && Holds(list, list', clock, ttl, max)
    ensures HoldsAll(keys[user := list], adds[user := list'], clock, ttl, max)
  {
    var keys', adds' := keys[user := list], adds[user := list'];
    forall u
      ensures HoldsFor(keys', adds', u, clock, ttl, max)
    {
      assert HoldsFor(keys, adds, u, clock, ttl, max);
      assert u != user ==> Get(keys', u) == Get(keys, u) && Get(adds', u) == Get(adds, u);
    }
  }

  class AuthKeyStore {
    const ttl: int
    const max: nat
    var keysByUser: map<User, seq<Entry>>
    ghost var adds: map<User, seq<Entry>>
    ghost var clock: int

    function Entries(user: User): seq<Entry>
      reads this
    {
      Get(keysByUser, user)
    }

    /** The Adds of a user so far. */
    ghost function Adds(user: User): seq<Entry>
      reads this
    {
      Get(adds, user)
    }

    ghost predicate Valid()
      reads this
    {
      HoldsAll(keysByUser, adds, clock, ttl, max)
    }

    constructor (ttl: int, max: int, defaultTTL: int, now: int)
      requires defaultTTL > 0
      ensures Valid() && this.ttl == (if ttl <= 0 then defaultTTL else ttl) && this.ttl > 0
      ensures this.max == if max <= 0 then DEFAULT_MAX else max
      ensures keysByUser == map[] && adds == map[] && clock == now
    {
      this.ttl := if ttl <= 0 then defaultTTL else ttl;
      this.max := if max <= 0 then DEFAULT_MAX else max;
      keysByUser, adds, clock := map[], map[], now;
    }

    /** Drops a user's expired keys, and the user if none is left. */
    method PruneExpired(user: User, now: int) returns (entries: seq<Entry>)
      requires Valid() && clock <= now
      modifies this`keysByUser, this`clock
      ensures Valid() && clock == now
      ensures entries == Entries(user) && IsLive(entries, old(Entries(user)), now, ttl)
      ensures user in keysByUser ==> keysByUser[user] != []
    {
      assert HoldsFor(keysByUser, adds, user, clock, ttl, max);
      HoldsBounded(Entries(user), Adds(user), clock, ttl, max);
      entries := FilterLive(Entries(user), now, ttl);
      HoldsPruned(entries, Entries(user), Adds(user), clock, now, ttl, max);
      HoldsAllPruned(keysByUser, adds, user, entries, clock, now, ttl, max);
      GetPut(keysByUser, user, entries, user);
      keysByUser := if entries == [] then keysByUser - {user} else keysByUser[user := entries];
      clock := now;
    }

    /** Registers or refreshes a key; an empty user name or a missing key changes nothing. */
    method Add(user: User, key: Option<PublicKey>, now: int)
      requires Valid() && clock <= now
      modifies this
      ensures Valid()
      ensures user.name == [] || key.None? ==> keysByUser == old(keysByUser) && adds == old(adds)
      ensures user.name != [] && key.Some? ==> adds == old(adds)[user := old(Adds(user)) + [Entry(key.value, now)]]
    {
      if user.name == [] || key.None? {
        return;
      }
      var entries := PruneExpired(user, now);
      Register(user, entries, Entry(key.value, now));
    }

    method Register(user: User, entries: seq<Entry>, e: Entry)
      requires Valid() && clock == e.at && entries == Entries(user)
      modifies this`keysByUser, this`adds
      ensures Valid() && adds == old(adds)[user := old(Adds(user)) + [e]]
    {
      assert HoldsFor(keysByUser, adds, user, clock, ttl, max);
      ListsStayBounded(user);
      var list := MoveToEnd(entries, e, max);
      HoldsAdded(entries, Adds(user), e, ttl, max);
      HoldsAllUpdated(keysByUser, adds, user, list, Adds(user) + [e], clock, ttl, max);
      keysByUser, adds := keysByUser[user := list], adds[user := Adds(user) + [e]];
    }

    /** Over every history of Add and Has calls: registered, not expired, and not displaced. */
    method Has(user: User, key: Option<PublicKey>, now: int) returns (found: bool)
      requires Valid() && clock <= now
      modifies this`keysByUser, this`clock
      ensures Valid()
      ensures found <==> user.name != [] && key.Some? && Registered(Adds(user), key.value, now, ttl, max)
    {
      if user.name == [] || key.None? {
        return false;
      }
      var entries := PruneExpired(user, now);
      assert HoldsFor(keysByUser, adds, user, clock, ttl, max);
      ListAnswers(entries, Adds(user), key.value, now, ttl, max);
      found := Contains(entries, key.value);
    }

    /** Each user's list stays duplicate-free, in order of registration and within the bound. */
    lemma ListsStayBounded(user: User)
      requires Valid()
      ensures |Entries(user)| <= max && DuplicateFree(Entries(user)) && InOrder(Entries(user))
    {
      assert HoldsFor(keysByUser, adds, user, clock, ttl, max);
      HoldsBounded(Entries(user), Adds(user), clock, ttl, max);
    }
  }

  method FilterLive(entries: seq<Entry>, now: int, ttl: int) returns (r: seq<Entry>)
    requires InOrder(entries)
    ensures IsLive(r, entries, now, ttl)
  {
    r := [];
    for i := 0 to |entries|
      invariant |r| <= i && r == entries[i - |r|..i]
      invariant forall k :: 0 <= k < i - |r| ==> Expired(entries[k], now, ttl)
      invariant forall k :: i - |r| <= k < i ==> !Expired(entries[k], now, ttl)
    {
      assert |r| > 0 ==> entries[i - 1].at <= entries[i].at;
      if !Expired(entries[i], now, ttl) {
        r := r + [entries[i]];
      }
    }
  }

  /** The first i entries without the one at p. */
  function Skipping(entries: seq<Entry>, p: Option<nat>, i: nat): seq<Entry>
    requires i <= |entries|
  {
    if p.Some? && p.value < i then entries[..p.value] + entries[p.value + 1..i] else entries[..i]
  }

  lemma SkippingMore(entries: seq<Entry>, p: Option<nat>, i: nat)
    requires i < |entries|
    ensures Skipping(entries, p, i + 1) == Skipping(entries, p, i) + if p == Some(i) then [] else [entries[i]]
  {
    if p.Some? && p.value < i {
      assert entries[p.value + 1..i + 1] == entries[p.value + 1..i] + [entries[i]];
    } else if p == Some(i) {
      assert entries[i + 1..i + 1] == [];
    } else {
      assert entries[..i + 1] == entries[..i] + [entries[i]];
    }
  }

  method FilterOther(entries: seq<Entry>, key: PublicKey) returns (r: seq<Entry>)
    requires DuplicateFree(entries)
    ensures r == Without(entries, key)
  {
    r := [];
    ghost var p := Last(entries, key);
    LastIsLast(entries, key);
    for i := 0 to |entries|
      invariant r == Skipping(entries, p, i)
    {
      SkippingMore(entries, p, i);
      if entries[i].key != key {
        r := r + [entries[i]];
      }
    }
  }

  /** Moves a key to the end of a list and cuts the list to the bound. */
  method MoveToEnd(entries: seq<Entry>, e: Entry, max: nat) returns (list: seq<Entry>)
    requires DuplicateFree(entries)
    ensures list == Newest(Without(entries, e.key) + [e], max)
  {
    list := FilterOther(entries, e.key);
    list := list + [e];
    if |list| > max {
      list := list[|list| - max..];
    }
  }

  method Contains(entries: seq<Entry>, key: PublicKey) returns (found: bool)
    ensures found <==> HasKey(entries, key)
  {
    for i := 0 to |entries|
      invariant forall k :: 0 <= k < i ==> entries[k].key != key
    {
      if entries[i].key == key {
        return true;
      }
    }
    found := false;
  }
}
