/** The replay cache (`JTICache`): a map from `jti` to the time it was last
    recorded, with age-based cleanup on every lookup. The cache is a value;
    each operation returns the cache it leaves behind. */
module JtiCache {
  import opened Wrappers
  import opened Json

  /** A `jti` as a Python dict key: equal numbers are one key whatever their
      type (`True == 1`), strings are keys by content, and lists and dicts
      cannot be keys at all. */
  datatype JtiKey = NoneKey | NumKey(n: int) | StrKey(s: string)

  /** The dict key of a `jti` value, or `None` when hashing it raises
      `TypeError: unhashable type`. */
  function KeyOf(j: Json): (k: Option<JtiKey>)
    ensures k.None? <==> (j.JList? || j.JObject?)
  {
    match j
    case JNull => Some(NoneKey)
    case JBool(b) => Some(NumKey(if b then 1 else 0))
    case JInt(i) => Some(NumKey(i))
    case JStr(s) => Some(StrKey(s))
    case JList(_) => None
    case JObject(_) => None
  }

  /** Two hashable `jti` values land on the same dict entry exactly when
      Python's `==` says they are equal: `KeyOf` is dict-key identity. */
  lemma KeyIsPyEquality(a: Json, b: Json)
    ensures KeyOf(a).Some? && KeyOf(b).Some? ==> (KeyOf(a) == KeyOf(b) <==> PyEq(a, b))
  {
  }

  /** `True` and `1` are one key, `"1"` is another, and `None` is a key of its own. */
  lemma KeyIdentityExamples()
    ensures KeyOf(JBool(true)) == KeyOf(JInt(1))
    ensures KeyOf(JBool(false)) == KeyOf(JInt(0))
    ensures KeyOf(JStr("1")) != KeyOf(JInt(1))
    ensures KeyOf(JNull) != KeyOf(JInt(0)) && KeyOf(JNull) != KeyOf(JStr(""))
    ensures KeyOf(JList([JInt(1)])).None?
  {
  }

  /** `JTICache()`'s default retention, in seconds. */
  const DefaultMaxAge: real := 300.0

  datatype Cache = Cache(entries: map<JtiKey, real>, maxAge: real)

  /** `JTICache(max_age)`: an empty cache. */
  function Init(maxAge: real): (c: Cache)
    ensures c.entries == map[] && c.maxAge == maxAge
  {
    Cache(map[], maxAge)
  }

  /** An entry recorded at `ts` is expired at `now` when it is strictly older than `maxAge`. */
  predicate Expired(c: Cache, ts: real, now: real) {
    now - ts > c.maxAge
  }

  /** `_cleanup()` at `now`: drops exactly the expired entries, keeps every
      other entry with its timestamp, and never adds a key. */
  function Cleanup(c: Cache, now: real): (c': Cache)
    ensures c'.maxAge == c.maxAge
    ensures c'.entries.Keys <= c.entries.Keys
    ensures forall k :: k in c.entries ==> (k in c'.entries <==> !Expired(c, c.entries[k], now))
    ensures forall k :: k in c'.entries ==> c'.entries[k] == c.entries[k]
  {
    c.(entries := map k | k in c.entries && now - c.entries[k] <= c.maxAge :: c.entries[k])
  }

  /** `is_replayed(jti)` at `now`: cleans the cache, then reports membership.
      Returns the answer and the cleaned cache. */
  function IsReplayed(c: Cache, j: JtiKey, now: real): (r: (bool, Cache))
    ensures r.1 == Cleanup(c, now)
    ensures r.0 <==> j in c.entries && !Expired(c, c.entries[j], now)
  {
    var c' := Cleanup(c, now);
    (j in c'.entries, c')
  }

  /** `add(jti)` at `now`: records `now` for `j`, overwriting an earlier
      timestamp, and leaves every other entry as it was. */
  function Add(c: Cache, j: JtiKey, now: real): (c': Cache)
    ensures c'.maxAge == c.maxAge
    ensures c'.entries.Keys == c.entries.Keys + {j}
    ensures c'.entries[j] == now
    ensures forall k :: k in c.entries && k != j ==> c'.entries[k] == c.entries[k]
  {
    c.(entries := c.entries[j := now])
  }

  /** Cleaning twice at the same instant removes nothing more. */
  lemma CleanupIdempotent(c: Cache, now: real)
    ensures Cleanup(Cleanup(c, now), now) == Cleanup(c, now)
  {
    var once := Cleanup(c, now);
    assert Cleanup(once, now).entries == once.entries;
  }

  /** A lookup never records the `jti` it asks about. */
  lemma IsReplayedNeverInserts(c: Cache, j: JtiKey, now: real)
    requires j !in c.entries
    ensures !IsReplayed(c, j, now).0
    ensures j !in IsReplayed(c, j, now).1.entries
  {
  }

  /** After `add(j)` at `t`, `j` is reported as replayed at any `now` no more
      than `maxAge` after `t`. */
  lemma AddedIsReplayedWithinMaxAge(c: Cache, j: JtiKey, t: real, now: real)
    requires now - t <= c.maxAge
    ensures IsReplayed(Add(c, j, t), j, now).0
  {
  }

  /** After `add(j)` at `t`, once more than `maxAge` has passed `j` is no longer
      reported and its entry is gone: there is no stale "already seen". */
  lemma AddedExpiresAfterMaxAge(c: Cache, j: JtiKey, t: real, now: real)
    requires now - t > c.maxAge
    ensures !IsReplayed(Add(c, j, t), j, now).0
    ensures j !in IsReplayed(Add(c, j, t), j, now).1.entries
  {
  }

  /** How a cache may change during one request handled at `now`: the retention
      bound is unchanged, no live entry is dropped, and every entry either kept
      its timestamp or is stamped `now`. */
  ghost predicate Evolves(c: Cache, c': Cache, now: real) {
    && c'.maxAge == c.maxAge
    && (forall k :: k in c.entries && !Expired(c, c.entries[k], now) ==> k in c'.entries)
    && (forall k :: k in c'.entries ==> c'.entries[k] == now || (k in c.entries && c'.entries[k] == c.entries[k]))
  }

  /** Leaving the cache alone and cleaning it are such changes; cleaning keeps
      the timestamp of every entry it keeps. */
  lemma CleanupEvolves(c: Cache, now: real)
    ensures Evolves(c, c, now)
    ensures Evolves(c, Cleanup(c, now), now)
    ensures forall k :: k in Cleanup(c, now).entries ==>
      k in c.entries && Cleanup(c, now).entries[k] == c.entries[k]
  {
  }

  /** Cleaning and then recording one `jti` at the same instant is such a
      change: `j` is stamped `now` and every other key is as cleaning left it. */
  lemma RecordEvolves(c: Cache, j: JtiKey, now: real)
    ensures Evolves(c, Add(Cleanup(c, now), j, now), now)
    ensures j in Add(Cleanup(c, now), j, now).entries
    ensures Add(Cleanup(c, now), j, now).entries[j] == now
    ensures forall k :: k != j ==>
      (k in Add(Cleanup(c, now), j, now).entries <==> k in Cleanup(c, now).entries)
    ensures forall k :: k != j && k in Cleanup(c, now).entries ==>
      Add(Cleanup(c, now), j, now).entries[k] == Cleanup(c, now).entries[k]
  {
  }
}
