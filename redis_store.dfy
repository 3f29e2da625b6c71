/**
 * The part of the Redis server's state that the map-cache eviction script
 * touches, and the server commands the script issues against it.  Each
 * field stands for one key of the keyspace:
 *   hash           KEYS[1], the map's own hash (entry key to packed value)
 *   timeoutSet     KEYS[2], sorted set of absolute expiry times
 *   maxIdleSet     KEYS[3], sorted set of idle deadlines
 *   (KEYS[4], the channel, is the log 'published')
 *   lastAccessSet  KEYS[5], sorted set of last access times
 *   latch          KEYS[6], the execute-once latch
 */
module RedisStore {
  import opened Wrappers
  import opened SortedSets

  /**
   * A hash value of the map cache: the leading number and the payload of
   * the 'dLc0' layout, kept apart instead of as packed bytes.
   */
  datatype StoredValue = StoredValue(header: int, value: string)

  /** The expired-entry notification, packed from a key and its value. */
  datatype Message = Message(key: Key, value: string)

  /** A string key with an optional absolute expiry time in milliseconds. */
  datatype Latch = Latch(value: int, expireAt: Option<int>)

  /** The sorted sets the script addresses. */
  datatype ZKey = TimeoutSet | MaxIdleSet | LastAccessSet

  /** A snapshot of the store's state. */
  datatype Db = Db(
    hash: map<Key, StoredValue>,
    timeoutSet: ZSet,
    maxIdleSet: ZSet,
    lastAccessSet: ZSet,
    latch: Option<Latch>,
    published: seq<Message>)

  /** The sorted set a snapshot holds under a given key. */
  function ZOf(db: Db, which: ZKey): ZSet {
    match which
    case TimeoutSet => db.timeoutSet
    case MaxIdleSet => db.maxIdleSet
    case LastAccessSet => db.lastAccessSet
  }

  /** A key exists at time now unless its expiry time has passed. */
  predicate LatchLive(l: Option<Latch>, now: int) {
    l.Some? && (l.value.expireAt.None? || now < l.value.expireAt.value)
  }

  /**
   * EXPIRE key seconds at time now: a missing or already expired key stays
   * missing, a non-positive timeout deletes the key, any other sets its
   * expiry time.
   */
  function ExpireLatch(l: Option<Latch>, seconds: int, now: int): (r: Option<Latch>)
    ensures !LatchLive(l, now) ==> r.None?
    ensures LatchLive(l, now) && seconds <= 0 ==> r.None?
    ensures LatchLive(l, now) && seconds > 0 ==> r == Some(Latch(l.value.value, Some(now + seconds * 1000)))
  {
    if !LatchLive(l, now) || seconds <= 0 then None
    else Some(l.value.(expireAt := Some(now + seconds * 1000)))
  }

  class Store {
    var hash: map<Key, StoredValue>
    var timeoutSet: ZSet
    var maxIdleSet: ZSet
    var lastAccessSet: ZSet
    var latch: Option<Latch>
    /** Every message published on the expired-entry channel, oldest first. */
    var published: seq<Message>
    /**
     * The subscriber count the channel reports to the n-th publish ever
     * made on it (n counted from 0): who listens is outside the model.
     */
    const listenersFor: nat -> nat

    ghost predicate Valid()
      reads this
    {
      ValidZSet(timeoutSet) && ValidZSet(maxIdleSet) && ValidZSet(lastAccessSet)
    }

    function State(): Db
      reads this
    {
      Db(hash, timeoutSet, maxIdleSet, lastAccessSet, latch, published)
    }

    constructor (db: Db, listenersFor: nat -> nat)
      requires ValidZSet(db.timeoutSet) && ValidZSet(db.maxIdleSet) && ValidZSet(db.lastAccessSet)
      ensures Valid() && State() == db && this.listenersFor == listenersFor
    {
      hash := db.hash;
      timeoutSet := db.timeoutSet;
      maxIdleSet := db.maxIdleSet;
      lastAccessSet := db.lastAccessSet;
      latch := db.latch;
      published := db.published;
      this.listenersFor := listenersFor;
    }

    function Z(which: ZKey): ZSet
      reads this
    {
      ZOf(State(), which)
    }

    /** SETNX on the latch: 1 and the latch set (without expiry) when it did not exist, else 0. */
    method SetNx(value: int, now: int) returns (r: int)
      modifies this
      ensures r == (if LatchLive(old(latch), now) then 0 else 1)
      ensures latch == (if r == 0 then old(latch) else Some(Latch(value, None)))
      ensures State() == old(State()).(latch := latch)
    {
      if LatchLive(latch, now) {
        r := 0;
      } else {
        latch := Some(Latch(value, None));
        r := 1;
      }
    }

    /** EXPIRE on the latch. */
    method Expire(seconds: int, now: int)
      modifies this
      ensures State() == old(State()).(latch := ExpireLatch(old(latch), seconds, now))
    {
      latch := ExpireLatch(latch, seconds, now);
    }

    /** ZRANGEBYSCORE key min max LIMIT 0 count: the keys of the selected members. */
    function ZRangeByScore(which: ZKey, min: int, max: int, count: int): (r: seq<Key>)
      reads this
      ensures count >= 0 ==> |r| <= count
      ensures forall i :: 0 <= i < |r| ==> exists m :: m in Z(which) && m.key == r[i] && min <= m.score <= max
      ensures count < 0 || |r| < count ==> forall m :: m in Z(which) && min <= m.score <= max ==> m.key in r
    {
      var ms := RangeByScore(Z(which), min, max, count);
      assert forall i :: 0 <= i < |ms| ==> ms[i] in InRange(Z(which), min, max);
      assert forall m :: m in ms ==> m.key in KeysOf(ms);
      KeysOf(RangeByScore(Z(which), min, max, count))
    }

    /** HGET on the hash: false in Lua when the field is missing. */
    function HGet(k: Key): (r: Option<StoredValue>)
      reads this
      ensures r.Some? <==> k in hash
      ensures r.Some? ==> r.value == hash[k]
    {
      if k in hash then Some(hash[k]) else None
    }

    /** PUBLISH on the channel: the message is logged and the subscriber count returned. */
    method Publish(msg: Message) returns (listeners: nat)
      modifies this
      ensures listeners == listenersFor(|old(published)|)
      ensures State() == old(State()).(published := old(published) + [msg])
    {
      listeners := listenersFor(|published|);
      published := published + [msg];
    }

    /** ZREM key k1 .. kn. */
    method ZRem(which: ZKey, ks: seq<Key>)
      requires Valid()
      modifies this
      ensures Valid()
      ensures which == TimeoutSet ==> State() == old(State()).(timeoutSet := Rem(old(timeoutSet), SetOf(ks)))
      ensures which == MaxIdleSet ==> State() == old(State()).(maxIdleSet := Rem(old(maxIdleSet), SetOf(ks)))
      ensures which == LastAccessSet ==> State() == old(State()).(lastAccessSet := Rem(old(lastAccessSet), SetOf(ks)))
    {
      RemSorted(Z(which), SetOf(ks));
      match which
      case TimeoutSet => timeoutSet := Rem(timeoutSet, SetOf(ks));
      case MaxIdleSet => maxIdleSet := Rem(maxIdleSet, SetOf(ks));
      case LastAccessSet => lastAccessSet := Rem(lastAccessSet, SetOf(ks));
    }

    /** HDEL hash k1 .. kn. */
    method HDel(ks: seq<Key>)
      modifies this
      ensures State() == old(State()).(hash := old(hash) - SetOf(ks))
    {
      hash := hash - SetOf(ks);
    }

    /** HLEN of the hash. */
    function HLen(): (r: nat)
      reads this
      ensures r == 0 <==> hash == map[]
    {
      |hash|
    }

    /** DEL of the hash key. */
    method Del()
      modifies this
      ensures State() == old(State()).(hash := map[])
    {
      hash := map[];
    }
  }
}
