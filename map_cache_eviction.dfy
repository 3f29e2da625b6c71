/**
 * The eviction task of a map cache: one pass of the server-side sweep
 * (latch, scan, notify, delete, for the timeout set and then the max-idle
 * set) and the optional removal of the emptied map afterwards.
 */
module MapCacheEviction {
  import opened Wrappers
  import opened SortedSets
  import opened RedisStore

  const LatchPrefix := "redisson__execute_task_once_latch"

  /** The longest time, in seconds, the latch may be held. */
  const MaxLatchSeconds := 30

  /** How many keys one ZREM or HDEL of the delete loops carries at most. */
  const ChunkSize := 5000

  /**
   * The prefixed name of a per-map auxiliary key: the map's name becomes the
   * cluster hash tag unless it already carries braces.
   */
  function PrefixName(prefix: string, name: string): (r: string)
    ensures '{' !in name ==> r == prefix + ":{" + name + "}"
    ensures '{' in name ==> r == prefix + ":" + name
  {
    if '{' in name then prefix + ":" + name else prefix + ":{" + name + "}"
  }

  function LatchName(name: string): string {
    PrefixName(LatchPrefix, name)
  }

  /** Two maps without braces in their names never share a latch. */
  lemma LatchNameInjective(a: string, b: string)
    requires '{' !in a && '{' !in b
    requires LatchName(a) == LatchName(b)
    ensures a == b
  {
    var p := LatchPrefix + ":{";
    assert LatchName(a) == p + (a + "}");
    assert LatchName(b) == p + (b + "}");
    assert (p + (a + "}"))[|p|..] == a + "}";
    assert (p + (b + "}"))[|p|..] == b + "}";
    assert a == (a + "}")[..|a|];
    assert b == (b + "}")[..|b|];
  }

  /** A braced name and its bare form do share one. */
  lemma LatchNameBracedCollision()
    ensures LatchName("m") == LatchName("{m}")
  {
  }

  /** min(delay, 30), the latch lifetime in seconds. */
  function LatchExpireTime(delay: int): (r: int)
    ensures r <= MaxLatchSeconds && r <= delay
    ensures r == delay || r == MaxLatchSeconds
  {
    if delay < MaxLatchSeconds then delay else MaxLatchSeconds
  }

  /** The notification of every found key that still has a value, in scan order. */
  function ValuedMessages(keys: seq<Key>, hash: map<Key, StoredValue>): (r: seq<Message>)
    ensures |r| <= |keys|
    ensures forall m :: m in r ==> m.key in keys && m.key in hash && m.value == hash[m.key].value
    ensures forall k :: k in keys && k in hash ==> Message(k, hash[k].value) in r
  {
    if keys == [] then []
    else if keys[0] in hash then [Message(keys[0], hash[keys[0]].value)] + ValuedMessages(keys[1..], hash)
    else ValuedMessages(keys[1..], hash)
  }

  /**
   * What the notification loop over keys publishes when the channel has
   * seen n publishes before it: it walks the keys in order, publishes for
   * each one with a value, and stops after a publish that reached nobody.
   */
  function Notifications(keys: seq<Key>, hash: map<Key, StoredValue>, listenersFor: nat -> nat, n: nat): seq<Message>
  {
    if keys == [] then []
    else if keys[0] in hash then
      var msg := Message(keys[0], hash[keys[0]].value);
      if listenersFor(n) == 0 then [msg] else [msg] + Notifications(keys[1..], hash, listenersFor, n + 1)
    else Notifications(keys[1..], hash, listenersFor, n)
  }

  /** The loop publishes a prefix of the notifications of all found keys that have a value. */
  lemma {:induction false} NotificationsArePrefix(keys: seq<Key>, hash: map<Key, StoredValue>, listenersFor: nat -> nat, n: nat)
    ensures var ns, all := Notifications(keys, hash, listenersFor, n), ValuedMessages(keys, hash);
      |ns| <= |all| && ns == all[..|ns|]
  {
    if keys != [] {
      if keys[0] in hash {
        NotificationsArePrefix(keys[1..], hash, listenersFor, n + 1);
      } else {
        NotificationsArePrefix(keys[1..], hash, listenersFor, n);
      }
    }
  }

  /** Every publish of the loop but its last reached at least one listener. */
  lemma {:induction false} NotificationsListenedBeforeLast(keys: seq<Key>, hash: map<Key, StoredValue>, listenersFor: nat -> nat, n: nat)
    ensures var ns := Notifications(keys, hash, listenersFor, n);
      forall p :: n <= p < n + |ns| - 1 ==> listenersFor(p) != 0
  {
    if keys != [] {
      if keys[0] in hash {
        NotificationsListenedBeforeLast(keys[1..], hash, listenersFor, n + 1);
      } else {
        NotificationsListenedBeforeLast(keys[1..], hash, listenersFor, n);
      }
    }
  }

  /**
   * The loop leaves a found key with a value unnotified only after a
   * publish that reached nobody: then its last publish reported 0.
   */
  lemma {:induction false} NotificationsStopAtSilentPublish(keys: seq<Key>, hash: map<Key, StoredValue>, listenersFor: nat -> nat, n: nat)
    ensures var ns, all := Notifications(keys, hash, listenersFor, n), ValuedMessages(keys, hash);
      |ns| < |all| ==> |ns| > 0 && listenersFor(n + |ns| - 1) == 0
  {
    if keys != [] {
      var ns, all := Notifications(keys, hash, listenersFor, n), ValuedMessages(keys, hash);
      if keys[0] in hash {
        var rest := Notifications(keys[1..], hash, listenersFor, n + 1);
        assert |all| == 1 + |ValuedMessages(keys[1..], hash)|;
        if listenersFor(n) == 0 {
          assert |ns| == 1;
        } else {
          assert |ns| == 1 + |rest|;
          NotificationsStopAtSilentPublish(keys[1..], hash, listenersFor, n + 1);
          assert n + |ns| - 1 == (n + 1) + |rest| - 1;
        }
      } else {
        assert ns == Notifications(keys[1..], hash, listenersFor, n) && all == ValuedMessages(keys[1..], hash);
        NotificationsStopAtSilentPublish(keys[1..], hash, listenersFor, n);
      }
    }
  }

  /**
   * Three found keys with values, the second publish reaching nobody: the
   * third key is not notified (its removal is DeletedRemovesExactly's).
   */
  lemma NotificationScenario(hash: map<Key, StoredValue>, listenersFor: nat -> nat, n: nat)
    requires "k1" in hash && "k2" in hash && "k3" in hash
    requires listenersFor(n) != 0 && listenersFor(n + 1) == 0
    ensures Notifications(["k1", "k2", "k3"], hash, listenersFor, n)
         == [Message("k1", hash["k1"].value), Message("k2", hash["k2"].value)]
  {
    assert ["k1", "k2", "k3"][1..] == ["k2", "k3"];
  }

  /** The snapshot after the notification loop over keys. */
  function Notified(db: Db, keys: seq<Key>, listenersFor: nat -> nat): Db {
    db.(published := db.published + Notifications(keys, db.hash, listenersFor, |db.published|))
  }

  /** The snapshot after the chunked delete loop over keys: ZREM from the three sets, HDEL from the hash. */
  function Deleted(db: Db, keys: seq<Key>): Db {
    var ks := SetOf(keys);
    db.(lastAccessSet := Rem(db.lastAccessSet, ks), maxIdleSet := Rem(db.maxIdleSet, ks),
        timeoutSet := Rem(db.timeoutSet, ks), hash := db.hash - ks)
  }

  /** The keys one scan of a sorted set finds: scored in [0, now], at most keysLimit of them. */
  function PassKeys(db: Db, which: ZKey, now: int, keysLimit: int): seq<Key> {
    KeysOf(RangeByScore(ZOf(db, which), 0, now, keysLimit))
  }

  /** The snapshot after one scan, its notification loop and its delete loop. */
  function AfterPass(db: Db, which: ZKey, listenersFor: nat -> nat, now: int, keysLimit: int): Db {
    var keys := PassKeys(db, which, now, keysLimit);
    Deleted(Notified(db, keys, listenersFor), keys)
  }

  /** The snapshot once SETNX and EXPIRE took a free latch. */
  function Acquired(db: Db, now: int, latchExpireTime: int): Db {
    db.(latch := ExpireLatch(Some(Latch(1, None)), latchExpireTime, now))
  }

  datatype SweepOutcome = SweepOutcome(result: int, db: Db)

  /** The whole script: -1 and no change when the latch is held, else both passes and their key count. */
  function Sweep(db: Db, listenersFor: nat -> nat, now: int, keysLimit: int, latchExpireTime: int): SweepOutcome {
    if LatchLive(db.latch, now) then SweepOutcome(-1, db)
    else
      var db0 := Acquired(db, now, latchExpireTime);
      var db1 := AfterPass(db0, TimeoutSet, listenersFor, now, keysLimit);
      var db2 := AfterPass(db1, MaxIdleSet, listenersFor, now, keysLimit);
      SweepOutcome(|PassKeys(db0, TimeoutSet, now, keysLimit)| + |PassKeys(db1, MaxIdleSet, now, keysLimit)|, db2)
  }

  /** Deleting keys removes each of them from the hash and the three sets and keeps everything else. */
  lemma DeletedRemovesExactly(db: Db, keys: seq<Key>)
    ensures var d := Deleted(db, keys);
      && (forall k :: k in keys ==> k !in d.hash && k !in Keys(d.timeoutSet) && k !in Keys(d.maxIdleSet) && k !in Keys(d.lastAccessSet))
      && (forall k :: k in db.hash && k !in keys ==> k in d.hash && d.hash[k] == db.hash[k])
      && (forall m :: m in db.timeoutSet && m.key !in keys ==> m in d.timeoutSet)
      && (forall m :: m in db.maxIdleSet && m.key !in keys ==> m in d.maxIdleSet)
      && (forall m :: m in db.lastAccessSet && m.key !in keys ==> m in d.lastAccessSet)
      && d.latch == db.latch && d.published == db.published
  {
  }

  /** Deleting never brings a key back. */
  lemma DeletedShrinks(db: Db, keys: seq<Key>)
    ensures var d := Deleted(db, keys);
      && d.hash.Keys <= db.hash.Keys && Keys(d.timeoutSet) <= Keys(db.timeoutSet)
      && Keys(d.maxIdleSet) <= Keys(db.maxIdleSet) && Keys(d.lastAccessSet) <= Keys(db.lastAccessSet)
  {
  }

  /** A held latch makes the script return -1 and change nothing. */
  lemma SweepContended(db: Db, listenersFor: nat -> nat, now: int, keysLimit: int, latchExpireTime: int)
    requires LatchLive(db.latch, now)
    ensures Sweep(db, listenersFor, now, keysLimit, latchExpireTime) == SweepOutcome(-1, db)
  {
  }

  /**
   * Mutual exclusion: once a sweep took a free latch with a positive
   * lifetime, a second sweep at any time before the latch expires finds it
   * held, returns -1 and changes nothing.
   */
  lemma SweepExcludesUntilExpiry(db: Db, listenersFor: nat -> nat, now: int, keysLimit: int, latchExpireTime: int,
                                 t: int, keysLimit2: int, latchExpireTime2: int)
    requires !LatchLive(db.latch, now) && latchExpireTime > 0
    requires now <= t < now + latchExpireTime * 1000
    ensures var after := Sweep(db, listenersFor, now, keysLimit, latchExpireTime).db;
      Sweep(after, listenersFor, t, keysLimit2, latchExpireTime2) == SweepOutcome(-1, after)
  {
    SweepTakesLatch(db, listenersFor, now, keysLimit, latchExpireTime);
  }

  /**
   * A free latch is taken with a lifetime of latchExpireTime seconds (a
   * non-positive lifetime deletes it at once), and it is already in that
   * state when the first scan reads the timeout set; the sweep leaves it so.
   */
  lemma SweepTakesLatch(db: Db, listenersFor: nat -> nat, now: int, keysLimit: int, latchExpireTime: int)
    requires !LatchLive(db.latch, now)
    ensures var l := if latchExpireTime > 0 then Some(Latch(1, Some(now + latchExpireTime * 1000))) else None;
      && Acquired(db, now, latchExpireTime).latch == l
      && Sweep(db, listenersFor, now, keysLimit, latchExpireTime).db.latch == l
      && (latchExpireTime > 0 ==> forall t :: now <= t < now + latchExpireTime * 1000 ==> LatchLive(l, t))
  {
    var db0 := Acquired(db, now, latchExpireTime);
    var db1 := AfterPass(db0, TimeoutSet, listenersFor, now, keysLimit);
    DeletedRemovesExactly(Notified(db0, PassKeys(db0, TimeoutSet, now, keysLimit), listenersFor), PassKeys(db0, TimeoutSet, now, keysLimit));
    DeletedRemovesExactly(Notified(db1, PassKeys(db1, MaxIdleSet, now, keysLimit), listenersFor), PassKeys(db1, MaxIdleSet, now, keysLimit));
  }

  /**
   * After a free-latch sweep, no key found by either scan is left in the
   * hash or in any of the three sorted sets, whether or not a notification
   * loop stopped early.
   */
  lemma SweepRemovesFoundKeys(db: Db, listenersFor: nat -> nat, now: int, keysLimit: int, latchExpireTime: int)
    requires !LatchLive(db.latch, now)
    ensures var db0 := Acquired(db, now, latchExpireTime);
      var db1 := AfterPass(db0, TimeoutSet, listenersFor, now, keysLimit);
      var d := Sweep(db, listenersFor, now, keysLimit, latchExpireTime).db;
      forall k :: k in PassKeys(db0, TimeoutSet, now, keysLimit) || k in PassKeys(db1, MaxIdleSet, now, keysLimit) ==>
        k !in d.hash && k !in Keys(d.timeoutSet) && k !in Keys(d.maxIdleSet) && k !in Keys(d.lastAccessSet)
  {
    var db0 := Acquired(db, now, latchExpireTime);
    var keys1 := PassKeys(db0, TimeoutSet, now, keysLimit);
    var db1 := AfterPass(db0, TimeoutSet, listenersFor, now, keysLimit);
    var keys2 := PassKeys(db1, MaxIdleSet, now, keysLimit);
    DeletedRemovesExactly(Notified(db0, keys1, listenersFor), keys1);
    DeletedRemovesExactly(Notified(db1, keys2, listenersFor), keys2);
    DeletedShrinks(Notified(db1, keys2, listenersFor), keys2);
  }

  /** The max-idle scan finds none of the keys the timeout scan found: those left the max-idle set first. */
  lemma SweepScansDisjoint(db: Db, listenersFor: nat -> nat, now: int, keysLimit: int, latchExpireTime: int)
    requires !LatchLive(db.latch, now)
    ensures var db0 := Acquired(db, now, latchExpireTime);
      var db1 := AfterPass(db0, TimeoutSet, listenersFor, now, keysLimit);
      SetOf(PassKeys(db0, TimeoutSet, now, keysLimit)) !! SetOf(PassKeys(db1, MaxIdleSet, now, keysLimit))
  {
    var db0 := Acquired(db, now, latchExpireTime);
    var keys1 := PassKeys(db0, TimeoutSet, now, keysLimit);
    var db1 := AfterPass(db0, TimeoutSet, listenersFor, now, keysLimit);
    var z1 := db1.maxIdleSet;
    assert z1 == Rem(db0.maxIdleSet, SetOf(keys1));
    var scan := RangeByScore(z1, 0, now, keysLimit);
    forall k | k in PassKeys(db1, MaxIdleSet, now, keysLimit) ensures k !in SetOf(keys1) {
      var i :| 0 <= i < |scan| && scan[i].key == k;
      assert scan[i] in InRange(z1, 0, now);
      assert scan[i] in z1;
    }
  }

  /** A free-latch sweep returns the two scans' sizes added, between 0 and 2 * keysLimit. */
  lemma SweepCountBound(db: Db, listenersFor: nat -> nat, now: int, keysLimit: int, latchExpireTime: int)
    requires !LatchLive(db.latch, now)
    ensures var db0 := Acquired(db, now, latchExpireTime);
      var db1 := AfterPass(db0, TimeoutSet, listenersFor, now, keysLimit);
      var r := Sweep(db, listenersFor, now, keysLimit, latchExpireTime).result;
      && r == |PassKeys(db0, TimeoutSet, now, keysLimit)| + |PassKeys(db1, MaxIdleSet, now, keysLimit)|
      && 0 <= r && (keysLimit >= 0 ==> r <= 2 * keysLimit)
  {
  }

  /** The notification m is for one of keys, which had a value in hash, and carries that value. */
  ghost predicate NotifiesFoundKey(m: Message, keys: seq<Key>, hash: map<Key, StoredValue>) {
    m.key in keys && m.key in hash && m.value == hash[m.key].value
  }

  /**
   * A free-latch sweep only appends to the channel, and every message it
   * appends is the notification of a key one of its scans found, carrying
   * that key's value as it stood before the key was deleted.
   */
  lemma SweepNotifiesOnlyFoundKeys(db: Db, listenersFor: nat -> nat, now: int, keysLimit: int, latchExpireTime: int)
    requires !LatchLive(db.latch, now)
    ensures var db0 := Acquired(db, now, latchExpireTime);
      var keys1 := PassKeys(db0, TimeoutSet, now, keysLimit);
      var db1 := AfterPass(db0, TimeoutSet, listenersFor, now, keysLimit);
      var keys2 := PassKeys(db1, MaxIdleSet, now, keysLimit);
      var d := Sweep(db, listenersFor, now, keysLimit, latchExpireTime).db;
      && |db.published| <= |d.published|
      && (forall i :: 0 <= i < |db.published| ==> d.published[i] == db.published[i])
      && (forall i :: |db.published| <= i < |d.published| ==>
            NotifiesFoundKey(d.published[i], keys1, db.hash) || NotifiesFoundKey(d.published[i], keys2, db1.hash))
  {
    var db0 := Acquired(db, now, latchExpireTime);
    var keys1 := PassKeys(db0, TimeoutSet, now, keysLimit);
    var db1 := AfterPass(db0, TimeoutSet, listenersFor, now, keysLimit);
    var keys2 := PassKeys(db1, MaxIdleSet, now, keysLimit);
    var n1 := Notifications(keys1, db.hash, listenersFor, |db.published|);
    var n2 := Notifications(keys2, db1.hash, listenersFor, |db1.published|);
    SweepPublishes(db, listenersFor, now, keysLimit, latchExpireTime);
    NotificationsValued(keys1, db.hash, listenersFor, |db.published|);
    NotificationsValued(keys2, db1.hash, listenersFor, |db1.published|);
    AppendedMessages(db.published, n1, n2, keys1, db.hash, keys2, db1.hash);
  }

  lemma AppendedMessages(pre: seq<Message>, n1: seq<Message>, n2: seq<Message>,
                         keys1: seq<Key>, hash1: map<Key, StoredValue>, keys2: seq<Key>, hash2: map<Key, StoredValue>)
    requires forall m :: m in n1 ==> NotifiesFoundKey(m, keys1, hash1)
    requires forall m :: m in n2 ==> NotifiesFoundKey(m, keys2, hash2)
    ensures var pub := pre + n1 + n2;
      forall i :: |pre| <= i < |pub| ==> NotifiesFoundKey(pub[i], keys1, hash1) || NotifiesFoundKey(pub[i], keys2, hash2)
  {
    var pub := pre + n1 + n2;
    forall i | |pre| <= i < |pub|
      ensures NotifiesFoundKey(pub[i], keys1, hash1) || NotifiesFoundKey(pub[i], keys2, hash2)
    {
      var j := i - |pre|;
      if j < |n1| {
        assert pub[i] == n1[j];
      } else {
        assert pub[i] == n2[j - |n1|];
      }
    }
  }

  /** What a free-latch sweep appends to the channel: the first loop's messages, then the second's. */
  lemma SweepPublishes(db: Db, listenersFor: nat -> nat, now: int, keysLimit: int, latchExpireTime: int)
    requires !LatchLive(db.latch, now)
    ensures var db0 := Acquired(db, now, latchExpireTime);
      var keys1 := PassKeys(db0, TimeoutSet, now, keysLimit);
      var db1 := AfterPass(db0, TimeoutSet, listenersFor, now, keysLimit);
      var keys2 := PassKeys(db1, MaxIdleSet, now, keysLimit);
      var n1 := Notifications(keys1, db.hash, listenersFor, |db.published|);
      && db1.published == db.published + n1
      && Sweep(db, listenersFor, now, keysLimit, latchExpireTime).db.published
           == db.published + n1 + Notifications(keys2, db1.hash, listenersFor, |db1.published|)
  {
    var db0 := Acquired(db, now, latchExpireTime);
    AfterPassPublishes(db0, TimeoutSet, listenersFor, now, keysLimit);
    AfterPassPublishes(AfterPass(db0, TimeoutSet, listenersFor, now, keysLimit), MaxIdleSet, listenersFor, now, keysLimit);
  }

  lemma AfterPassPublishes(db: Db, which: ZKey, listenersFor: nat -> nat, now: int, keysLimit: int)
    ensures AfterPass(db, which, listenersFor, now, keysLimit).published
         == db.published + Notifications(PassKeys(db, which, now, keysLimit), db.hash, listenersFor, |db.published|)
  {
  }

  /** Every published notification is for a found key that had a value, and carries that value. */
  lemma NotificationsValued(keys: seq<Key>, hash: map<Key, StoredValue>, listenersFor: nat -> nat, n: nat)
    ensures forall m :: m in Notifications(keys, hash, listenersFor, n) ==> NotifiesFoundKey(m, keys, hash)
  {
    NotificationsArePrefix(keys, hash, listenersFor, n);
    var ns, all := Notifications(keys, hash, listenersFor, n), ValuedMessages(keys, hash);
    forall m | m in ns ensures m in all {
      assert ns == all[..|ns|];
    }
  }

  /** The notification loop, a Lua 'for ... ipairs' with a 'break'. */
  method NotifyExpired(store: Store, keys: seq<Key>)
    modifies store
    ensures store.State() == Notified(old(store.State()), keys, store.listenersFor)
  {
    ghost var db := store.State();
    var i := 0;
    while i < |keys|
      invariant 0 <= i <= |keys|
      invariant store.State() == db.(published := store.published)
      invariant db.published + Notifications(keys, db.hash, store.listenersFor, |db.published|)
             == store.published + Notifications(keys[i..], db.hash, store.listenersFor, |store.published|)
    {
      var key := keys[i];
      var v := store.HGet(key);
      if v.Some? {
        var msg := Message(key, v.value.value);
        var listeners := store.Publish(msg);
        if listeners == 0 {
          break;
        }
      }
      i := i + 1;
    }
  }

  lemma DeletedNone(db: Db)
    ensures Deleted(db, []) == db
  {
    RemEmpty(db.timeoutSet);
    RemEmpty(db.maxIdleSet);
    RemEmpty(db.lastAccessSet);
    assert SetOf([]) == {};
    assert db.hash - SetOf([]) == db.hash;
  }

  lemma DeletedTwice(db: Db, a: seq<Key>, b: seq<Key>)
    ensures Deleted(Deleted(db, a), b) == Deleted(db, a + b)
  {
    assert SetOf(a + b) == SetOf(a) + SetOf(b);
    RemRem(db.timeoutSet, SetOf(a), SetOf(b));
    RemRem(db.maxIdleSet, SetOf(a), SetOf(b));
    RemRem(db.lastAccessSet, SetOf(a), SetOf(b));
    assert (db.hash - SetOf(a)) - SetOf(b) == db.hash - SetOf(a + b);
  }

  /** One round of the delete loop: ZREM of the chunk from the three sets, then HDEL from the hash. */
  method DeleteChunk(store: Store, chunk: seq<Key>)
    requires store.Valid()
    modifies store
    ensures store.Valid()
    ensures store.State() == Deleted(old(store.State()), chunk)
  {
    store.ZRem(LastAccessSet, chunk);
    store.ZRem(MaxIdleSet, chunk);
    store.ZRem(TimeoutSet, chunk);
    store.HDel(chunk);
  }

  /**
   * The delete loop, 'for i = 1, #keys, 5000': each round removes the keys
   * at positions i .. min(i + 4999, #keys) (1-based) from the last-access,
   * max-idle and timeout sets and from the hash.  The rounds cover exactly
   * positions 1 .. #keys.
   */
  method DeleteInChunks(store: Store, keys: seq<Key>)
    requires store.Valid()
    modifies store
    ensures store.Valid()
    ensures store.State() == Deleted(old(store.State()), keys)
  {
    ghost var db := store.State();
    DeletedNone(db);
    var n := |keys|;
    var i := 1;
    ghost var done := 0;
    while i <= n
      invariant i >= 1 && (i - 1) % ChunkSize == 0
      invariant done == (if i - 1 < n then i - 1 else n)
      invariant store.Valid()
      invariant store.State() == Deleted(db, keys[..done])
      decreases n + ChunkSize - i
    {
      var hi := if i + ChunkSize - 1 < n then i + ChunkSize - 1 else n;
      var chunk := keys[i - 1..hi];
      DeleteChunk(store, chunk);
      DeletedTwice(db, keys[..i - 1], chunk);
      assert keys[..i - 1] + chunk == keys[..hi];
      i := i + ChunkSize;
      done := hi;
    }
    assert keys[..n] == keys;
  }

  /** The Lua script of the sweep, run atomically by the server. */
  method EvalSweep(store: Store, now: int, keysLimit: int, latchExpireTime: int) returns (r: int)
    requires store.Valid()
    modifies store
    ensures store.Valid()
    ensures SweepOutcome(r, store.State()) == Sweep(old(store.State()), store.listenersFor, now, keysLimit, latchExpireTime)
  {
    var acquired := store.SetNx(1, now);
    if acquired == 0 {
      return -1;
    }
    store.Expire(latchExpireTime, now);
    var expiredKeys1 := store.ZRangeByScore(TimeoutSet, 0, now, keysLimit);
    NotifyExpired(store, expiredKeys1);
    DeleteInChunks(store, expiredKeys1);
    var expiredKeys2 := store.ZRangeByScore(MaxIdleSet, 0, now, keysLimit);
    NotifyExpired(store, expiredKeys2);
    DeleteInChunks(store, expiredKeys2);
    r := |expiredKeys1| + |expiredKeys2|;
  }

  /** The registry of scheduled eviction tasks, by map name. */
  class EvictionScheduler {
    var tasks: set<string>

    constructor (tasks: set<string>)
      ensures this.tasks == tasks
    {
      this.tasks := tasks;
    }

    method Remove(name: string)
      modifies this
      ensures tasks == old(tasks) - {name}
    {
      tasks := tasks - {name};
    }
  }

  class MapCacheEvictionTask {
    const name: string
    const timeoutSetName: string
    const maxIdleSetName: string
    const expiredChannelName: string
    const lastAccessTimeSetName: string
    const executeTaskOnceLatchName: string
    const removeEmpty: bool
    const evictionScheduler: EvictionScheduler
    const publishCommand: string
    /** The current rescheduling delay in seconds and the per-scan key limit, kept by the task's scheduling loop. */
    var delay: int
    const keysLimit: int

    constructor (name: string, timeoutSetName: string, maxIdleSetName: string, expiredChannelName: string,
                 lastAccessTimeSetName: string, removeEmpty: bool, evictionScheduler: EvictionScheduler,
                 publishCommand: string, delay: int, keysLimit: int)
      ensures this.name == name && this.timeoutSetName == timeoutSetName && this.maxIdleSetName == maxIdleSetName
      ensures this.expiredChannelName == expiredChannelName && this.lastAccessTimeSetName == lastAccessTimeSetName
      ensures executeTaskOnceLatchName == LatchName(name)
      ensures this.removeEmpty == removeEmpty && this.evictionScheduler == evictionScheduler
      ensures this.publishCommand == publishCommand && this.delay == delay && this.keysLimit == keysLimit
    {
      this.name := name;
      this.timeoutSetName := timeoutSetName;
      this.maxIdleSetName := maxIdleSetName;
      this.expiredChannelName := expiredChannelName;
      this.lastAccessTimeSetName := lastAccessTimeSetName;
      this.executeTaskOnceLatchName := PrefixName(LatchPrefix, name);
      this.removeEmpty := removeEmpty;
      this.evictionScheduler := evictionScheduler;
      this.publishCommand := publishCommand;
      this.delay := delay;
      this.keysLimit := keysLimit;
    }

    /**
     * One run: the sweep script with the latch lifetime min(delay, 30), then,
     * with removeEmpty, HLEN of the map and, when it is 0, deregistration of
     * the task and DEL of the map.  The sweep's count (or -1) is returned
     * either way; the cleanup also follows a contended sweep.
     */
    method Execute(store: Store, now: int) returns (r: int)
      requires store.Valid()
      modifies store, evictionScheduler
      ensures store.Valid()
      ensures var out := Sweep(old(store.State()), store.listenersFor, now, keysLimit, LatchExpireTime(delay));
        && r == out.result
        && store.State() == out.db
        && (if removeEmpty && |out.db.hash| == 0 then evictionScheduler.tasks == old(evictionScheduler.tasks) - {name}
            else evictionScheduler.tasks == old(evictionScheduler.tasks))
    {
      var latchExpireTime := LatchExpireTime(delay);
      r := EvalSweep(store, now, keysLimit, latchExpireTime);
      if removeEmpty {
        var size := store.HLen();
        if size == 0 {
          evictionScheduler.Remove(name);
          store.Del();
        }
      }
    }
  }
}
