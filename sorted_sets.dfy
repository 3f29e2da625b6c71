/**
 * Redis sorted sets, as values.  A sorted set is the sequence of its members
 * in the order the server keeps them: ascending by score, each key at most
 * once.  Scores are the millisecond timestamps the map cache stores.
 */
module SortedSets {

  type Key = string

  datatype Member = Member(key: Key, score: int)

  type ZSet = seq<Member>

  ghost predicate SortedByScore(z: ZSet) {
    forall i, j :: 0 <= i < j < |z| ==> z[i].score <= z[j].score
  }

  ghost predicate DistinctKeys(z: ZSet) {
    forall i, j :: 0 <= i < j < |z| ==> z[i].key != z[j].key
  }

  /** What the server guarantees of every sorted set it holds. */
  ghost predicate ValidZSet(z: ZSet) {
    SortedByScore(z) && DistinctKeys(z)
  }

  /** The keys of a sequence of members, in the same order. */
  function KeysOf(ms: seq<Member>): (ks: seq<Key>)
    ensures |ks| == |ms|
    ensures forall i :: 0 <= i < |ms| ==> ks[i] == ms[i].key
  {
    seq(|ms|, i requires 0 <= i < |ms| => ms[i].key)
  }

  /** The set of elements of a sequence of keys. */
  function SetOf(ks: seq<Key>): (s: set<Key>)
    ensures forall k :: k in s <==> k in ks
  {
    set k | k in ks
  }

  /** The members whose score lies in [min, max], in set order. */
  function InRange(z: ZSet, min: int, max: int): (r: ZSet)
    ensures forall m :: m in r <==> m in z && min <= m.score <= max
    ensures |r| <= |z|
  {
    if z == [] then []
    else if min <= z[0].score <= max then [z[0]] + InRange(z[1..], min, max)
    else InRange(z[1..], min, max)
  }

  /** 'LIMIT 0 count': a negative count means no limit. */
  function Limit(ms: ZSet, count: int): (r: ZSet)
    ensures count < 0 ==> r == ms
    ensures count >= 0 ==> r == ms[..if count < |ms| then count else |ms|]
  {
    if count < 0 then ms else if count < |ms| then ms[..count] else ms
  }

  /** The members ZRANGEBYSCORE z min max LIMIT 0 count selects. */
  function RangeByScore(z: ZSet, min: int, max: int, count: int): ZSet {
    Limit(InRange(z, min, max), count)
  }

  /** a is b with some members left out: the members of a occur in b in the same order. */
  ghost predicate Subsequence(a: ZSet, b: ZSet)
    decreases |b|
  {
    if a == [] then true
    else if b == [] then false
    else if a[0] == b[0] then Subsequence(a[1..], b[1..])
    else Subsequence(a, b[1..])
  }

  /** ZREM of every key in ks: the members whose key is not in ks, order kept. */
  function Rem(z: ZSet, ks: set<Key>): (r: ZSet)
    ensures forall m :: m in r <==> m in z && m.key !in ks
    ensures |r| <= |z|
    ensures Subsequence(r, z)
  {
    if z == [] then []
    else if z[0].key in ks then Rem(z[1..], ks)
    else [z[0]] + Rem(z[1..], ks)
  }

  /** The set of keys a sorted set holds. */
  function Keys(z: ZSet): (s: set<Key>)
    ensures forall k :: k in s <==> exists m :: m in z && m.key == k
  {
    set m | m in z :: m.key
  }

  lemma {:induction false} InRangeSorted(z: ZSet, min: int, max: int)
    requires SortedByScore(z)
    ensures SortedByScore(InRange(z, min, max))
  {
    if z != [] {
      assert SortedByScore(z[1..]);
      InRangeSorted(z[1..], min, max);
      var t := InRange(z[1..], min, max);
      forall m | m in t ensures z[0].score <= m.score {
        assert m in z[1..];
      }
    }
  }

  lemma {:induction false} RemSorted(z: ZSet, ks: set<Key>)
    requires ValidZSet(z)
    ensures ValidZSet(Rem(z, ks))
  {
    if z != [] {
      var tail := z[1..];
      assert ValidZSet(tail);
      RemSorted(tail, ks);
      HeadBelowTail(z);
      if z[0].key !in ks {
        ConsValid(z[0], Rem(tail, ks));
      }
    }
  }

  /** A member below every member of a valid set, and with a key of its own, can lead it. */
  lemma ConsValid(h: Member, t: ZSet)
    requires ValidZSet(t)
    requires forall m :: m in t ==> h.score <= m.score && h.key != m.key
    ensures ValidZSet([h] + t)
  {
    var z := [h] + t;
    forall i, j | 0 <= i < j < |z| ensures z[i].score <= z[j].score && z[i].key != z[j].key {
      if i == 0 {
        assert z[j] in t;
      } else {
        assert z[i] == t[i - 1] && z[j] == t[j - 1];
      }
    }
  }

  lemma HeadBelowTail(z: ZSet)
    requires ValidZSet(z) && z != []
    ensures forall m :: m in z[1..] ==> z[0].score <= m.score && z[0].key != m.key
  {
    forall m | m in z[1..] ensures z[0].score <= m.score && z[0].key != m.key {
      var j :| 0 <= j < |z| - 1 && z[1..][j] == m;
      assert z[j + 1] == m;
    }
  }

  lemma {:induction false} RemEmpty(z: ZSet)
    ensures Rem(z, {}) == z
  {
    if z != [] {
      RemEmpty(z[1..]);
      assert z == [z[0]] + z[1..];
    }
  }

  lemma {:induction false} RemRem(z: ZSet, a: set<Key>, b: set<Key>)
    ensures Rem(Rem(z, a), b) == Rem(z, a + b)
  {
    if z != [] {
      RemRem(z[1..], a, b);
    }
  }

  /**
   * The scan of a sorted set returns at most count members (when count is
   * not negative), every one a member of z whose score lies in [min, max],
   * in ascending score order, and the lowest-scored ones first: a member in
   * range that was left out scores at least as high as every one returned,
   * and if fewer than count came back, none in range was left out.
   */
  lemma ScanProperties(z: ZSet, min: int, max: int, count: int)
    requires SortedByScore(z)
    ensures var r := RangeByScore(z, min, max, count);
      && (count >= 0 ==> |r| <= count)
      && (forall m :: m in r ==> m in z && min <= m.score <= max)
      && SortedByScore(r)
      && (forall m, i :: m in z && min <= m.score <= max && m !in r && 0 <= i < |r| ==> r[i].score <= m.score)
      && (count < 0 || |r| < count ==> forall m :: m in z && min <= m.score <= max ==> m in r)
  {
    var f := InRange(z, min, max);
    InRangeSorted(z, min, max);
    var n := if count < 0 || count >= |f| then |f| else count;
    assert RangeByScore(z, min, max, count) == f[..n];
    PrefixLowest(f, n);
    if n == |f| {
      assert f[..n] == f;
    }
  }

  /** A prefix of a score-sorted sequence is sorted and holds its lowest scores. */
  lemma PrefixLowest(f: ZSet, n: nat)
    requires SortedByScore(f) && n <= |f|
    ensures SortedByScore(f[..n])
    ensures forall m, i :: m in f && m !in f[..n] && 0 <= i < n ==> f[..n][i].score <= m.score
  {
    var r := f[..n];
    assert forall k :: 0 <= k < n ==> f[k] in r;
    forall m, i | m in f && m !in r && 0 <= i < n
      ensures r[i].score <= m.score
    {
      var j :| 0 <= j < |f| && f[j] == m;
      assert j >= n;
    }
  }
}
