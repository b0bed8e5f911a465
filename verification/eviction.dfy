/**
 * The garbage collector of the buffered store (`gc` in
 * CacheAndBufferLayer.js) as a function of the buffer, its scan order and
 * `bufferLength`.
 */
module Eviction {
  import opened Entries

  /** `{key, timestamp}`: an entry gc may delete. */
  datatype Candidate = Candidate(key: Key, timestamp: int)

  /** The store's buffer, the order a `for…in` scan visits it, and `bufferLength`. */
  datatype Table = Table(buffer: map<Key, Entry>, order: seq<Key>, length: int)

  /** `order` lists every resident key once, and `length` counts at least the resident entries. */
  predicate Consistent(t: Table)
  {
    && (forall k :: k in t.order ==> k in t.buffer)
    && (forall k :: k in t.buffer ==> k in t.order)
    && Distinct(t.order)
    && |t.buffer| <= t.length
  }

  function KeysOf(cs: seq<Candidate>): set<Key>
  {
    set c | c in cs :: c.key
  }

  predicate DistinctKeys(cs: seq<Candidate>)
  {
    forall i, j :: 0 <= i < j < |cs| ==> cs[i].key != cs[j].key
  }

  /** The first gc loop: one candidate per clean, not-in-flight entry, in scan order. */
  function Candidates(buffer: map<Key, Entry>, order: seq<Key>): (r: seq<Candidate>)
    ensures |r| <= |order|
    ensures forall c :: c in r ==>
      c.key in order && c.key in buffer && Evictable(buffer[c.key]) && c.timestamp == buffer[c.key].timestamp
  {
    if order == [] then []
    else
      var k := order[|order| - 1];
      Candidates(buffer, order[..|order| - 1])
        + (if k in buffer && Evictable(buffer[k]) then [Candidate(k, buffer[k].timestamp)] else [])
  }

  /** Scanning one key more appends its candidate, if it is one. */
  lemma CandidatesStep(buffer: map<Key, Entry>, order: seq<Key>, k: Key)
    ensures Candidates(buffer, order + [k])
         == Candidates(buffer, order) + (if k in buffer && Evictable(buffer[k]) then [Candidate(k, buffer[k].timestamp)] else [])
  {
    assert (order + [k])[..|order|] == order;
  }

  /**
   * Every clean, idle entry along the scan order is a candidate, with its
   * timestamp, and no key is one twice when the order has none.
   */
  lemma {:induction false} CandidatesFacts(buffer: map<Key, Entry>, order: seq<Key>)
    ensures var r := Candidates(buffer, order);
      && (forall k :: k in order && k in buffer && Evictable(buffer[k]) ==> Candidate(k, buffer[k].timestamp) in r)
      && (Distinct(order) ==> DistinctKeys(r))
  {
    if order != [] {
      var init, k := order[..|order| - 1], order[|order| - 1];
      CandidatesFacts(buffer, init);
      assert order == init + [k];
      assert Distinct(order) ==> Distinct(init);
      assert Distinct(order) ==> k !in init;
    }
  }

  predicate SortedByTime(cs: seq<Candidate>)
  {
    forall i, j :: 0 <= i < j < |cs| ==> cs[i].timestamp <= cs[j].timestamp
  }

  /** Insert `c` before the first later candidate. */
  function InsertByTime(c: Candidate, cs: seq<Candidate>): (r: seq<Candidate>)
    requires SortedByTime(cs)
    ensures |r| == |cs| + 1
    ensures r[0] == c || (cs != [] && r[0] == cs[0])
    ensures SortedByTime(r)
    ensures multiset(r) == multiset(cs) + multiset{c}
  {
    if cs == [] || c.timestamp <= cs[0].timestamp then
      [c] + cs
    else
      assert cs == [cs[0]] + cs[1..];
      [cs[0]] + InsertByTime(c, cs[1..])
  }

  /**
   * `deleteCandidates.sort((a, b) => a.timestamp - b.timestamp)`: oldest
   * first; candidates with equal timestamps keep their scan order.
   */
  function SortByTime(cs: seq<Candidate>): (r: seq<Candidate>)
    ensures SortedByTime(r)
    ensures multiset(r) == multiset(cs)
  {
    if cs == [] then []
    else
      assert cs == [cs[0]] + cs[1..];
      InsertByTime(cs[0], SortByTime(cs[1..]))
  }

  lemma PermutationMembers(a: seq<Candidate>, b: seq<Candidate>)
    requires multiset(a) == multiset(b)
    ensures forall x :: x in a <==> x in b
    ensures KeysOf(a) == KeysOf(b)
  {
    forall x ensures x in a <==> x in b {
      assert x in a <==> multiset(a)[x] > 0;
      assert x in b <==> multiset(b)[x] > 0;
    }
  }

  lemma {:induction false} InsertKeepsKeysDistinct(c: Candidate, cs: seq<Candidate>)
    requires SortedByTime(cs) && DistinctKeys(cs) && c.key !in KeysOf(cs)
    ensures DistinctKeys(InsertByTime(c, cs))
  {
    if cs != [] && c.timestamp > cs[0].timestamp {
      var rest := InsertByTime(c, cs[1..]);
      assert KeysOf(cs[1..]) <= KeysOf(cs);
      InsertKeepsKeysDistinct(c, cs[1..]);
      PermutationMembers(rest, cs[1..] + [c]);
      forall j | 0 <= j < |rest| ensures rest[j].key != cs[0].key {
        assert rest[j] in cs[1..] + [c];
      }
    }
  }

  lemma {:induction false} SortKeepsKeysDistinct(cs: seq<Candidate>)
    requires DistinctKeys(cs)
    ensures DistinctKeys(SortByTime(cs))
  {
    if cs != [] {
      var sorted := SortByTime(cs[1..]);
      SortKeepsKeysDistinct(cs[1..]);
      PermutationMembers(sorted, cs[1..]);
      InsertKeepsKeysDistinct(cs[0], sorted);
    }
  }

  /**
   * How many candidates the second gc loop deletes: it stops once
   * `bufferLength > cache/2` fails (written `2*bufferLength > cache`) or
   * the candidates run out, and not a deletion later.
   */
  function EvictionCount(length: int, cache: int, available: nat): (n: nat)
    ensures n <= available
    ensures n == available || 2 * (length - n) <= cache
    ensures n > 0 ==> 2 * (length - n + 1) > cache
    decreases available
  {
    if available == 0 || 2 * length <= cache then 0
    else 1 + EvictionCount(length - 1, cache, available - 1)
  }

  /** `order` without the deleted keys. */
  function Without(order: seq<Key>, gone: set<Key>): seq<Key>
  {
    if order == [] then []
    else
      var k := order[|order| - 1];
      Without(order[..|order| - 1], gone) + (if k in gone then [] else [k])
  }

  /** `Without` keeps exactly the keys not deleted, and no key twice when the order has none. */
  lemma {:induction false} WithoutFacts(order: seq<Key>, gone: set<Key>)
    ensures forall k :: k in Without(order, gone) <==> k in order && k !in gone
    ensures Distinct(order) ==> Distinct(Without(order, gone))
  {
    if order != [] {
      var init, k := order[..|order| - 1], order[|order| - 1];
      WithoutFacts(init, gone);
      assert order == init + [k];
      assert Distinct(order) ==> Distinct(init);
    }
  }

  /** The keys of one candidate more. */
  lemma KeysOfPrefix(cs: seq<Candidate>, j: nat)
    requires j < |cs|
    ensures KeysOf(cs[..j + 1]) == KeysOf(cs[..j]) + {cs[j].key}
  {
    assert cs[..j + 1] == cs[..j] + [cs[j]];
  }

  /** Deleting one key more from the buffer is deleting the larger set at once. */
  lemma DeleteOneMore(m: map<Key, Entry>, gone: set<Key>, k: Key)
    ensures (m - gone) - {k} == m - (gone + {k})
  {
  }

  lemma {:induction false} WithoutNothing(order: seq<Key>)
    ensures Without(order, {}) == order
  {
    if order != [] {
      var init := order[..|order| - 1];
      WithoutNothing(init);
      assert order == init + [order[|order| - 1]];
    }
  }

  /** Deleting one more key from the scan order is deleting the larger set at once. */
  lemma {:induction false} WithoutOneMore(order: seq<Key>, gone: set<Key>, k: Key)
    ensures Without(Without(order, gone), {k}) == Without(order, gone + {k})
  {
    if order != [] {
      var init, last := order[..|order| - 1], order[|order| - 1];
      WithoutOneMore(init, gone, k);
      var w := Without(init, gone);
      if last in gone {
        assert Without(order, gone) == w;
      } else {
        assert Without(order, gone) == w + [last];
        assert (w + [last])[..|w|] == w;
      }
    }
  }

  /** gc does nothing while the buffer is under capacity or caching is off. */
  predicate Idle(t: Table, cache: int)
  {
    t.length < cache || cache == 0
  }

  /** The keys gc deletes, oldest candidate first. */
  function Victims(t: Table, cache: int): set<Key>
  {
    var ranked := SortByTime(Candidates(t.buffer, t.order));
    KeysOf(ranked[..EvictionCount(t.length, cache, |ranked|)])
  }

  /** The table after `gc()`. */
  function Collected(t: Table, cache: int): (r: Table)
    ensures Idle(t, cache) ==> r == t
    ensures forall k :: k in r.buffer ==> k in t.buffer && r.buffer[k] == t.buffer[k]
    ensures r.length <= t.length
  {
    var ranked := SortByTime(Candidates(t.buffer, t.order));
    if Idle(t, cache) || ranked == [] then t
    else
      var gone := Victims(t, cache);
      Table(t.buffer - gone, Without(t.order, gone), t.length - EvictionCount(t.length, cache, |ranked|))
  }

  /** The table gc leaves once it runs, in terms of the ranked candidates. */
  lemma CollectedFrom(t: Table, cache: int, ranked: seq<Candidate>)
    requires !Idle(t, cache) && ranked == SortByTime(Candidates(t.buffer, t.order))
    ensures ranked == [] ==> Collected(t, cache) == t
    ensures ranked != [] ==>
      var gone := KeysOf(ranked[..EvictionCount(t.length, cache, |ranked|)]);
      Collected(t, cache) == Table(t.buffer - gone, Without(t.order, gone), t.length - EvictionCount(t.length, cache, |ranked|))
  {
  }

  lemma {:induction false} DistinctKeysCount(cs: seq<Candidate>)
    requires DistinctKeys(cs)
    ensures |KeysOf(cs)| == |cs|
  {
    if cs != [] {
      assert KeysOf(cs) == {cs[0].key} + KeysOf(cs[1..]) by {
        assert cs == [cs[0]] + cs[1..];
      }
      DistinctKeysCount(cs[1..]);
    }
  }

  /** What the lemmas below share: the victims are evictable, resident, and as many as gc counts. */
  lemma VictimFacts(t: Table, cache: int)
    requires Consistent(t)
    ensures var ranked := SortByTime(Candidates(t.buffer, t.order));
      && DistinctKeys(ranked)
      && Victims(t, cache) <= t.buffer.Keys
      && |Victims(t, cache)| == EvictionCount(t.length, cache, |ranked|)
      && (forall k :: k in Victims(t, cache) ==> Evictable(t.buffer[k]))
  {
    var cands := Candidates(t.buffer, t.order);
    var ranked := SortByTime(cands);
    var n := EvictionCount(t.length, cache, |ranked|);
    CandidatesFacts(t.buffer, t.order);
    PermutationMembers(ranked, cands);
    SortKeepsKeysDistinct(cands);
    assert DistinctKeys(ranked[..n]);
    DistinctKeysCount(ranked[..n]);
    assert KeysOf(ranked[..n]) <= KeysOf(ranked);
  }

  /**
   * gc keeps the bookkeeping consistent, and `bufferLength` drops by one
   * per deleted entry, so it stays equal to the entry count when it was.
   */
  lemma CollectedConsistent(t: Table, cache: int)
    requires Consistent(t)
    ensures Consistent(Collected(t, cache))
    ensures Collected(t, cache).length == t.length - (|t.buffer| - |Collected(t, cache).buffer|)
    ensures t.length == |t.buffer| ==> Collected(t, cache).length == |Collected(t, cache).buffer|
  {
    var r := Collected(t, cache);
    var ranked := SortByTime(Candidates(t.buffer, t.order));
    if !(Idle(t, cache) || ranked == []) {
      VictimFacts(t, cache);
      var gone := Victims(t, cache);
      WithoutFacts(t.order, gone);
      assert r.buffer.Keys == t.buffer.Keys - gone;
      assert |t.buffer.Keys - gone| == |t.buffer.Keys| - |gone|;
    }
  }

  /** gc deletes only clean, not-in-flight entries and changes no entry it keeps. */
  lemma CollectedKeepsBusyEntries(t: Table, cache: int)
    requires Consistent(t)
    ensures forall k :: k in Collected(t, cache).buffer ==> k in t.buffer && Collected(t, cache).buffer[k] == t.buffer[k]
    ensures forall k :: k in t.buffer && !Evictable(t.buffer[k]) ==> k in Collected(t, cache).buffer
  {
    VictimFacts(t, cache);
  }

  /** Every deleted entry is at least as old as every clean, idle entry that stays. */
  lemma CollectedOldestFirst(t: Table, cache: int)
    requires Consistent(t)
    ensures var r := Collected(t, cache);
      forall k, j :: k in t.buffer && k !in r.buffer && j in r.buffer && Evictable(r.buffer[j]) ==>
        t.buffer[k].timestamp <= r.buffer[j].timestamp
  {
    var r := Collected(t, cache);
    forall k, j | k in t.buffer && k !in r.buffer && j in r.buffer && Evictable(r.buffer[j])
      ensures t.buffer[k].timestamp <= r.buffer[j].timestamp
    {
      VictimOlderThanSurvivor(t, cache, k, j);
    }
  }

  lemma VictimOlderThanSurvivor(t: Table, cache: int, k: Key, j: Key)
    requires Consistent(t)
    requires k in t.buffer && k !in Collected(t, cache).buffer
    requires j in Collected(t, cache).buffer && Evictable(Collected(t, cache).buffer[j])
    ensures t.buffer[k].timestamp <= Collected(t, cache).buffer[j].timestamp
  {
    var ranked := SortByTime(Candidates(t.buffer, t.order));
    var n := EvictionCount(t.length, cache, |ranked|);
    SurvivorIsRanked(t, cache, j);
    var a := VictimRank(t, cache, k);
    KeptIsLater(ranked, n, a, Candidate(j, t.buffer[j].timestamp));
  }

  /** When gc runs, a clean, idle entry it keeps is a ranked candidate that is not a victim. */
  lemma SurvivorIsRanked(t: Table, cache: int, j: Key)
    requires Consistent(t) && !Idle(t, cache)
    requires j in Collected(t, cache).buffer && Evictable(Collected(t, cache).buffer[j])
    ensures var ranked := SortByTime(Candidates(t.buffer, t.order));
      && j in t.buffer && Collected(t, cache).buffer[j] == t.buffer[j]
      && Candidate(j, t.buffer[j].timestamp) in ranked
      && j !in KeysOf(ranked[..EvictionCount(t.length, cache, |ranked|)])
  {
    var cands := Candidates(t.buffer, t.order);
    var ranked := SortByTime(cands);
    CollectedKeepsBusyEntries(t, cache);
    CandidatesFacts(t.buffer, t.order);
    PermutationMembers(ranked, cands);
  }

  /** A deleted entry is among the first candidates in time order, at the position returned. */
  lemma VictimRank(t: Table, cache: int, k: Key) returns (a: nat)
    requires Consistent(t)
    requires k in t.buffer && k !in Collected(t, cache).buffer
    ensures var ranked := SortByTime(Candidates(t.buffer, t.order));
      && a < EvictionCount(t.length, cache, |ranked|)
      && ranked[a] == Candidate(k, t.buffer[k].timestamp)
  {
    var cands := Candidates(t.buffer, t.order);
    var ranked := SortByTime(cands);
    var n := EvictionCount(t.length, cache, |ranked|);
    assert k in KeysOf(ranked[..n]);
    a := KeyPosition(ranked[..n], k);
    RankedIsCandidate(t, ranked[a]);
  }

  /** Where a key occurs in a list of candidates. */
  lemma KeyPosition(cs: seq<Candidate>, k: Key) returns (i: nat)
    requires k in KeysOf(cs)
    ensures i < |cs| && cs[i].key == k
  {
    var c :| c in cs && c.key == k;
    i :| i < |cs| && cs[i] == c;
  }

  /** A ranked candidate carries the timestamp of its entry. */
  lemma RankedIsCandidate(t: Table, c: Candidate)
    requires c in SortByTime(Candidates(t.buffer, t.order))
    ensures c.key in t.buffer && c == Candidate(c.key, t.buffer[c.key].timestamp)
  {
    var cands := Candidates(t.buffer, t.order);
    CandidatesFacts(t.buffer, t.order);
    PermutationMembers(SortByTime(cands), cands);
  }

  /** In a time-sorted list, a candidate outside the first `n` is no earlier than one inside. */
  lemma KeptIsLater(ranked: seq<Candidate>, n: nat, a: nat, c: Candidate)
    requires SortedByTime(ranked) && a < n <= |ranked|
    requires c in ranked && c.key !in KeysOf(ranked[..n])
    ensures ranked[a].timestamp <= c.timestamp
  {
    var b :| 0 <= b < |ranked| && ranked[b] == c;
    assert n <= b;
  }

  /**
   * A gc that runs stops at half capacity (`2*bufferLength <= cache`) or
   * once no clean, idle entry is left.
   */
  lemma CollectedStops(t: Table, cache: int)
    requires Consistent(t)
    requires !Idle(t, cache)
    ensures var r := Collected(t, cache);
      2 * r.length <= cache || forall k :: k in r.buffer ==> !Evictable(r.buffer[k])
  {
    var r := Collected(t, cache);
    var cands := Candidates(t.buffer, t.order);
    var ranked := SortByTime(cands);
    var n := EvictionCount(t.length, cache, |ranked|);
    if 2 * r.length > cache {
      assert ranked != [] ==> n == |ranked|;
      CandidatesFacts(t.buffer, t.order);
      PermutationMembers(ranked, cands);
      forall k | k in t.buffer && Evictable(t.buffer[k]) ensures k !in r.buffer {
        assert Candidate(k, t.buffer[k].timestamp) in ranked;
        assert ranked[..n] == ranked;
        assert k in KeysOf(ranked);
      }
    }
  }

  /** gc does not delete one entry more than it must: before its last deletion the count was above half. */
  lemma CollectedNoExtra(t: Table, cache: int)
    requires Consistent(t)
    requires !Idle(t, cache)
    ensures var r := Collected(t, cache);
      r.length < t.length ==> 2 * (r.length + 1) > cache
  {
  }
}
