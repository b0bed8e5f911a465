/**
 * The reads and buffered writes of the store (`get` and `set` in
 * CacheAndBufferLayer.js) as functions of the buffer table, and what they
 * keep: the bookkeeping, the entries they do not touch, and the write
 * callbacks waiting for the next flush.
 */
module Buffering {
  import opened Wrappers
  import opened Values
  import opened Entries
  import opened Eviction
  import opened Flushing

  /**
   * A `get` is answered from the buffer when caching is on and the key is
   * resident, or when caching is off and the key holds a write not yet
   * handed to the backend.
   */
  predicate IsHit(buffer: map<Key, Entry>, key: Key, cache: int)
    ensures IsHit(buffer, key, cache) ==> key in buffer
    ensures cache < 0 ==> !IsHit(buffer, key, cache)
    ensures cache >= 0 && key in buffer && buffer[key].dirty ==> IsHit(buffer, key, cache)
  {
    (cache > 0 && key in buffer) || (cache == 0 && key in buffer && buffer[key].dirty)
  }

  /** A hit refreshes the entry's timestamp. */
  function Touched(t: Table, key: Key, now: int): (r: Table)
    requires key in t.buffer
  {
    t.(buffer := t.buffer[key := t.buffer[key].(timestamp := now)])
  }

  /** The entry a `get` caches: clean, not being written, stamped now. */
  function Fetched(v: Value, now: int): Entry
  {
    Entry(v, false, false, now, [])
  }

  /**
   * A miss: the fetched value is cached when caching is on, `bufferLength`
   * grows by one either way, and gc runs.
   */
  function AfterFetch(t: Table, key: Key, v: Value, now: int, cache: int): (r: Table)
    ensures cache == 0 ==> r == t.(length := t.length + 1)
    ensures cache > 0 && key in r.buffer ==> r.buffer[key] == Fetched(v, now)
    ensures forall k :: k in r.buffer && k != key ==> k in t.buffer && r.buffer[k] == t.buffer[k]
    ensures r.length <= t.length + 1
  {
    Collected(Grown(t, key, v, now, cache), cache)
  }

  /**
   * The entry a buffered write leaves before its callback is added: the
   * resident one, or a new one, with the value, dirty, stamped now.
   */
  function Written(t: Table, key: Key, v: Value, now: int): Entry
  {
    var base := if key in t.buffer then t.buffer[key] else Entry(Null, false, false, now, []);
    base.(value := v, dirty := true, timestamp := now)
  }

  /** The table after writing the entry, before gc: a new key is appended to the scan order and counted. */
  function Stored(t: Table, key: Key, v: Value, now: int): Table
  {
    if key in t.buffer then Table(t.buffer[key := Written(t, key, v, now)], t.order, t.length)
    else Table(t.buffer[key := Written(t, key, v, now)], t.order + [key], t.length + 1)
  }

  /**
   * A buffered `set`: store the entry, run gc, then append the write
   * callback to the entry's callbacks.
   */
  function BufferedWrite(t: Table, key: Key, v: Value, now: int, cb: Callback, cache: int): (r: Table)
    ensures key in r.buffer ==>
      && r.buffer[key].value == v && r.buffer[key].dirty && r.buffer[key].timestamp == now
      && r.buffer[key].callbacks != [] && r.buffer[key].callbacks[|r.buffer[key].callbacks| - 1] == cb
    ensures r.length <= t.length + 1
  {
    Appended(Collected(Stored(t, key, v, now), cache), key, cb)
  }

  /**
   * `callbacks.push(cb)` on the entry of `key`. The entry is always
   * resident when a buffered write gets here (gc keeps dirty entries);
   * a missing one is left missing.
   */
  function Appended(t: Table, key: Key, cb: Callback): Table
  {
    if key in t.buffer then
      var e := t.buffer[key];
      t.(buffer := t.buffer[key := e.(callbacks := e.callbacks + [cb])])
    else t
  }

  lemma StoredConsistent(t: Table, key: Key, v: Value, now: int)
    requires Consistent(t)
    ensures Consistent(Stored(t, key, v, now))
  {
    if key !in t.buffer {
      var s := Stored(t, key, v, now);
      assert s.buffer.Keys == t.buffer.Keys + {key};
      forall i, j | 0 <= i < j < |s.order| ensures s.order[i] != s.order[j] {
        if j == |t.order| { assert s.order[i] in t.order; }
      }
    }
  }

  lemma FetchGrownConsistent(t: Table, key: Key, v: Value, now: int)
    requires Consistent(t)
    ensures Consistent(Table(t.buffer[key := Fetched(v, now)], if key in t.buffer then t.order else t.order + [key], t.length + 1))
  {
    var s := Table(t.buffer[key := Fetched(v, now)], if key in t.buffer then t.order else t.order + [key], t.length + 1);
    if key !in t.buffer {
      assert s.buffer.Keys == t.buffer.Keys + {key};
      forall i, j | 0 <= i < j < |s.order| ensures s.order[i] != s.order[j] {
        if j == |t.order| { assert s.order[i] in t.order; }
      }
    }
  }

  /** gc hands no waiting callback anywhere: the callbacks for the next flush stay as they were. */
  lemma PendingAfterGc(t: Table, cache: int)
    requires Consistent(t)
    ensures Pending(Collected(t, cache).buffer, Collected(t, cache).order) == Pending(t.buffer, t.order)
  {
    var ranked := SortByTime(Candidates(t.buffer, t.order));
    if !(Idle(t, cache) || ranked == []) {
      VictimFacts(t, cache);
      PendingWithout(t.buffer, t.order, Victims(t, cache));
    }
  }

  /** A hit keeps the bookkeeping and the waiting callbacks, and changes only the entry's timestamp. */
  lemma TouchedKeeps(t: Table, key: Key, now: int)
    requires Consistent(t) && key in t.buffer
    ensures Consistent(Touched(t, key, now))
    ensures Pending(Touched(t, key, now).buffer, t.order) == Pending(t.buffer, t.order)
    ensures Touched(t, key, now).buffer[key] == t.buffer[key].(timestamp := now)
  {
    PendingCongruent(Touched(t, key, now).buffer, t.buffer, t.order);
  }

  /** The table a miss builds before gc runs. */
  function Grown(t: Table, key: Key, v: Value, now: int, cache: int): Table
  {
    if cache > 0 then
      Table(t.buffer[key := Fetched(v, now)], if key in t.buffer then t.order else t.order + [key], t.length + 1)
    else
      t.(length := t.length + 1)
  }

  lemma GrownKeeps(t: Table, key: Key, v: Value, now: int, cache: int)
    requires Consistent(t) && (cache > 0 ==> key !in t.buffer)
    ensures Consistent(Grown(t, key, v, now, cache))
    ensures cache > 0 && t.length == |t.buffer| ==> Grown(t, key, v, now, cache).length == |Grown(t, key, v, now, cache).buffer|
  {
    if cache > 0 {
      var g := Grown(t, key, v, now, cache);
      FetchGrownConsistent(t, key, v, now);
      assert g.buffer.Keys == t.buffer.Keys + {key};
    }
  }

  /** A cached read adds a clean entry, which holds nothing for the next flush. */
  lemma GrownPending(t: Table, key: Key, v: Value, now: int, cache: int)
    requires Consistent(t) && (cache > 0 ==> key !in t.buffer)
    ensures Pending(Grown(t, key, v, now, cache).buffer, Grown(t, key, v, now, cache).order) == Pending(t.buffer, t.order)
  {
    if cache > 0 {
      var g := Grown(t, key, v, now, cache);
      PendingStep(g.buffer, t.order, key);
      PendingOutside(t.buffer, t.order, key, Fetched(v, now));
    }
  }

  /**
   * A miss keeps the bookkeeping and the waiting callbacks; with caching
   * on and `bufferLength` counting the entries, it still does afterwards.
   */
  lemma AfterFetchKeeps(t: Table, key: Key, v: Value, now: int, cache: int)
    requires Consistent(t) && (cache > 0 ==> key !in t.buffer)
    ensures var r := AfterFetch(t, key, v, now, cache);
      && Consistent(r)
      && Pending(r.buffer, r.order) == Pending(t.buffer, t.order)
      && (cache > 0 && t.length == |t.buffer| ==> r.length == |r.buffer|)
  {
    var g := Grown(t, key, v, now, cache);
    assert AfterFetch(t, key, v, now, cache) == Collected(g, cache);
    GrownKeeps(t, key, v, now, cache);
    GrownPending(t, key, v, now, cache);
    CollectedConsistent(g, cache);
    PendingAfterGc(g, cache);
  }

  /**
   * A miss changes no other entry: each is kept as it was unless gc
   * deleted it, and gc deletes no dirty or in-flight entry.
   */
  lemma AfterFetchOthers(t: Table, key: Key, v: Value, now: int, cache: int)
    requires Consistent(t) && (cache > 0 ==> key !in t.buffer)
    ensures var r := AfterFetch(t, key, v, now, cache);
      && (forall k :: k in r.buffer && k != key ==> k in t.buffer && r.buffer[k] == t.buffer[k])
      && (forall k :: k in t.buffer && !Evictable(t.buffer[k]) ==> k in r.buffer)
  {
    var g := Grown(t, key, v, now, cache);
    var r := Collected(g, cache);
    assert AfterFetch(t, key, v, now, cache) == r;
    GrownKeeps(t, key, v, now, cache);
    CollectedKeepsBusyEntries(g, cache);
    forall k | k in r.buffer && k != key ensures k in t.buffer && r.buffer[k] == t.buffer[k] {
      assert r.buffer[k] == g.buffer[k];
    }
    forall k | k in t.buffer && !Evictable(t.buffer[k]) ensures k in r.buffer {
      assert k in g.buffer && g.buffer[k] == t.buffer[k];
    }
  }

  /**
   * Read your write: after a buffered write the key is a hit (for any
   * cache size that is not negative) and holds the written value, dirty,
   * stamped now, with the write callback appended after the ones already
   * waiting.
   */
  lemma WriteThenRead(t: Table, key: Key, v: Value, now: int, cb: Callback, cache: int)
    requires Consistent(t) && cache >= 0
    ensures var r := BufferedWrite(t, key, v, now, cb, cache);
      && IsHit(r.buffer, key, cache)
      && r.buffer[key].value == v && r.buffer[key].dirty && r.buffer[key].timestamp == now
      && r.buffer[key].callbacks == (if key in t.buffer then t.buffer[key].callbacks else []) + [cb]
  {
    var s := Stored(t, key, v, now);
    StoredConsistent(t, key, v, now);
    CollectedKeepsBusyEntries(s, cache);
    var c := Collected(s, cache);
    assert key in c.buffer && c.buffer[key] == s.buffer[key];
    var r := Appended(c, key, cb);
    assert BufferedWrite(t, key, v, now, cb, cache) == r;
    assert r.buffer[key] == s.buffer[key].(callbacks := s.buffer[key].callbacks + [cb]);
  }

  lemma StoredShape(t: Table, key: Key, v: Value, now: int)
    requires Consistent(t)
    ensures var s := Stored(t, key, v, now);
      && Consistent(s)
      && s.length == (if key in t.buffer then t.length else t.length + 1)
      && |s.buffer| == (if key in t.buffer then |t.buffer| else |t.buffer| + 1)
  {
    var s := Stored(t, key, v, now);
    StoredConsistent(t, key, v, now);
    if key in t.buffer {
      assert s.buffer.Keys == t.buffer.Keys;
    } else {
      assert s.buffer.Keys == t.buffer.Keys + {key};
    }
  }

  /** A write leaves every clean entry without callbacks (the written one is dirty). */
  lemma StoredClean(t: Table, key: Key, v: Value, now: int)
    requires forall k :: k in t.buffer && !t.buffer[k].dirty ==> t.buffer[k].callbacks == []
    ensures var s := Stored(t, key, v, now);
      forall k :: k in s.buffer && !s.buffer[k].dirty ==> s.buffer[k].callbacks == []
  {
  }

  /** A write neither starts nor ends a flight: an entry is being written afterwards iff it was before. */
  lemma StoredBusy(t: Table, key: Key, v: Value, now: int)
    ensures var s := Stored(t, key, v, now);
      && t.buffer.Keys <= s.buffer.Keys
      && forall k :: k in s.buffer ==> (s.buffer[k].writingInProgress <==> k in t.buffer && t.buffer[k].writingInProgress)
  {
  }

  lemma StoredPendingNew(t: Table, key: Key, v: Value, now: int)
    requires Consistent(t) && key !in t.buffer
    ensures var s := Stored(t, key, v, now);
      Pending(s.buffer, s.order) == Pending(t.buffer, t.order)
  {
    var s := Stored(t, key, v, now);
    PendingStep(s.buffer, t.order, key);
    PendingOutside(t.buffer, t.order, key, Written(t, key, v, now));
    assert CallbacksOf(s.buffer, key) == [];
  }

  lemma StoredPendingResident(t: Table, key: Key, v: Value, now: int)
    requires Consistent(t) && key in t.buffer
    requires !t.buffer[key].dirty ==> t.buffer[key].callbacks == []
    ensures var s := Stored(t, key, v, now);
      multiset(Pending(s.buffer, s.order)) == multiset(Pending(t.buffer, t.order))
  {
    var s := Stored(t, key, v, now);
    PendingUpdate(t.buffer, t.order, key, Written(t, key, v, now));
    var c := t.buffer[key].callbacks;
    assert CallbacksOf(t.buffer, key) == c && CallbacksOf(s.buffer, key) == c;
    MultisetCancel(multiset(Pending(s.buffer, s.order)), multiset(Pending(t.buffer, t.order)), multiset(c), multiset{});
  }

  /**
   * Storing the written entry, before gc, keeps the bookkeeping and the
   * waiting callbacks (as a multiset), when clean entries hold none.
   */
  lemma StoredKeeps(t: Table, key: Key, v: Value, now: int)
    requires Consistent(t)
    requires forall k :: k in t.buffer && !t.buffer[k].dirty ==> t.buffer[k].callbacks == []
    ensures var s := Stored(t, key, v, now);
      && Consistent(s)
      && s.length == (if key in t.buffer then t.length else t.length + 1)
      && |s.buffer| == (if key in t.buffer then |t.buffer| else |t.buffer| + 1)
      && multiset(Pending(s.buffer, s.order)) == multiset(Pending(t.buffer, t.order))
      && (forall k :: k in s.buffer && !s.buffer[k].dirty ==> s.buffer[k].callbacks == [])
  {
    StoredShape(t, key, v, now);
    StoredClean(t, key, v, now);
    if key in t.buffer {
      StoredPendingResident(t, key, v, now);
    } else {
      StoredPendingNew(t, key, v, now);
    }
  }

  /** Appending a callback to a dirty entry adds exactly that callback to the waiting ones. */
  lemma AppendedPending(t: Table, key: Key, cb: Callback)
    requires Consistent(t) && key in t.buffer && t.buffer[key].dirty
    ensures Consistent(Appended(t, key, cb))
    ensures multiset(Pending(Appended(t, key, cb).buffer, t.order)) == multiset(Pending(t.buffer, t.order)) + multiset{cb}
  {
    var a := Appended(t, key, cb);
    assert a.buffer.Keys == t.buffer.Keys;
    var e := a.buffer[key];
    assert a.buffer == t.buffer[key := e];
    PendingUpdate(t.buffer, t.order, key, e);
    var c := t.buffer[key].callbacks;
    assert CallbacksOf(t.buffer, key) == c;
    assert CallbacksOf(t.buffer[key := e], key) == c + [cb];
    MultisetCancel(multiset(Pending(a.buffer, t.order)), multiset(Pending(t.buffer, t.order)), multiset(c), multiset{cb});
  }

  lemma AppendedKeeps(c: Table, key: Key, cb: Callback)
    requires Consistent(c) && key in c.buffer && c.buffer[key].dirty
    requires forall k :: k in c.buffer && !c.buffer[k].dirty ==> c.buffer[k].callbacks == []
    ensures var r := Appended(c, key, cb);
      && Consistent(r)
      && (forall k :: k in r.buffer && k != key ==> r.buffer[k] == c.buffer[k])
      && (forall k :: k in r.buffer && !r.buffer[k].dirty ==> r.buffer[k].callbacks == [])
      && r.buffer.Keys == c.buffer.Keys && r.order == c.order && r.length == c.length
  {
    var r := Appended(c, key, cb);
    assert r.buffer.Keys == c.buffer.Keys;
  }

  /** One callback joins the ones waiting for the next flush. */
  lemma BufferedWritePending(t: Table, key: Key, v: Value, now: int, cb: Callback, cache: int)
    requires Consistent(t)
    requires forall k :: k in t.buffer && !t.buffer[k].dirty ==> t.buffer[k].callbacks == []
    ensures var r := BufferedWrite(t, key, v, now, cb, cache);
      multiset(Pending(r.buffer, r.order)) == multiset(Pending(t.buffer, t.order)) + multiset{cb}
  {
    var s := Stored(t, key, v, now);
    StoredKeeps(t, key, v, now);
    CollectedKeepsBusyEntries(s, cache);
    PendingAfterGc(s, cache);
    var c := Collected(s, cache);
    assert key in c.buffer && c.buffer[key].dirty;
    CollectedConsistent(s, cache);
    AppendedPending(c, key, cb);
    assert BufferedWrite(t, key, v, now, cb, cache) == Appended(c, key, cb);
  }

  /**
   * Every other entry is kept as it was unless gc deleted it.
   */
  lemma BufferedWriteOthers(t: Table, key: Key, v: Value, now: int, cb: Callback, cache: int)
    requires Consistent(t)
    ensures var r := BufferedWrite(t, key, v, now, cb, cache);
      forall k :: k in r.buffer && k != key ==> k in t.buffer && r.buffer[k] == t.buffer[k]
  {
    var s := Stored(t, key, v, now);
    var c := Collected(s, cache);
    var r := Appended(c, key, cb);
    assert BufferedWrite(t, key, v, now, cb, cache) == r;
    forall k | k in r.buffer && k != key ensures k in t.buffer && r.buffer[k] == t.buffer[k] {
      assert r.buffer[k] == c.buffer[k];
      assert c.buffer[k] == s.buffer[k];
    }
  }

  /** A buffered write loses no dirty or in-flight entry. */
  lemma BufferedWriteKeepsBusy(t: Table, key: Key, v: Value, now: int, cb: Callback, cache: int)
    requires Consistent(t)
    ensures var r := BufferedWrite(t, key, v, now, cb, cache);
      forall k :: k in t.buffer && !Evictable(t.buffer[k]) ==> k in r.buffer
  {
    var s := Stored(t, key, v, now);
    StoredConsistent(t, key, v, now);
    CollectedKeepsBusyEntries(s, cache);
    var c := Collected(s, cache);
    assert BufferedWrite(t, key, v, now, cb, cache) == Appended(c, key, cb);
    forall k | k in t.buffer && !Evictable(t.buffer[k]) ensures k in c.buffer {
      if k != key {
        assert s.buffer[k] == t.buffer[k];
      }
    }
  }

  /**
   * With caching off, a key whose write has been handed to the backend
   * is no longer answered from the buffer: a `get` during the flight goes
   * to the backend.
   */
  lemma InFlightReadMisses(buffer: map<Key, Entry>, key: Key)
    ensures !IsHit(MarkInFlight(buffer), key, 0)
  {
  }

  /** With caching on, a resident key stays a hit while its write is in flight. */
  lemma InFlightReadHits(buffer: map<Key, Entry>, key: Key, cache: int)
    requires cache > 0 && key in buffer
    ensures IsHit(MarkInFlight(buffer), key, cache)
    ensures MarkInFlight(buffer)[key].value == buffer[key].value
  {
  }
}
