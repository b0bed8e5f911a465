/**
 * The buffered store of CacheAndBufferLayer.js as a class: the buffer of
 * entries, the scan order of its keys, `bufferLength`, the flushing flag
 * and the pending shutdown callback, updated in place by `get`, `set`,
 * `remove`, `gc`, the two halves of `flush` and `doShutdown`.
 *
 * The wrapped backend is not called from here: a read takes the backend's
 * reply as a parameter, a direct write returns the call it makes, and a
 * flush is split into the scan (which returns the bulk) and the
 * completion (which takes the bulk's error). Callbacks are recorded in
 * `log` in the order they are called.
 */
module CacheStore {
  import opened Wrappers
  import opened Values
  import opened Entries
  import opened Eviction
  import opened Flushing
  import opened Buffering
  import opened Paths
  import Cfg = Settings

  /** A bulk handed to the backend and not yet completed. */
  datatype Flight = Flight(ops: seq<Operation>, callbacks: seq<Callback>, done: Option<Callback>)

  /**
   * What the wrapped backend's `get` answers: its error, the raw value,
   * and `JSON.parse` of the raw value (`None` when parsing throws).
   */
  datatype Reply = Reply(err: Option<Fault>, raw: Value, parsed: Option<Value>)

  /** What a read hands its callback: `(err, value)`. */
  datatype Answer = Answer(err: Option<Fault>, value: Value)

  /** The backend call a direct (unbuffered) write makes. */
  datatype Direct = DirectSet(key: Key, value: Payload) | DirectRemove(key: Key)

  /**
   * How `setSub` ends: the full value was written back (with the backend
   * call of a direct write); the read failed, and the final handler runs;
   * the walk threw a TypeError; or the walk took a case this model does not
   * follow.
   */
  datatype SubOutcome = SubWritten(direct: Option<Direct>) | SubGetFailed(err: Fault) | SubThrew | SubUnmodelled

  /** The value a backend reply yields: parsed when `json` is on, raw otherwise. */
  function Decode(reply: Reply, json: bool): Option<Value>
  {
    if json then reply.parsed else Some(reply.raw)
  }

  /** What `get` hands its callback: the buffered value on a hit, the backend's answer otherwise. */
  function GetAnswer(buffer: map<Key, Entry>, key: Key, cache: int, json: bool, reply: Reply): (r: Answer)
    ensures IsHit(buffer, key, cache) ==> r.err.None? && r.value == buffer[key].value
    ensures !IsHit(buffer, key, cache) && Decode(reply, json).None? ==> r == Answer(Some(Parse), Null)
    ensures !IsHit(buffer, key, cache) && Decode(reply, json).Some? ==> r == Answer(reply.err, Decode(reply, json).value)
  {
    if IsHit(buffer, key, cache) then Answer(None, buffer[key].value)
    else
      match Decode(reply, json)
      case None => Answer(Some(Parse), Null)
      case Some(v) => Answer(reply.err, v)
  }

  /** The table after `get`: a hit refreshes the timestamp, a parsed miss is cached and collected. */
  function AfterGet(t: Table, key: Key, now: int, cache: int, json: bool, reply: Reply): (r: Table)
    ensures IsHit(t.buffer, key, cache) ==> r.buffer.Keys == t.buffer.Keys && r.order == t.order && r.length == t.length
    ensures !IsHit(t.buffer, key, cache) && Decode(reply, json).None? ==> r == t
    ensures forall k :: k in r.buffer && k != key ==> k in t.buffer && r.buffer[k] == t.buffer[k]
    ensures r.length <= t.length + 1
  {
    if IsHit(t.buffer, key, cache) then Touched(t, key, now)
    else
      match Decode(reply, json)
      case None => t
      case Some(v) => AfterFetch(t, key, v, now, cache)
  }

  /** The default a buffered write installs when no write callback is given. */
  function CallbackOrDefault(cb: Option<Callback>): Callback
  {
    if cb.Some? then cb.value else Rethrow
  }

  /** The call of an optional callback with an error, if it is given. */
  function Notify(cb: Option<Callback>, err: Option<Fault>): seq<Invocation>
  {
    if cb.Some? then [Invocation(cb.value, err)] else []
  }

  /**
   * The backend call of a direct write: `remove` for null, otherwise `set`
   * with the value serialised when `json` is on and passed as is otherwise.
   */
  function DirectWrite(key: Key, v: Value, json: bool): (d: Direct)
    ensures d.key == key
    ensures d.DirectRemove? <==> v == Null
    ensures d.DirectSet? ==> d.value.doc == v && (d.value.Text? <==> json)
  {
    if v == Null then DirectRemove(key)
    else if json then DirectSet(key, Text(v))
    else DirectSet(key, Plain(v))
  }

  /** The `getSub` answer: the error of the read, or the walk of its value. */
  function SubAnswer(a: Answer, path: Path): Answer
  {
    if a.err.Some? then Answer(a.err, Null) else Answer(None, Walk(a.value, path))
  }

  /**
   * The `setSub` walk on the value read: with an empty path the last
   * accessor is `sub[-1]`, which is `undefined`, so the property named
   * "undefined" is assigned.
   */
  function Placement(doc: Value, path: Path, v: Value): Placed
  {
    if path == [] then Assign(doc, Key("undefined"), v) else SetPath(doc, path, v)
  }

  /**
   * The bulk's keys are distinct and resident, and they are exactly the
   * entries marked as being written.
   */
  predicate FlightMatches(buffer: map<Key, Entry>, f: Flight)
  {
    var keys := KeysOfBatch(f.ops);
    && Distinct(keys)
    && (forall k :: k in keys ==> k in buffer)
    && (forall k :: k in buffer ==> (buffer[k].writingInProgress <==> k in keys))
  }

  /**
   * The bookkeeping is consistent, with caching on `bufferLength` counts
   * the entries, and a clean entry holds no callbacks.
   */
  predicate WellFormed(t: Table, cache: int)
  {
    && Consistent(t)
    && (cache > 0 ==> t.length == |t.buffer|)
    && (forall k :: k in t.buffer && !t.buffer[k].dirty ==> t.buffer[k].callbacks == [])
  }

  /** Outside a flush nothing is being written; a flight's keys are exactly the entries being written. */
  predicate FlightAgrees(buffer: map<Key, Entry>, isFlushing: bool, inFlight: Option<Flight>)
  {
    && (!isFlushing ==> inFlight.None? && forall k :: k in buffer ==> !buffer[k].writingInProgress)
    && (inFlight.Some? ==> isFlushing && FlightMatches(buffer, inFlight.value))
  }

  /** The store's invariant on values: the table is well formed and the flight agrees with the flags. */
  predicate Invariant(t: Table, cache: int, isFlushing: bool, inFlight: Option<Flight>)
  {
    WellFormed(t, cache) && FlightAgrees(t.buffer, isFlushing, inFlight)
  }

  /** gc keeps the store's invariant. */
  lemma CollectedKeeps(t: Table, cache: int, isFlushing: bool, inFlight: Option<Flight>)
    requires Invariant(t, cache, isFlushing, inFlight)
    ensures Invariant(Collected(t, cache), cache, isFlushing, inFlight)
  {
    CollectedConsistent(t, cache);
    CollectedKeepsBusyEntries(t, cache);
  }

  /**
   * The flight still agrees with a buffer that has the same entries being
   * written, and perhaps more entries that are not.
   */
  lemma FlightAgreesGrown(b1: map<Key, Entry>, b2: map<Key, Entry>, isFlushing: bool, inFlight: Option<Flight>)
    requires FlightAgrees(b1, isFlushing, inFlight)
    requires b1.Keys <= b2.Keys
    requires forall k :: k in b2 ==> (b2[k].writingInProgress <==> k in b1 && b1[k].writingInProgress)
    ensures FlightAgrees(b2, isFlushing, inFlight)
  {
  }

  /** A hit keeps the store's invariant. */
  lemma TouchedKeepsInvariant(t: Table, key: Key, now: int, cache: int, isFlushing: bool, inFlight: Option<Flight>)
    requires Invariant(t, cache, isFlushing, inFlight) && key in t.buffer
    ensures Invariant(Touched(t, key, now), cache, isFlushing, inFlight)
  {
    TouchedKeeps(t, key, now);
    assert Touched(t, key, now).buffer.Keys == t.buffer.Keys;
  }

  /** Caching a fetched entry, which is not being written, keeps the flight's agreement. */
  lemma GrownAgrees(t: Table, key: Key, v: Value, now: int, cache: int, isFlushing: bool, inFlight: Option<Flight>)
    requires FlightAgrees(t.buffer, isFlushing, inFlight) && (cache > 0 ==> key !in t.buffer)
    ensures FlightAgrees(Grown(t, key, v, now, cache).buffer, isFlushing, inFlight)
  {
    if cache > 0 {
      FlightAgreesGrown(t.buffer, t.buffer[key := Fetched(v, now)], isFlushing, inFlight);
    }
  }

  /** Caching a fetched value (before gc) keeps the store's invariant. */
  lemma GrownKeepsInvariant(t: Table, key: Key, v: Value, now: int, cache: int, isFlushing: bool, inFlight: Option<Flight>)
    requires Invariant(t, cache, isFlushing, inFlight) && (cache > 0 ==> key !in t.buffer)
    ensures Invariant(Grown(t, key, v, now, cache), cache, isFlushing, inFlight)
  {
    GrownKeeps(t, key, v, now, cache);
    GrownAgrees(t, key, v, now, cache, isFlushing, inFlight);
  }

  /** `get` keeps the store's invariant, hit or miss. */
  lemma AfterGetKeepsInvariant(t: Table, key: Key, now: int, cache: int, json: bool, reply: Reply, isFlushing: bool,
                               inFlight: Option<Flight>)
    requires Invariant(t, cache, isFlushing, inFlight)
    ensures Invariant(AfterGet(t, key, now, cache, json, reply), cache, isFlushing, inFlight)
  {
    if IsHit(t.buffer, key, cache) {
      TouchedKeepsInvariant(t, key, now, cache, isFlushing, inFlight);
    } else if Decode(reply, json).Some? {
      var v := Decode(reply, json).value;
      GrownKeepsInvariant(t, key, v, now, cache, isFlushing, inFlight);
      CollectedKeeps(Grown(t, key, v, now, cache), cache, isFlushing, inFlight);
    }
  }

  /** Storing a written entry (before gc) keeps the store's invariant. */
  lemma StoredKeepsInvariant(t: Table, key: Key, v: Value, now: int, cache: int, isFlushing: bool, inFlight: Option<Flight>)
    requires Invariant(t, cache, isFlushing, inFlight)
    ensures Invariant(Stored(t, key, v, now), cache, isFlushing, inFlight)
  {
    StoredShape(t, key, v, now);
    StoredClean(t, key, v, now);
    StoredBusy(t, key, v, now);
    FlightAgreesGrown(t.buffer, Stored(t, key, v, now).buffer, isFlushing, inFlight);
  }

  /** Appending a write callback to a dirty entry keeps the store's invariant. */
  lemma AppendedKeepsInvariant(t: Table, key: Key, cb: Callback, cache: int, isFlushing: bool, inFlight: Option<Flight>)
    requires Invariant(t, cache, isFlushing, inFlight)
    requires key in t.buffer && t.buffer[key].dirty
    ensures Invariant(Appended(t, key, cb), cache, isFlushing, inFlight)
  {
    AppendedKeeps(t, key, cb);
  }

  /** A buffered write keeps the store's invariant. */
  lemma BufferedWriteKeepsInvariant(t: Table, key: Key, v: Value, now: int, cb: Callback, cache: int,
                                    isFlushing: bool, inFlight: Option<Flight>)
    requires Invariant(t, cache, isFlushing, inFlight)
    ensures Invariant(BufferedWrite(t, key, v, now, cb, cache), cache, isFlushing, inFlight)
  {
    var s := Stored(t, key, v, now);
    StoredKeepsInvariant(t, key, v, now, cache, isFlushing, inFlight);
    CollectedKeeps(s, cache, isFlushing, inFlight);
    CollectedKeepsBusyEntries(s, cache);
    AppendedKeepsInvariant(Collected(s, cache), key, cb, cache, isFlushing, inFlight);
  }

  /**
   * The scan keeps the invariant: the flushing flag is set exactly when
   * the bulk is not empty, and then the marked buffer agrees with the new
   * flight; with an empty bulk nothing was dirty and nothing changes.
   */
  lemma ScanKeepsInvariant(t: Table, cache: int, json: bool, done: Option<Callback>,
                           t': Table, isFlushing': bool, inFlight': Option<Flight>)
    requires Invariant(t, cache, false, None) && Scannable(t.buffer, json)
    requires t' == t.(buffer := MarkInFlight(t.buffer))
    requires var ops := Batch(t.buffer, t.order, json);
      && (isFlushing' <==> ops != [])
      && inFlight' == if ops == [] then None else Some(Flight(ops, Pending(t.buffer, t.order), done))
    ensures Invariant(t', cache, isFlushing', inFlight')
    ensures Batch(t.buffer, t.order, json) == [] ==> t' == t
  {
    var ops := Batch(t.buffer, t.order, json);
    BatchKeys(t.buffer, t.order, json);
    assert t'.buffer.Keys == t.buffer.Keys;
    if ops == [] {
      forall k | k in t.buffer ensures !t.buffer[k].dirty {
        assert k in t.order;
      }
      MarkInFlightClean(t.buffer);
    }
  }

  /**
   * A completion that ran every callback keeps the invariant once it
   * clears `writingInProgress` on the bulk's keys: nothing is being
   * written any more.
   */
  lemma ReleaseKeepsInvariant(t: Table, cache: int, f: Flight)
    requires Invariant(t, cache, true, Some(f))
    ensures Invariant(t.(buffer := Released(t.buffer, KeysOfBatch(f.ops))), cache, false, None)
  {
    var r := t.(buffer := Released(t.buffer, KeysOfBatch(f.ops)));
    assert r.buffer.Keys == t.buffer.Keys;
  }

  /**
   * Read your write: after a buffered write, a `get` of the key (with a
   * cache size that is not negative) is answered from the buffer with the
   * written value, whatever the backend would have replied.
   */
  lemma ReadYourWrite(t: Table, key: Key, v: Value, now: int, cb: Callback, cache: int, json: bool, reply: Reply)
    requires Consistent(t) && cache >= 0
    ensures GetAnswer(BufferedWrite(t, key, v, now, cb, cache).buffer, key, cache, json, reply) == Answer(None, v)
  {
    WriteThenRead(t, key, v, now, cb, cache);
  }

  /** A `getSub` on the path a buffered `setSub` wrote answers the value written. */
  lemma SetSubThenGetSub(t: Table, key: Key, doc: Value, path: Path, v: Value, now: int, cb: Callback, cache: int,
                         json: bool, reply: Reply)
    requires Consistent(t) && cache >= 0 && path != [] && Placement(doc, path, v).Placed?
    ensures var written := BufferedWrite(t, key, Placement(doc, path, v).doc, now, cb, cache);
      SubAnswer(GetAnswer(written.buffer, key, cache, json, reply), path) == Answer(None, v)
  {
    ReadYourWrite(t, key, Placement(doc, path, v).doc, now, cb, cache, json, reply);
    SetThenWalk(doc, path, v);
  }

  /** A `getSub` on a path that leaves the written one answers what it did before the `setSub`. */
  lemma SetSubKeepsSiblings(t: Table, key: Key, doc: Value, path: Path, v: Value, q: Path, now: int, cb: Callback,
                            cache: int, json: bool, reply: Reply)
    requires Consistent(t) && cache >= 0 && path != [] && Placement(doc, path, v).Placed? && Diverges(q, path)
    ensures var written := BufferedWrite(t, key, Placement(doc, path, v).doc, now, cb, cache);
      SubAnswer(GetAnswer(written.buffer, key, cache, json, reply), q) == Answer(None, Walk(doc, q))
  {
    ReadYourWrite(t, key, Placement(doc, path, v).doc, now, cb, cache, json, reply);
    SetKeepsSiblings(doc, path, v, q);
  }

  /**
   * A bulk that failed is not retried: once the completion has run, every
   * entry the scan handed over is clean and no longer being written,
   * whatever the error, so the next scan skips it and gc may delete it.
   * Only a key written again during the flight is dirty.
   */
  lemma FailedBulkIsNotRetried(t: Table, json: bool, k: Key)
    requires Consistent(t) && Scannable(t.buffer, json)
    requires k in t.buffer && t.buffer[k].dirty
    ensures var after := Released(MarkInFlight(t.buffer), KeysOfBatch(Batch(t.buffer, t.order, json)));
      && k in after && Evictable(after[k]) && after[k].callbacks == []
      && k !in DirtyKeys(after, t.order)
  {
    BatchKeys(t.buffer, t.order, json);
  }

  /**
   * The `getSub` loop: step into `doc` along the path while the parent is
   * not null and the accessor is defined, and yield null at the first step
   * that is missing.
   */
  method Navigate(doc: Value, path: Path) returns (sub: Value)
    ensures sub == Walk(doc, path)
  {
    sub := doc;
    var i := 0;
    var missing := false;
    while i < |path| && !missing
      invariant 0 <= i <= |path|
      decreases |path| - i, if missing then 0 else 1
      invariant !missing ==> Walk(sub, path[i..]) == Walk(doc, path)
      invariant missing ==> sub == Null && Walk(doc, path) == Null
    {
      assert path[i..][0] == path[i] && path[i..][1..] == path[i + 1..];
      var child := Lookup(sub, path[i]);
      if child.None? {
        sub := Null;
        missing := true;
      } else {
        sub := child.value;
        i := i + 1;
      }
    }
    if !missing {
      assert path[i..] == [];
    }
  }

  class Store {
    const settings: Cfg.Settings
    var buffer: map<Key, Entry>
    /** The `for…in` order of the buffer's keys. */
    var order: seq<Key>
    var bufferLength: int
    var isFlushing: bool
    var shutdownCallback: Option<Callback>
    var inFlight: Option<Flight>
    /** Every callback call, in the order made. */
    var log: seq<Invocation>

    function Contents(): Table
      reads this`buffer, this`order, this`bufferLength
    {
      Table(buffer, order, bufferLength)
    }

    /**
     * The store's invariant: the table is well formed and the flight
     * agrees with the flags.
     */
    ghost predicate Valid()
      reads this`buffer, this`order, this`bufferLength, this`isFlushing, this`inFlight
    {
      Invariant(Contents(), settings.cache, isFlushing, inFlight)
    }

    /** The settings are the defaults overridden by the driver's layer, then by the caller's. */
    constructor (driver: Option<Cfg.Layer>, caller: Option<Cfg.Layer>)
      ensures Valid()
      ensures settings == Cfg.Merge(driver, caller)
      ensures buffer == map[] && order == [] && bufferLength == 0
      ensures !isFlushing && shutdownCallback.None? && inFlight.None? && log == []
    {
      var s := Cfg.Defaults;
      if driver.Some? {
        if driver.value.cache.Some? { s := s.(cache := driver.value.cache.value); }
        if driver.value.writeInterval.Some? { s := s.(writeInterval := driver.value.writeInterval.value); }
        if driver.value.json.Some? { s := s.(json := driver.value.json.value); }
      }
      assert s == Cfg.Override(Cfg.Defaults, driver);
      if caller.Some? {
        if caller.value.cache.Some? { s := s.(cache := caller.value.cache.value); }
        if caller.value.writeInterval.Some? { s := s.(writeInterval := caller.value.writeInterval.value); }
        if caller.value.json.Some? { s := s.(json := caller.value.json.value); }
      }
      settings := s;
      buffer, order, bufferLength := map[], [], 0;
      isFlushing, shutdownCallback, inFlight := false, None, None;
      log := [];
    }

    /** The first loop of `gc()`: the clean, idle entries with their timestamps, in scan order. */
    method CollectCandidates() returns (candidates: seq<Candidate>)
      requires Consistent(Contents())
      ensures candidates == Candidates(buffer, order)
    {
      candidates := [];
      var i := 0;
      while i < |order|
        invariant 0 <= i <= |order|
        invariant candidates == Candidates(buffer, order[..i])
      {
        var k := order[i];
        CandidatesStep(buffer, order[..i], k);
        assert order[..i + 1] == order[..i] + [k];
        if !buffer[k].dirty && !buffer[k].writingInProgress {
          candidates := candidates + [Candidate(k, buffer[k].timestamp)];
        }
        i := i + 1;
      }
      assert order[..|order|] == order;
    }

    /**
     * `gc()`: when the count reaches the cache size, delete the oldest
     * clean, idle entries until the count is at most half of it. The
     * store's invariant survives.
     */
    method Gc()
      requires Valid()
      modifies this`buffer, this`order, this`bufferLength
      ensures Valid()
      ensures Contents() == Collected(old(Contents()), settings.cache)
    {
      SweepKeeping(isFlushing, inFlight);
    }

    /** The invariant holds after `gc()` for whatever flags it held with before. */
    method SweepKeeping(ghost isFlushing: bool, ghost inFlight: Option<Flight>)
      requires Invariant(Contents(), settings.cache, isFlushing, inFlight)
      modifies this`buffer, this`order, this`bufferLength
      ensures Invariant(Contents(), settings.cache, isFlushing, inFlight)
      ensures Contents() == Collected(old(Contents()), settings.cache)
    {
      ghost var t0 := Contents();
      CollectedKeeps(t0, settings.cache, isFlushing, inFlight);
      Sweep();
      assert Contents() == Collected(t0, settings.cache);
    }

    /** The two loops of `gc()`. */
    method Sweep()
      requires Consistent(Contents())
      modifies this`buffer, this`order, this`bufferLength
      ensures Contents() == Collected(old(Contents()), settings.cache)
    {
      ghost var t0 := Contents();
      if !(bufferLength < settings.cache || settings.cache == 0) {
        var candidates := CollectCandidates();
        var ranked := SortByTime(candidates);
        CollectedFrom(t0, settings.cache, ranked);
        if |candidates| > 0 {
          assert |ranked| == |multiset(ranked)| == |multiset(candidates)| == |candidates|;
          DeleteOldest(ranked);
        } else {
          assert ranked == [];
        }
      }
    }

    /**
     * The second loop of `gc()`: delete the ranked candidates in order
     * while the count is above half the cache size.
     */
    method DeleteOldest(ranked: seq<Candidate>)
      modifies this`buffer, this`order, this`bufferLength
      ensures var n := EvictionCount(old(bufferLength), settings.cache, |ranked|);
        && buffer == old(buffer) - KeysOf(ranked[..n])
        && order == Without(old(order), KeysOf(ranked[..n]))
        && bufferLength == old(bufferLength) - n
    {
      ghost var n := EvictionCount(bufferLength, settings.cache, |ranked|);
      ghost var gone: set<Key> := {};
      WithoutNothing(order);
      assert buffer == buffer - gone;
      var j := 0;
      while 2 * bufferLength > settings.cache && j < |ranked|
        invariant 0 <= j <= |ranked|
        invariant bufferLength == old(bufferLength) - j
        invariant j + EvictionCount(bufferLength, settings.cache, |ranked| - j) == n
        invariant gone == KeysOf(ranked[..j])
        invariant buffer == old(buffer) - gone
        invariant order == Without(old(order), gone)
      {
        var k := ranked[j].key;
        KeysOfPrefix(ranked, j);
        WithoutOneMore(old(order), gone, k);
        DeleteOneMore(old(buffer), gone, k);
        gone := gone + {k};
        buffer := buffer - {k};
        order := Without(order, {k});
        bufferLength := bufferLength - 1;
        j := j + 1;
      }
    }

    /**
     * `get(key, callback)`: a hit answers from the buffer and refreshes the
     * timestamp; a miss takes the backend's reply, caches a parsed value
     * when caching is on, counts the read in `bufferLength` either way, runs
     * gc and answers the backend's error with the value; a reply that does
     * not parse answers the parse error and changes nothing.
     */
    method Get(key: Key, now: int, reply: Reply) returns (answer: Answer)
      requires Valid()
      modifies this`buffer, this`order, this`bufferLength
      ensures Valid()
      ensures answer == GetAnswer(old(buffer), key, settings.cache, settings.json, reply)
      ensures Contents() == AfterGet(old(Contents()), key, now, settings.cache, settings.json, reply)
    {
      answer := GetKeeping(key, now, reply, isFlushing, inFlight);
    }

    /** `get` keeps the invariant for whatever flags it held with before. */
    method GetKeeping(key: Key, now: int, reply: Reply, ghost isFlushing: bool, ghost inFlight: Option<Flight>)
      returns (answer: Answer)
      requires Invariant(Contents(), settings.cache, isFlushing, inFlight)
      modifies this`buffer, this`order, this`bufferLength
      ensures Invariant(Contents(), settings.cache, isFlushing, inFlight)
      ensures answer == GetAnswer(old(buffer), key, settings.cache, settings.json, reply)
      ensures Contents() == AfterGet(old(Contents()), key, now, settings.cache, settings.json, reply)
    {
      ghost var t0 := Contents();
      if (settings.cache > 0 && key in buffer) || (settings.cache == 0 && key in buffer && buffer[key].dirty) {
        TouchedKeepsInvariant(t0, key, now, settings.cache, isFlushing, inFlight);
        Touch(key, now);
        answer := Answer(None, buffer[key].value);
      } else {
        var value := if settings.json then reply.parsed else Some(reply.raw);
        if value.None? {
          answer := Answer(Some(Parse), Null);
        } else {
          CacheFetched(key, value.value, now, isFlushing, inFlight);
          SweepKeeping(isFlushing, inFlight);
          answer := Answer(reply.err, value.value);
        }
      }
    }

    /** A hit refreshes the entry's timestamp. */
    method Touch(key: Key, now: int)
      requires key in buffer
      modifies this`buffer
      ensures Contents() == Touched(old(Contents()), key, now)
    {
      buffer := buffer[key := buffer[key].(timestamp := now)];
    }

    /** A miss caches the fetched value when caching is on, and counts the read either way. */
    method CacheFetched(key: Key, v: Value, now: int, ghost isFlushing: bool, ghost inFlight: Option<Flight>)
      requires Invariant(Contents(), settings.cache, isFlushing, inFlight)
      requires settings.cache > 0 ==> key !in buffer
      modifies this`buffer, this`order, this`bufferLength
      ensures Invariant(Contents(), settings.cache, isFlushing, inFlight)
      ensures Contents() == Grown(old(Contents()), key, v, now, settings.cache)
    {
      GrownKeepsInvariant(Contents(), key, v, now, settings.cache, isFlushing, inFlight);
      if settings.cache > 0 {
        buffer := buffer[key := Fetched(v, now)];
        order := order + [key];
      }
      bufferLength := bufferLength + 1;
    }

    /**
     * `set(key, value, bufferCallback, writeCallback)`. With a write
     * interval the write is buffered: the entry is created when absent
     * (and counted), given the value, marked dirty and stamped; gc runs;
     * the write callback (or the default one that rethrows) is appended to
     * the entry's callbacks and `bufferCallback` is called. Without one the
     * write goes straight to the backend: the returned call is `remove` for
     * null and `set` otherwise, and the buffer is left alone.
     */
    method Set(key: Key, value: Value, now: int, bufferCallback: Option<Callback>, writeCallback: Option<Callback>)
      returns (direct: Option<Direct>)
      requires Valid()
      modifies this`buffer, this`order, this`bufferLength, this`log
      ensures Valid()
      ensures settings.writeInterval > 0 ==>
        && direct.None?
        && Contents() == BufferedWrite(old(Contents()), key, value, now, CallbackOrDefault(writeCallback), settings.cache)
        && log == old(log) + Notify(bufferCallback, None)
      ensures settings.writeInterval <= 0 ==>
        && direct == Some(DirectWrite(key, value, settings.json))
        && Contents() == old(Contents()) && log == old(log)
    {
      direct := SetKeeping(key, value, now, bufferCallback, writeCallback, isFlushing, inFlight);
    }

    /** `set` keeps the invariant for whatever flags it held with before. */
    method SetKeeping(key: Key, value: Value, now: int, bufferCallback: Option<Callback>, writeCallback: Option<Callback>,
                      ghost isFlushing: bool, ghost inFlight: Option<Flight>)
      returns (direct: Option<Direct>)
      requires Invariant(Contents(), settings.cache, isFlushing, inFlight)
      modifies this`buffer, this`order, this`bufferLength, this`log
      ensures Invariant(Contents(), settings.cache, isFlushing, inFlight)
      ensures settings.writeInterval > 0 ==>
        && direct.None?
        && Contents() == BufferedWrite(old(Contents()), key, value, now, CallbackOrDefault(writeCallback), settings.cache)
        && log == old(log) + Notify(bufferCallback, None)
      ensures settings.writeInterval <= 0 ==>
        && direct == Some(DirectWrite(key, value, settings.json))
        && Contents() == old(Contents()) && log == old(log)
    {
      if settings.writeInterval > 0 {
        var cb := if writeCallback.Some? then writeCallback.value else Rethrow;
        BufferWrite(key, value, now, cb, isFlushing, inFlight);
        if bufferCallback.Some? {
          log := log + [Invocation(bufferCallback.value, None)];
        }
        direct := None;
      } else if value == Null {
        direct := Some(DirectRemove(key));
      } else if settings.json {
        direct := Some(DirectSet(key, Text(value)));
      } else {
        direct := Some(DirectSet(key, Plain(value)));
      }
    }

    /**
     * The buffered half of `set`: store the entry, run gc, append the
     * callback. The invariant holds afterwards.
     */
    method BufferWrite(key: Key, value: Value, now: int, cb: Callback, ghost isFlushing: bool, ghost inFlight: Option<Flight>)
      requires Invariant(Contents(), settings.cache, isFlushing, inFlight)
      modifies this`buffer, this`order, this`bufferLength
      ensures Invariant(Contents(), settings.cache, isFlushing, inFlight)
      ensures Contents() == BufferedWrite(old(Contents()), key, value, now, cb, settings.cache)
    {
      ghost var t0 := Contents();
      BufferedWriteKeepsInvariant(t0, key, value, now, cb, settings.cache, isFlushing, inFlight);
      StoredConsistent(t0, key, value, now);
      StoreEntry(key, value, now);
      Sweep();
      CollectedKeepsBusyEntries(Stored(t0, key, value, now), settings.cache);
      AppendCallback(key, cb);
    }

    /** Create the entry when absent (and count it), then give it the value, dirty, stamped now. */
    method StoreEntry(key: Key, value: Value, now: int)
      modifies this`buffer, this`order, this`bufferLength
      ensures Contents() == Stored(old(Contents()), key, value, now)
    {
      if key !in buffer {
        buffer := buffer[key := Entry(Null, false, false, now, [])];
        order := order + [key];
        bufferLength := bufferLength + 1;
      }
      buffer := buffer[key := buffer[key].(value := value, dirty := true, timestamp := now)];
    }

    /** `callbacks.push(cb)` on the entry of a resident key. */
    method AppendCallback(key: Key, cb: Callback)
      requires key in buffer
      modifies this`buffer
      ensures Contents() == Appended(old(Contents()), key, cb)
    {
      buffer := buffer[key := buffer[key].(callbacks := buffer[key].callbacks + [cb])];
    }

    /** The callback of a direct write: `bufferCallback(err)`, then `writeCallback(err)`. */
    method DirectDone(bufferCallback: Option<Callback>, writeCallback: Option<Callback>, err: Option<Fault>)
      modifies this`log
      ensures log == old(log) + Notify(bufferCallback, err) + Notify(writeCallback, err)
    {
      if bufferCallback.Some? {
        log := log + [Invocation(bufferCallback.value, err)];
      }
      if writeCallback.Some? {
        log := log + [Invocation(writeCallback.value, err)];
      }
    }

    /** `remove(key, …)` is a `set` of null. */
    method Remove(key: Key, now: int, bufferCallback: Option<Callback>, writeCallback: Option<Callback>)
      returns (direct: Option<Direct>)
      requires Valid()
      modifies this`buffer, this`order, this`bufferLength, this`log
      ensures Valid()
      ensures settings.writeInterval > 0 ==>
        && direct.None?
        && Contents() == BufferedWrite(old(Contents()), key, Null, now, CallbackOrDefault(writeCallback), settings.cache)
        && log == old(log) + Notify(bufferCallback, None)
      ensures settings.writeInterval <= 0 ==>
        && direct == Some(DirectRemove(key))
        && Contents() == old(Contents()) && log == old(log)
    {
      direct := Set(key, Null, now, bufferCallback, writeCallback);
    }

    /**
     * `getSub(key, sub, callback)`: read the value, then answer the read's
     * error, or the walk of the value along the path.
     */
    method GetSub(key: Key, path: Path, now: int, reply: Reply) returns (answer: Answer)
      requires Valid()
      modifies this`buffer, this`order, this`bufferLength
      ensures Valid()
      ensures answer == SubAnswer(GetAnswer(old(buffer), key, settings.cache, settings.json, reply), path)
      ensures Contents() == AfterGet(old(Contents()), key, now, settings.cache, settings.json, reply)
    {
      var got := Get(key, now, reply);
      if got.err.Some? {
        answer := Answer(got.err, Null);
      } else {
        var sub := Navigate(got.value, path);
        answer := Answer(None, sub);
      }
    }

    /**
     * `setSub(key, sub, value, …)`: read the value; on a read error the
     * final handler runs with it; otherwise walk the path creating `{}`
     * where a step is missing, assign the value at the last step and `set`
     * the whole document again.
     */
    method SetSub(key: Key, path: Path, v: Value, now: int, reply: Reply,
                  bufferCallback: Option<Callback>, writeCallback: Option<Callback>)
      returns (outcome: SubOutcome)
      requires Valid()
      modifies this`buffer, this`order, this`bufferLength, this`log
      ensures Valid()
      ensures var a := GetAnswer(old(buffer), key, settings.cache, settings.json, reply);
        var read := AfterGet(old(Contents()), key, now, settings.cache, settings.json, reply);
        var placed := Placement(a.value, path, v);
        var cb := CallbackOrDefault(writeCallback);
        if a.err.Some? then
          outcome == SubGetFailed(a.err.value) && Contents() == read && log == old(log)
        else if placed.Throws? then
          outcome == SubThrew && Contents() == read && log == old(log)
        else if placed.Unmodelled? then
          outcome == SubUnmodelled && Contents() == read && log == old(log)
        else if settings.writeInterval > 0 then
          && outcome == SubWritten(None)
          && Contents() == BufferedWrite(read, key, placed.doc, now, cb, settings.cache)
          && log == old(log) + Notify(bufferCallback, None)
        else
          && outcome == SubWritten(Some(DirectWrite(key, placed.doc, settings.json)))
          && Contents() == read && log == old(log)
    {
      var got := Get(key, now, reply);
      if got.err.Some? {
        outcome := SubGetFailed(got.err.value);
      } else {
        var placed := Placement(got.value, path, v);
        match placed
        case Placed(doc) =>
          var direct := Set(key, doc, now, bufferCallback, writeCallback);
          outcome := SubWritten(direct);
        case Throws =>
          outcome := SubThrew;
        case Unmodelled =>
          outcome := SubUnmodelled;
      }
    }

    /**
     * The scan half of `flush(backend, callback)`. During a flush it only
     * calls `callback` back. Otherwise every dirty entry, in scan order,
     * becomes one operation of the bulk, hands over its callbacks, and is
     * marked clean and being written; a non-empty bulk sets the flushing
     * flag and is returned for the backend's `doBulk`, and an empty one
     * fires and clears a waiting shutdown callback.
     */
    method FlushScan(done: Option<Callback>) returns (bulk: seq<Operation>)
      requires Valid() && Scannable(buffer, settings.json)
      modifies this`buffer, this`isFlushing, this`inFlight, this`shutdownCallback, this`log
      ensures Valid()
      ensures old(isFlushing) ==>
        && bulk == [] && buffer == old(buffer) && isFlushing && inFlight == old(inFlight)
        && shutdownCallback == old(shutdownCallback) && log == old(log) + Notify(done, None)
      ensures !old(isFlushing) ==>
        && bulk == Batch(old(buffer), order, settings.json)
        && buffer == MarkInFlight(old(buffer))
        && (isFlushing <==> bulk != [])
      ensures !old(isFlushing) && bulk != [] ==>
        && inFlight == Some(Flight(bulk, Pending(old(buffer), order), done))
        && shutdownCallback == old(shutdownCallback) && log == old(log)
      ensures !old(isFlushing) && bulk == [] ==>
        && inFlight.None? && shutdownCallback.None? && log == old(log) + Notify(old(shutdownCallback), None)
    {
      if isFlushing {
        if done.Some? {
          log := log + [Invocation(done.value, None)];
        }
        bulk := [];
      } else {
        bulk := StartFlush(done);
      }
    }

    /** The scan when no flush is in progress. */
    method StartFlush(done: Option<Callback>) returns (bulk: seq<Operation>)
      requires Valid() && !isFlushing && Scannable(buffer, settings.json)
      modifies this`buffer, this`isFlushing, this`inFlight, this`shutdownCallback, this`log
      ensures Valid()
      ensures bulk == Batch(old(buffer), order, settings.json)
      ensures buffer == MarkInFlight(old(buffer))
      ensures isFlushing <==> bulk != []
      ensures bulk != [] ==>
        && inFlight == Some(Flight(bulk, Pending(old(buffer), order), done))
        && shutdownCallback == old(shutdownCallback) && log == old(log)
      ensures bulk == [] ==>
        && inFlight.None? && shutdownCallback.None? && log == old(log) + Notify(old(shutdownCallback), None)
    {
      ghost var t0 := Contents();
      var callbacks;
      bulk, callbacks := MarkDirty();
      if |bulk| > 0 {
        isFlushing := true;
        inFlight := Some(Flight(bulk, callbacks, done));
      } else if shutdownCallback.Some? {
        log := log + [Invocation(shutdownCallback.value, None)];
        shutdownCallback := None;
      }
      ScanKeepsInvariant(t0, settings.cache, settings.json, done, Contents(), isFlushing, inFlight);
    }

    /** The scan loop of `flush`: build the bulk, collect the callbacks, mark the dirty entries. */
    method MarkDirty() returns (ops: seq<Operation>, callbacks: seq<Callback>)
      requires Consistent(Contents()) && Scannable(buffer, settings.json)
      modifies this`buffer
      ensures ops == Batch(old(buffer), order, settings.json)
      ensures callbacks == Pending(old(buffer), order)
      ensures buffer == MarkInFlight(old(buffer))
    {
      ghost var b0 := buffer;
      ops, callbacks := [], [];
      var i := 0;
      while i < |order|
        invariant 0 <= i <= |order|
        invariant ops == Batch(b0, order[..i], settings.json)
        invariant callbacks == Pending(b0, order[..i])
        invariant buffer == MarkedAlong(b0, order[..i])
      {
        DistinctAt(order, i);
        PrefixStep(order, i);
        ops, callbacks := ScanKey(order[i], b0, order[..i], ops, callbacks);
        i := i + 1;
      }
      assert order[..|order|] == order;
      MarkedAlongAll(b0, order);
    }

    /**
     * One pass of the scan loop: a dirty entry contributes its operation and
     * its callbacks, and is marked.
     */
    method ScanKey(k: Key, ghost b0: map<Key, Entry>, ghost scanned: seq<Key>, ops: seq<Operation>, callbacks: seq<Callback>)
      returns (ops': seq<Operation>, callbacks': seq<Callback>)
      requires k in b0 && k !in scanned && Scannable(b0, settings.json)
      requires buffer == MarkedAlong(b0, scanned)
      requires ops == Batch(b0, scanned, settings.json) && callbacks == Pending(b0, scanned)
      modifies this`buffer
      ensures buffer == MarkedAlong(b0, scanned + [k])
      ensures ops' == Batch(b0, scanned + [k], settings.json) && callbacks' == Pending(b0, scanned + [k])
    {
      BatchStep(b0, scanned, k, settings.json);
      PendingStep(b0, scanned, k);
      MarkedAlongStep(b0, scanned, k);
      ops', callbacks' := ops, callbacks;
      if buffer[k].dirty {
        var e := buffer[k];
        var kind := if e.value == Null then RemoveOp else SetOp;
        var payload := if settings.json && e.value != Null then Text(e.value) else Plain(Clone(e.value).value);
        ops' := ops + [Operation(kind, k, payload)];
        callbacks' := callbacks + e.callbacks;
        buffer := buffer[k := e.(callbacks := [], dirty := false, writingInProgress := true)];
      }
    }

    /**
     * The completion half of `flush`, run with the bulk's error: call every
     * collected callback with it, in order; then clear `writingInProgress`
     * on the bulk's keys, call `callback` back, run gc and clear the
     * flushing flag. A default callback given an error rethrows it, which
     * abandons the rest: the entries stay marked and the flag stays set.
     */
    method FlushComplete(err: Option<Fault>) returns (threw: bool)
      requires Valid() && inFlight.Some?
      modifies this`buffer, this`order, this`bufferLength, this`isFlushing, this`inFlight, this`log
      ensures Valid()
      ensures inFlight.None?
      ensures var f := old(inFlight).value;
        var n := FirstThrow(f.callbacks, err);
        && (threw <==> n < |f.callbacks|)
        && (threw ==> log == old(log) + CallAll(f.callbacks[..n + 1], err) && Contents() == old(Contents()) && isFlushing)
        && (!threw ==>
          && log == old(log) + CallAll(f.callbacks, err) + Notify(f.done, None)
          && Contents() == Collected(old(Contents()).(buffer := Released(old(buffer), KeysOfBatch(f.ops))), settings.cache)
          && !isFlushing)
    {
      var f := inFlight.value;
      inFlight := None;
      threw := CallCollected(f.callbacks, err);
      if !threw {
        assert f.callbacks[..|f.callbacks|] == f.callbacks;
        Settle(f);
      }
    }

    /**
     * The rest of the completion once every callback has run: clear
     * `writingInProgress` on the bulk's keys, call `callback` back, run gc
     * and clear the flushing flag.
     */
    method Settle(f: Flight)
      requires Invariant(Contents(), settings.cache, true, Some(f))
      modifies this`buffer, this`order, this`bufferLength, this`isFlushing, this`log
      ensures Invariant(Contents(), settings.cache, false, None)
      ensures Contents() == Collected(old(Contents()).(buffer := Released(old(buffer), KeysOfBatch(f.ops))), settings.cache)
      ensures log == old(log) + Notify(f.done, None) && !isFlushing
    {
      ReleaseKeepsInvariant(Contents(), settings.cache, f);
      ReleaseKeys(f.ops);
      if f.done.Some? {
        log := log + [Invocation(f.done.value, None)];
      }
      SweepKeeping(false, None);
      isFlushing := false;
    }

    /** The completion's first loop: call each callback with the error, stopping at one that rethrows. */
    method CallCollected(callbacks: seq<Callback>, err: Option<Fault>) returns (threw: bool)
      modifies this`log
      ensures var n := FirstThrow(callbacks, err);
        && (threw <==> n < |callbacks|)
        && log == old(log) + CallAll(callbacks[..if threw then n + 1 else n], err)
    {
      threw := false;
      var i := 0;
      while i < |callbacks| && !threw
        invariant 0 <= i <= |callbacks|
        invariant !threw ==> i <= FirstThrow(callbacks, err)
        invariant threw ==> i == FirstThrow(callbacks, err) + 1
        invariant log == old(log) + CallAll(callbacks[..i], err)
      {
        assert CallAll(callbacks[..i + 1], err) == CallAll(callbacks[..i], err) + [Invocation(callbacks[i], err)];
        log := log + [Invocation(callbacks[i], err)];
        if err.Some? && callbacks[i] == Rethrow {
          threw := true;
        }
        i := i + 1;
      }
    }

    /** The completion's second loop: clear `writingInProgress` on every key of the bulk. */
    method ReleaseKeys(ops: seq<Operation>)
      requires forall k :: k in KeysOfBatch(ops) ==> k in buffer
      modifies this`buffer
      ensures buffer == Released(old(buffer), KeysOfBatch(ops))
    {
      ghost var b0 := buffer;
      var i := 0;
      while i < |ops|
        invariant 0 <= i <= |ops|
        invariant buffer == Released(b0, KeysOfBatch(ops[..i]))
      {
        var k := ops[i].key;
        assert KeysOfBatch(ops[..i + 1]) == KeysOfBatch(ops[..i]) + [k];
        buffer := buffer[k := buffer[k].(writingInProgress := false)];
        i := i + 1;
      }
      assert ops[..|ops|] == ops;
    }

    /** `doShutdown(callback)`: wait for the next empty scan when writes are buffered, else call back at once. */
    method DoShutdown(cb: Callback)
      requires Valid()
      modifies this`shutdownCallback, this`log
      ensures Valid()
      ensures settings.writeInterval > 0 ==> shutdownCallback == Some(cb) && log == old(log)
      ensures settings.writeInterval <= 0 ==> shutdownCallback == old(shutdownCallback) && log == old(log) + [Invocation(cb, None)]
    {
      if settings.writeInterval > 0 {
        shutdownCallback := Some(cb);
      } else {
        log := log + [Invocation(cb, None)];
      }
    }
  }
}
