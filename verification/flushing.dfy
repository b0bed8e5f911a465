/**
 * What a flush of the buffered store (`flush` in CacheAndBufferLayer.js)
 * reads from and writes into the buffer, as functions of the buffer and
 * its scan order: the bulk of operations, the write callbacks it collects,
 * the marking of the flushed entries, and the order in which the
 * completion calls the callbacks back.
 */
module Flushing {
  import opened Wrappers
  import opened Values
  import opened Entries
  import opened Eviction

  /**
   * The bulk operation for one dirty entry: `remove` when its value is
   * null, `set` otherwise; the value is serialised when `json` is on and
   * the value is not null, and cloned otherwise.
   */
  function OpOf(key: Key, v: Value, json: bool): (op: Operation)
    requires json || Clonable(v)
    ensures op.key == key
    ensures op.kind == RemoveOp <==> v == Null
    ensures op.kind == SetOp <==> v != Null
    ensures op.value.Text? <==> json && v != Null
    ensures op.value.Text? ==> op.value.doc == v
    ensures op.value.Plain? ==> IsPlain(op.value.doc) && OwnEqual(v, op.value.doc)
  {
    Operation(
      if v == Null then RemoveOp else SetOp,
      key,
      if json && v != Null then Text(v) else Plain(Clone(v).value))
  }

  /** Every dirty value can be handed over: serialised, or accepted by `clone`. */
  predicate Scannable(buffer: map<Key, Entry>, json: bool)
  {
    json || forall k :: k in buffer && buffer[k].dirty ==> Clonable(buffer[k].value)
  }

  /** The keys the flush scan finds dirty, in scan order. */
  function DirtyKeys(buffer: map<Key, Entry>, order: seq<Key>): (r: seq<Key>)
    ensures forall k :: k in r <==> k in order && k in buffer && buffer[k].dirty
    ensures Distinct(order) ==> Distinct(r)
  {
    if order == [] then []
    else
      var k := order[|order| - 1];
      DirtyKeys(buffer, order[..|order| - 1]) + (if k in buffer && buffer[k].dirty then [k] else [])
  }

  /** The bulk the scan hands to the backend's `doBulk`: one operation per dirty entry, in scan order. */
  function Batch(buffer: map<Key, Entry>, order: seq<Key>, json: bool): (r: seq<Operation>)
    requires Scannable(buffer, json)
    ensures forall i :: 0 <= i < |r| ==>
      && r[i].key in buffer && buffer[r[i].key].dirty
      && r[i] == OpOf(r[i].key, buffer[r[i].key].value, json)
  {
    var keys := DirtyKeys(buffer, order);
    seq(|keys|, i requires 0 <= i < |keys| => OpOf(keys[i], buffer[keys[i]].value, json))
  }

  /** The keys of a bulk, in bulk order. */
  function KeysOfBatch(ops: seq<Operation>): (r: seq<Key>)
    ensures |r| == |ops| && forall i :: 0 <= i < |ops| ==> r[i] == ops[i].key
  {
    seq(|ops|, i requires 0 <= i < |ops| => ops[i].key)
  }

  /** The write callbacks an entry holds for the next flush: those of a dirty entry. */
  function CallbacksOf(buffer: map<Key, Entry>, k: Key): seq<Callback>
  {
    if k in buffer && buffer[k].dirty then buffer[k].callbacks else []
  }

  /** The write callbacks waiting in the buffer, concatenated in scan order. */
  function Pending(buffer: map<Key, Entry>, order: seq<Key>): seq<Callback>
  {
    if order == [] then []
    else Pending(buffer, order[..|order| - 1]) + CallbacksOf(buffer, order[|order| - 1])
  }

  /** A flushed entry: callbacks handed over, clean, and being written. */
  function Marked(e: Entry): Entry
  {
    e.(callbacks := [], dirty := false, writingInProgress := true)
  }

  /** The buffer after the scan: every dirty entry marked, every other one untouched. */
  function MarkInFlight(buffer: map<Key, Entry>): (r: map<Key, Entry>)
    ensures r.Keys == buffer.Keys
    ensures forall k :: k in r ==> !r[k].dirty
    ensures forall k :: k in r && buffer[k].dirty ==>
      r[k].writingInProgress && r[k].callbacks == [] && r[k].value == buffer[k].value
    ensures forall k :: k in r && !buffer[k].dirty ==> r[k] == buffer[k]
  {
    map k | k in buffer :: if buffer[k].dirty then Marked(buffer[k]) else buffer[k]
  }

  /** The buffer part way through the scan: the dirty entries among `keys` marked. */
  function MarkedAlong(buffer: map<Key, Entry>, keys: seq<Key>): (r: map<Key, Entry>)
    ensures r.Keys == buffer.Keys
  {
    map k | k in buffer :: if k in keys && buffer[k].dirty then Marked(buffer[k]) else buffer[k]
  }

  /** Scanning one key more marks that key when it is dirty. */
  lemma MarkedAlongStep(buffer: map<Key, Entry>, keys: seq<Key>, k: Key)
    requires k in buffer && k !in keys
    ensures MarkedAlong(buffer, keys + [k])
         == if buffer[k].dirty then MarkedAlong(buffer, keys)[k := Marked(buffer[k])] else MarkedAlong(buffer, keys)
  {
  }

  /** A scan along every key of the buffer marks exactly what `MarkInFlight` marks. */
  lemma MarkedAlongAll(buffer: map<Key, Entry>, keys: seq<Key>)
    requires forall k :: k in buffer ==> k in keys
    ensures MarkedAlong(buffer, keys) == MarkInFlight(buffer)
  {
  }

  /** The buffer after a completion clears `writingInProgress` on the flushed keys. */
  function Released(buffer: map<Key, Entry>, keys: seq<Key>): (r: map<Key, Entry>)
    ensures r.Keys == buffer.Keys
    ensures forall k :: k in r && k in keys ==> !r[k].writingInProgress
    ensures forall k :: k in r ==> r[k] == buffer[k].(writingInProgress := r[k].writingInProgress)
    ensures forall k :: k in r && k !in keys ==> r[k] == buffer[k]
  {
    map k | k in buffer :: if k in keys then buffer[k].(writingInProgress := false) else buffer[k]
  }

  /** The batch keys are the dirty keys; the batch has no key twice when the scan order has none. */
  lemma BatchKeys(buffer: map<Key, Entry>, order: seq<Key>, json: bool)
    requires Scannable(buffer, json)
    ensures KeysOfBatch(Batch(buffer, order, json)) == DirtyKeys(buffer, order)
    ensures forall k :: k in KeysOfBatch(Batch(buffer, order, json)) <==> k in order && k in buffer && buffer[k].dirty
    ensures Distinct(order) ==> Distinct(KeysOfBatch(Batch(buffer, order, json)))
  {
  }

  /** Scanning one key more extends the bulk by that key's operation when it is dirty. */
  lemma BatchStep(buffer: map<Key, Entry>, order: seq<Key>, k: Key, json: bool)
    requires Scannable(buffer, json)
    ensures Batch(buffer, order + [k], json)
         == Batch(buffer, order, json) + (if k in buffer && buffer[k].dirty then [OpOf(k, buffer[k].value, json)] else [])
  {
    assert (order + [k])[..|order|] == order;
  }

  /** A buffer without dirty entries holds nothing for the next flush. */
  lemma {:induction false} PendingOfClean(buffer: map<Key, Entry>, order: seq<Key>)
    requires forall k :: k in buffer ==> !buffer[k].dirty
    ensures Pending(buffer, order) == []
  {
    if order != [] {
      PendingOfClean(buffer, order[..|order| - 1]);
    }
  }

  /** Scanning one key more adds that key's waiting callbacks at the end. */
  lemma PendingStep(buffer: map<Key, Entry>, order: seq<Key>, k: Key)
    ensures Pending(buffer, order + [k]) == Pending(buffer, order) + CallbacksOf(buffer, k)
  {
    assert (order + [k])[..|order|] == order;
  }

  /** Pending depends only on the callbacks of dirty entries along the scan order. */
  lemma {:induction false} PendingCongruent(b1: map<Key, Entry>, b2: map<Key, Entry>, order: seq<Key>)
    requires forall k :: k in order ==> CallbacksOf(b1, k) == CallbacksOf(b2, k)
    ensures Pending(b1, order) == Pending(b2, order)
  {
    if order != [] {
      PendingCongruent(b1, b2, order[..|order| - 1]);
    }
  }

  /** After the scan nothing is left waiting. */
  lemma {:induction false} PendingAfterMark(buffer: map<Key, Entry>, order: seq<Key>)
    ensures Pending(MarkInFlight(buffer), order) == []
  {
    if order != [] {
      PendingAfterMark(buffer, order[..|order| - 1]);
    }
  }

  /** The callbacks waiting along two stretches of the scan order, one after the other. */
  lemma {:induction false} PendingAppend(b: map<Key, Entry>, x: seq<Key>, y: seq<Key>)
    ensures Pending(b, x + y) == Pending(b, x) + Pending(b, y)
  {
    if y == [] {
      assert x + y == x;
    } else {
      var init, last := y[..|y| - 1], y[|y| - 1];
      assert x + y == (x + init) + [last];
      assert y == init + [last];
      PendingStep(b, x + init, last);
      PendingStep(b, init, last);
      PendingAppend(b, x, init);
    }
  }

  /**
   * Replacing one entry swaps its waiting callbacks for the new entry's,
   * as multisets, when the key occurs once in the scan order.
   */
  lemma PendingUpdate(b: map<Key, Entry>, order: seq<Key>, k: Key, e: Entry)
    requires Distinct(order) && k in order
    ensures multiset(Pending(b[k := e], order)) + multiset(CallbacksOf(b, k))
         == multiset(Pending(b, order)) + multiset(CallbacksOf(b[k := e], k))
  {
    var b' := b[k := e];
    var i :| 0 <= i < |order| && order[i] == k;
    var pre, post := order[..i], order[i + 1..];
    assert k !in pre && k !in post by {
      forall j | 0 <= j < |order| && j != i ensures order[j] != k { }
    }
    PendingAround(b, order, i);
    PendingAround(b', order, i);
    PendingCongruent(b', b, pre);
    PendingCongruent(b', b, post);
    MultisetSwap(Pending(b, pre), CallbacksOf(b, k), CallbacksOf(b', k), Pending(b, post));
  }

  /** The callbacks waiting before a position of the scan order, at it, and after it. */
  lemma PendingAround(b: map<Key, Entry>, order: seq<Key>, i: nat)
    requires i < |order|
    ensures Pending(b, order) == Pending(b, order[..i]) + CallbacksOf(b, order[i]) + Pending(b, order[i + 1..])
  {
    var pre, post := order[..i], order[i + 1..];
    assert order == pre + [order[i]] + post;
    PendingAppend(b, pre + [order[i]], post);
    PendingStep(b, pre, order[i]);
  }

  /** Swapping the middle part of a sequence, seen as a multiset. */
  lemma MultisetSwap<T>(p: seq<T>, c: seq<T>, d: seq<T>, q: seq<T>)
    ensures multiset(p + d + q) + multiset(c) == multiset(p + c + q) + multiset(d)
  {
  }

  /** Cancelling the same multiset on both sides of a sum. */
  lemma MultisetCancel<T>(x: multiset<T>, p: multiset<T>, c: multiset<T>, d: multiset<T>)
    requires x + c == p + (c + d)
    ensures x == p + d
  {
    assert forall e :: x[e] == (x + c)[e] - c[e];
  }

  /** Writing a key the scan order does not visit leaves the waiting callbacks as they are. */
  lemma PendingOutside(b: map<Key, Entry>, order: seq<Key>, k: Key, e: Entry)
    requires k !in order
    ensures Pending(b[k := e], order) == Pending(b, order)
  {
    PendingCongruent(b[k := e], b, order);
  }

  /** Deleting entries that hold nothing for the next flush leaves the waiting callbacks as they are. */
  lemma {:induction false} PendingWithout(b: map<Key, Entry>, order: seq<Key>, gone: set<Key>)
    requires forall k :: k in gone && k in b ==> !b[k].dirty
    ensures Pending(b - gone, Without(order, gone)) == Pending(b, order)
  {
    if order != [] {
      var init, last := order[..|order| - 1], order[|order| - 1];
      var w := Without(init, gone);
      PendingWithout(b, init, gone);
      assert Pending(b, order) == Pending(b, init) + CallbacksOf(b, last);
      if last in gone {
        assert Without(order, gone) == w;
        assert CallbacksOf(b, last) == [];
        assert Pending(b, order) == Pending(b, init);
      } else {
        assert Without(order, gone) == w + [last];
        assert CallbacksOf(b - gone, last) == CallbacksOf(b, last);
        PendingStep(b - gone, w, last);
      }
    }
  }

  /** With nothing dirty, the scan marks nothing. */
  lemma MarkInFlightClean(buffer: map<Key, Entry>)
    requires forall k :: k in buffer ==> !buffer[k].dirty
    ensures MarkInFlight(buffer) == buffer
  {
  }

  /** The completion's clearing of `writingInProgress` leaves the waiting callbacks as they are. */
  lemma PendingAfterRelease(b: map<Key, Entry>, order: seq<Key>, keys: seq<Key>)
    ensures Pending(Released(b, keys), order) == Pending(b, order)
  {
    PendingCongruent(Released(b, keys), b, order);
  }

  /**
   * Where the completion's loop over the collected callbacks stops: at the
   * first default callback when the bulk failed (it rethrows the error),
   * or after the last one.
   */
  function FirstThrow(callbacks: seq<Callback>, err: Option<Fault>): (n: nat)
    ensures n <= |callbacks|
    ensures n < |callbacks| ==> err.Some? && callbacks[n] == Rethrow
    ensures forall i :: 0 <= i < n ==> !(err.Some? && callbacks[i] == Rethrow)
    ensures err.None? ==> n == |callbacks|
  {
    if callbacks == [] || (err.Some? && callbacks[0] == Rethrow) then 0
    else 1 + FirstThrow(callbacks[1..], err)
  }

  /** Each callback of a list called with the same error, in list order. */
  function CallAll(callbacks: seq<Callback>, err: Option<Fault>): (r: seq<Invocation>)
    ensures |r| == |callbacks|
    ensures forall i :: 0 <= i < |r| ==> r[i] == Invocation(callbacks[i], err)
  {
    seq(|callbacks|, i requires 0 <= i < |callbacks| => Invocation(callbacks[i], err))
  }
}
