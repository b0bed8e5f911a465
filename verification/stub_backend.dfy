/**
 * The in-memory driver of testStub_backend.js: a map from key to the value
 * last set, with the driver interface `init`, `get`, `set`, `remove` and
 * `doBulk`.
 */
module StubBackend {
  import opened Wrappers
  import opened Values
  import opened Entries
  import Cfg = Settings

  /** Whether a stored value is truthy: serialised text never is empty, a plain value is tested as it is. */
  predicate PayloadTruthy(p: Payload)
  {
    p.Text? || Truthy(p.doc)
  }

  /**
   * How a driver's `init` calls back: `('invalid', {reason})` or
   * `(null, this)` from the stub, and `()` with no arguments at all from
   * the CouchDB driver.
   */
  datatype InitAnswer = Invalid(reason: string) | Ready | NoArguments

  /** Whether a driver call calls its callback, and with which error. */
  datatype Completion = CalledBack(err: Option<Fault>) | NeverCalled

  /** One operation of a bulk applied to the store: `set` stores, `remove` deletes, anything else is skipped. */
  function Apply(store: map<Key, Payload>, op: Operation): map<Key, Payload>
  {
    match op.kind
    case SetOp => store[op.key := op.value]
    case RemoveOp => store - {op.key}
    case OtherOp(_) => store
  }

  /** A bulk applied operation by operation, in bulk order. */
  function ApplyAll(store: map<Key, Payload>, ops: seq<Operation>): (r: map<Key, Payload>)
    ensures forall k :: k in r && k !in store ==> exists i :: 0 <= i < |ops| && ops[i].key == k && ops[i].kind == SetOp
    ensures forall k :: k in store && k !in r ==> exists i :: 0 <= i < |ops| && ops[i].key == k && ops[i].kind == RemoveOp
  {
    if ops == [] then store else Apply(ApplyAll(store, ops[..|ops| - 1]), ops[|ops| - 1])
  }

  /**
   * The value a key holds after a bulk, read off the bulk itself: the
   * value of the last `set` of the key when the last `set` or `remove` of
   * it is a `set`, nothing when it is a `remove`, and the value before the
   * bulk when the bulk does not write the key.
   */
  function LastWrite(store: map<Key, Payload>, ops: seq<Operation>, k: Key): Option<Payload>
  {
    if ops == [] then (if k in store then Some(store[k]) else None)
    else
      var op := ops[|ops| - 1];
      if op.key == k && op.kind == SetOp then Some(op.value)
      else if op.key == k && op.kind == RemoveOp then None
      else LastWrite(store, ops[..|ops| - 1], k)
  }

  /** The bulk leaves every key with the value of its last write: the last write wins. */
  lemma {:induction false} ApplyAllLastWrite(store: map<Key, Payload>, ops: seq<Operation>, k: Key)
    ensures k in ApplyAll(store, ops) <==> LastWrite(store, ops, k).Some?
    ensures k in ApplyAll(store, ops) ==> ApplyAll(store, ops)[k] == LastWrite(store, ops, k).value
  {
    if ops != [] {
      ApplyAllLastWrite(store, ops[..|ops| - 1], k);
    }
  }

  /** A key no operation of the bulk names keeps its value. */
  lemma {:induction false} ApplyAllUntouched(store: map<Key, Payload>, ops: seq<Operation>, k: Key)
    requires forall i :: 0 <= i < |ops| ==> ops[i].key != k
    ensures k in ApplyAll(store, ops) <==> k in store
    ensures k in store ==> ApplyAll(store, ops)[k] == store[k]
  {
    if ops != [] {
      ApplyAllUntouched(store, ops[..|ops| - 1], k);
    }
  }

  /** Whether a bulk holds a `remove`, whose callback the driver never calls. */
  predicate HasRemove(ops: seq<Operation>)
  {
    exists i :: 0 <= i < |ops| && ops[i].kind == RemoveOp
  }

  /** The driver object: the settings object it was given and its map. */
  class Stub {
    const settings: Cfg.SettingsRecord
    /** `this.backend`: absent (`null`) until `init` runs. */
    var backend: Option<map<Key, Payload>>

    /** The constructor forces `json` on in the settings object it is given. */
    constructor (settings: Cfg.SettingsRecord)
      modifies settings
      ensures this.settings == settings && backend.None?
      ensures settings.json == Some(true)
      ensures settings.cache == old(settings.cache) && settings.writeInterval == old(settings.writeInterval)
      ensures settings.invalid == old(settings.invalid)
    {
      this.settings := settings;
      backend := None;
      settings.json := Some(true);
    }

    /** `init` empties the store, then reports an invalid storage when the settings ask for one. */
    method Init() returns (answer: InitAnswer)
      modifies this`backend
      ensures backend == Some(map[])
      ensures answer.Invalid? <==> settings.invalid
      ensures answer.Invalid? ==> answer.reason == "Stub for an invalid storage"
      ensures answer.Ready? <==> !settings.invalid
    {
      backend := Some(map[]);
      if settings.invalid {
        answer := Invalid("Stub for an invalid storage");
      } else {
        answer := Ready;
      }
    }

    /** `get`: the stored value, and the error flag `!val`, true for a missing key and for a falsy value. */
    method Get(key: Key) returns (err: bool, val: Option<Payload>)
      requires backend.Some?
      ensures val.Some? <==> key in backend.value
      ensures val.Some? ==> val.value == backend.value[key]
      ensures err <==> val.None? || !PayloadTruthy(val.value)
    {
      val := if key in backend.value then Some(backend.value[key]) else None;
      err := !(val.Some? && PayloadTruthy(val.value));
    }

    /** `set` stores the value and always calls back without an error. */
    method Set(key: Key, value: Payload) returns (done: Completion)
      requires backend.Some?
      modifies this`backend
      ensures backend == Some(old(backend.value)[key := value])
      ensures done == CalledBack(None)
    {
      backend := Some(backend.value[key := value]);
      done := CalledBack(None);
    }

    /** `remove` deletes the key alone and never calls its callback. */
    method Remove(key: Key) returns (done: Completion)
      requires backend.Some?
      modifies this`backend
      ensures backend == Some(old(backend.value) - {key})
      ensures done == NeverCalled
    {
      backend := Some(backend.value - {key});
      done := NeverCalled;
    }

    /**
     * `doBulk`: every operation in bulk order (`set` and `remove` through
     * the methods above, anything else skipped); the bulk's callback is
     * called once every operation has called back, so never when a
     * `remove` is among them.
     */
    method DoBulk(bulk: seq<Operation>) returns (done: Completion)
      requires backend.Some?
      modifies this`backend
      ensures backend == Some(ApplyAll(old(backend.value), bulk))
      ensures done == if HasRemove(bulk) then NeverCalled else CalledBack(None)
    {
      var i := 0;
      var stalled := false;
      while i < |bulk|
        invariant 0 <= i <= |bulk| && backend.Some?
        invariant backend.value == ApplyAll(old(backend.value), bulk[..i])
        invariant stalled <==> HasRemove(bulk[..i])
      {
        var op := bulk[i];
        assert bulk[..i + 1][..i] == bulk[..i];
        var step: Completion;
        match op.kind {
          case SetOp =>
            step := Set(op.key, op.value);
          case RemoveOp =>
            step := Remove(op.key);
          case OtherOp(_) =>
            step := CalledBack(None);
        }
        if step == NeverCalled {
          stalled := true;
        }
        i := i + 1;
        assert bulk[..i][i - 1] == op;
      }
      assert bulk[..i] == bulk;
      done := if stalled then NeverCalled else CalledBack(None);
    }
  }
}
