/**
 * The public front of the store (CloneAndAtomicLayer.js): it picks the
 * driver, wraps it in the buffered store, emits every call as an operation
 * record on the channel of its key, and dispatches a record to the store
 * once the channel lets it through, cloning values on the way in and out.
 */
module Front {
  import opened Wrappers
  import opened Values
  import opened Entries
  import opened Paths
  import Cfg = Settings
  import CacheStore
  import StubBackend
  import CouchDBBackend

  /** The driver types this model covers: `testStub` and `CouchDB`. */
  datatype Driver = StubDriver | CouchDBDriver

  /**
   * The driver type the constructor settles on: a missing or empty type,
   * or the string `"undefined"`, becomes `"couch"`.
   */
  function BackendType(requested: Option<string>): (t: string)
    ensures t != "" && t != "undefined"
    ensures t == "couch" <==> requested.None? || requested.value in {"", "undefined", "couch"}
    ensures requested.Some? && requested.value !in {"", "undefined"} ==> t == requested.value
  {
    if requested.None? || requested.value == "" || requested.value == "undefined" then "couch" else requested.value
  }

  /** The driver module `./<type>_backend`, when it is one this model covers. */
  function DriverFor(t: string): Option<Driver>
  {
    if t == "testStub" then Some(StubDriver)
    else if t == "CouchDB" then Some(CouchDBDriver)
    else None
  }

  /** An operation record: its `type` tag, its key, and what the call carried. */
  datatype Record =
    | GetRecord(key: Key, callback: Callback)
    | SetRecord(key: Key, value: Value, bufferCallback: Option<Callback>, writeCallback: Option<Callback>)
    | GetSubRecord(key: Key, sub: Path, callback: Callback)
    | SetSubRecord(key: Key, sub: Path, value: Value, bufferCallback: Option<Callback>, writeCallback: Option<Callback>)
    | RemoveRecord(key: Key, bufferCallback: Option<Callback>, writeCallback: Option<Callback>)
    | UnknownRecord(tag: string, key: Key)

  /** The `type` field of a record. */
  function Tag(r: Record): string
  {
    match r
    case GetRecord(_, _) => "get"
    case SetRecord(_, _, _, _) => "set"
    case GetSubRecord(_, _, _) => "getsub"
    case SetSubRecord(_, _, _, _, _) => "setsub"
    case RemoveRecord(_, _, _) => "remove"
    case UnknownRecord(tag, _) => tag
  }

  predicate IsRead(r: Record)
  {
    r.GetRecord? || r.GetSubRecord?
  }

  predicate IsWrite(r: Record)
  {
    r.SetRecord? || r.SetSubRecord? || r.RemoveRecord?
  }

  /**
   * A record emitted on a channel, with the store the front held when it
   * emitted it (null before `init`).
   */
  datatype Emission = Emission(channel: Key, record: Record, backend: CacheStore.Store?)

  /** The store call a record turns into; the write callback is passed through untouched. */
  datatype StoreCall =
    | StoreGet(key: Key)
    | StoreSet(key: Key, value: Value, writeCallback: Option<Callback>)
    | StoreGetSub(key: Key, sub: Path)
    | StoreSetSub(key: Key, sub: Path, value: Value, writeCallback: Option<Callback>)
    | StoreRemove(key: Key, writeCallback: Option<Callback>)

  /** What happens once the store answers: the channel is released, or a caller's callback is called. */
  datatype Event =
    | QueueReleased
    | CallerAnswered(callback: Callback, err: Option<Fault>, value: Value)
    | BufferAcknowledged(callback: Callback, err: Option<Fault>)

  /**
   * The store call `doOperation` makes for a record, given whether the
   * record carries a store. None for an unknown type, which matches no
   * branch, and none for a record emitted before `init`, whose call throws
   * on the missing store; either way the channel is never released.
   */
  function Forwarded(r: Record, hasBackend: bool): (c: Option<StoreCall>)
    ensures c.None? <==> r.UnknownRecord? || !hasBackend
    ensures c.Some? ==> c.value.key == r.key
    ensures c.Some? ==> ((c.value.StoreGet? || c.value.StoreGetSub?) <==> IsRead(r))
    ensures c.Some? && IsWrite(r) ==> c.value.writeCallback == r.writeCallback
  {
    if !hasBackend then None
    else match r
    case GetRecord(key, _) => Some(StoreGet(key))
    case SetRecord(key, value, _, wcb) => Some(StoreSet(key, value, wcb))
    case GetSubRecord(key, sub, _) => Some(StoreGetSub(key, sub))
    case SetSubRecord(key, sub, value, _, wcb) => Some(StoreSetSub(key, sub, value, wcb))
    case RemoveRecord(key, _, wcb) => Some(StoreRemove(key, wcb))
    case UnknownRecord(_, _) => None
  }

  /**
   * What `doOperation` does once the store answers `(err, value)`: a read
   * clones the value (a throwing clone stops the handler before anything
   * is called), answers the caller, then releases the channel; a write
   * releases the channel, then acknowledges to the buffer callback if
   * there is one.
   */
  function Dispatch(r: Record, answer: CacheStore.Answer): (events: seq<Event>)
    ensures r.UnknownRecord? ==> events == []
    ensures QueueReleased in events <==> IsWrite(r) || (IsRead(r) && Clonable(answer.value))
    ensures forall i, j :: 0 <= i < |events| && 0 <= j < |events| && events[i] == QueueReleased && events[j] != QueueReleased
              ==> (j < i <==> IsRead(r))
    ensures forall i :: 0 <= i < |events| && events[i].CallerAnswered? ==>
              IsRead(r) && events[i].callback == r.callback && events[i].err == answer.err
              && IsPlain(events[i].value) && OwnEqual(answer.value, events[i].value)
    ensures forall i :: 0 <= i < |events| && events[i].BufferAcknowledged? ==>
              IsWrite(r) && r.bufferCallback == Some(events[i].callback) && events[i].err == answer.err
    ensures IsWrite(r) ==> |events| == if r.bufferCallback.Some? then 2 else 1
    ensures IsRead(r) ==> |events| == if Clonable(answer.value) then 2 else 0
  {
    if IsRead(r) then
      match Clone(answer.value)
      case None => []
      case Some(copy) => [CallerAnswered(r.callback, answer.err, copy), QueueReleased]
    else if IsWrite(r) then
      [QueueReleased] + if r.bufferCallback.Some? then [BufferAcknowledged(r.bufferCallback.value, answer.err)] else []
    else []
  }

  /** The front object. */
  class Remote {
    const backendType: string
    const driver: Option<Driver>
    const backendSettings: Cfg.SettingsRecord
    const wrapperSettings: Option<Cfg.Layer>
    /** Every record emitted, with its channel, in the order emitted. */
    var emitted: seq<Emission>
    /** The buffered store, once `init` has made it. */
    var backend: CacheStore.Store?

    /** Every record went to the channel of its own key, and carries a known type. */
    ghost predicate Valid()
      reads this`emitted
    {
      forall i :: 0 <= i < |emitted| ==> emitted[i].channel == emitted[i].record.key && !emitted[i].record.UnknownRecord?
    }

    /** The constructor settles the driver type and keeps both settings objects as they are given. */
    constructor (requested: Option<string>, backendSettings: Cfg.SettingsRecord, wrapperSettings: Option<Cfg.Layer>)
      ensures Valid()
      ensures backendType == BackendType(requested) && driver == DriverFor(backendType)
      ensures this.backendSettings == backendSettings && this.wrapperSettings == wrapperSettings
      ensures emitted == [] && backend == null
    {
      backendType := BackendType(requested);
      driver := DriverFor(BackendType(requested));
      this.backendSettings := backendSettings;
      this.wrapperSettings := wrapperSettings;
      emitted := [];
      backend := null;
    }

    /**
     * `init`: make the driver on the backend settings (which it
     * overrides), wrap it in a store whose settings are the defaults, the
     * driver's and then the wrapper settings, and initialise the driver.
     */
    method Init() returns (answer: StubBackend.InitAnswer)
      requires driver.Some?
      modifies backendSettings, this`backend
      ensures backend != null && fresh(backend) && backend.Valid()
      ensures backend.buffer == map[] && backend.bufferLength == 0 && !backend.isFlushing
      ensures driver == Some(StubDriver) ==>
        && backend.settings == Cfg.Merge(Some(old(backendSettings.AsLayer()).(json := Some(true))), wrapperSettings)
        && (answer.Invalid? <==> backendSettings.invalid)
      ensures driver == Some(CouchDBDriver) ==>
        && backend.settings == Cfg.Merge(Some(Cfg.Layer(Some(100), Some(500), Some(false))), wrapperSettings)
        && answer == StubBackend.NoArguments
    {
      if driver == Some(StubDriver) {
        var stub := new StubBackend.Stub(backendSettings);
        backend := new CacheStore.Store(Some(backendSettings.AsLayer()), wrapperSettings);
        answer := stub.Init();
      } else {
        var couch := new CouchDBBackend.Remote(backendSettings);
        backend := new CacheStore.Store(Some(backendSettings.AsLayer()), wrapperSettings);
        answer := StubBackend.NoArguments;
      }
    }

    /** `get` emits a get record on the key's channel. */
    method Get(key: Key, callback: Callback)
      requires Valid()
      modifies this`emitted
      ensures Valid()
      ensures emitted == old(emitted) + [Emission(key, GetRecord(key, callback), backend)]
    {
      emitted := emitted + [Emission(key, GetRecord(key, callback), backend)];
    }

    /** `set` emits a set record carrying a clone of the value; a value `clone` refuses throws first. */
    method Set(key: Key, value: Value, bufferCallback: Option<Callback>, writeCallback: Option<Callback>)
      returns (threw: bool)
      requires Valid()
      modifies this`emitted
      ensures Valid()
      ensures threw <==> !Clonable(value)
      ensures threw ==> emitted == old(emitted)
      ensures !threw ==> emitted == old(emitted) + [Emission(key, SetRecord(key, Clone(value).value, bufferCallback, writeCallback), backend)]
    {
      var copy := Clone(value);
      threw := copy.None?;
      if !threw {
        emitted := emitted + [Emission(key, SetRecord(key, copy.value, bufferCallback, writeCallback), backend)];
      }
    }

    /** `getSub` emits a getsub record on the key's channel. */
    method GetSub(key: Key, sub: Path, callback: Callback)
      requires Valid()
      modifies this`emitted
      ensures Valid()
      ensures emitted == old(emitted) + [Emission(key, GetSubRecord(key, sub, callback), backend)]
    {
      emitted := emitted + [Emission(key, GetSubRecord(key, sub, callback), backend)];
    }

    /** `setSub` emits a setsub record carrying a clone of the value; a value `clone` refuses throws first. */
    method SetSub(key: Key, sub: Path, value: Value, bufferCallback: Option<Callback>, writeCallback: Option<Callback>)
      returns (threw: bool)
      requires Valid()
      modifies this`emitted
      ensures Valid()
      ensures threw <==> !Clonable(value)
      ensures threw ==> emitted == old(emitted)
      ensures !threw ==> emitted == old(emitted) + [Emission(key, SetSubRecord(key, sub, Clone(value).value, bufferCallback, writeCallback), backend)]
    {
      var copy := Clone(value);
      threw := copy.None?;
      if !threw {
        emitted := emitted + [Emission(key, SetSubRecord(key, sub, copy.value, bufferCallback, writeCallback), backend)];
      }
    }

    /** `remove` emits a remove record, which carries no value. */
    method Remove(key: Key, bufferCallback: Option<Callback>, writeCallback: Option<Callback>)
      requires Valid()
      modifies this`emitted
      ensures Valid()
      ensures emitted == old(emitted) + [Emission(key, RemoveRecord(key, bufferCallback, writeCallback), backend)]
    {
      emitted := emitted + [Emission(key, RemoveRecord(key, bufferCallback, writeCallback), backend)];
    }
  }

  /** A value the front enqueues is plain data, equal to the caller's as far as own properties go. */
  lemma EnqueuedValueIsCopy(value: Value)
    requires Clonable(value)
    ensures IsPlain(Clone(value).value) && OwnEqual(value, Clone(value).value)
    ensures Clone(Clone(value).value) == Clone(value)
  {
    CloneIdempotent(value);
  }
}
