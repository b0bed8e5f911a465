/**
 * The three settings of the buffered store (CacheAndBufferLayer.js): the
 * built-in defaults, the layer a storage driver supplies and the layer the
 * caller supplies, merged field by field.
 */
module Settings {
  import opened Wrappers

  /**
   * One layer of settings as it may be given: a field that is null or
   * undefined is `None`.
   */
  datatype Layer = Layer(cache: Option<int>, writeInterval: Option<int>, json: Option<bool>)

  /** The frozen settings a store runs with. */
  datatype Settings = Settings(cache: int, writeInterval: int, json: bool)

  /** `cache: 1000`, `writeInterval: 100`, `json: true`. */
  const Defaults: Settings := Settings(1000, 100, true)

  /** The layer of an optional settings object (an absent object contributes nothing). */
  function LayerOf(l: Option<Layer>): Layer
  {
    if l.Some? then l.value else Layer(None, None, None)
  }

  /** The first given value of a list of candidates, or `fallback` when none is given. */
  function FirstGiven<T>(candidates: seq<Option<T>>, fallback: T): T
  {
    if candidates == [] then fallback
    else if candidates[0].Some? then candidates[0].value
    else FirstGiven(candidates[1..], fallback)
  }

  /** Apply one layer on top of `s`: every non-null field of the layer replaces the current one. */
  function Override(s: Settings, l: Option<Layer>): (r: Settings)
    ensures l.None? ==> r == s
    ensures LayerOf(l).cache.None? ==> r.cache == s.cache
    ensures LayerOf(l).writeInterval.None? ==> r.writeInterval == s.writeInterval
    ensures LayerOf(l).json.None? ==> r.json == s.json
    ensures LayerOf(l).cache.Some? ==> r.cache == LayerOf(l).cache.value
    ensures LayerOf(l).writeInterval.Some? ==> r.writeInterval == LayerOf(l).writeInterval.value
    ensures LayerOf(l).json.Some? ==> r.json == LayerOf(l).json.value
  {
    var layer := LayerOf(l);
    Settings(
      if layer.cache.Some? then layer.cache.value else s.cache,
      if layer.writeInterval.Some? then layer.writeInterval.value else s.writeInterval,
      if layer.json.Some? then layer.json.value else s.json)
  }

  /** The store's settings: the defaults, then the driver's layer, then the caller's. */
  function Merge(driver: Option<Layer>, caller: Option<Layer>): Settings
  {
    Override(Override(Defaults, driver), caller)
  }

  /**
   * Each setting is the caller's value when given, else the driver's when
   * given, else the default.
   */
  lemma MergePrecedence(driver: Option<Layer>, caller: Option<Layer>)
    ensures Merge(driver, caller).cache == FirstGiven([LayerOf(caller).cache, LayerOf(driver).cache], 1000)
    ensures Merge(driver, caller).writeInterval
         == FirstGiven([LayerOf(caller).writeInterval, LayerOf(driver).writeInterval], 100)
    ensures Merge(driver, caller).json == FirstGiven([LayerOf(caller).json, LayerOf(driver).json], true)
  {
    var c, d := LayerOf(caller), LayerOf(driver);
    assert [c.cache, d.cache][1..] == [d.cache];
    assert FirstGiven([d.cache], 1000) == Override(Defaults, driver).cache by {
      assert [d.cache][1..] == [];
    }
    assert [c.writeInterval, d.writeInterval][1..] == [d.writeInterval];
    assert FirstGiven([d.writeInterval], 100) == Override(Defaults, driver).writeInterval by {
      assert [d.writeInterval][1..] == [];
    }
    assert [c.json, d.json][1..] == [d.json];
    assert FirstGiven([d.json], true) == Override(Defaults, driver).json by {
      assert [d.json][1..] == [];
    }
  }

  /**
   * A mutable settings object as the caller hands it to a storage driver;
   * the drivers write forced values into this same object, which the store
   * then reads as the driver's layer.
   */
  class SettingsRecord {
    var cache: Option<int>
    var writeInterval: Option<int>
    var json: Option<bool>
    /** Whether `settings.invalid` is truthy (read by the stub driver's `init`). */
    var invalid: bool

    constructor (l: Layer, invalid: bool)
      ensures AsLayer() == l && this.invalid == invalid
    {
      cache, writeInterval, json := l.cache, l.writeInterval, l.json;
      this.invalid := invalid;
    }

    /** The layer this object contributes to a merge. */
    function AsLayer(): Layer
      reads this
    {
      Layer(cache, writeInterval, json)
    }
  }
}
