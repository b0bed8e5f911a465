/**
 * JavaScript values as the store handles them, and the structural `clone`
 * that CloneAndAtomicLayer.js (and, as a copy, CacheAndBufferLayer.js)
 * applies at the boundary.
 */
module Values {
  import opened Wrappers

  /**
   * A JavaScript value. `undefined` is folded into `Null`: the source
   * mostly tests both with `== null`; the sub-path walks, which test
   * `!== undefined`, are the exception (see Paths). `Obj` keeps the object's own properties apart from
   * the ones it sees through its prototype chain (`inherited`); `Exotic` is
   * an object that is neither an Array nor an instance of Object (one made
   * with `Object.create(null)`, say), which `clone` refuses. Numbers are
   * modelled as integers.
   */
  datatype Value =
    | Null
    | Bool(b: bool)
    | Num(n: int)
    | Str(s: string)
    | Arr(elems: seq<Value>)
    | Obj(own: map<string, Value>, inherited: map<string, Value>)
    | Exotic

  /** JavaScript truthiness (`if (v)`). */
  predicate Truthy(v: Value)
  {
    match v
    case Null => false
    case Bool(b) => b
    case Num(n) => n != 0
    case Str(s) => s != ""
    case _ => true
  }

  /**
   * Property access `v.name` on a value that is not null: an object's own
   * property, else the one it inherits, else undefined (`Null`). Properties
   * of primitives and arrays (`length` and the like) are not modelled and
   * read as undefined.
   */
  function Property(v: Value, name: string): (r: Value)
    ensures !v.Obj? ==> r == Null
    ensures v.Obj? && name in v.own ==> r == v.own[name]
    ensures v.Obj? && name !in v.own && name !in v.inherited ==> r == Null
  {
    if v.Obj? && name in v.own then v.own[name]
    else if v.Obj? && name in v.inherited then v.inherited[name]
    else Null
  }

  /** `s.length`: the number of UTF-16 code units, two for a character above U+FFFF. */
  function Utf16Length(s: string): (n: nat)
    ensures |s| <= n <= 2 * |s|
    ensures (forall j :: 0 <= j < |s| ==> s[j] as int < 0x1_0000) ==> n == |s|
  {
    if s == [] then 0 else Utf16Length(s[..|s| - 1]) + if s[|s| - 1] as int >= 0x1_0000 then 2 else 1
  }

  /**
   * The method `clone` calls on every object it copies, once per enumerated
   * property. A value can never be a function here, so an object that owns or
   * inherits a property of this name makes that call throw a TypeError.
   */
  const HasOwnPropertyName: string := "hasOwnProperty"

  /**
   * No exotic object is reachable through array elements or own properties,
   * and no object on the way has a `hasOwnProperty` property of its own or
   * inherited.
   */
  predicate Clonable(v: Value)
  {
    match v
    case Arr(xs) => forall i :: 0 <= i < |xs| ==> Clonable(xs[i])
    case Obj(own, inherited) =>
      && HasOwnPropertyName !in own
      && HasOwnPropertyName !in inherited
      && forall k :: k in own ==> Clonable(own[k])
    case Exotic => false
    case _ => true
  }

  /**
   * Plain data: no inherited properties, no exotic object and no own
   * `hasOwnProperty` property anywhere.
   */
  predicate IsPlain(v: Value)
  {
    match v
    case Arr(xs) => forall i :: 0 <= i < |xs| ==> IsPlain(xs[i])
    case Obj(own, inherited) =>
      && inherited == map[]
      && HasOwnPropertyName !in own
      && forall k :: k in own ==> IsPlain(own[k])
    case Exotic => false
    case _ => true
  }

  /**
   * Deep equality of what can be observed through own properties: array
   * elements pairwise and the own properties of objects, ignoring what an
   * object inherits.
   */
  predicate OwnEqual(a: Value, b: Value)
  {
    match a
    case Arr(xs) =>
      b.Arr? && |xs| == |b.elems| && forall i :: 0 <= i < |xs| ==> OwnEqual(xs[i], b.elems[i])
    case Obj(own, _) =>
      b.Obj? && own.Keys == b.own.Keys && forall k :: k in own ==> OwnEqual(own[k], b.own[k])
    case _ => a == b
  }

  /**
   * `clone(obj)`: primitives and null are returned as they are, arrays are
   * copied element by element, objects by their own properties; `None`
   * stands for the "Unable to copy obj" exception and for the TypeError of
   * calling a `hasOwnProperty` that is not a function.
   */
  function Clone(v: Value): (r: Option<Value>)
    ensures r.Some? <==> Clonable(v)
    ensures r.Some? ==> IsPlain(r.value) && OwnEqual(v, r.value)
  {
    match v
    case Arr(xs) =>
      if forall i :: 0 <= i < |xs| ==> Clone(xs[i]).Some? then
        Some(Arr(seq(|xs|, i requires 0 <= i < |xs| => Clone(xs[i]).value)))
      else
        None
    case Obj(own, inherited) =>
      if HasOwnPropertyName in own || HasOwnPropertyName in inherited then
        None
      else if forall k :: k in own ==> Clone(own[k]).Some? then
        Some(Obj(map k | k in own :: Clone(own[k]).value, map[]))
      else
        None
    case Exotic => None
    case _ => Some(v)
  }

  /** Cloning plain data gives back a structurally equal value. */
  lemma {:induction false} CloneOfPlain(v: Value)
    requires IsPlain(v)
    ensures Clone(v) == Some(v)
  {
    match v
    case Arr(xs) =>
      forall i | 0 <= i < |xs| ensures Clone(xs[i]) == Some(xs[i]) {
        CloneOfPlain(xs[i]);
      }
      assert seq(|xs|, i requires 0 <= i < |xs| => Clone(xs[i]).value) == xs;
    case Obj(own, inherited) =>
      forall k | k in own ensures Clone(own[k]) == Some(own[k]) {
        CloneOfPlain(own[k]);
      }
      var copied := map k | k in own :: Clone(own[k]).value;
      assert copied == own;
      assert Clone(v) == Some(Obj(copied, map[]));
    case _ =>
  }

  /** Cloning twice is cloning once. */
  lemma CloneIdempotent(v: Value)
    requires Clonable(v)
    ensures Clone(Clone(v).value) == Clone(v)
  {
    CloneOfPlain(Clone(v).value);
  }
}
