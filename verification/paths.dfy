/**
 * Sub-path navigation inside a stored document: the read-only walk of
 * `getSub` and the creating walk of `setSub` (CacheAndBufferLayer.js).
 * Every accessor is a property name; on arrays and strings a canonical
 * decimal name below 2^32 - 1 is an index, and `length` is the length.
 */
module Paths {
  import opened Wrappers
  import opened Values

  /** One accessor of a sub-path: a property name or an integer index. */
  datatype Step = Key(name: string) | Index(i: nat)

  type Path = seq<Step>

  /** One more than the largest array index. */
  const MaxArrayLength: nat := 0xFFFF_FFFF

  function DecimalDigit(d: nat): char
    requires d < 10
  {
    (48 + d) as char
  }

  /** The decimal spelling JavaScript uses when an integer names a property. */
  function Decimal(n: nat): string
  {
    if n < 10 then [DecimalDigit(n)] else Decimal(n / 10) + [DecimalDigit(n % 10)]
  }

  /** The property an accessor names (`obj[3]` is `obj["3"]`). */
  function PropertyName(s: Step): string
  {
    match s
    case Key(k) => k
    case Index(i) => Decimal(i)
  }

  predicate IsDigit(c: char)
  {
    '0' <= c <= '9'
  }

  predicate AllDigits(s: string)
  {
    forall j :: 0 <= j < |s| ==> IsDigit(s[j])
  }

  /** The number a string of digits spells. */
  function DigitsValue(s: string): nat
    requires AllDigits(s)
  {
    if s == [] then 0 else DigitsValue(s[..|s| - 1]) * 10 + (s[|s| - 1] as int - 48)
  }

  /** Digits without a leading zero (a lone "0" is allowed). */
  predicate Canonical(s: string)
  {
    s != [] && AllDigits(s) && (|s| == 1 || s[0] != '0')
  }

  /** The array index a property name denotes, if it denotes one. */
  function ArrayIndex(name: string): Option<nat>
  {
    if Canonical(name) && DigitsValue(name) < MaxArrayLength then Some(DigitsValue(name)) else None
  }

  lemma {:induction false} DigitsPositive(s: string)
    requires s != [] && AllDigits(s) && s[0] != '0'
    ensures DigitsValue(s) >= 1
  {
    if |s| > 1 {
      DigitsPositive(s[..|s| - 1]);
    }
  }

  /** A canonical string of digits is the decimal spelling of the number it spells. */
  lemma {:induction false} CanonicalIsDecimal(s: string)
    requires Canonical(s)
    ensures Decimal(DigitsValue(s)) == s
  {
    if |s| > 1 {
      var init := s[..|s| - 1];
      assert Canonical(init);
      DigitsPositive(init);
      CanonicalIsDecimal(init);
      assert s == init + [s[|s| - 1]];
    }
  }

  /** The decimal spelling of a number is canonical and spells that number. */
  lemma {:induction false} DecimalIsCanonical(n: nat)
    ensures Canonical(Decimal(n)) && DigitsValue(Decimal(n)) == n
    ensures n >= 10 ==> |Decimal(n)| > 1
  {
    if n >= 10 {
      DecimalIsCanonical(n / 10);
      var d := Decimal(n);
      assert d[..|d| - 1] == Decimal(n / 10);
      assert d[0] == Decimal(n / 10)[0];
    }
  }

  /** A numeric accessor below 2^32 - 1 addresses the element of that index, however it is spelt. */
  lemma IndexNamesElement(i: nat)
    ensures ArrayIndex(PropertyName(Index(i))) == ArrayIndex(PropertyName(Key(Decimal(i))))
    ensures ArrayIndex(Decimal(i)) == if i < MaxArrayLength then Some(i) else None
  {
    DecimalIsCanonical(i);
  }

  /** Distinct property names never denote the same array index. */
  lemma ArrayIndexInjective(a: string, b: string)
    requires ArrayIndex(a).Some? && ArrayIndex(a) == ArrayIndex(b)
    ensures a == b
  {
    CanonicalIsDecimal(a);
    CanonicalIsDecimal(b);
  }

  /**
   * `parent[step]`, with `None` for `undefined`. An object answers from its
   * own properties first, then from what it inherits; arrays answer their
   * indices in range and `length`; strings answer their characters and
   * `length`.
   */
  function Lookup(parent: Value, step: Step): (r: Option<Value>)
    ensures r.Some? ==> parent.Obj? || parent.Arr? || parent.Str?
    ensures parent.Obj? ==> (r.Some? <==> PropertyName(step) in parent.own || PropertyName(step) in parent.inherited)
    ensures parent.Obj? && r.Some? ==> r.value == Property(parent, PropertyName(step))
    ensures parent.Arr? && step.Index? && step.i < MaxArrayLength ==>
      r == if step.i < |parent.elems| then Some(parent.elems[step.i]) else None
    ensures parent.Str? && step.Index? && step.i < MaxArrayLength ==>
      r == if step.i < |parent.s| then Some(Str([parent.s[step.i]])) else None
    ensures parent.Arr? && PropertyName(step) == "length" ==> r == Some(Num(|parent.elems|))
    ensures parent.Str? && PropertyName(step) == "length" ==> r.Some? && r.value.Num? && r.value.n >= |parent.s|
  {
    var k := PropertyName(step);
    assert step.Index? && step.i < MaxArrayLength ==> ArrayIndex(k) == Some(step.i) by {
      if step.Index? { IndexNamesElement(step.i); }
    }
    match parent
    case Obj(own, inherited) =>
      if k in own then Some(own[k]) else if k in inherited then Some(inherited[k]) else None
    case Arr(xs) =>
      if k == "length" then Some(Num(|xs|))
      else if ArrayIndex(k).Some? && ArrayIndex(k).value < |xs| then Some(xs[ArrayIndex(k).value])
      else None
    case Str(s) =>
      if k == "length" then Some(Num(Utf16Length(s)))
      else if ArrayIndex(k).Some? && ArrayIndex(k).value < |s| then Some(Str([s[ArrayIndex(k).value]]))
      else None
    case _ => None
  }

  /**
   * The `getSub` walk: follow the path step by step and yield null as soon
   * as a step is missing (a null parent has no steps).
   */
  function Walk(doc: Value, path: Path): (r: Value)
    ensures path == [] ==> r == doc
    ensures path != [] && !(doc.Obj? || doc.Arr? || doc.Str?) ==> r == Null
    decreases |path|
  {
    if path == [] then doc
    else
      match Lookup(doc, path[0])
      case None => Null
      case Some(child) => Walk(child, path[1..])
  }

  /** Walking a path in two parts is walking it whole: a missing step stays null to the end. */
  lemma {:induction false} WalkConcat(doc: Value, p: Path, q: Path)
    ensures Walk(doc, p + q) == Walk(Walk(doc, p), q)
    decreases |p|
  {
    if p == [] {
      assert p + q == q;
    } else {
      assert (p + q)[0] == p[0] && (p + q)[1..] == p[1..] + q;
      if Lookup(doc, p[0]).Some? {
        WalkConcat(Lookup(doc, p[0]).value, p[1..], q);
      }
    }
  }

  /**
   * How a `setSub` walk ends: with the updated document, with the
   * TypeError JavaScript raises on a null or undefined parent, or in a case
   * this model does not follow (an assignment JavaScript silently ignores on
   * a primitive, a hole in an array, a named property or `length` assigned
   * on an array, a step into an inherited object, an exotic object).
   */
  datatype Placed = Placed(doc: Value) | Throws | Unmodelled

  /** The empty object `{}` that `setSub` creates for a missing intermediate. */
  function EmptyObject(): Value
  {
    Obj(map[], map[])
  }

  /** The container a `setSub` walk steps into at an intermediate accessor. */
  function Descend(parent: Value, step: Step): (r: Placed)
    ensures parent.Null? || parent.Bool? || parent.Num? ==> r.Throws?
    ensures r.Placed? && Lookup(parent, step).Some? ==> r.doc == Lookup(parent, step).value
    ensures r.Placed? && Lookup(parent, step).None? ==> r.doc == EmptyObject()
    ensures parent.Obj? ==>
      (r.Unmodelled? <==> PropertyName(step) !in parent.own && PropertyName(step) in parent.inherited)
    ensures parent.Arr? && step.Index? && step.i <= |parent.elems| && step.i < MaxArrayLength ==> r.Placed?
  {
    var k := PropertyName(step);
    assert step.Index? && step.i < MaxArrayLength ==> ArrayIndex(k) == Some(step.i) by {
      if step.Index? { IndexNamesElement(step.i); }
    }
    match parent
    case Null => Throws
    case Obj(own, inherited) =>
      if k in own then Placed(own[k])
      else if k in inherited then Unmodelled
      else Placed(EmptyObject())
    case Arr(xs) =>
      if k == "length" then Placed(Num(|xs|))
      else if ArrayIndex(k).Some? && ArrayIndex(k).value < |xs| then Placed(xs[ArrayIndex(k).value])
      else if ArrayIndex(k).Some? && ArrayIndex(k).value == |xs| then Placed(EmptyObject())
      else Unmodelled
    case Str(s) =>
      if k == "length" then Placed(Num(Utf16Length(s)))
      else if ArrayIndex(k).Some? && ArrayIndex(k).value < |s| then Placed(Str([s[ArrayIndex(k).value]]))
      else Throws
    case Bool(_) => Throws
    case Num(_) => Throws
    case Exotic => Unmodelled
  }

  /** `parent[step] = v`. */
  function Assign(parent: Value, step: Step, v: Value): (r: Placed)
    ensures parent.Null? ==> r.Throws?
    ensures parent.Obj? ==> r.Placed? && r.doc.Obj? && r.doc.inherited == parent.inherited
    ensures parent.Arr? && r.Placed? ==> r.doc.Arr? && |parent.elems| <= |r.doc.elems| <= |parent.elems| + 1
    ensures parent.Arr? && step.Index? && step.i <= |parent.elems| && step.i < MaxArrayLength ==> r.Placed?
  {
    var k := PropertyName(step);
    assert step.Index? && step.i < MaxArrayLength ==> ArrayIndex(k) == Some(step.i) by {
      if step.Index? { IndexNamesElement(step.i); }
    }
    match parent
    case Null => Throws
    case Obj(own, inherited) => Placed(Obj(own[k := v], inherited))
    case Arr(xs) =>
      if k == "length" then Unmodelled
      else if ArrayIndex(k).Some? && ArrayIndex(k).value < |xs| then Placed(Arr(xs[ArrayIndex(k).value := v]))
      else if ArrayIndex(k).Some? && ArrayIndex(k).value == |xs| then Placed(Arr(xs + [v]))
      else Unmodelled
    case _ => Unmodelled
  }

  /**
   * The `setSub` walk: descend through every accessor but the last,
   * creating `{}` where one is missing, then assign the last accessor.
   * The new document writes each updated container back into its parent,
   * which is what the in-place mutation of the source amounts to.
   */
  function SetPath(doc: Value, path: Path, v: Value): (r: Placed)
    requires path != []
    ensures doc.Null? ==> r.Throws?
    ensures r.Placed? && doc.Obj? ==> r.doc.Obj? && r.doc.inherited == doc.inherited
    ensures r.Placed? && doc.Arr? ==> r.doc.Arr? && |doc.elems| <= |r.doc.elems| <= |doc.elems| + 1
    decreases |path|
  {
    if |path| == 1 then Assign(doc, path[0], v)
    else
      match Descend(doc, path[0])
      case Placed(child) =>
        (match SetPath(child, path[1..], v)
         case Placed(updated) => Assign(doc, path[0], updated)
         case failed => failed)
      case failed => failed
  }

  /**
   * `q` leaves `p` at some accessor naming a different property, and that
   * accessor is not `length` (which an assignment appending to an array
   * changes).
   */
  predicate Diverges(q: Path, p: Path)
    decreases |q|
  {
    && |q| > 0 && |p| > 0
    && if PropertyName(q[0]) == PropertyName(p[0]) then Diverges(q[1..], p[1..])
       else PropertyName(q[0]) != "length"
  }

  lemma AssignThenLookup(parent: Value, s: Step, v: Value)
    requires Assign(parent, s, v).Placed?
    ensures Lookup(Assign(parent, s, v).doc, s) == Some(v)
  {
  }

  /**
   * Assigning one slot leaves every differently named slot as it was,
   * except the `length` of an array, which is then the new number of
   * elements (one more after an append).
   */
  lemma AssignKeepsOtherSlots(parent: Value, s: Step, v: Value, t: Step)
    requires Assign(parent, s, v).Placed?
    requires PropertyName(t) != PropertyName(s)
    ensures !(parent.Arr? && PropertyName(t) == "length") ==>
      Lookup(Assign(parent, s, v).doc, t) == Lookup(parent, t)
    ensures parent.Arr? && PropertyName(t) == "length" ==>
      Lookup(Assign(parent, s, v).doc, t)
        == Some(Num(if ArrayIndex(PropertyName(s)).value == |parent.elems| then |parent.elems| + 1 else |parent.elems|))
  {
    if parent.Arr? && ArrayIndex(PropertyName(t)).Some? && ArrayIndex(PropertyName(t)) == ArrayIndex(PropertyName(s)) {
      ArrayIndexInjective(PropertyName(t), PropertyName(s));
    }
  }

  lemma WalkEmptyObject(q: Path)
    requires q != []
    ensures Walk(EmptyObject(), q) == Null
  {
  }

  /** A completed `setSub` walk yields a container. */
  lemma {:induction false} SetPathYieldsContainer(doc: Value, path: Path, v: Value)
    requires path != [] && SetPath(doc, path, v).Placed?
    ensures SetPath(doc, path, v).doc.Obj? || SetPath(doc, path, v).doc.Arr?
  {
  }

  /** Get after set: the `getSub` walk of the updated document finds the new value. */
  lemma {:induction false} SetThenWalk(doc: Value, path: Path, v: Value)
    requires path != [] && SetPath(doc, path, v).Placed?
    ensures Walk(SetPath(doc, path, v).doc, path) == v
    decreases |path|
  {
    var d := SetPath(doc, path, v).doc;
    if |path| == 1 {
      AssignThenLookup(doc, path[0], v);
      assert path[1..] == [];
    } else {
      var child := Descend(doc, path[0]).doc;
      var updated := SetPath(child, path[1..], v).doc;
      AssignThenLookup(doc, path[0], updated);
      SetThenWalk(child, path[1..], v);
    }
  }

  /** Siblings are untouched: a path that leaves the written path reads as before. */
  lemma {:induction false} SetKeepsSiblings(doc: Value, path: Path, v: Value, q: Path)
    requires path != [] && SetPath(doc, path, v).Placed?
    requires Diverges(q, path)
    ensures Walk(SetPath(doc, path, v).doc, q) == Walk(doc, q)
    decreases |path|
  {
    var d := SetPath(doc, path, v).doc;
    if PropertyName(q[0]) != PropertyName(path[0]) {
      if |path| == 1 {
        AssignKeepsOtherSlots(doc, path[0], v, q[0]);
      } else {
        var updated := SetPath(Descend(doc, path[0]).doc, path[1..], v).doc;
        AssignKeepsOtherSlots(doc, path[0], updated, q[0]);
      }
    } else {
      assert Diverges(q[1..], path[1..]);
      var child := Descend(doc, path[0]).doc;
      var updated := SetPath(child, path[1..], v).doc;
      assert d == Assign(doc, path[0], updated).doc;
      SetKeepsSiblings(child, path[1..], v, q[1..]);
      assert Lookup(d, q[0]) == Some(updated);
      if Lookup(doc, q[0]).None? {
        WalkEmptyObject(q[1..]);
      }
    }
  }
}
