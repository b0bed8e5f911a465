/**
 * The key escaping of `keyToAddress` in couch.js and dav.js: a key made of
 * a run of `u`s followed by `_` gets one more `u` in front, so that no
 * stored document name starts with `_` and no two keys share a name.
 */
module Escaping {

  /** `n` copies of the letter `u`. */
  function Us(n: nat): (r: string)
    ensures |r| == n && forall j :: 0 <= j < n ==> r[j] == 'u'
  {
    if n == 0 then "" else "u" + Us(n - 1)
  }

  /** The length of the run of `u`s the key starts with. */
  function LeadingUs(key: string): (n: nat)
    ensures n <= |key|
    ensures forall j :: 0 <= j < n ==> key[j] == 'u'
    ensures n < |key| ==> key[n] != 'u'
  {
    if key != [] && key[0] == 'u' then 1 + LeadingUs(key[1..]) else 0
  }

  /** The key has the form `u…u_…` (zero or more `u`s, then `_`). */
  predicate NeedsEscape(key: string)
  {
    LeadingUs(key) < |key| && key[LeadingUs(key)] == '_'
  }

  /** The name a key is stored under. */
  function Escaped(key: string): (r: string)
    ensures r == key || r == "u" + key
    ensures r != [] ==> r[0] != '_'
  {
    if NeedsEscape(key) then "u" + key else key
  }

  /** The key stored under a name: a name of the form `u…u_…` loses its first `u`. */
  function Unescaped(name: string): (r: string)
    ensures r == name || ("u" + r == name && NeedsEscape(r))
  {
    if NeedsEscape(name) && name[0] == 'u' then
      NeedsEscapeUnderU(name[1..]);
      assert "u" + name[1..] == name;
      name[1..]
    else name
  }

  /** One more leading `u` does not change whether a key has the escaped form. */
  lemma NeedsEscapeUnderU(key: string)
    ensures LeadingUs("u" + key) == 1 + LeadingUs(key)
    ensures NeedsEscape("u" + key) <==> NeedsEscape(key)
  {
    assert ("u" + key)[1..] == key;
  }

  /**
   * The scan of `keyToAddress`: count the leading `u`s, and prefix one more
   * when the character after them is `_`. The index never leaves
   * `0..|key|`.
   */
  method EscapeKey(key: string) returns (name: string)
    ensures name == Escaped(key)
  {
    var i := 0;
    while i < |key| && key[i] == 'u'
      invariant 0 <= i <= LeadingUs(key)
      decreases |key| - i
    {
      i := i + 1;
    }
    name := key;
    if i < |key| && key[i] == '_' {
      name := "u" + key;
    }
  }

  /** Unescaping gives back the key: the escaping loses nothing. */
  lemma UnescapeEscaped(key: string)
    ensures Unescaped(Escaped(key)) == key
  {
    if NeedsEscape(key) {
      NeedsEscapeUnderU(key);
      assert ("u" + key)[1..] == key;
    } else if key != [] && key[0] == 'u' {
      assert !NeedsEscape(Escaped(key));
    }
  }

  /** Distinct keys are stored under distinct names. */
  lemma EscapeInjective(a: string, b: string)
    requires Escaped(a) == Escaped(b)
    ensures a == b
  {
    UnescapeEscaped(a);
    UnescapeEscaped(b);
  }

  /** Under a common address prefix, distinct keys have distinct addresses. */
  lemma AddressInjective(base: string, a: string, b: string)
    requires base + Escaped(a) == base + Escaped(b)
    ensures a == b
  {
    assert Escaped(a) == (base + Escaped(a))[|base|..];
    assert Escaped(b) == (base + Escaped(b))[|base|..];
    EscapeInjective(a, b);
  }

  /** No stored name starts with `_`. */
  lemma EscapedNoLeadingUnderscore(key: string)
    ensures Escaped(key) == [] || Escaped(key)[0] != '_'
  {
    if key != [] && key[0] == '_' {
      assert LeadingUs(key) == 0;
    }
  }

  /** A key `u…u_…` (with `n` leading `u`s) is stored with exactly one more `u` in front. */
  lemma {:induction false} EscapedForm(n: nat, rest: string)
    ensures LeadingUs(Us(n) + "_" + rest) == n
    ensures Escaped(Us(n) + "_" + rest) == "u" + Us(n) + "_" + rest
  {
    if n > 0 {
      EscapedForm(n - 1, rest);
      assert Us(n) + "_" + rest == "u" + (Us(n - 1) + "_" + rest);
      NeedsEscapeUnderU(Us(n - 1) + "_" + rest);
    }
  }

  /**
   * Only a key of the form `u…u_…` is changed: one the escaping changes is
   * its leading `u`s, then `_`, then the rest.
   */
  lemma EscapedOnlyForm(key: string)
    requires Escaped(key) != key
    ensures key == Us(LeadingUs(key)) + "_" + key[LeadingUs(key) + 1..]
  {
    var n := LeadingUs(key);
    assert key[..n] == Us(n);
    assert key == key[..n] + [key[n]] + key[n + 1..];
  }
}
