/**
 * The colour-limit tables `animator.scalars` and `animator.vectors`: what
 * an entry of the configuration may hold, the `"Mean"` twins that
 * `attachToDict` adds, and how one display call resolves an entry into the
 * colour range(s) it draws with and the entry it leaves behind.
 */
module LimitTable {
  import opened Wrappers
  import opened Texts

  /** A colour range `[lo, hi]` (the pair `GetRange()` returns). */
  datatype Span = Span(lo: real, hi: real)

  /**
   * One table entry: the string `"auto"`, a single range `[lo, hi]`, or a
   * list of ranges `[[lo, hi], ...]`, one per vector component.
   */
  datatype Limits = Auto | Range(span: Span) | Components(spans: seq<Span>)

  /** The twins `k + suffix` added for the keys in `keys` whose twin is not an original key. */
  function Twins<V>(d: map<string, V>, suffix: string, keys: set<string>): map<string, V>
    requires keys <= d.Keys
  {
    assert forall a, b :: a in keys && b in keys && a + suffix == b + suffix ==> a == b by {
      forall a, b | a in keys && b in keys { SuffixCancels(a, b, suffix); }
    }
    map k | k in keys && k + suffix !in d :: k + suffix := d[k]
  }

  /** The table after `attachToDict(d, suffix)`. */
  function WithTwins<V>(d: map<string, V>, suffix: string): map<string, V> {
    d + Twins(d, suffix, d.Keys)
  }

  lemma TwinsStep<V>(d: map<string, V>, suffix: string, done: set<string>, k: string)
    requires done <= d.Keys && k in d && k !in done
    ensures k + suffix !in d ==> Twins(d, suffix, done + {k}) == Twins(d, suffix, done)[k + suffix := d[k]]
    ensures k + suffix in d ==> Twins(d, suffix, done + {k}) == Twins(d, suffix, done)
  {
    var before, after := Twins(d, suffix, done), Twins(d, suffix, done + {k});
    var expected := if k + suffix in d then before else before[k + suffix := d[k]];
    forall t | t in after
      ensures t in expected && after[t] == expected[t]
    {
      var j :| j in done + {k} && j + suffix !in d && t == j + suffix && after[t] == d[j];
      SuffixCancels(j, k, suffix);
      if j != k {
        assert t in before && before[t] == d[j];
      }
    }
    forall t | t in expected
      ensures t in after
    {
      if t != k + suffix || k + suffix in d {
        var j :| j in done && j + suffix !in d && t == j + suffix;
      }
    }
    assert after == expected;
  }

  /**
   * After `attachToDict`: every original key keeps its value; every
   * original key has its twin; a twin that was not an original key takes
   * the value of its key; and no other key appears.
   */
  lemma TwinsAdded<V>(d: map<string, V>, suffix: string)
    ensures forall k :: k in d ==> k in WithTwins(d, suffix) && WithTwins(d, suffix)[k] == d[k]
    ensures forall k :: k in d ==> k + suffix in WithTwins(d, suffix)
    ensures forall k :: k in d && k + suffix !in d ==> WithTwins(d, suffix)[k + suffix] == d[k]
    ensures forall t :: t in WithTwins(d, suffix) ==> t in d || exists k :: k in d && t == k + suffix
  {
    var twins := Twins(d, suffix, d.Keys);
    forall k | k in d && k + suffix !in d
      ensures k + suffix in twins && twins[k + suffix] == d[k]
    {
      var j :| j in d && j + suffix !in d && k + suffix == j + suffix && twins[k + suffix] == d[j];
      SuffixCancels(j, k, suffix);
    }
  }

  /**
   * The key snapshot prevents a second generation: a key whose twin is new
   * does not also get the twin of its twin (`"p"` gains `"pMean"` but not
   * `"pMeanMean"`) unless that was already a key.
   */
  lemma NoTwinOfTwin<V>(d: map<string, V>, suffix: string, k: string)
    requires k in d && k + suffix !in d && k + suffix + suffix !in d
    ensures k + suffix + suffix !in WithTwins(d, suffix)
  {
    if k + suffix + suffix in WithTwins(d, suffix) {
      TwinsAdded(d, suffix);
      var j :| j in d && k + suffix + suffix == j + suffix;
      SuffixCancels(k + suffix, j, suffix);
    }
  }

  lemma UpdateOfUnion<K, V>(a: map<K, V>, b: map<K, V>, x: K, v: V)
    ensures (a + b)[x := v] == a + b[x := v]
  {
  }

  /** `r` is the table once the keys in `done` have been visited. */
  ghost predicate Visited<V>(d: map<string, V>, suffix: string, done: set<string>, r: map<string, V>)
    requires done <= d.Keys
  {
    r == d + Twins(d, suffix, done)
  }

  /** One iteration of `attachToDict` adds the twin of one more key. */
  lemma TwinsLoopStep<V>(d: map<string, V>, suffix: string, done: set<string>, k: string, r: map<string, V>)
    requires done <= d.Keys && k in d && k !in done
    requires Visited(d, suffix, done, r)
    ensures k in r && r[k] == d[k]
    ensures Visited(d, suffix, done + {k}, if k + suffix in d then r else r[k + suffix := r[k]])
  {
    TwinsStep(d, suffix, done, k);
    if k + suffix !in d {
      assert k !in Twins(d, suffix, done);
      UpdateOfUnion(d, Twins(d, suffix, done), k + suffix, d[k]);
    }
  }

  /**
   * `attachToDict`: for every key of a snapshot of the keys whose twin
   * `k + suffix` is not among them, add the twin with the key's value.
   * Returns the grown table.
   */
  method AttachToDict<V>(d: map<string, V>, suffix: string) returns (r: map<string, V>)
    ensures r == WithTwins(d, suffix)
  {
    var keys := d.Keys;
    var pending := keys;
    ghost var done: set<string> := {};
    r := d;
    assert Twins(d, suffix, {}) == map[];
    while pending != {}
      invariant done <= keys && pending == keys - done
      invariant Visited(d, suffix, done, r)
    {
      var k :| k in pending;
      TwinsLoopStep(d, suffix, done, k, r);
      if k + suffix !in keys {
        r := r[k + suffix := r[k]];
      }
      pending := pending - {k};
      done := done + {k};
    }
    assert done == d.Keys;
  }

  /** Python's truthiness of an entry: only the empty list is false. */
  predicate Truthy(lim: Limits) {
    !(lim.Components? && lim.spans == [])
  }

  /**
   * The range `display_scalar` draws with, or None when the call raises:
   * `"auto"` looks the field up in the cell data at the current time (a
   * missing field makes `.index(name)` raise); a single range is used as
   * it is; a list of ranges cannot be passed to the lookup table.
   */
  function ScalarColour(lim: Limits, name: string, data: map<string, Span>): Option<Span> {
    match lim
    case Auto => if name in data then Some(data[name]) else None
    case Range(span) => Some(span)
    case Components(_) => None
  }

  /** The entry `display_scalar` leaves in `self.scalars[name]`. */
  function ScalarEntry(lim: Limits, name: string, data: map<string, Span>): Limits {
    if lim.Auto? && name in data then Range(data[name]) else lim
  }

  /**
   * The ranges `display_vector_field` draws component 0, 1, ... with, or
   * None when it raises before drawing anything: `"auto"` gives the
   * field's range three times; a single range `[lo, hi]` raises on the
   * first component (its `lim[0]` is a number); a list gives one range
   * per component.
   */
  function VectorColours(lim: Limits, name: string, data: map<string, Span>): Option<seq<Span>> {
    match lim
    case Auto => if name in data then Some([data[name], data[name], data[name]]) else None
    case Range(_) => None
    case Components(spans) => Some(spans)
  }

  /** The entry `display_vector_field` leaves in `self.vectors[name]`. */
  function VectorEntry(lim: Limits, name: string, data: map<string, Span>): Limits {
    if lim.Auto? && name in data then Components([data[name], data[name], data[name]]) else lim
  }

  /** `ncomps` in `display_vector_field`: 3 for `"auto"`, else the entry's length. */
  function ComponentCount(lim: Limits): nat {
    match lim
    case Auto => 3
    case Range(_) => 2
    case Components(spans) => |spans|
  }

  /**
   * An `"auto"` scalar whose field exists is replaced by the field's range
   * and drawn with it; once resolved, the stored entry is drawn with the
   * same range at any later time, whatever the cell data then holds, and
   * is not resolved again.
   */
  lemma ScalarResolvesOnce(lim: Limits, name: string, data: map<string, Span>, later: map<string, Span>)
    requires ScalarColour(lim, name, data).Some?
    ensures lim.Auto? ==> ScalarEntry(lim, name, data) == Range(data[name])
    ensures ScalarColour(ScalarEntry(lim, name, data), name, later) == ScalarColour(lim, name, data)
    ensures ScalarEntry(ScalarEntry(lim, name, data), name, later) == ScalarEntry(lim, name, data)
  {
  }

  /** Only an `"auto"` entry whose field exists is ever rewritten; a failed lookup leaves `"auto"`. */
  lemma ScalarEntryChanges(lim: Limits, name: string, data: map<string, Span>)
    ensures ScalarEntry(lim, name, data) != lim <==> lim.Auto? && name in data
    ensures lim.Auto? && name !in data ==> ScalarColour(lim, name, data).None? && ScalarEntry(lim, name, data) == Auto
  {
  }

  /**
   * A vector field is drawn for `ncomps` components; an `"auto"` entry
   * becomes `[r, r, r]`, one shared range for the three components, which
   * later calls reuse unchanged.
   */
  lemma VectorResolvesOnce(lim: Limits, name: string, data: map<string, Span>, later: map<string, Span>)
    requires VectorColours(lim, name, data).Some?
    ensures |VectorColours(lim, name, data).value| == ComponentCount(lim)
    ensures lim.Auto? ==> VectorEntry(lim, name, data) == Components([data[name], data[name], data[name]])
    ensures VectorColours(VectorEntry(lim, name, data), name, later) == VectorColours(lim, name, data)
    ensures VectorEntry(VectorEntry(lim, name, data), name, later) == VectorEntry(lim, name, data)
  {
  }

  /** After a vector call that draws, the table entry lists exactly the ranges it draws with. */
  lemma VectorEntryHoldsColours(lim: Limits, name: string, data: map<string, Span>)
    requires VectorColours(lim, name, data).Some?
    ensures VectorEntry(lim, name, data) == Components(VectorColours(lim, name, data).value)
  {
  }

  /** Only an `"auto"` entry whose field exists is ever rewritten; a failed lookup leaves `"auto"`. */
  lemma VectorEntryChanges(lim: Limits, name: string, data: map<string, Span>)
    ensures VectorEntry(lim, name, data) != lim <==> lim.Auto? && name in data
    ensures lim.Auto? && name !in data ==> VectorColours(lim, name, data).None? && VectorEntry(lim, name, data) == Auto
  {
  }
}
