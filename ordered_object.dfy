/**
 * A plain JavaScript object with string keys, as ECMAScript enumerates it:
 * for string keys that are not integer-like (and not `__proto__`),
 * `Object.keys` lists the own property names in the order they were first
 * created (OrdinaryOwnPropertyKeys, section 10.1.11.1 of ECMA-262), and
 * assigning to an existing property keeps its place but replaces its value.
 * Integer-like keys, which ECMAScript lists first in ascending order, are
 * not modelled.
 */
module OrderedObject {

  /** `keys` in insertion order, `vals` the value of each key. */
  datatype Obj<V> = Obj(keys: seq<string>, vals: map<string, V>)

  predicate Distinct(ks: seq<string>) {
    forall i, j :: 0 <= i < j < |ks| ==> ks[i] != ks[j]
  }

  predicate Valid<V>(o: Obj<V>) {
    && Distinct(o.keys)
    && (forall k :: k in o.keys ==> k in o.vals)
    && (forall k :: k in o.vals ==> k in o.keys)
  }

  /** Every object the model builds: no key listed twice, and exactly the listed keys have values. */
  type JsObject<V> = o: Obj<V> | Valid(o) witness Obj([], map[])

  /** The literal `{}`. */
  function Empty<V>(): JsObject<V> {
    Obj([], map[])
  }

  /** `o[k] = v`: a new key goes last; an existing key keeps its place and takes the new value. */
  function Assign<V>(o: JsObject<V>, k: string, v: V): JsObject<V> {
    if k in o.vals then Obj(o.keys, o.vals[k := v]) else Obj(o.keys + [k], o.vals[k := v])
  }

  /** `ks` with `k` taken out, the order of the rest kept. */
  function Without(ks: seq<string>, k: string): (r: seq<string>)
    ensures forall x :: x in r <==> x in ks && x != k
    ensures Distinct(ks) ==> Distinct(r)
    decreases |ks|
  {
    if ks == [] then []
    else
      var rest := Without(ks[..|ks| - 1], k);
      var last := ks[|ks| - 1];
      assert Distinct(ks) ==> last !in ks[..|ks| - 1];
      if last == k then rest else rest + [last]
  }

  /** `delete o[k]`: the key and its value go; the other keys keep their order. */
  function Delete<V>(o: JsObject<V>, k: string): (r: JsObject<V>)
    ensures k !in r.vals
    ensures forall k' :: k' != k ==> (k' in r.vals <==> k' in o.vals)
    ensures forall k' :: k' != k && k' in o.vals ==> r.vals[k'] == o.vals[k']
    ensures r.keys == Without(o.keys, k)
    ensures forall i, j :: 0 <= i < j < |r.keys| ==> FirstIndex(o.keys, r.keys[i]) < FirstIndex(o.keys, r.keys[j])
  {
    WithoutKeepsOrder(o.keys, k);
    Obj(Without(o.keys, k), o.vals - {k})
  }

  /** Taking a key out of a list without repeats keeps the others in their order. */
  lemma {:induction false} WithoutKeepsOrder(ks: seq<string>, k: string)
    requires Distinct(ks)
    ensures forall i, j :: 0 <= i < j < |Without(ks, k)| ==>
              FirstIndex(ks, Without(ks, k)[i]) < FirstIndex(ks, Without(ks, k)[j])
    decreases |ks|
  {
    if ks != [] {
      var prefix := ks[..|ks| - 1];
      var last := ks[|ks| - 1];
      var rest := Without(prefix, k);
      assert Distinct(prefix);
      WithoutKeepsOrder(prefix, k);
      forall y | y in prefix
        ensures FirstIndex(ks, y) == FirstIndex(prefix, y)
      {
      }
      if last != k {
        assert last !in prefix;
        assert FirstIndex(ks, last) == |ks| - 1;
        forall i | 0 <= i < |rest|
          ensures rest[i] in prefix && FirstIndex(ks, rest[i]) < |ks| - 1
        {
          assert rest[i] in rest;
        }
      }
    }
  }

  /** A run of assignments `o[k] = v`, in the order they are performed. */
  type Log<V> = seq<(string, V)>

  /** The keys a log assigns, in the order it assigns them (with repeats). */
  function KeysOf<V>(log: Log<V>): (ks: seq<string>)
    ensures |ks| == |log|
    ensures forall i :: 0 <= i < |log| ==> ks[i] == log[i].0
    decreases |log|
  {
    if log == [] then [] else KeysOf(log[..|log| - 1]) + [log[|log| - 1].0]
  }

  /** The object after performing the assignments of `log` on `o`, one after another. */
  function Apply<V>(o: JsObject<V>, log: Log<V>): JsObject<V>
    decreases |log|
  {
    if log == [] then o
    else Assign(Apply(o, log[..|log| - 1]), log[|log| - 1].0, log[|log| - 1].1)
  }

  /** The own entries of `src`, in key order. */
  function Pairs<V>(src: JsObject<V>): (log: Log<V>)
    ensures KeysOf(log) == src.keys
  {
    seq(|src.keys|, i requires 0 <= i < |src.keys| => (src.keys[i], src.vals[src.keys[i]]))
  }

  /** `Object.assign(o, src)`: the entries of `src` assigned to `o` in `src`'s key order. */
  function AssignAll<V>(o: JsObject<V>, src: JsObject<V>): JsObject<V> {
    Apply(o, Pairs(src))
  }

  /**
   * Reference definition of insertion order: the keys `ks` followed by each
   * key of `more` that is not already there, at its first occurrence.
   */
  function Extend(ks: seq<string>, more: seq<string>): seq<string>
    decreases |more|
  {
    if more == [] then ks
    else
      var d := Extend(ks, more[..|more| - 1]);
      var k := more[|more| - 1];
      if k in d then d else d + [k]
  }

  /** The distinct elements of `xs`, each at its first occurrence. */
  function Dedup(xs: seq<string>): seq<string> {
    Extend([], xs)
  }

  /** Reference definition of the winning value: the one the last assignment to `k` gave. */
  function LastValue<V>(log: Log<V>, k: string): V
    requires k in KeysOf(log)
    decreases |log|
  {
    if log[|log| - 1].0 == k then log[|log| - 1].1 else LastValue(log[..|log| - 1], k)
  }

  /** The position of the first occurrence of `x` in `xs`. */
  function FirstIndex(xs: seq<string>, x: string): (i: nat)
    requires x in xs
    ensures i < |xs| && xs[i] == x && x !in xs[..i]
    decreases |xs|
  {
    if x in xs[..|xs| - 1] then FirstIndex(xs[..|xs| - 1], x) else |xs| - 1
  }

  /** `Object.keys(o).map(name => name + sep + o[name])`. */
  function Render(o: JsObject<string>, sep: string): (r: seq<string>)
    ensures |r| == |o.keys|
    ensures forall i :: 0 <= i < |r| ==> r[i] == o.keys[i] + sep + o.vals[o.keys[i]]
  {
    seq(|o.keys|, i requires 0 <= i < |o.keys| => o.keys[i] + sep + o.vals[o.keys[i]])
  }

  /**
   * What a run of assignments does to an object: the old keys stay in place,
   * new keys follow in order of first assignment, each assigned key holds the
   * value of its last assignment and every other key keeps its value.
   */
  lemma {:induction false} ApplyShape<V>(o: JsObject<V>, log: Log<V>)
    ensures Apply(o, log).keys == Extend(o.keys, KeysOf(log))
    ensures forall k :: k in Apply(o, log).vals <==> k in o.vals || k in KeysOf(log)
    ensures forall k :: k in KeysOf(log) ==> Apply(o, log).vals[k] == LastValue(log, k)
    ensures forall k :: k in o.vals && k !in KeysOf(log) ==> Apply(o, log).vals[k] == o.vals[k]
    decreases |log|
  {
    if log != [] {
      var prefix := log[..|log| - 1];
      ApplyShape(o, prefix);
      assert KeysOf(log) == KeysOf(prefix) + [log[|log| - 1].0];
    }
  }

  /** Performing two logs one after the other is performing their concatenation. */
  lemma {:induction false} ApplyConcat<V>(o: JsObject<V>, a: Log<V>, b: Log<V>)
    ensures Apply(o, a + b) == Apply(Apply(o, a), b)
    decreases |b|
  {
    if b == [] {
      assert a + b == a;
    } else {
      ApplyConcat(o, a, b[..|b| - 1]);
      assert (a + b)[..|a + b| - 1] == a + b[..|b| - 1];
    }
  }

  lemma KeysOfConcat<V>(a: Log<V>, b: Log<V>)
    ensures KeysOf(a + b) == KeysOf(a) + KeysOf(b)
  {
  }

  lemma {:induction false} ExtendConcat(ks: seq<string>, a: seq<string>, b: seq<string>)
    ensures Extend(ks, a + b) == Extend(Extend(ks, a), b)
    decreases |b|
  {
    if b == [] {
      assert a + b == a;
    } else {
      ExtendConcat(ks, a, b[..|b| - 1]);
      assert (a + b)[..|a + b| - 1] == a + b[..|b| - 1];
    }
  }

  /** `Dedup` keeps exactly the elements of its argument. */
  lemma {:induction false} DedupSameElements(xs: seq<string>)
    ensures forall x :: x in Dedup(xs) <==> x in xs
    decreases |xs|
  {
    if xs != [] {
      var prefix := xs[..|xs| - 1];
      DedupSameElements(prefix);
      assert forall x :: x in xs <==> x in prefix || x == xs[|xs| - 1];
    }
  }

  /**
   * Insertion order is first-occurrence order: the keys of `Dedup(xs)` are
   * distinct, are exactly the elements of `xs`, and one comes before another
   * exactly when its first occurrence in `xs` does.
   */
  lemma {:induction false} DedupIsFirstOccurrenceOrder(xs: seq<string>)
    ensures Distinct(Dedup(xs))
    ensures forall x :: x in Dedup(xs) <==> x in xs
    ensures forall i, j :: 0 <= i < |Dedup(xs)| && 0 <= j < |Dedup(xs)| ==>
              (i < j <==> FirstIndex(xs, Dedup(xs)[i]) < FirstIndex(xs, Dedup(xs)[j]))
    decreases |xs|
  {
    if xs != [] {
      var prefix := xs[..|xs| - 1];
      var x := xs[|xs| - 1];
      DedupIsFirstOccurrenceOrder(prefix);
      var d := Dedup(prefix);
      assert Dedup(xs) == if x in d then d else d + [x];
      forall y | y in prefix
        ensures FirstIndex(xs, y) == FirstIndex(prefix, y)
      {
      }
      if x !in prefix {
        assert FirstIndex(xs, x) == |xs| - 1;
        forall i | 0 <= i < |d|
          ensures d[i] in prefix && FirstIndex(xs, d[i]) < |xs| - 1
        {
          assert d[i] in d;
        }
      }
    }
  }

  /** The keys already there stay first: insertion only ever appends. */
  lemma {:induction false} ExtendKeepsPrefix(ks: seq<string>, more: seq<string>)
    ensures ks <= Extend(ks, more)
    decreases |more|
  {
    if more != [] {
      ExtendKeepsPrefix(ks, more[..|more| - 1]);
    }
  }

  /** A key assigned in the later run takes the value of its last assignment there. */
  lemma {:induction false} LastValueOfLater<V>(a: Log<V>, b: Log<V>, k: string)
    requires k in KeysOf(b)
    ensures k in KeysOf(a + b)
    ensures LastValue(a + b, k) == LastValue(b, k)
    decreases |b|
  {
    KeysOfConcat(a, b);
    var last := b[|b| - 1];
    assert (a + b)[|a + b| - 1] == last;
    if last.0 != k {
      var prefix := b[..|b| - 1];
      assert KeysOf(b) == KeysOf(prefix) + [last.0];
      assert (a + b)[..|a + b| - 1] == a + prefix;
      LastValueOfLater(a, prefix, k);
    }
  }

  /** In a run that assigns each key once, a key's value is the one its assignment gave. */
  lemma {:induction false} LastValueOfSingle<V>(log: Log<V>, i: nat)
    requires i < |log|
    requires Distinct(KeysOf(log))
    ensures log[i].0 in KeysOf(log)
    ensures LastValue(log, log[i].0) == log[i].1
    decreases |log|
  {
    assert KeysOf(log)[i] == log[i].0;
    if i != |log| - 1 {
      var prefix := log[..|log| - 1];
      assert KeysOf(log)[|log| - 1] != KeysOf(log)[i];
      assert KeysOf(prefix) == KeysOf(log)[..|log| - 1];
      LastValueOfSingle(prefix, i);
    }
  }

  /** `Object.assign(o, src)` gives every key of `src` the value it has in `src`. */
  lemma AssignAllTakesSource<V>(o: JsObject<V>, src: JsObject<V>, k: string)
    requires k in src.vals
    ensures k in KeysOf(Pairs(src))
    ensures LastValue(Pairs(src), k) == src.vals[k]
    ensures k in AssignAll(o, src).vals && AssignAll(o, src).vals[k] == src.vals[k]
  {
    var log := Pairs(src);
    var i :| 0 <= i < |src.keys| && src.keys[i] == k;
    assert log[i] == (k, src.vals[k]);
    LastValueOfSingle(log, i);
    ApplyShape(o, log);
  }
}
