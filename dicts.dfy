/**
 * Python's `dict` with string keys: a map together with the order in which
 * its keys were first inserted (iteration, `items()` and `sorted` see that
 * order), and the counting loop `d[k] = d.get(k, 0) + 1`.
 */
module Dicts {

  datatype Dict<V> = Dict(keys: seq<string>, values: map<string, V>) {

    /** The insertion order lists each key of the map exactly once. */
    ghost predicate Valid() {
      && (forall i, j :: 0 <= i < j < |keys| ==> keys[i] != keys[j])
      && (forall k :: k in values <==> k in keys)
    }

    /** `d.get(k, default)` */
    function GetOr(k: string, default: V): V {
      if k in values then values[k] else default
    }

    /** `d[k] = v`: a new key goes last, an existing key keeps its place. */
    function Put(k: string, v: V): (d: Dict<V>)
      ensures d.values == values[k := v]
      ensures d.keys == if k in values then keys else keys + [k]
    {
      if k in values then Dict(keys, values[k := v]) else Dict(keys + [k], values[k := v])
    }

    /** `list(d.items())` */
    function Items(): (items: seq<(string, V)>)
      requires Valid()
      ensures |items| == |keys|
      ensures forall i :: 0 <= i < |items| ==> items[i] == (keys[i], values[keys[i]])
    {
      Pairs(keys, values)
    }
  }

  /** Each of the keys `ks` paired with its value in `m`. */
  function Pairs<V>(ks: seq<string>, m: map<string, V>): (items: seq<(string, V)>)
    requires forall i :: 0 <= i < |ks| ==> ks[i] in m
    ensures |items| == |ks|
    ensures forall i :: 0 <= i < |items| ==> items[i] == (ks[i], m[ks[i]])
  {
    if ks == [] then [] else Pairs(ks[..|ks| - 1], m) + [(ks[|ks| - 1], m[ks[|ks| - 1]])]
  }

  /** Assignment keeps the keys distinct and in step with the map. */
  lemma PutKeepsValid<V>(d: Dict<V>, k: string, v: V)
    requires d.Valid()
    ensures d.Put(k, v).Valid()
  {
  }

  function Empty<V>(): (d: Dict<V>)
    ensures d.Valid() && d.values == map[]
  {
    Dict([], map[])
  }

  /**
   * The dictionary the counting loop `for x in xs: d[x] = d.get(x, 0) + 1`
   * leaves, starting from an empty one.
   */
  function Tally(xs: seq<string>): Dict<nat>
  {
    if xs == [] then Empty()
    else
      var d := Tally(xs[..|xs| - 1]);
      var x := xs[|xs| - 1];
      d.Put(x, d.GetOr(x, 0) + 1)
  }

  /** A tally has at most one key per item counted. */
  lemma {:induction false} TallySize(xs: seq<string>)
    ensures |Tally(xs).keys| <= |xs|
  {
    if xs != [] {
      TallySize(xs[..|xs| - 1]);
    }
  }

  lemma {:induction false} TallyValid(xs: seq<string>)
    ensures Tally(xs).Valid()
  {
    if xs != [] {
      var d := Tally(xs[..|xs| - 1]);
      TallyValid(xs[..|xs| - 1]);
      PutKeepsValid(d, xs[|xs| - 1], d.GetOr(xs[|xs| - 1], 0) + 1);
    }
  }

  /** Every count is the number of times its key occurs (zero for an absent key). */
  lemma {:induction false} TallyCounts(xs: seq<string>, k: string)
    ensures Tally(xs).GetOr(k, 0) == multiset(xs)[k]
  {
    if xs != [] {
      var init := xs[..|xs| - 1];
      TallyCounts(init, k);
      assert xs == init + [xs[|xs| - 1]];
    }
  }

  /** One more item moves only its own count, by one. */
  lemma TallyStep(xs: seq<string>, i: nat, d: Dict<nat>, x: string)
    requires i < |xs| && d == Tally(xs[..i]) && x == xs[i]
    ensures d.Put(x, d.GetOr(x, 0) + 1) == Tally(xs[..i + 1])
  {
    var ys := xs[..i + 1];
    assert ys[..|ys| - 1] == xs[..i] && ys[|ys| - 1] == xs[i];
  }

  /** Counting one more item is one more step of the loop. */
  lemma {:induction false} TallySnoc(xs: seq<string>, x: string)
    ensures Tally(xs + [x]) == Tally(xs).Put(x, Tally(xs).GetOr(x, 0) + 1)
  {
    var ys := xs + [x];
    assert ys[..|ys| - 1] == xs;
  }

  /** The counting loop `for x in xs: d[x] = d.get(x, 0) + 1` over an empty `d`. */
  method Count(xs: seq<string>) returns (d: Dict<nat>)
    ensures d == Tally(xs)
  {
    d := Empty();
    for i := 0 to |xs|
      invariant d == Tally(xs[..i])
    {
      TallyStep(xs, i, d, xs[i]);
      d := d.Put(xs[i], d.GetOr(xs[i], 0) + 1);
    }
    assert xs[..|xs|] == xs;
  }

  /**
   * What `for x in xs: d[x] = d.get(x, 0) + 1` computes: a count for each
   * distinct item, equal to its number of occurrences (so at least 1), the
   * counts adding up to the number of items.
   */
  lemma {:induction false} TallyFacts(xs: seq<string>)
    ensures Tally(xs).Valid()
    ensures forall k :: k in Tally(xs).values <==> k in xs
    ensures forall k :: Tally(xs).GetOr(k, 0) == multiset(xs)[k]
    ensures forall k :: k in Tally(xs).values ==> Tally(xs).values[k] >= 1
    ensures Total(Tally(xs)) == |xs|
  {
    var d := Tally(xs);
    TallyValid(xs);
    TallyKeys(xs);
    forall k ensures d.GetOr(k, 0) == multiset(xs)[k] && (k in d.values <==> k in xs) {
      TallyCounts(xs, k);
      assert k in d.values <==> k in d.keys;
    }
    TallyTotal(xs);
  }

  /** The sum of the values of `m` over the keys `ks` (a key `m` lacks adds nothing). */
  function SumOver(ks: seq<string>, m: map<string, nat>): nat {
    if ks == [] then 0
    else
      var k := ks[|ks| - 1];
      SumOver(ks[..|ks| - 1], m) + (if k in m then m[k] else 0)
  }

  /** `sum(d.values())` */
  function Total(d: Dict<nat>): nat {
    SumOver(d.keys, d.values)
  }

  lemma {:induction false} SumOverOther(ks: seq<string>, m: map<string, nat>, k: string, v: nat)
    requires k !in ks
    ensures SumOver(ks, m[k := v]) == SumOver(ks, m)
  {
    if ks != [] {
      SumOverOther(ks[..|ks| - 1], m, k, v);
    }
  }

  lemma {:induction false} SumOverUpdate(ks: seq<string>, m: map<string, nat>, k: string, v: nat)
    requires forall i, j :: 0 <= i < j < |ks| ==> ks[i] != ks[j]
    requires k in ks && k in m
    ensures SumOver(ks, m[k := v]) + m[k] == SumOver(ks, m) + v
  {
    var init := ks[..|ks| - 1];
    if ks[|ks| - 1] == k {
      assert k !in init;
      SumOverOther(init, m, k, v);
    } else {
      assert k in init;
      SumOverUpdate(init, m, k, v);
    }
  }

  /** The counts of a tally add up to the number of items counted. */
  lemma {:induction false} TallyTotal(xs: seq<string>)
    ensures Total(Tally(xs)) == |xs|
  {
    if xs != [] {
      var init := xs[..|xs| - 1];
      var x := xs[|xs| - 1];
      var d := Tally(init);
      TallyTotal(init);
      TallyValid(init);
      assert Tally(xs) == d.Put(x, d.GetOr(x, 0) + 1);
      TallyStepTotal(d, x);
    }
  }

  lemma TallyStepTotal(d: Dict<nat>, x: string)
    requires d.Valid()
    ensures Total(d.Put(x, d.GetOr(x, 0) + 1)) == Total(d) + 1
  {
    var v := d.GetOr(x, 0) + 1;
    var d' := d.Put(x, v);
    if x in d.values {
      SumOverUpdate(d.keys, d.values, x, v);
    } else {
      SumOverOther(d.keys, d.values, x, v);
      assert d'.keys[..|d.keys|] == d.keys;
    }
  }

  /** The index of the first occurrence of `x` in `xs`, or `|xs|` when there is none. */
  function FirstIndex(xs: seq<string>, x: string): (i: nat)
    ensures i <= |xs|
    ensures i < |xs| <==> x in xs
    ensures i < |xs| ==> xs[i] == x
    ensures forall j :: 0 <= j < i ==> xs[j] != x
  {
    if xs == [] then 0 else if xs[0] == x then 0 else 1 + FirstIndex(xs[1..], x)
  }

  lemma {:induction false} FirstIndexAppend(xs: seq<string>, y: string, x: string)
    requires x in xs
    ensures FirstIndex(xs + [y], x) == FirstIndex(xs, x)
  {
    if xs[0] != x {
      assert (xs + [y])[1..] == xs[1..] + [y];
      FirstIndexAppend(xs[1..], y, x);
    }
  }

  /** The distinct elements of `xs`, each where it first occurs. */
  function Distinct(xs: seq<string>): (ds: seq<string>)
    ensures forall k :: k in ds <==> k in xs
  {
    if xs == [] then []
    else
      var ds := Distinct(xs[..|xs| - 1]);
      var x := xs[|xs| - 1];
      assert xs == xs[..|xs| - 1] + [x];
      if x in ds then ds else ds + [x]
  }

  /** `ds` lists elements of `xs` in the order of their first occurrence in `xs`. */
  ghost predicate FirstSeenOrder(ds: seq<string>, xs: seq<string>) {
    forall i, j :: 0 <= i < j < |ds| ==> FirstIndex(xs, ds[i]) < FirstIndex(xs, ds[j])
  }

  lemma {:induction false} DistinctFirstSeen(xs: seq<string>)
    ensures FirstSeenOrder(Distinct(xs), xs)
  {
    if xs != [] {
      var init := xs[..|xs| - 1];
      var x := xs[|xs| - 1];
      DistinctFirstSeen(init);
      var ds := Distinct(init);
      assert xs == init + [x];
      var ds' := Distinct(xs);
      assert ds' == if x in ds then ds else ds + [x];
      forall i, j | 0 <= i < j < |ds'| ensures FirstIndex(xs, ds'[i]) < FirstIndex(xs, ds'[j]) {
        assert ds'[i] == ds[i] && ds[i] in init;
        FirstIndexAppend(init, x, ds[i]);
        if j < |ds| {
          assert ds'[j] == ds[j] && ds[j] in init;
          FirstIndexAppend(init, x, ds[j]);
          assert FirstSeenOrder(ds, init);
        } else {
          assert ds'[j] == x && x !in init;
        }
      }
    }
  }

  lemma {:induction false} TallyKeys(xs: seq<string>)
    ensures Tally(xs).keys == Distinct(xs)
  {
    if xs != [] {
      TallyKeys(xs[..|xs| - 1]);
      TallyValid(xs[..|xs| - 1]);
    }
  }
}
