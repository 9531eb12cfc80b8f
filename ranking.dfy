/**
 * `sorted(entries, key=rank, reverse=True)`: a stable sort into descending
 * order of a natural-number ranking key, written as an insertion sort.
 */
module Ranking {

  /** The ranking key never increases along `s`. */
  ghost predicate Descending<T>(rank: T -> nat, s: seq<T>) {
    forall i, j :: 0 <= i < j < |s| ==> rank(s[i]) >= rank(s[j])
  }

  /** Where `x` goes in the descending `s`: after every entry ranked strictly higher. */
  function InsertionPoint<T>(rank: T -> nat, x: T, s: seq<T>): (m: nat)
    ensures m <= |s|
    ensures forall t :: 0 <= t < m ==> rank(s[t]) > rank(x)
    ensures Descending(rank, s) ==> forall t :: m <= t < |s| ==> rank(s[t]) <= rank(x)
  {
    if s == [] || rank(s[0]) <= rank(x) then 0
    else 1 + InsertionPoint(rank, x, s[1..])
  }

  function Insert<T>(rank: T -> nat, x: T, s: seq<T>): (r: seq<T>)
    ensures multiset(r) == multiset(s) + multiset{x}
  {
    var m := InsertionPoint(rank, x, s);
    assert s == s[..m] + s[m..];
    s[..m] + [x] + s[m..]
  }

  /** Where each element of `s` lands once `x` is spliced in at `m`. */
  lemma Spliced<T>(s: seq<T>, m: nat, x: T)
    requires m <= |s|
    ensures var r := s[..m] + [x] + s[m..];
      && |r| == |s| + 1
      && r[m] == x
      && (forall k :: 0 <= k < m ==> r[k] == s[k])
      && (forall k :: m < k < |r| ==> r[k] == s[k - 1])
  {
  }

  /** Inserting at the insertion point keeps a descending sequence descending. */
  lemma InsertDescending<T>(rank: T -> nat, x: T, s: seq<T>)
    requires Descending(rank, s)
    ensures Descending(rank, Insert(rank, x, s))
  {
    var m := InsertionPoint(rank, x, s);
    var r := s[..m] + [x] + s[m..];
    assert Insert(rank, x, s) == r;
    Spliced(s, m, x);
    forall i, j | 0 <= i < j < |r| ensures rank(r[i]) >= rank(r[j]) {
      if i != m && j != m {
        var si := if i < m then i else i - 1;
        var sj := if j < m then j else j - 1;
        assert r[i] == s[si] && r[j] == s[sj] && si < sj;
      }
    }
  }

  /**
   * The stable descending ranking of `entries`: a permutation of them whose
   * ranking key never increases.
   */
  function Rank<T>(rank: T -> nat, entries: seq<T>): (r: seq<T>)
    ensures |r| == |entries|
    ensures multiset(r) == multiset(entries)
    ensures Descending(rank, r)
  {
    if entries == [] then []
    else
      assert entries == [entries[0]] + entries[1..];
      var tail := Rank(rank, entries[1..]);
      InsertDescending(rank, entries[0], tail);
      Insert(rank, entries[0], tail)
  }

  /** Entries already in descending order come out as they went in. */
  lemma {:induction false} RankOfDescending<T>(rank: T -> nat, entries: seq<T>)
    requires Descending(rank, entries)
    ensures Rank(rank, entries) == entries
  {
    if entries != [] {
      var tail := entries[1..];
      assert Descending(rank, tail);
      RankOfDescending(rank, tail);
      assert InsertionPoint(rank, entries[0], tail) == 0;
      assert entries == [entries[0]] + tail;
    }
  }

  /**
   * Stability: two entries with the same key appear in the ranking in the
   * order they had among the entries.
   */
  ghost predicate KeepsTieOrder<T>(rank: T -> nat, entries: seq<T>, r: seq<T>) {
    forall i, j :: 0 <= i < j < |r| && rank(r[i]) == rank(r[j]) ==>
      exists p, q :: 0 <= p < q < |entries| && entries[p] == r[i] && entries[q] == r[j]
  }

  lemma {:induction false} RankStable<T>(rank: T -> nat, entries: seq<T>)
    ensures KeepsTieOrder(rank, entries, Rank(rank, entries))
  {
    if entries != [] {
      var tail := entries[1..];
      RankStable(rank, tail);
      assert entries == [entries[0]] + tail;
      InsertKeepsTieOrder(rank, entries[0], tail, Rank(rank, tail));
    }
  }

  /** Inserting the first entry in front of its equals keeps the order of ties. */
  lemma InsertKeepsTieOrder<T>(rank: T -> nat, x: T, tail: seq<T>, s: seq<T>)
    requires KeepsTieOrder(rank, tail, s)
    requires multiset(s) == multiset(tail)
    ensures KeepsTieOrder(rank, [x] + tail, Insert(rank, x, s))
  {
    var entries := [x] + tail;
    var m := InsertionPoint(rank, x, s);
    var r := s[..m] + [x] + s[m..];
    assert Insert(rank, x, s) == r;
    Spliced(s, m, x);
    forall i, j | 0 <= i < j < |r| && rank(r[i]) == rank(r[j])
      ensures exists p, q :: 0 <= p < q < |entries| && entries[p] == r[i] && entries[q] == r[j]
    {
      if i == m {
        // x is the first of the entries; r[j] is one of the later ones
        assert r[j] == s[j - 1];
        TieWithFirst(x, tail, r[j]);
      } else if j == m {
        assert false;
      } else {
        var i' := if i < m then i else i - 1;
        var j' := if j < m then j else j - 1;
        assert r[i] == s[i'] && r[j] == s[j'] && i' < j';
        TieInTail(x, tail, r[i], r[j]);
      }
    }
  }

  lemma TieWithFirst<T>(x: T, tail: seq<T>, y: T)
    requires y in multiset(tail)
    ensures exists p, q :: 0 <= p < q < |[x] + tail| && ([x] + tail)[p] == x && ([x] + tail)[q] == y
  {
    var q :| 0 <= q < |tail| && tail[q] == y;
    assert ([x] + tail)[0] == x && ([x] + tail)[q + 1] == y;
  }

  lemma TieInTail<T>(x: T, tail: seq<T>, a: T, b: T)
    requires exists p, q :: 0 <= p < q < |tail| && tail[p] == a && tail[q] == b
    ensures exists p, q :: 0 <= p < q < |[x] + tail| && ([x] + tail)[p] == a && ([x] + tail)[q] == b
  {
    var p, q :| 0 <= p < q < |tail| && tail[p] == a && tail[q] == b;
    assert ([x] + tail)[p + 1] == a && ([x] + tail)[q + 1] == b;
  }

  /** The sum of the ranking keys of `s`. */
  function KeySum<T>(rank: T -> nat, s: seq<T>): nat {
    if s == [] then 0 else rank(s[0]) + KeySum(rank, s[1..])
  }

  lemma {:induction false} KeySumConcat<T>(rank: T -> nat, a: seq<T>, b: seq<T>)
    ensures KeySum(rank, a + b) == KeySum(rank, a) + KeySum(rank, b)
  {
    if a == [] {
      assert a + b == b;
    } else {
      assert (a + b)[0] == a[0];
      assert (a + b)[1..] == a[1..] + b;
      KeySumConcat(rank, a[1..], b);
    }
  }

  lemma {:induction false} KeySumSplice<T>(rank: T -> nat, x: T, a: seq<T>, b: seq<T>)
    ensures KeySum(rank, a + [x] + b) == rank(x) + KeySum(rank, a + b)
  {
    assert a + [x] + b == a + ([x] + b);
    KeySumConcat(rank, a, [x] + b);
    KeySumConcat(rank, a, b);
    assert ([x] + b)[1..] == b;
  }

  /** Ranking moves entries around without changing the sum of their keys. */
  lemma {:induction false} RankKeySum<T>(rank: T -> nat, entries: seq<T>)
    ensures KeySum(rank, Rank(rank, entries)) == KeySum(rank, entries)
  {
    if entries != [] {
      var x, tail := entries[0], entries[1..];
      var s := Rank(rank, tail);
      var m := InsertionPoint(rank, x, s);
      RankKeySum(rank, tail);
      KeySumStep(rank, x, tail, s, m);
      assert entries == [x] + tail;
    }
  }

  lemma {:induction false} KeySumStep<T>(rank: T -> nat, x: T, tail: seq<T>, s: seq<T>, m: nat)
    requires m <= |s|
    requires KeySum(rank, s) == KeySum(rank, tail)
    ensures KeySum(rank, s[..m] + [x] + s[m..]) == KeySum(rank, [x] + tail)
  {
    KeySumSplice(rank, x, s[..m], s[m..]);
    assert s[..m] + s[m..] == s;
    assert ([x] + tail)[1..] == tail;
  }
}
