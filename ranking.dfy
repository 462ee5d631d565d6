/** Ranking of scored entries, as the archetype classifier (app.py) and the final quest
    (static/quest-tree.js) need it: the earliest maximum of a list of scores, and
    Python's `sorted(items, key=score, reverse=True)`, a stable sort from the highest
    score down. */
module Ranking {

  /** The index of the first entry of greatest score. */
  function FirstMaxIndex<T>(es: seq<(T, int)>): (m: nat)
    requires |es| > 0
    ensures m < |es|
    ensures forall k :: 0 <= k < |es| ==> es[k].1 <= es[m].1
    ensures forall k :: 0 <= k < m ==> es[k].1 < es[m].1
  {
    if |es| == 1 then 0
    else
      var m := FirstMaxIndex(es[..|es| - 1]);
      if es[|es| - 1].1 > es[m].1 then |es| - 1 else m
  }

  /** The list without its entry at index `i`. */
  function Remove<T>(es: seq<T>, i: nat): (r: seq<T>)
    requires i < |es|
    ensures |r| == |es| - 1
  {
    es[..i] + es[i + 1..]
  }

  /** `sorted(es, key=lambda e: e[1], reverse=True)`, built by taking the first entry of
      greatest score and then sorting the rest. */
  function SortDesc<T>(es: seq<(T, int)>): (r: seq<(T, int)>)
    ensures |r| == |es|
    decreases |es|
  {
    if es == [] then []
    else
      var m := FirstMaxIndex(es);
      [es[m]] + SortDesc(Remove(es, m))
  }

  predicate Descending<T>(es: seq<(T, int)>) {
    forall i, j :: 0 <= i < j < |es| ==> es[i].1 >= es[j].1
  }

  /** The entries that have score `v`, in their order. */
  function WithScore<T>(es: seq<(T, int)>, v: int): seq<(T, int)> {
    if es == [] then []
    else (if es[0].1 == v then [es[0]] else []) + WithScore(es[1..], v)
  }

  lemma {:induction false} WithScoreAppend<T>(a: seq<(T, int)>, b: seq<(T, int)>, v: int)
    ensures WithScore(a + b, v) == WithScore(a, v) + WithScore(b, v)
  {
    if a == [] {
      assert a + b == b;
    } else {
      var c := a + b;
      assert c[0] == a[0];
      assert c[1..] == a[1..] + b;
      WithScoreAppend(a[1..], b, v);
      var h := if a[0].1 == v then [a[0]] else [];
      assert WithScore(c, v) == h + WithScore(a[1..] + b, v);
      assert WithScore(a, v) == h + WithScore(a[1..], v);
    }
  }

  /** No entry of `es` has score `v`. */
  lemma {:induction false} WithScoreNone<T>(es: seq<(T, int)>, v: int)
    requires forall k :: 0 <= k < |es| ==> es[k].1 != v
    ensures WithScore(es, v) == []
  {
    if es != [] {
      WithScoreNone(es[1..], v);
    }
  }

  /** Every entry of the sorted list is an entry of the input; the multiset of entries
      is kept. */
  lemma {:induction false} SortPermutation<T>(es: seq<(T, int)>)
    ensures multiset(SortDesc(es)) == multiset(es)
    decreases |es|
  {
    if es != [] {
      var m := FirstMaxIndex(es);
      var rest := Remove(es, m);
      assert SortDesc(es) == [es[m]] + SortDesc(rest);
      SortPermutation(rest);
      RemoveMultiset(es, m);
    }
  }

  lemma RemoveMultiset<T>(es: seq<T>, i: nat)
    requires i < |es|
    ensures multiset(es) == multiset{es[i]} + multiset(Remove(es, i))
  {
    var a, b := es[..i], es[i + 1..];
    assert es == a + [es[i]] + b;
  }

  /** Each entry of the sorted list has a score no smaller than the entries after it. */
  lemma {:induction false} SortDescending<T>(es: seq<(T, int)>)
    ensures Descending(SortDesc(es))
    decreases |es|
  {
    if es != [] {
      var m := FirstMaxIndex(es);
      var rest := Remove(es, m);
      SortDescending(rest);
      SortPermutation(rest);
      RemoveBelowMax(es, m);
      forall x | x in SortDesc(rest) ensures x.1 <= es[m].1 {
        assert x in multiset(rest);
      }
      ConsDescending(es[m], SortDesc(rest));
    }
  }

  /** Taking a greatest entry out leaves entries of no greater score. */
  lemma RemoveBelowMax<T>(es: seq<(T, int)>, m: nat)
    requires m < |es|
    requires forall k :: 0 <= k < |es| ==> es[k].1 <= es[m].1
    ensures forall x | x in Remove(es, m) :: x.1 <= es[m].1
  {
    var rest := Remove(es, m);
    forall k | 0 <= k < |rest| ensures rest[k].1 <= es[m].1 {
      if k < m {
        assert rest[k] == es[k];
      } else {
        assert rest[k] == es[k + 1];
      }
    }
  }

  lemma ConsDescending<T>(x: (T, int), t: seq<(T, int)>)
    requires Descending(t)
    requires forall y | y in t :: y.1 <= x.1
    ensures Descending([x] + t)
  {
    var r := [x] + t;
    forall i, j | 0 <= i < j < |r| ensures r[i].1 >= r[j].1 {
      assert r[j] == t[j - 1];
      if i > 0 {
        assert r[i] == t[i - 1];
      }
    }
  }

  /** The sort is stable: the entries of any one score come out in their input order. */
  lemma {:induction false} SortStable<T>(es: seq<(T, int)>, v: int)
    ensures WithScore(SortDesc(es), v) == WithScore(es, v)
    decreases |es|
  {
    if es != [] {
      var m := FirstMaxIndex(es);
      var rest := Remove(es, m);
      SortStable(rest, v);
      assert SortDesc(es) == [es[m]] + SortDesc(rest);
      WithScoreAppend([es[m]], SortDesc(rest), v);
      WithScoreRemove(es, m, v);
    }
  }

  /** Taking out an entry that no earlier entry ties or beats moves it to the front of
      its score's entries. */
  lemma WithScoreRemove<T>(es: seq<(T, int)>, m: nat, v: int)
    requires m < |es|
    requires forall k :: 0 <= k < m ==> es[k].1 < es[m].1
    ensures WithScore(es, v) == WithScore([es[m]], v) + WithScore(Remove(es, m), v)
  {
    var a, b := es[..m], es[m + 1..];
    assert es == a + ([es[m]] + b);
    WithScoreAppend(a, [es[m]] + b, v);
    WithScoreAppend([es[m]], b, v);
    WithScoreAppend(a, b, v);
    if v == es[m].1 {
      WithScoreNone(a, v);
    }
  }

  /** The head of the sorted list is the first entry of greatest score. */
  lemma SortHead<T>(es: seq<(T, int)>)
    requires |es| >= 1
    ensures SortDesc(es)[0] == es[FirstMaxIndex(es)]
  {
  }

  /** The index of the first entry of greatest score once the entry at
      `FirstMaxIndex(es)` is set aside. */
  function SecondIndex<T>(es: seq<(T, int)>): nat
    requires |es| >= 2
  {
    var m := FirstMaxIndex(es);
    var m2 := FirstMaxIndex(Remove(es, m));
    if m2 < m then m2 else m2 + 1
  }

  /** The second index is the earliest greatest entry among all entries but the first
      greatest one. */
  lemma SecondIndexSpec<T>(es: seq<(T, int)>)
    requires |es| >= 2
    ensures var i, j := FirstMaxIndex(es), SecondIndex(es);
      j < |es| && j != i
      && (forall k :: 0 <= k < |es| && k != i ==> es[k].1 <= es[j].1)
      && (forall k :: 0 <= k < j && k != i ==> es[k].1 < es[j].1)
  {
    var m := FirstMaxIndex(es);
    var rest := Remove(es, m);
    var m2 := FirstMaxIndex(rest);
    assert SecondIndex(es) == if m2 < m then m2 else m2 + 1;
    RestMaxIndex(es, rest, m, m2);
  }

  /** The earliest greatest entry `m2` of the list without entry `m`, mapped back to an
      index of the whole list. */
  lemma RestMaxIndex<T>(es: seq<(T, int)>, rest: seq<(T, int)>, m: nat, m2: nat)
    requires m < |es| && rest == Remove(es, m) && m2 < |rest|
    requires forall k :: 0 <= k < |rest| ==> rest[k].1 <= rest[m2].1
    requires forall k :: 0 <= k < m2 ==> rest[k].1 < rest[m2].1
    ensures var j := if m2 < m then m2 else m2 + 1;
      j < |es| && j != m
      && (forall k :: 0 <= k < |es| && k != m ==> es[k].1 <= es[j].1)
      && (forall k :: 0 <= k < j && k != m ==> es[k].1 < es[j].1)
  {
    var j := if m2 < m then m2 else m2 + 1;
    RemoveAt(es, m, m2);
    forall k | 0 <= k < |es| && k != m
      ensures es[k].1 <= es[j].1
      ensures k < j ==> es[k].1 < es[j].1
    {
      var k' := if k < m then k else k - 1;
      RemoveAt(es, m, k');
    }
  }

  lemma RemoveAt<T>(es: seq<T>, m: nat, k: nat)
    requires m < |es| && k < |es| - 1
    ensures Remove(es, m)[k] == if k < m then es[k] else es[k + 1]
  {
  }

  /** The second entry of the sorted list is the first entry of greatest score once the
      head has been set aside. */
  lemma SortSecond<T>(es: seq<(T, int)>)
    requires |es| >= 2
    ensures SortDesc(es)[1] == es[SecondIndex(es)]
  {
    var m := FirstMaxIndex(es);
    var rest := Remove(es, m);
    var m2 := FirstMaxIndex(rest);
    assert SortDesc(es)[1] == SortDesc(rest)[0] == rest[m2];
    RemoveAt(es, m, m2);
  }
}
