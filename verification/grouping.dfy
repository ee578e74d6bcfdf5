/**
 * Python's `itertools.groupby(xs, key)`: splits a sequence into maximal runs
 * of consecutive elements with equal keys, in order. Equal keys that are not
 * adjacent form separate runs.
 */
module Grouping {

  datatype Group<K, T> = Group(key: K, items: seq<T>)

  function Flatten<K, T>(gs: seq<Group<K, T>>): seq<T> {
    if gs == [] then [] else gs[0].items + Flatten(gs[1..])
  }

  /** `gs` splits `xs` into non-empty runs, each labelled with the key of its elements,
      with adjacent runs under different keys. */
  predicate IsRunGrouping<K(==), T(==)>(xs: seq<T>, key: T -> K, gs: seq<Group<K, T>>) {
    && Flatten(gs) == xs
    && (forall i :: 0 <= i < |gs| ==> |gs[i].items| > 0)
    && (forall i, j :: 0 <= i < |gs| && 0 <= j < |gs[i].items| ==> key(gs[i].items[j]) == gs[i].key)
    && (forall i :: 0 < i < |gs| ==> gs[i - 1].key != gs[i].key)
  }

  /** `groupby(xs, key)` as a list of `(key, group)` pairs. */
  function GroupBy<K(==), T>(xs: seq<T>, key: T -> K): (gs: seq<Group<K, T>>)
    ensures IsRunGrouping(xs, key, gs)
    ensures |xs| > 0 ==> |gs| > 0 && gs[0].key == key(xs[0])
  {
    if xs == [] then []
    else
      var rest := GroupBy(xs[1..], key);
      assert xs == [xs[0]] + xs[1..];
      if rest != [] && rest[0].key == key(xs[0]) then
        PrependJoins(xs[0], xs[1..], key, rest);
        [Group(key(xs[0]), [xs[0]] + rest[0].items)] + rest[1..]
      else
        PrependStarts(xs[0], xs[1..], key, rest);
        [Group(key(xs[0]), [xs[0]])] + rest
  }

  /** An element whose key differs from the first run's starts a run of its own. */
  lemma PrependStarts<K, T>(x: T, xs: seq<T>, key: T -> K, gs: seq<Group<K, T>>)
    requires IsRunGrouping(xs, key, gs)
    requires gs == [] || gs[0].key != key(x)
    ensures IsRunGrouping([x] + xs, key, [Group(key(x), [x])] + gs)
  {
    var gs' := [Group(key(x), [x])] + gs;
    assert gs'[1..] == gs;
  }

  /** An element with the first run's key joins that run. */
  lemma PrependJoins<K, T>(x: T, xs: seq<T>, key: T -> K, gs: seq<Group<K, T>>)
    requires IsRunGrouping(xs, key, gs)
    requires gs != [] && gs[0].key == key(x)
    ensures IsRunGrouping([x] + xs, key, [Group(key(x), [x] + gs[0].items)] + gs[1..])
  {
    var gs' := [Group(key(x), [x] + gs[0].items)] + gs[1..];
    assert gs'[1..] == gs[1..] && gs == [gs[0]] + gs[1..];
    assert Flatten(gs) == gs[0].items + Flatten(gs[1..]);
    assert Flatten(gs') == [x] + Flatten(gs);
    forall i, j | 0 <= i < |gs'| && 0 <= j < |gs'[i].items| ensures key(gs'[i].items[j]) == gs'[i].key {
      if i == 0 && j > 0 {
        assert gs'[0].items[j] == gs[0].items[j - 1];
      }
    }
  }

  /** A non-empty run followed by a different key starts its own group. */
  lemma {:induction false} GroupByRun<K, T>(run: seq<T>, ys: seq<T>, k: K, key: T -> K)
    requires |run| > 0 && forall j :: 0 <= j < |run| ==> key(run[j]) == k
    requires ys == [] || key(ys[0]) != k
    ensures GroupBy(run + ys, key) == [Group(k, run)] + GroupBy(ys, key)
    decreases |run|
  {
    var xs := run + ys;
    assert xs[1..] == run[1..] + ys;
    if |run| > 1 {
      GroupByRun(run[1..], ys, k, key);
      assert [run[0]] + run[1..] == run;
    }
  }

  /** `groupby` is the only run grouping: the four properties determine the groups. */
  lemma {:induction false} RunGroupingUnique<K, T>(xs: seq<T>, key: T -> K, gs: seq<Group<K, T>>)
    requires IsRunGrouping(xs, key, gs)
    ensures gs == GroupBy(xs, key)
    decreases |gs|
  {
    if gs != [] {
      var rest := gs[1..];
      var ys := Flatten(rest);
      RestIsRunGrouping(xs, key, gs);
      RunGroupingUnique(ys, key, rest);
      GroupByRun(gs[0].items, ys, gs[0].key, key);
      assert gs == [Group(gs[0].key, gs[0].items)] + rest;
    }
  }

  /** The runs after the first group the remaining elements, and the first run is followed
      by a different key. */
  lemma RestIsRunGrouping<K, T>(xs: seq<T>, key: T -> K, gs: seq<Group<K, T>>)
    requires IsRunGrouping(xs, key, gs) && gs != []
    ensures IsRunGrouping(Flatten(gs[1..]), key, gs[1..])
    ensures xs == gs[0].items + Flatten(gs[1..])
    ensures forall j :: 0 <= j < |gs[0].items| ==> key(gs[0].items[j]) == gs[0].key
    ensures var ys := Flatten(gs[1..]); ys == [] || key(ys[0]) != gs[0].key
  {
    var rest := gs[1..];
    forall i | 0 < i < |rest| ensures rest[i - 1].key != rest[i].key {
      assert gs[i].key != gs[i + 1].key;
    }
    if rest != [] {
      assert Flatten(rest) == rest[0].items + Flatten(rest[1..]);
      assert gs[1].key != gs[0].key;
    }
  }

  lemma {:induction false} FlattenAppend<K, T>(gs: seq<Group<K, T>>, g: Group<K, T>)
    ensures Flatten(gs + [g]) == Flatten(gs) + g.items
    decreases |gs|
  {
    if gs == [] {
      assert [g][1..] == [];
    } else {
      assert (gs + [g])[1..] == gs[1..] + [g];
      FlattenAppend(gs[1..], g);
    }
  }

  /** A key labels some group exactly when some element carries it. */
  lemma {:induction false} KeyOccurs<K, T>(xs: seq<T>, key: T -> K, gs: seq<Group<K, T>>, v: K)
    requires IsRunGrouping(xs, key, gs)
    ensures (exists i :: 0 <= i < |xs| && key(xs[i]) == v) <==> (exists k :: 0 <= k < |gs| && gs[k].key == v)
    decreases |gs|
  {
    if gs != [] {
      var rest := gs[1..];
      var ys := Flatten(rest);
      RestIsRunGrouping(xs, key, gs);
      KeyOccurs(ys, key, rest, v);
      var items := gs[0].items;
      assert xs == items + ys;
      if exists i :: 0 <= i < |xs| && key(xs[i]) == v {
        var i :| 0 <= i < |xs| && key(xs[i]) == v;
        if i < |items| {
          assert key(items[i]) == gs[0].key;
        } else {
          assert ys[i - |items|] == xs[i];
          var k :| 0 <= k < |rest| && rest[k].key == v;
          assert gs[k + 1].key == v;
        }
      }
      if exists k :: 0 <= k < |gs| && gs[k].key == v {
        var k :| 0 <= k < |gs| && gs[k].key == v;
        if k == 0 {
          assert key(xs[0]) == key(items[0]) == v;
        } else {
          assert rest[k - 1].key == v;
          var i :| 0 <= i < |ys| && key(ys[i]) == v;
          assert xs[|items| + i] == ys[i];
        }
      }
    }
  }
}
