/** numa_tools::node_map of include/hwmalloc/numa.hpp: from numa node to its rank among the nodes. */
module NodeMaps {
  predicate Sorted(xs: seq<nat>) {
    forall i, j :: 0 <= i < j < |xs| ==> xs[i] <= xs[j]
  }

  predicate Distinct(xs: seq<nat>) {
    forall i, j :: 0 <= i < j < |xs| ==> xs[i] != xs[j]
  }

  /** The meaning of `find`: p is the last position of n in keys, or past the end if n is not there. */
  predicate IsPosition(keys: seq<nat>, n: nat, p: nat) {
    if n in keys then
      p < |keys| && keys[p] == n && forall j :: p < j < |keys| ==> keys[j] != n
    else
      p == |keys|
  }

  // Linear search from the front.
  function LinearSearch(keys: seq<nat>, n: nat): (p: nat)
    ensures p <= |keys|
  {
    if keys == [] || keys[0] == n then 0 else 1 + LinearSearch(keys[1..], n)
  }

  /** On distinct keys, the position is what a linear search finds. */
  lemma {:induction false} PositionIsLinearSearch(keys: seq<nat>, n: nat, p: nat)
    requires Distinct(keys)
    ensures IsPosition(keys, n, p) <==> p == LinearSearch(keys, n)
  {
    if keys == [] || keys[0] == n {
      assert n in keys ==> keys[0] == n;
    } else {
      assert n in keys <==> n in keys[1..];
      if p > 0 {
        PositionIsLinearSearch(keys[1..], n, p - 1);
        assert IsPosition(keys[1..], n, p - 1) <==> IsPosition(keys, n, p) by {
          assert forall j :: 0 <= j < |keys[1..]| ==> keys[1..][j] == keys[j + 1];
          assert forall j :: 0 < j < |keys| ==> keys[j] == keys[1..][j - 1];
        }
      }
    }
  }

  lemma {:induction false} LinearSearchFinds(keys: seq<nat>, n: nat)
    ensures var p := LinearSearch(keys, n); if n in keys then p < |keys| && keys[p] == n else p == |keys|
  {
    if keys != [] && keys[0] != n {
      LinearSearchFinds(keys[1..], n);
      assert n in keys <==> n in keys[1..];
    }
  }

  // The index of a node among those there are; any other node counts as the local one.
  function IndexOrLocal(keys: seq<nat>, local: nat, n: nat): (i: nat)
    ensures local in keys ==> i < |keys| && keys[i] == if n in keys then n else local
  {
    var m := if n in keys then n else local;
    LinearSearchFinds(keys, m);
    LinearSearch(keys, m)
  }

  // Inserts x into a sorted list.
  function Insert(x: nat, xs: seq<nat>): (ys: seq<nat>)
    requires Sorted(xs)
    ensures Sorted(ys) && multiset(ys) == multiset(xs) + multiset{x}
    ensures ys != [] && (ys[0] == x || (xs != [] && ys[0] == xs[0]))
  {
    if xs == [] || x <= xs[0] then [x] + xs
    else
      var rest := Insert(x, xs[1..]);
      assert xs == [xs[0]] + xs[1..];
      assert forall j :: 0 <= j < |rest| ==> xs[0] <= rest[0] <= rest[j];
      [xs[0]] + rest
  }

  // Stands for std::sort.
  method Sort(xs: seq<nat>) returns (ys: seq<nat>)
    ensures Sorted(ys) && multiset(ys) == multiset(xs)
  {
    ys := [];
    for i := 0 to |xs|
      invariant Sorted(ys) && multiset(ys) == multiset(xs[..i])
    {
      assert xs[..i + 1] == xs[..i] + [xs[i]];
      ys := Insert(xs[i], ys);
    }
    assert xs[..|xs|] == xs;
  }

  class NodeMap {
    const nodes: seq<(nat, nat)>
    const nodesToIndex: seq<nat>

    ghost function Keys(): (keys: seq<nat>)
      ensures |keys| == |nodes|
    {
      seq(|nodes|, i requires 0 <= i < |nodes| => nodes[i].0)
    }

    /** The dense table holds, for every key up to the largest node, what `find` returns. */
    ghost predicate Valid()
    {
      && Sorted(Keys())
      && (forall i :: 0 <= i < |nodes| ==> nodes[i].1 == i)
      && (forall i :: 0 <= i < |nodes| ==> nodes[i].0 < |nodesToIndex|)
      && (forall n :: 0 <= n < |nodesToIndex| ==> IsPosition(Keys(), n, nodesToIndex[n]))
    }

    constructor (nodes_: seq<nat>)
      ensures Valid() && multiset(Keys()) == multiset(nodes_)
    {
      var sorted := Sort(nodes_);
      var entries: seq<(nat, nat)> := [];
      var table: seq<nat> := [];
      if sorted != [] {
        table := seq(sorted[|sorted| - 1] + 1, _ => |sorted|);
        for idx := 0 to |sorted|
          invariant |table| == sorted[|sorted| - 1] + 1
          invariant |entries| == idx && forall i :: 0 <= i < idx ==> entries[i] == (sorted[i], i)
          invariant forall n :: 0 <= n < |table| ==>
                      if n in sorted[..idx] then IsPosition(sorted[..idx], n, table[n]) else table[n] == |sorted|
        {
          assert sorted[idx] <= sorted[|sorted| - 1];
          assert sorted[..idx + 1] == sorted[..idx] + [sorted[idx]];
          table := table[sorted[idx] := idx];
          entries := entries + [(sorted[idx], idx)];
        }
        assert sorted[..|sorted|] == sorted;
      }
      nodes, nodesToIndex := entries, table;
      new;
      assert Keys() == sorted;
    }

    function Size(): nat
    {
      |nodes|
    }

    // The position of the iterator that `find` returns; `Size()` is `end()`.
    function Find(n: nat): (p: nat)
      requires Valid()
      ensures IsPosition(Keys(), n, p)
    {
      if n >= |nodesToIndex| then
        assert n !in Keys();
        Size()
      else nodesToIndex[n]
    }

    function Count(n: nat): (k: nat)
      requires Valid()
      ensures k == if n in Keys() then 1 else 0
    {
      if n >= |nodesToIndex| then
        assert n !in Keys();
        0
      else if nodesToIndex[n] < Size() then 1 else 0
    }
  }
}
