/** Grouping by key with a map of accumulators and a list of the keys in order of first appearance. */
module Grouping {

  /** How to read items: which ones count, their key, and how one is folded into an accumulator. */
  datatype Reader<!R, !K(==), !A> = Reader(relevant: R -> bool, key: R -> K, empty: A, step: (A, R) -> A)

  // ---------- What the groups are ----------

  /** The relevant items of key `k`, in order. */
  function Select<R, K(==), A>(rd: Reader<R, K, A>, rs: seq<R>, k: K): (g: seq<R>)
    ensures forall r :: r in g ==> r in rs && rd.relevant(r) && rd.key(r) == k
  {
    if rs == [] then []
    else
      var init, last := Select(rd, rs[..|rs| - 1], k), rs[|rs| - 1];
      if rd.relevant(last) && rd.key(last) == k then init + [last] else init
  }

  /** The keys of the relevant items, in order of first appearance. */
  function Keys<R, K(==), A>(rd: Reader<R, K, A>, rs: seq<R>): (ks: seq<K>) {
    if rs == [] then []
    else
      var init, last := Keys(rd, rs[..|rs| - 1]), rs[|rs| - 1];
      if rd.relevant(last) && rd.key(last) !in init then init + [rd.key(last)] else init
  }

  function Fold<R, K(==), A>(rd: Reader<R, K, A>, g: seq<R>): (a: A) {
    if g == [] then rd.empty else rd.step(Fold(rd, g[..|g| - 1]), g[|g| - 1])
  }

  lemma {:induction false} KeysSelected<R, K, A>(rd: Reader<R, K, A>, rs: seq<R>, k: K)
    ensures k in Keys(rd, rs) <==> Select(rd, rs, k) != []
  {
    if rs != [] {
      KeysSelected(rd, rs[..|rs| - 1], k);
    }
  }

  lemma {:induction false} KeysDistinct<R, K, A>(rd: Reader<R, K, A>, rs: seq<R>)
    ensures forall i, j :: 0 <= i < j < |Keys(rd, rs)| ==> Keys(rd, rs)[i] != Keys(rd, rs)[j]
  {
    if rs != [] {
      KeysDistinct(rd, rs[..|rs| - 1]);
    }
  }

  lemma SelectNext<R, K, A>(rd: Reader<R, K, A>, rs: seq<R>, r: R, k: K)
    ensures Select(rd, rs + [r], k)
            == if rd.relevant(r) && rd.key(r) == k then Select(rd, rs, k) + [r] else Select(rd, rs, k)
  {
    assert (rs + [r])[..|rs|] == rs;
  }

  lemma {:induction false} SelectAppend<R, K, A>(rd: Reader<R, K, A>, a: seq<R>, b: seq<R>, k: K)
    ensures Select(rd, a + b, k) == Select(rd, a, k) + Select(rd, b, k)
    decreases |b|
  {
    if b == [] {
      assert a + b == a;
    } else {
      var n := |b| - 1;
      assert (a + b)[..|a + b| - 1] == a + b[..n];
      SelectAppend(rd, a, b[..n], k);
    }
  }

  lemma FoldNext<R, K, A>(rd: Reader<R, K, A>, g: seq<R>, r: R)
    ensures Fold(rd, g + [r]) == rd.step(Fold(rd, g), r)
  {
    assert (g + [r])[..|g|] == g;
  }

  lemma {:induction false} SelectNone<R, K, A>(rd: Reader<R, K, A>, rs: seq<R>, k: K)
    requires forall i :: 0 <= i < |rs| ==> rd.key(rs[i]) != k
    ensures Select(rd, rs, k) == []
  {
    if rs != [] {
      SelectNone(rd, rs[..|rs| - 1], k);
    }
  }

  /** A relevant item whose key no other item has is a group of its own. */
  lemma {:induction false} SelectAlone<R, K, A>(rd: Reader<R, K, A>, rs: seq<R>, i: nat)
    requires i < |rs| && rd.relevant(rs[i])
    requires forall j :: 0 <= j < |rs| && j != i ==> rd.key(rs[j]) != rd.key(rs[i])
    ensures Select(rd, rs, rd.key(rs[i])) == [rs[i]]
  {
    var n := |rs| - 1;
    if i == n {
      SelectNone(rd, rs[..n], rd.key(rs[i]));
    } else {
      SelectAlone(rd, rs[..n], i);
    }
  }

  /** Whether an item is selected depends on the multiset of the items only. */
  lemma {:induction false} SelectCount<R, K, A>(rd: Reader<R, K, A>, rs: seq<R>, k: K, r: R)
    ensures multiset(Select(rd, rs, k))[r] == if rd.relevant(r) && rd.key(r) == k then multiset(rs)[r] else 0
  {
    if rs != [] {
      var init, last := rs[..|rs| - 1], rs[|rs| - 1];
      assert rs == init + [last];
      SelectCount(rd, init, k, r);
    }
  }

  // ---------- Folds that do not depend on the order ----------

  ghost predicate Commutes<R(!new), K, A(!new)>(rd: Reader<R, K, A>, g: seq<R>) {
    forall a, r, t :: r in g && t in g ==> rd.step(rd.step(a, r), t) == rd.step(rd.step(a, t), r)
  }

  lemma {:induction false} MoveToEnd<R(!new), K, A(!new)>(rd: Reader<R, K, A>, g: seq<R>, i: nat)
    requires i < |g| && Commutes(rd, g)
    ensures Fold(rd, g) == rd.step(Fold(rd, g[..i] + g[i + 1..]), g[i])
  {
    var n := |g| - 1;
    if i == n {
      assert g[..i] + g[i + 1..] == g[..n];
    } else {
      var init, last := g[..n], g[n];
      MoveToEnd(rd, init, i);
      assert init[..i] + init[i + 1..] + [last] == g[..i] + g[i + 1..];
      FoldNext(rd, init[..i] + init[i + 1..], last);
      assert g[i] in g && last in g;
    }
  }

  lemma RemoveAt<R>(h: seq<R>, i: nat)
    requires i < |h|
    ensures multiset(h[..i] + h[i + 1..]) == multiset(h) - multiset{h[i]}
  {
    assert h == h[..i] + [h[i]] + h[i + 1..];
  }

  lemma FindLast<R>(g: seq<R>, h: seq<R>) returns (i: nat)
    requires g != [] && multiset(g) == multiset(h)
    ensures i < |h| && h[i] == g[|g| - 1]
    ensures multiset(g[..|g| - 1]) == multiset(h[..i] + h[i + 1..])
  {
    var n := |g| - 1;
    assert g[n] in multiset(g);
    i :| 0 <= i < |h| && h[i] == g[n];
    RemoveAt(h, i);
    RemoveAt(g, n);
    assert g[..n] + g[n + 1..] == g[..n];
  }

  /** Reordering a group does not change its fold when the steps commute. */
  lemma {:induction false} FoldPermutation<R(!new), K, A(!new)>(rd: Reader<R, K, A>, g: seq<R>, h: seq<R>)
    requires multiset(g) == multiset(h) && Commutes(rd, h)
    ensures Fold(rd, g) == Fold(rd, h)
    decreases |g|
  {
    if g == [] {
      assert |multiset(h)| == 0;
    } else {
      var i := FindLast(g, h);
      FoldPermutation(rd, g[..|g| - 1], h[..i] + h[i + 1..]);
      MoveToEnd(rd, h, i);
    }
  }

  // ---------- The map and the list ----------

  /** The groups as the code keeps them. */
  datatype Groups<!K(==), +A> = Groups(accs: map<K, A>, order: seq<K>)

  function Put<R, K(==), A>(rd: Reader<R, K, A>, gs: Groups<K, A>, r: R): (gs': Groups<K, A>) {
    if !rd.relevant(r) then gs
    else
      var k := rd.key(r);
      if k in gs.accs then gs.(accs := gs.accs[k := rd.step(gs.accs[k], r)])
      else Groups(gs.accs[k := rd.step(rd.empty, r)], gs.order + [k])
  }

  /** The map holds each group's fold, the list each key once. */
  ghost predicate Grouped<R, K(!new), A>(rd: Reader<R, K, A>, rs: seq<R>, gs: Groups<K, A>) {
    && gs.order == Keys(rd, rs)
    && (forall k :: k in gs.accs <==> k in gs.order)
    && (forall k :: k in gs.accs ==> gs.accs[k] == Fold(rd, Select(rd, rs, k)))
  }

  lemma PutGroups<R, K(!new), A>(rd: Reader<R, K, A>, rs: seq<R>, gs: Groups<K, A>, r: R)
    requires Grouped(rd, rs, gs)
    ensures Grouped(rd, rs + [r], Put(rd, gs, r))
  {
    assert (rs + [r])[..|rs|] == rs;
    var gs' := Put(rd, gs, r);
    forall k | k in gs'.accs
      ensures gs'.accs[k] == Fold(rd, Select(rd, rs + [r], k))
    {
      SelectNext(rd, rs, r, k);
      KeysSelected(rd, rs, k);
      FoldNext(rd, Select(rd, rs, k), r);
    }
  }

  /** The groups after putting all items in, one after the other. */
  function PutAll<R, K(==), A>(rd: Reader<R, K, A>, rs: seq<R>): (gs: Groups<K, A>) {
    if rs == [] then Groups(map[], []) else Put(rd, PutAll(rd, rs[..|rs| - 1]), rs[|rs| - 1])
  }

  lemma PutAllNext<R, K, A>(rd: Reader<R, K, A>, rs: seq<R>, r: R)
    ensures PutAll(rd, rs + [r]) == Put(rd, PutAll(rd, rs), r)
  {
    assert (rs + [r])[..|rs|] == rs;
  }

  lemma {:induction false} PutAllGroups<R, K(!new), A>(rd: Reader<R, K, A>, rs: seq<R>)
    ensures Grouped(rd, rs, PutAll(rd, rs))
  {
    if rs != [] {
      var init, last := rs[..|rs| - 1], rs[|rs| - 1];
      PutAllGroups(rd, init);
      PutGroups(rd, init, PutAll(rd, init), last);
      assert rs == init + [last];
    }
  }

  /** The grouping loop. */
  method GroupAll<R, K(==), A>(rd: Reader<R, K, A>, rs: seq<R>) returns (gs: Groups<K, A>)
    ensures gs == PutAll(rd, rs)
  {
    gs := Groups(map[], []);
    for i := 0 to |rs|
      invariant gs == PutAll(rd, rs[..i])
    {
      assert rs[..i + 1] == rs[..i] + [rs[i]];
      PutAllNext(rd, rs[..i], rs[i]);
      gs := Put(rd, gs, rs[i]);
    }
    assert rs[..|rs|] == rs;
  }
}
