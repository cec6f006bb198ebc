/** When the order in which records arrive does not matter. */
module TracingOrder {
  import opened Wrappers
  import opened Grouping
  import opened TracingRecords
  import opened TracingCompact
  import opened TracingTotals

  // ---------- Everything but the minimum ----------

  function AddSansMin(t: Totals, o: Item): Totals {
    Add(t, o).(min := 0)
  }

  const SANS_MIN: Reader<Item, Key, Totals> := Reader(Counts, KeyOf, ZERO.(min := 0), AddSansMin)

  lemma {:induction false} FoldSansMin(g: seq<Item>)
    ensures Fold(TOTALS, g).(min := 0) == Fold(SANS_MIN, g)
  {
    if g != [] {
      FoldSansMin(g[..|g| - 1]);
    }
  }

  lemma AddSwap(t: Totals, o: Item, p: Item)
    ensures AddSansMin(AddSansMin(t, o), p) == AddSansMin(AddSansMin(t, p), o)
  {
    if Counts(o) && Counts(p) {
      AddTallySwap(t.codes, o.value.codes, p.value.codes);
      AddTallySwap(t.errors, o.value.errors, p.value.errors);
    }
  }

  /** Whatever the records say, all totals of a group but its minimum are those of any reordering. */
  lemma SansMinPermutes(g: seq<Item>, h: seq<Item>)
    requires multiset(g) == multiset(h)
    ensures Fold(TOTALS, g).(min := 0) == Fold(TOTALS, h).(min := 0)
  {
    forall t: Totals, o, p | o in h && p in h
      ensures SANS_MIN.step(SANS_MIN.step(t, o), p) == SANS_MIN.step(SANS_MIN.step(t, p), o)
    {
      AddSwap(t, o, p);
    }
    FoldPermutation(SANS_MIN, g, h);
    FoldSansMin(g);
    FoldSansMin(h);
  }

  // ---------- The minimum ----------

  /** Records of ended calls have no negative minimum, as every tracer guarantees. */
  predicate NaturalMins(rs: seq<Item>) {
    forall o :: o in rs && Counts(o) && !o.value.key.start ==> o.value.min >= 0
  }

  predicate MinsBelow(g: seq<Item>) {
    forall o :: o in g && o.Some? ==> o.value.min <= 0
  }

  /** No group of ended calls has both a negative and a positive minimum. */
  predicate Unmixed(rs: seq<Item>, k: Key) {
    k.start || MinsNatural(Group(rs, k)) || MinsBelow(Group(rs, k))
  }

  function EmittedMin(g: seq<Item>): int {
    if Fold(TOTALS, g).min >= 0 then Fold(TOTALS, g).min else 0
  }

  lemma {:induction false} BelowEmitsZero(g: seq<Item>)
    requires Kind(g, false) && MinsBelow(g)
    ensures Fold(TOTALS, g).min <= 0
  {
    if g != [] {
      var init, last := g[..|g| - 1], g[|g| - 1];
      assert last in g && g == init + [last];
      BelowEmitsZero(init);
    }
  }

  lemma MembersPermute(g: seq<Item>, h: seq<Item>)
    requires multiset(g) == multiset(h)
    ensures |g| == |h| && forall o :: o in g <==> o in h
  {
    assert |multiset(g)| == |multiset(h)|;
    forall o
      ensures o in g <==> o in h
    {
      assert o in multiset(g) <==> o in multiset(h);
    }
  }

  lemma MinPermutes(g: seq<Item>, h: seq<Item>)
    requires multiset(g) == multiset(h) && g != [] && Kind(h, false) && (MinsNatural(h) || MinsBelow(h))
    ensures EmittedMin(g) == EmittedMin(h)
  {
    MembersPermute(g, h);
    if MinsNatural(h) {
      LeastKept(g);
      LeastKept(h);
    } else {
      BelowEmitsZero(g);
      BelowEmitsZero(h);
    }
  }

  // ---------- Reordering the input ----------

  lemma GroupPermutes(rs: seq<Item>, rs': seq<Item>, k: Key)
    requires multiset(rs) == multiset(rs')
    ensures multiset(Group(rs, k)) == multiset(Group(rs', k))
  {
    forall o
      ensures multiset(Group(rs, k))[o] == multiset(Group(rs', k))[o]
    {
      SelectCount(MERGE, rs, k, o);
      SelectCount(MERGE, rs', k, o);
    }
  }

  lemma EmitSame(k: Key, t: Totals, u: Totals)
    requires t.count > 0 && t.(min := 0) == u.(min := 0)
    requires k.start || (if t.min >= 0 then t.min else 0) == if u.min >= 0 then u.min else 0
    ensures EmitTotals(k, t) == EmitTotals(k, u)
  {
    assert u == t.(min := u.min);
  }

  lemma SummaryPermutes(rs: seq<Item>, rs': seq<Item>, k: Key)
    requires multiset(rs) == multiset(rs') && Unmixed(rs', k)
    ensures Group(rs, k) != [] <==> Group(rs', k) != []
    ensures Group(rs, k) != [] ==> Summary(rs, k) == Summary(rs', k)
  {
    GroupPermutes(rs, rs', k);
    var g, g' := Group(rs, k), Group(rs', k);
    MembersPermute(g, g');
    if g != [] {
      SansMinPermutes(g, g');
      if !k.start {
        MinPermutes(g, g');
      }
      SummaryTotals(rs, k);
      SummaryTotals(rs', k);
      EmitSame(k, Fold(TOTALS, g), Fold(TOTALS, g'));
    }
  }

  /** Any two reorderings of the input are compacted to the same result. */
  ghost predicate OrderFree(rs: seq<Item>) {
    forall a, b, x, y :: multiset(a) == multiset(rs) == multiset(b) && IsCompaction(a, x) && IsCompaction(b, y) ==> x == y
  }

  lemma UnmixedOrderFree(rs: seq<Item>)
    requires forall k :: Unmixed(rs, k)
    ensures OrderFree(rs)
  {
    forall a, b, x, y | multiset(a) == multiset(rs) == multiset(b) && IsCompaction(a, x) && IsCompaction(b, y)
      ensures x == y
    {
      forall r: Record
        ensures r in x <==> r in y
      {
        assert Unmixed(rs, r.key);
        SummaryPermutes(a, rs, r.key);
        SummaryPermutes(b, rs, r.key);
      }
      SortedUnique(x, y);
    }
  }

  /** The two records of the group that disagree, moved to the end in either order. */
  lemma GroupEndsWith(rest: seq<Item>, o: Item, p: Item, k: Key)
    requires Counts(o) && Counts(p) && KeyOf(o) == KeyOf(p) == k && !k.start
    ensures Group(rest + [o, p], k) == Group(rest, k) + [o] + [p]
    ensures o.value.min < 0 < p.value.min ==> Summary(rest + [o, p], k).min == p.value.min
    ensures p.value.min < 0 < o.value.min ==> Summary(rest + [o, p], k).min == 0
  {
    var g := Group(rest, k);
    assert rest + [o, p] == rest + [o] + [p];
    SelectNext(MERGE, rest, o, k);
    SelectNext(MERGE, rest + [o], p, k);
    FoldNext(TOTALS, g, o);
    FoldNext(TOTALS, g + [o], p);
    SummaryTotals(rest + [o, p], k);
  }

  lemma TakeOut<R>(h: seq<R>, x: R) returns (rest: seq<R>)
    requires x in h
    ensures multiset(h) == multiset(rest) + multiset{x}
  {
    var i :| 0 <= i < |h| && h[i] == x;
    RemoveAt(h, i);
    rest := h[..i] + h[i + 1..];
  }

  lemma Without<R>(h: seq<R>, x: R, y: R) returns (rest: seq<R>)
    requires x in h && y in h && x != y
    ensures multiset(rest + [x, y]) == multiset(h) == multiset(rest + [y, x])
  {
    var once := TakeOut(h, x);
    assert y in multiset(h);
    rest := TakeOut(once, y);
    assert multiset(h) == multiset(rest) + multiset{y} + multiset{x};
  }

  /** Every input has a compaction. */
  lemma HasCompaction(rs: seq<Item>) returns (out: seq<Record>)
    ensures IsCompaction(rs, out)
  {
    var ks := Keys(MERGE, rs);
    forall i | 0 <= i < |ks|
      ensures Group(rs, ks[i]) != []
    {
      KeysSelected(MERGE, rs, ks[i]);
    }
    var emitted := seq(|ks|, i requires 0 <= i < |ks| => Summary(rs, ks[i]));
    EmittedSorts(rs, emitted);
    out := Sort(emitted);
  }

  lemma DifferentCompactions(rs: seq<Item>, a: seq<Item>, b: seq<Item>, k: Key)
    requires multiset(a) == multiset(rs) == multiset(b) && Group(a, k) != [] && Group(b, k) != []
    requires Summary(a, k) != Summary(b, k)
    ensures !OrderFree(rs)
  {
    var x := HasCompaction(a);
    var y := HasCompaction(b);
    assert Summary(a, k) in x && Summary(a, k) !in y;
  }

  lemma MixedNotOrderFree(rs: seq<Item>, k: Key)
    requires !Unmixed(rs, k)
    ensures !OrderFree(rs)
  {
    var o :| o in Group(rs, k) && o.Some? && o.value.min < 0;
    var p :| p in Group(rs, k) && p.Some? && p.value.min > 0;
    var rest := Without(rs, o, p);
    GroupEndsWith(rest, o, p, k);
    GroupEndsWith(rest, p, o, k);
    DifferentCompactions(rs, rest + [o, p], rest + [p, o], k);
  }

  /**
   * The order of the records does not matter exactly when no group of ended calls has both a negative and a positive
   * minimum: the code reads a negative minimum as "unset".
   */
  lemma OrderIndependent(rs: seq<Item>)
    ensures OrderFree(rs) <==> forall k :: Unmixed(rs, k)
  {
    if forall k :: Unmixed(rs, k) {
      UnmixedOrderFree(rs);
    } else {
      var k :| !Unmixed(rs, k);
      MixedNotOrderFree(rs, k);
    }
  }

  /** A concrete pair of records whose order matters. */
  lemma NegativeMinimumDependsOnOrder(k: Key)
    requires !k.start
    ensures var a := Some(Record(k, 1, -5, -5, 0, 0, map[], map[]));
            var b := Some(Record(k, 1, 3, 3, 3, 0, map[], map[]));
            !OrderFree([a, b])
  {
    var a := Some(Record(k, 1, -5, -5, 0, 0, map[], map[]));
    var b := Some(Record(k, 1, 3, 3, 3, 0, map[], map[]));
    assert [a, b] == [] + [a, b];
    GroupEndsWith([], a, b, k);
    assert a in Group([a, b], k) && b in Group([a, b], k);
    MixedNotOrderFree([a, b], k);
  }
}
