/** What compaction keeps: plain totals per key, whatever the order and the batching. */
module TracingTotals {
  import opened Wrappers
  import opened DivMod
  import opened Grouping
  import opened Moments
  import opened TracingRecords
  import opened TracingCompact

  /** Totals that only add up; `squares` is the square sum the truncated variances stand for. */
  datatype Totals = Totals(
    count: nat, total: int, min: int, max: int, squares: real, codes: map<int, int>, errors: map<string, int>)

  const ZERO: Totals := Totals(0, 0, -1, 0, 0.0, map[], map[])

  function Add(t: Totals, o: Item): (u: Totals) {
    if !Counts(o) then t
    else
      var r := o.value;
      var u := if r.key.start then t else t.(
          total := t.total + r.total,
          min := if t.min < 0 || r.min < t.min then r.min else t.min,
          max := if r.max > t.max then r.max else t.max,
          squares := t.squares + KeptSquares(r.count, r.total, r.variance));
      u.(count := t.count + r.count, codes := AddTally(t.codes, r.codes), errors := AddTally(t.errors, r.errors))
  }

  const TOTALS: Reader<Item, Key, Totals> := Reader(Counts, KeyOf, ZERO, Add)

  /** A group as it comes out of grouping: all items count, all of one kind. */
  predicate Kind(g: seq<Item>, start: bool) {
    forall o :: o in g ==> Counts(o) && o.value.key.start == start
  }

  // ---------- The accumulator is determined by the totals ----------

  predicate Agrees(start: bool, a: Acc, t: Totals) {
    && a.count == t.count && a.total == t.total && a.min == t.min && a.max == t.max
    && a.codes == t.codes && a.errors == t.errors
    && (!start ==> Centred(a.count, a.total, t.squares, a.mean, a.m2))
  }

  lemma MergedCentred(a: Acc, squares: real, r: Record)
    requires r.count > 0 && Centred(a.count, a.total, squares, a.mean, a.m2)
    ensures Centred(a.count + r.count, a.total + r.total, squares + KeptSquares(r.count, r.total, r.variance),
                    MergedMean(a, r), MergedM2(a, r))
  {
    KeptMerges(a.count, a.total, squares, a.mean, a.m2, r.count, r.total, r.variance, MergedMean(a, r), MergedM2(a, r));
  }

  lemma AbsorbAgrees(start: bool, a: Acc, t: Totals, o: Item)
    requires Agrees(start, a, t) && Counts(o) && o.value.key.start == start
    ensures Agrees(start, Absorb(a, o), Add(t, o))
  {
    var r := o.value;
    if !start {
      MergedCentred(a, t.squares, r);
    }
  }

  lemma {:induction false} FoldAgrees(g: seq<Item>, start: bool)
    requires Kind(g, start)
    ensures Agrees(start, Fold(MERGE, g), Fold(TOTALS, g))
  {
    if g != [] {
      var init, last := g[..|g| - 1], g[|g| - 1];
      assert last in g;
      FoldAgrees(init, start);
      AbsorbAgrees(start, Fold(MERGE, init), Fold(TOTALS, init), last);
    }
  }

  /** The record the totals call for. */
  function EmitTotals(k: Key, t: Totals): (r: Record)
    requires t.count > 0
  {
    if k.start then Record(k, t.count, 0, 0, 0, 0, t.codes, t.errors)
    else Record(k, t.count, t.total, if t.min >= 0 then t.min else 0, t.max,
                Truncate(Over(t.squares - MeanTimesSum(t.count, t.total), t.count as real)), t.codes, t.errors)
  }

  lemma EmitAgrees(k: Key, a: Acc, t: Totals)
    requires Agrees(k.start, a, t) && a.count > 0
    ensures Emit(k, a) == EmitTotals(k, t)
  {
    if !k.start {
      CentredUnique(a.count, a.total, t.squares, a.mean, a.m2);
    }
  }

  /** Compaction emits for each key what the totals of its group call for. */
  lemma SummaryTotals(rs: seq<Item>, k: Key)
    requires Group(rs, k) != []
    ensures Fold(TOTALS, Group(rs, k)).count > 0
    ensures Summary(rs, k) == EmitTotals(k, Fold(TOTALS, Group(rs, k)))
  {
    var g := Group(rs, k);
    FoldCounts(g);
    FoldAgrees(g, k.start);
    EmitAgrees(k, Fold(MERGE, g), Fold(TOTALS, g));
  }

  // ---------- Conservation ----------

  function SumOf(g: seq<Item>, f: Item -> int): int {
    if g == [] then 0 else SumOf(g[..|g| - 1], f) + f(g[|g| - 1])
  }

  function CountIn(o: Item): int {
    if o.Some? then o.value.count else 0
  }

  function TotalIn(o: Item): int {
    if o.Some? then o.value.total else 0
  }

  function CodesIn(code: int): Item -> int {
    (o: Item) => if o.Some? then Get(o.value.codes, code) else 0
  }

  function ErrorsIn(message: string): Item -> int {
    (o: Item) => if o.Some? then Get(o.value.errors, message) else 0
  }

  lemma {:induction false} TotalsAddUp(g: seq<Item>, start: bool, code: int, message: string)
    requires Kind(g, start)
    ensures var t := Fold(TOTALS, g);
            && t.count == SumOf(g, CountIn)
            && t.total == (if start then 0 else SumOf(g, TotalIn))
            && Get(t.codes, code) == SumOf(g, CodesIn(code))
            && Get(t.errors, message) == SumOf(g, ErrorsIn(message))
  {
    if g != [] {
      assert g[|g| - 1] in g;
      TotalsAddUp(g[..|g| - 1], start, code, message);
    }
  }

  /** Counts, total durations, codes and error messages are conserved per key. */
  lemma Conserved(rs: seq<Item>, k: Key, code: int, message: string)
    requires Group(rs, k) != []
    ensures var r, g := Summary(rs, k), Group(rs, k);
            && r.count == SumOf(g, CountIn)
            && r.total == (if k.start then 0 else SumOf(g, TotalIn))
            && Get(r.codes, code) == SumOf(g, CodesIn(code))
            && Get(r.errors, message) == SumOf(g, ErrorsIn(message))
  {
    SummaryTotals(rs, k);
    TotalsAddUp(Group(rs, k), k.start, code, message);
  }

  predicate IsLeast(g: seq<Item>, m: int) {
    (exists o :: o in g && o.Some? && o.value.min == m) && forall o :: o in g && o.Some? ==> m <= o.value.min
  }

  predicate IsGreatest(g: seq<Item>, m: int) {
    (exists o :: o in g && o.Some? && o.value.max == m) && forall o :: o in g && o.Some? ==> o.value.max <= m
  }

  predicate MinsNatural(g: seq<Item>) {
    forall o :: o in g && o.Some? ==> o.value.min >= 0
  }

  predicate SomeMaxNatural(g: seq<Item>) {
    exists o :: o in g && o.Some? && o.value.max >= 0
  }

  lemma {:induction false} LeastKept(g: seq<Item>)
    requires g != [] && Kind(g, false) && MinsNatural(g)
    ensures IsLeast(g, Fold(TOTALS, g).min)
  {
    var init, last := g[..|g| - 1], g[|g| - 1];
    assert last in g && g == init + [last];
    if init == [] {
      assert g == [last];
      assert Fold(TOTALS, g).min == last.value.min;
    } else {
      LeastKept(init);
      var o :| o in init && o.Some? && o.value.min == Fold(TOTALS, init).min;
      assert o in g;
    }
  }

  lemma {:induction false} GreatestKept(g: seq<Item>)
    requires Kind(g, false)
    ensures Fold(TOTALS, g).max >= 0
    ensures SomeMaxNatural(g) ==> IsGreatest(g, Fold(TOTALS, g).max)
    ensures forall o :: o in g ==> o.value.max <= Fold(TOTALS, g).max
    ensures Fold(TOTALS, g).max > 0 ==> SomeMaxNatural(g)
  {
    if g != [] {
      var init, last := g[..|g| - 1], g[|g| - 1];
      assert last in g && g == init + [last];
      GreatestKept(init);
    }
  }

  /** The emitted minimum is the least one exactly when no minimum is negative (-1 means "unset" in the code). */
  lemma MinimumKept(rs: seq<Item>, k: Key)
    requires Group(rs, k) != [] && !k.start
    ensures IsLeast(Group(rs, k), Summary(rs, k).min) <==> MinsNatural(Group(rs, k))
  {
    SummaryTotals(rs, k);
    if MinsNatural(Group(rs, k)) {
      LeastKept(Group(rs, k));
    }
  }

  /** The emitted maximum is the greatest one exactly when some maximum is not negative. */
  lemma MaximumKept(rs: seq<Item>, k: Key)
    requires Group(rs, k) != [] && !k.start
    ensures IsGreatest(Group(rs, k), Summary(rs, k).max) <==> SomeMaxNatural(Group(rs, k))
  {
    SummaryTotals(rs, k);
    GreatestKept(Group(rs, k));
  }
}
