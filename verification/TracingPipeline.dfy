/** From recorded calls through buckets, flushes and compaction to the reported statistics. */
module TracingPipeline {
  import opened Wrappers
  import opened DivMod
  import opened Grouping
  import opened Moments
  import opened TracingRecords
  import opened TracingCompact
  import opened TracingTotals
  import opened TracingLaws
  import opened TracingOrder
  import opened Tracer
  import opened MemoryTracer

  // ---------- One bucket ----------

  predicate AllEnded(g: seq<Update>) {
    forall u :: u in g ==> u.Ended?
  }

  function DurationsOf(g: seq<Update>): (ds: seq<int>)
    requires AllEnded(g)
    ensures |ds| == |g|
  {
    if g == [] then [] else DurationsOf(g[..|g| - 1]) + [g[|g| - 1].duration]
  }

  /** A bucket holds the exact count, total, mean and squared deviations of its durations. */
  lemma {:induction false} BucketIsExact(g: seq<Update>)
    requires AllEnded(g)
    ensures var b, ds := Fold(BUCKETS, g), DurationsOf(g);
            b.count == |ds| && b.total == Sum(ds) && Centred(b.count, b.total, SumSquares(ds), b.mean, b.m2)
  {
    if g != [] {
      var init, last := g[..|g| - 1], g[|g| - 1];
      assert last in g;
      BucketIsExact(init);
      var b, ds := Fold(BUCKETS, init), DurationsOf(init);
      assert (ds + [last.duration])[..|ds|] == ds;
      WelfordCentred(b.count, b.total, SumSquares(ds), b.mean, b.m2, last.duration);
    }
  }

  lemma SingleVariance(d: int)
    ensures Variance([d]) == 0.0
  {
    assert [d][..0] == [];
    assert Sum([d]) == d && SumSquares([d]) == Square(d as real);
    CentredVariance([d], d as real, 0.0);
    OverUnique(0.0, 1.0, 0.0);
  }

  /** The record of a bucket carries the floored variance. */
  lemma RecordIsExact(k: Key, g: seq<Update>)
    requires AllEnded(g) && g != [] && !k.start
    ensures Fold(BUCKETS, g).count > 0
    ensures var r, ds := RecordOf(k, Fold(BUCKETS, g)), DurationsOf(g);
            r.count == |ds| && r.total == Sum(ds) && r.variance == Variance(ds).Floor && r.variance >= 0
  {
    var b, ds := Fold(BUCKETS, g), DurationsOf(g);
    BucketIsExact(g);
    CentredVariance(ds, b.mean, b.m2);
    if |ds| == 1 {
      assert ds == [ds[0]];
      SingleVariance(ds[0]);
    }
  }

  // ---------- One flush ----------

  /** The durations of the calls that ended under key `k`. */
  function DurationsFor(calls: seq<Call>, k: Key): (ds: seq<int>) {
    if calls == [] then []
    else
      var init, last := DurationsFor(calls[..|calls| - 1], k), calls[|calls| - 1];
      if Key(last.name, last.endSec, false) == k then init + [last.duration] else init
  }

  lemma UpdatesSelected(c: Call, k: Key)
    requires !k.start
    ensures Select(BUCKETS, UpdatesOf(c), k) == if Key(c.name, c.endSec, false) == k then [UpdatesOf(c)[0]] else []
  {
    var us := UpdatesOf(c);
    assert us == [] + [us[0]] + [us[1]];
    SelectNext(BUCKETS, [], us[0], k);
    SelectNext(BUCKETS, [us[0]], us[1], k);
  }

  lemma DurationsNext(g: seq<Update>, u: Update)
    requires AllEnded(g) && u.Ended?
    ensures AllEnded(g + [u]) && DurationsOf(g + [u]) == DurationsOf(g) + [u.duration]
  {
    assert (g + [u])[..|g|] == g;
  }

  lemma {:induction false} DurationsSelected(calls: seq<Call>, k: Key)
    requires !k.start
    ensures AllEnded(Select(BUCKETS, Updates(calls), k))
    ensures DurationsOf(Select(BUCKETS, Updates(calls), k)) == DurationsFor(calls, k)
  {
    if calls != [] {
      var init, last := calls[..|calls| - 1], calls[|calls| - 1];
      DurationsSelected(init, k);
      SelectAppend(BUCKETS, Updates(init), UpdatesOf(last), k);
      UpdatesSelected(last, k);
      var g := Select(BUCKETS, Updates(init), k);
      if Key(last.name, last.endSec, false) == k {
        DurationsNext(g, UpdatesOf(last)[0]);
      } else {
        assert g + [] == g;
      }
    }
  }

  /** A flush holds one record for a key that was updated, and none for any other. */
  lemma FlushGroup(calls: seq<Call>, rs: seq<Record>, k: Key)
    requires Reports(Updates(calls), rs)
    ensures Select(BUCKETS, Updates(calls), k) == [] ==> Group(Items(rs), k) == []
    ensures Select(BUCKETS, Updates(calls), k) != [] ==> Group(Items(rs), k) == [Some(Report(Updates(calls), k))]
  {
    if Select(BUCKETS, Updates(calls), k) == [] {
      assert forall i :: 0 <= i < |rs| ==> rs[i] in rs;
      SelectNone(MERGE, Items(rs), k);
    } else {
      var r := Report(Updates(calls), k);
      assert Listed(Updates(calls), r.key, r);
      var i :| 0 <= i < |rs| && rs[i] == r;
      FoldNotEmpty(Select(BUCKETS, Updates(calls), k));
      SelectAlone(MERGE, Items(rs), i);
    }
  }

  // ---------- All flushes of all agents ----------

  function AllDurations(batches: seq<seq<Call>>, k: Key): (ds: seq<int>) {
    if batches == [] then [] else AllDurations(batches[..|batches| - 1], k) + DurationsFor(batches[|batches| - 1], k)
  }

  function AllRecords(outputs: seq<seq<Record>>): (rs: seq<Record>) {
    if outputs == [] then [] else AllRecords(outputs[..|outputs| - 1]) + outputs[|outputs| - 1]
  }

  /** What truncating the variance of every flushed record took. */
  function AllLoss(batches: seq<seq<Call>>, k: Key): real {
    if batches == [] then 0.0
    else AllLoss(batches[..|batches| - 1], k) + Loss(DurationsFor(batches[|batches| - 1], k))
  }

  /** The totals stand for the durations, up to what truncation took. */
  predicate StandsFor(t: Totals, ds: seq<int>, lost: real) {
    && t.count == |ds| && t.total == Sum(ds) && t.squares == SumSquares(ds) - lost
    && (if ds == [] then lost == 0.0 else 0.0 <= lost < |ds| as real)
  }

  lemma AddStandsFor(t: Totals, ds: seq<int>, lost: real, r: Record, es: seq<int>)
    requires StandsFor(t, ds, lost) && es != [] && !r.key.start
    requires r.count == |es| && r.total == Sum(es) && r.variance == Variance(es).Floor
    ensures StandsFor(Add(t, Some(r)), ds + es, lost + Loss(es))
  {
    SumsAppend(ds, es);
    LossSmall(es);
  }

  lemma ItemsAppend(a: seq<Record>, b: seq<Record>)
    ensures Items(a + b) == Items(a) + Items(b)
  {
  }

  /** One more flush adds one record to the group of a key it updated. */
  lemma NextGroup(batches: seq<seq<Call>>, outputs: seq<seq<Record>>, k: Key) returns (g: seq<Item>, us: seq<Update>)
    requires AllReported(batches, outputs) && batches != []
    ensures var n := |batches| - 1;
            && g == Group(Items(AllRecords(outputs[..n])), k) && us == Select(BUCKETS, Updates(batches[n]), k)
            && Fold(BUCKETS, us).count == |us|
            && Group(Items(AllRecords(outputs)), k) == g + (if us == [] then [] else [Some(RecordOf(k, Fold(BUCKETS, us)))])
            && (us == [] ==> Fold(TOTALS, Group(Items(AllRecords(outputs)), k)) == Fold(TOTALS, g))
            && (us != [] ==> Fold(TOTALS, Group(Items(AllRecords(outputs)), k))
                             == Add(Fold(TOTALS, g), Some(RecordOf(k, Fold(BUCKETS, us)))))
  {
    var n := |batches| - 1;
    g, us := Group(Items(AllRecords(outputs[..n])), k), Select(BUCKETS, Updates(batches[n]), k);
    ItemsAppend(AllRecords(outputs[..n]), outputs[n]);
    SelectAppend(MERGE, Items(AllRecords(outputs[..n])), Items(outputs[n]), k);
    FlushGroup(batches[n], outputs[n], k);
    FoldNotEmpty(us);
    if us == [] {
      assert g + [] == g;
    } else {
      FoldNext(TOTALS, g, Some(Report(Updates(batches[n]), k)));
    }
  }

  lemma {:induction false} GatheredStandsFor(batches: seq<seq<Call>>, outputs: seq<seq<Record>>, k: Key)
    requires AllReported(batches, outputs) && !k.start
    ensures StandsFor(Fold(TOTALS, Group(Items(AllRecords(outputs)), k)), AllDurations(batches, k), AllLoss(batches, k))
  {
    if batches != [] {
      var n := |batches| - 1;
      GatheredStandsFor(batches[..n], outputs[..n], k);
      var g, us := NextGroup(batches, outputs, k);
      DurationsSelected(batches[n], k);
      var ds, es := AllDurations(batches[..n], k), DurationsFor(batches[n], k);
      if us == [] {
        assert ds + [] == ds;
      } else {
        RecordIsExact(k, us);
        AddStandsFor(Fold(TOTALS, g), ds, AllLoss(batches[..n], k), RecordOf(k, Fold(BUCKETS, us)), es);
      }
    }
  }

  lemma {:induction false} VariancesNatural(batches: seq<seq<Call>>, outputs: seq<seq<Record>>, k: Key)
    requires AllReported(batches, outputs) && !k.start
    ensures forall o :: o in Group(Items(AllRecords(outputs)), k) ==> o.value.variance >= 0
  {
    if batches != [] {
      var n := |batches| - 1;
      VariancesNatural(batches[..n], outputs[..n], k);
      var g, us := NextGroup(batches, outputs, k);
      DurationsSelected(batches[n], k);
      if us != [] {
        RecordIsExact(k, us);
      }
    }
  }

  lemma {:induction false} M2Natural(g: seq<Item>)
    requires forall o :: o in g ==> Counts(o) && o.value.variance >= 0
    ensures Fold(MERGE, g).m2 >= 0.0
  {
    if g != [] {
      var init, last := g[..|g| - 1], g[|g| - 1];
      assert last in g;
      M2Natural(init);
      var a, r := Fold(MERGE, init), last.value;
      BetweenNatural(a.count as real, r.count as real, (a.count + r.count) as real, a.mean, Over(r.total as real, r.count as real));
      assert r.variance as real * r.count as real >= 0.0;
    }
  }

  /**
    What compaction reports for a key in terms of all durations recorded under it. The variance is exact if and
    only if the flushed records lost no more than truncating the true variance loses.
   */
  lemma GatheredSummary(batches: seq<seq<Call>>, outputs: seq<seq<Record>>, k: Key)
    requires AllReported(batches, outputs) && !k.start
    ensures var rs, ds := Items(AllRecords(outputs)), AllDurations(batches, k);
            && (Group(rs, k) != [] <==> ds != [])
            && (ds != [] ==>
                  var r := Summary(rs, k);
                  && r.count == |ds| && r.total == Sum(ds)
                  && (r.variance == Variance(ds).Floor || r.variance == Variance(ds).Floor - 1)
                  && (r.variance == Variance(ds).Floor <==> AllLoss(batches, k) <= Loss(ds)))
  {
    var rs, ds := Items(AllRecords(outputs)), AllDurations(batches, k);
    var g := Group(rs, k);
    GatheredStandsFor(batches, outputs, k);
    if g != [] {
      FoldCounts(g);
      FoldAgrees(g, false);
      SummaryTotals(rs, k);
      var a, t := Fold(MERGE, g), Fold(TOTALS, g);
      VariancesNatural(batches, outputs, k);
      M2Natural(g);
      OverNatural(a.m2, a.count as real);
      VarianceWithinOne(ds, t.squares, a.mean, a.m2);
    }
  }

  lemma KeptOfParts()
    ensures KeptSquares(4, 2, 0) == 1.0 && KeptSquares(4, 6, 0) == 9.0
    ensures Truncate(Over(10.0 - MeanTimesSum(8, 8), 8.0)) == 0
  {
    OverUnique(2.0, 4.0, 0.5);
    OverUnique(6.0, 4.0, 1.5);
    OverUnique(8.0, 8.0, 1.0);
    OverUnique(2.0, 8.0, 0.25);
  }

  lemma PairTotals(k: Key, r: Record, t: Record)
    requires !k.start && r.key == t.key == k && r.count > 0 && t.count > 0
    ensures Group([Some(r), Some(t)], k) == [Some(r), Some(t)]
    ensures var u := Fold(TOTALS, [Some(r), Some(t)]);
            && u.count == r.count + t.count && u.total == r.total + t.total
            && u.squares == KeptSquares(r.count, r.total, r.variance) + KeptSquares(t.count, t.total, t.variance)
  {
    var o, p: Item := Some(r), Some(t);
    assert [o, p] == [] + [o, p] && [] + [o] == [o];
    GroupEndsWith([], o, p, k);
    FoldNext(TOTALS, [], o);
    FoldNext(TOTALS, [o], p);
  }

  /** Two records of the flushes of `[0, 0, 0, 2]` and `[1, 1, 1, 3]`: merged, their variance is one too small. */
  lemma TruncationCanCostOne(k: Key)
    requires !k.start
    ensures var a, b := [0, 0, 0, 2], [1, 1, 1, 3];
            var r := Record(k, 4, Sum(a), 0, 2, Variance(a).Floor, map[], map[]);
            var t := Record(k, 4, Sum(b), 1, 3, Variance(b).Floor, map[], map[]);
            && Group([Some(r), Some(t)], k) != []
            && Summary([Some(r), Some(t)], k).variance == 0 && Variance(a + b).Floor == 1
  {
    TwoParts();
    var r, t := Record(k, 4, 2, 0, 2, 0, map[], map[]), Record(k, 4, 6, 1, 3, 0, map[], map[]);
    PairTotals(k, r, t);
    SummaryTotals([Some(r), Some(t)], k);
    KeptOfParts();
  }

  // ---------- Minima are natural ----------

  lemma RecordMinNatural(calls: seq<Call>, x: Record)
    requires Listed(Updates(calls), x.key, x) && !x.key.start
    ensures x.min >= 0
  {
  }

  lemma {:induction false} MinsAreNatural(batches: seq<seq<Call>>, outputs: seq<seq<Record>>)
    requires AllReported(batches, outputs)
    ensures NaturalMins(Items(AllRecords(outputs)))
  {
    if batches != [] {
      var n := |batches| - 1;
      MinsAreNatural(batches[..n], outputs[..n]);
      ItemsAppend(AllRecords(outputs[..n]), outputs[n]);
      forall o | o in Items(outputs[n])
        ensures Counts(o) && !o.value.key.start ==> o.value.min >= 0
      {
        if Counts(o) && !o.value.key.start {
          assert o.value in outputs[n];
          RecordMinNatural(batches[n], o.value);
        }
      }
    }
  }
}
