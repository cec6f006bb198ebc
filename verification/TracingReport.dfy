/** The final report of a fleet in terms of the calls that its tracers recorded. */
module TracingReport {
  import opened Wrappers
  import opened Grouping
  import opened Moments
  import opened TracingRecords
  import opened TracingCompact
  import opened TracingTotals
  import opened TracingLaws
  import opened TracingOrder
  import opened TracingPipeline
  import opened Tracer
  import opened MemoryTracer

  // ---------- Extremes of durations ----------

  predicate LeastOf(ds: seq<int>, m: int) {
    m in ds && forall d :: d in ds ==> m <= d
  }

  predicate GreatestOf(ds: seq<int>, m: int) {
    m in ds && forall d :: d in ds ==> d <= m
  }

  predicate Naturals(ds: seq<int>) {
    forall d :: d in ds ==> d >= 0
  }

  predicate SomeNatural(ds: seq<int>) {
    exists d :: d in ds && d >= 0
  }

  /** The greatest duration, but not less than zero. */
  function Peak(ds: seq<int>): (p: nat) {
    if ds == [] then 0
    else
      var rest, last := Peak(ds[..|ds| - 1]), ds[|ds| - 1];
      if last > rest then last else rest
  }

  lemma {:induction false} PeakBounds(ds: seq<int>)
    ensures forall d :: d in ds ==> d <= Peak(ds)
    ensures Peak(ds) > 0 ==> Peak(ds) in ds
  {
    if ds != [] {
      PeakBounds(ds[..|ds| - 1]);
      assert ds == ds[..|ds| - 1] + [ds[|ds| - 1]];
    }
  }

  lemma PeakIsGreatest(ds: seq<int>)
    ensures GreatestOf(ds, Peak(ds)) <==> SomeNatural(ds)
  {
    PeakBounds(ds);
    if SomeNatural(ds) {
      var d :| d in ds && d >= 0;
      assert d <= Peak(ds);
    }
  }

  lemma {:induction false} PeakAppend(a: seq<int>, b: seq<int>)
    ensures Peak(a + b) == if Peak(b) > Peak(a) then Peak(b) else Peak(a)
    decreases |b|
  {
    if b == [] {
      assert a + b == a;
    } else {
      assert (a + b)[..|a + b| - 1] == a + b[..|b| - 1];
      PeakAppend(a, b[..|b| - 1]);
    }
  }

  lemma LeastAppend(a: seq<int>, b: seq<int>, m: int, l: int)
    requires LeastOf(b, l) && (a != [] ==> LeastOf(a, m))
    ensures LeastOf(a + b, if a == [] || l < m then l else m)
  {
    assert forall d :: d in a + b <==> d in a || d in b;
  }

  // ---------- One bucket ----------

  /** How many calls ended with `code`, and how many failed with `message`. */
  function CodeTally(g: seq<Update>, code: int): nat {
    if g == [] then 0
    else CodeTally(g[..|g| - 1], code) + if g[|g| - 1].Ended? && g[|g| - 1].code == code then 1 else 0
  }

  predicate FailedWith(u: Update, message: string) {
    u.Ended? && u.message == message && message != "" && u.code != 0
  }

  function ErrorTally(g: seq<Update>, message: string): nat {
    if g == [] then 0 else ErrorTally(g[..|g| - 1], message) + if FailedWith(g[|g| - 1], message) then 1 else 0
  }

  lemma {:induction false} TalliesAppend(a: seq<Update>, b: seq<Update>, code: int, message: string)
    ensures CodeTally(a + b, code) == CodeTally(a, code) + CodeTally(b, code)
    ensures ErrorTally(a + b, message) == ErrorTally(a, message) + ErrorTally(b, message)
    decreases |b|
  {
    if b == [] {
      assert a + b == a;
    } else {
      assert (a + b)[..|a + b| - 1] == a + b[..|b| - 1];
      TalliesAppend(a, b[..|b| - 1], code, message);
    }
  }

  lemma {:induction false} BucketTallies(g: seq<Update>, code: int, message: string)
    requires AllEnded(g)
    ensures Get(Fold(BUCKETS, g).codes, code) == CodeTally(g, code)
    ensures Get(Fold(BUCKETS, g).errors, message) == ErrorTally(g, message)
  {
    if g != [] {
      assert g[|g| - 1] in g;
      BucketTallies(g[..|g| - 1], code, message);
    }
  }

  lemma {:induction false} BucketExtremes(g: seq<Update>)
    requires AllEnded(g)
    ensures Fold(BUCKETS, g).max == Peak(DurationsOf(g))
    ensures g == [] ==> Fold(BUCKETS, g).min == -1
    ensures g != [] && Naturals(DurationsOf(g)) ==> LeastOf(DurationsOf(g), Fold(BUCKETS, g).min)
  {
    if g != [] {
      var init, last := g[..|g| - 1], g[|g| - 1];
      assert last in g;
      BucketExtremes(init);
      var ds, d := DurationsOf(init), last.duration;
      assert (ds + [d])[..|ds|] == ds;
      if Naturals(ds + [d]) {
        assert forall e :: e in ds ==> e in ds + [d];
        assert d in ds + [d];
        LeastAppend(ds, [d], Fold(BUCKETS, init).min, d);
      }
    }
  }

  // ---------- All flushes ----------

  /** All updates of a key, flush by flush. */
  function AllUpdates(batches: seq<seq<Call>>, k: Key): seq<Update> {
    if batches == [] then []
    else AllUpdates(batches[..|batches| - 1], k) + Select(BUCKETS, Updates(batches[|batches| - 1]), k)
  }

  /** What the totals of a key say beyond count, total and squares. */
  ghost predicate Gathers(t: Totals, us: seq<Update>, ds: seq<int>, code: int, message: string) {
    && t.max == Peak(ds) && (ds == [] ==> t.min == -1)
    && (ds != [] && Naturals(ds) ==> LeastOf(ds, t.min))
    && Get(t.codes, code) == CodeTally(us, code) && Get(t.errors, message) == ErrorTally(us, message)
  }

  lemma AddTallies(t: Totals, us: seq<Update>, k: Key, g: seq<Update>, code: int, message: string)
    requires Get(t.codes, code) == CodeTally(us, code) && Get(t.errors, message) == ErrorTally(us, message)
    requires !k.start && AllEnded(g) && g != [] && Fold(BUCKETS, g).count > 0
    ensures var u := Add(t, Some(RecordOf(k, Fold(BUCKETS, g))));
            Get(u.codes, code) == CodeTally(us + g, code) && Get(u.errors, message) == ErrorTally(us + g, message)
  {
    TalliesAppend(us, g, code, message);
    BucketTallies(g, code, message);
  }

  lemma AddExtremes(t: Totals, ds: seq<int>, r: Record, es: seq<int>, m: int)
    requires t.max == Peak(ds) && (ds == [] ==> t.min == -1) && (ds != [] && Naturals(ds) ==> LeastOf(ds, t.min))
    requires r.count > 0 && !r.key.start && es != [] && r.max == Peak(es) && r.min == (if m >= 0 then m else 0)
    requires Naturals(es) ==> LeastOf(es, m)
    ensures var u := Add(t, Some(r)); u.max == Peak(ds + es) && (Naturals(ds + es) ==> LeastOf(ds + es, u.min))
  {
    PeakAppend(ds, es);
    if Naturals(ds + es) {
      assert forall d :: (d in ds ==> d in ds + es) && (d in es ==> d in ds + es);
      LeastAppend(ds, es, t.min, m);
    }
  }

  lemma AddGathers(t: Totals, us: seq<Update>, ds: seq<int>, k: Key, g: seq<Update>, code: int, message: string)
    requires Gathers(t, us, ds, code, message) && !k.start && AllEnded(g) && g != [] && Fold(BUCKETS, g).count > 0
    ensures Gathers(Add(t, Some(RecordOf(k, Fold(BUCKETS, g)))), us + g, ds + DurationsOf(g), code, message)
  {
    AddTallies(t, us, k, g, code, message);
    BucketExtremes(g);
    AddExtremes(t, ds, RecordOf(k, Fold(BUCKETS, g)), DurationsOf(g), Fold(BUCKETS, g).min);
  }

  lemma {:induction false} AllGather(batches: seq<seq<Call>>, outputs: seq<seq<Record>>, k: Key, code: int, message: string)
    requires AllReported(batches, outputs) && !k.start
    ensures Gathers(Fold(TOTALS, Group(Items(AllRecords(outputs)), k)), AllUpdates(batches, k), AllDurations(batches, k),
                    code, message)
  {
    if batches != [] {
      var n := |batches| - 1;
      AllGather(batches[..n], outputs[..n], k, code, message);
      var g, us := NextGroup(batches, outputs, k);
      DurationsSelected(batches[n], k);
      if us == [] {
        assert AllUpdates(batches[..n], k) + us == AllUpdates(batches[..n], k);
        assert AllDurations(batches[..n], k) + [] == AllDurations(batches[..n], k);
      } else {
        AddGathers(Fold(TOTALS, g), AllUpdates(batches[..n], k), AllDurations(batches[..n], k), k, us, code, message);
      }
    }
  }

  /** Whatever the key, its records count its updates. */
  lemma {:induction false} AllCounted(batches: seq<seq<Call>>, outputs: seq<seq<Record>>, k: Key)
    requires AllReported(batches, outputs)
    ensures Fold(TOTALS, Group(Items(AllRecords(outputs)), k)).count == |AllUpdates(batches, k)|
  {
    if batches != [] {
      var n := |batches| - 1;
      AllCounted(batches[..n], outputs[..n], k);
      var g, us := NextGroup(batches, outputs, k);
    }
  }

  // ---------- In terms of the calls ----------

  lemma {:induction false} UpdatesAppend(a: seq<Call>, b: seq<Call>)
    ensures Updates(a + b) == Updates(a) + Updates(b)
    decreases |b|
  {
    if b == [] {
      assert a + b == a;
    } else {
      assert (a + b)[..|a + b| - 1] == a + b[..|b| - 1];
      UpdatesAppend(a, b[..|b| - 1]);
    }
  }

  lemma {:induction false} AllUpdatesFlat(batches: seq<seq<Call>>, k: Key)
    ensures AllUpdates(batches, k) == Select(BUCKETS, Updates(Flatten(batches)), k)
  {
    if batches != [] {
      var n := |batches| - 1;
      AllUpdatesFlat(batches[..n], k);
      UpdatesAppend(Flatten(batches[..n]), batches[n]);
      SelectAppend(BUCKETS, Updates(Flatten(batches[..n])), Updates(batches[n]), k);
    }
  }

  lemma {:induction false} DurationsAppend(a: seq<Call>, b: seq<Call>, k: Key)
    ensures DurationsFor(a + b, k) == DurationsFor(a, k) + DurationsFor(b, k)
    decreases |b|
  {
    if b == [] {
      assert a + b == a;
    } else {
      assert (a + b)[..|a + b| - 1] == a + b[..|b| - 1];
      DurationsAppend(a, b[..|b| - 1], k);
    }
  }

  lemma {:induction false} AllDurationsFlat(batches: seq<seq<Call>>, k: Key)
    ensures AllDurations(batches, k) == DurationsFor(Flatten(batches), k)
  {
    if batches != [] {
      var n := |batches| - 1;
      AllDurationsFlat(batches[..n], k);
      DurationsAppend(Flatten(batches[..n]), batches[n], k);
    }
  }

  /** How many calls satisfy `p`. */
  function CountCalls(calls: seq<Call>, p: Call -> bool): nat {
    if calls == [] then 0 else CountCalls(calls[..|calls| - 1], p) + if p(calls[|calls| - 1]) then 1 else 0
  }

  function StartedIn(k: Key): Call -> bool {
    (c: Call) => Key(c.name, c.startSec, true) == k
  }

  function EndedWith(k: Key, code: int): Call -> bool {
    (c: Call) => Key(c.name, c.endSec, false) == k && c.code == code
  }

  function FailedIn(k: Key, message: string): Call -> bool {
    (c: Call) => Key(c.name, c.endSec, false) == k && c.message == message && message != "" && c.code != 0
  }

  lemma {:induction false} TalliesOfCalls(calls: seq<Call>, k: Key, code: int, message: string)
    requires !k.start
    ensures CodeTally(Select(BUCKETS, Updates(calls), k), code) == CountCalls(calls, EndedWith(k, code))
    ensures ErrorTally(Select(BUCKETS, Updates(calls), k), message) == CountCalls(calls, FailedIn(k, message))
  {
    if calls != [] {
      var init, last := calls[..|calls| - 1], calls[|calls| - 1];
      TalliesOfCalls(init, k, code, message);
      SelectAppend(BUCKETS, Updates(init), UpdatesOf(last), k);
      UpdatesSelected(last, k);
      TalliesAppend(Select(BUCKETS, Updates(init), k), Select(BUCKETS, UpdatesOf(last), k), code, message);
      var u := UpdatesOf(last)[0];
      assert [u][..0] == [];
      assert CodeTally([u], code) == (if u.code == code then 1 else 0);
      assert ErrorTally([u], message) == (if FailedWith(u, message) then 1 else 0);
    }
  }

  lemma StartsSelected(c: Call, k: Key)
    requires k.start
    ensures |Select(BUCKETS, UpdatesOf(c), k)| == if StartedIn(k)(c) then 1 else 0
  {
    var us := UpdatesOf(c);
    assert us == [] + [us[0]] + [us[1]];
    SelectNext(BUCKETS, [], us[0], k);
    SelectNext(BUCKETS, [us[0]], us[1], k);
  }

  lemma {:induction false} StartsOfCalls(calls: seq<Call>, k: Key)
    requires k.start
    ensures |Select(BUCKETS, Updates(calls), k)| == CountCalls(calls, StartedIn(k))
  {
    if calls != [] {
      var init, last := calls[..|calls| - 1], calls[|calls| - 1];
      StartsOfCalls(init, k);
      SelectAppend(BUCKETS, Updates(init), UpdatesOf(last), k);
      StartsSelected(last, k);
    }
  }

  // ---------- The fleet ----------

  /** A tracer's whole run: what was done to it, and what its flushes gave. */
  datatype Agent = Agent(ops: seq<Op>, outputs: seq<seq<Record>>)

  /** It was never reset, its last flush left nothing behind, and each flush reported its batch, as `Run` ensures. */
  ghost predicate Ran(a: Agent) {
    && (forall o :: o in a.ops ==> !o.Reset?) && Pending(a.ops) == []
    && AllReported(Batches(a.ops), a.outputs)
  }

  function FleetCalls(agents: seq<Agent>): seq<Call> {
    if agents == [] then [] else FleetCalls(agents[..|agents| - 1]) + Recorded(agents[|agents| - 1].ops)
  }

  function FleetBatches(agents: seq<Agent>): seq<seq<Call>> {
    if agents == [] then [] else FleetBatches(agents[..|agents| - 1]) + Batches(agents[|agents| - 1].ops)
  }

  function FleetOutputs(agents: seq<Agent>): seq<seq<Record>> {
    if agents == [] then [] else FleetOutputs(agents[..|agents| - 1]) + agents[|agents| - 1].outputs
  }

  lemma {:induction false} FlattenAppend(a: seq<seq<Call>>, b: seq<seq<Call>>)
    ensures Flatten(a + b) == Flatten(a) + Flatten(b)
    decreases |b|
  {
    if b == [] {
      assert a + b == a;
    } else {
      assert (a + b)[..|a + b| - 1] == a + b[..|b| - 1];
      FlattenAppend(a, b[..|b| - 1]);
    }
  }

  /** Every call recorded anywhere is in exactly one batch, and every batch is reported. */
  lemma {:induction false} FleetFlushes(agents: seq<Agent>)
    requires forall i :: 0 <= i < |agents| ==> Ran(agents[i])
    ensures Flatten(FleetBatches(agents)) == FleetCalls(agents)
    ensures AllReported(FleetBatches(agents), FleetOutputs(agents))
  {
    if agents != [] {
      var n := |agents| - 1;
      FleetFlushes(agents[..n]);
      assert Ran(agents[n]);
      EveryCallOnce(agents[n].ops);
      assert Flatten(Batches(agents[n].ops)) + [] == Flatten(Batches(agents[n].ops));
      FlattenAppend(FleetBatches(agents[..n]), Batches(agents[n].ops));
    }
  }

  /** What a report has to say of the calls that ended under `k`; `exact` is when the variance is the true one. */
  ghost predicate Tells(x: Record, calls: seq<Call>, k: Key, code: int, message: string, exact: bool)
    requires DurationsFor(calls, k) != []
  {
    var ds := DurationsFor(calls, k);
    && x.key == k && x.count == |ds| && x.total == Sum(ds)
    && (x.variance == Variance(ds).Floor || x.variance == Variance(ds).Floor - 1)
    && (x.variance == Variance(ds).Floor <==> exact)
    && (LeastOf(ds, x.min) <==> Naturals(ds)) && (GreatestOf(ds, x.max) <==> SomeNatural(ds))
    && Get(x.codes, code) == CountCalls(calls, EndedWith(k, code))
    && Get(x.errors, message) == CountCalls(calls, FailedIn(k, message))
  }

  lemma SummaryTells(batches: seq<seq<Call>>, outputs: seq<seq<Record>>, k: Key, code: int, message: string)
    requires AllReported(batches, outputs) && !k.start
    ensures var rs, calls := Items(AllRecords(outputs)), Flatten(batches);
            && (Group(rs, k) != [] <==> DurationsFor(calls, k) != [])
            && (Group(rs, k) != [] ==>
                  Tells(Summary(rs, k), calls, k, code, message, AllLoss(batches, k) <= Loss(DurationsFor(calls, k))))
  {
    var rs, calls := Items(AllRecords(outputs)), Flatten(batches);
    GatheredSummary(batches, outputs, k);
    AllDurationsFlat(batches, k);
    if Group(rs, k) != [] {
      AllGather(batches, outputs, k, code, message);
      AllUpdatesFlat(batches, k);
      TalliesOfCalls(calls, k, code, message);
      SummaryTotals(rs, k);
      PeakIsGreatest(DurationsFor(calls, k));
    }
  }

  lemma StartsTold(batches: seq<seq<Call>>, outputs: seq<seq<Record>>, k: Key)
    requires AllReported(batches, outputs) && k.start
    ensures var rs, n := Items(AllRecords(outputs)), CountCalls(Flatten(batches), StartedIn(k));
            && (Group(rs, k) != [] <==> n > 0) && (n > 0 ==> Summary(rs, k).count == n)
  {
    var rs := Items(AllRecords(outputs));
    AllCounted(batches, outputs, k);
    AllUpdatesFlat(batches, k);
    StartsOfCalls(Flatten(batches), k);
    if Group(rs, k) != [] {
      SummaryTotals(rs, k);
    }
  }

  /**
    However the calls are spread over agents and flushes, and in whatever order their records arrive, the report has
    for each key with calls one record. For a second in which calls ended it counts every call once, adds up every
    duration, gives the population variance floored or one less, the extremes and all tallies; for a second in which
    calls started it counts them.
   */
  lemma ReportIsFaithful(agents: seq<Agent>, arrived: seq<Item>, report: seq<Record>, k: Key, code: int, message: string)
    requires forall i :: 0 <= i < |agents| ==> Ran(agents[i])
    requires multiset(arrived) == multiset(Items(AllRecords(FleetOutputs(agents)))) && IsCompaction(arrived, report)
    ensures var calls := FleetCalls(agents);
            var n, ds := CountCalls(calls, StartedIn(k)), DurationsFor(calls, k);
            var exact := AllLoss(FleetBatches(agents), k) <= Loss(ds);
            if k.start then
              if n == 0 then forall x :: x in report ==> x.key != k
              else exists x :: x in report && x.key == k && x.count == n
            else if ds == [] then forall x :: x in report ==> x.key != k
            else exists x :: x in report && Tells(x, calls, k, code, message, exact)
  {
    FleetFlushes(agents);
    var batches, outputs := FleetBatches(agents), FleetOutputs(agents);
    var rs := Items(AllRecords(outputs));
    MinsAreNatural(batches, outputs);
    assert Unmixed(rs, k);
    SummaryPermutes(arrived, rs, k);
    if k.start {
      StartsTold(batches, outputs, k);
    } else {
      SummaryTells(batches, outputs, k, code, message);
    }
    if Group(arrived, k) != [] {
      assert Summary(arrived, k) in report;
    }
  }
}
