/** Merging records of the same key, whichever agents and flushes they come from. */
module TracingCompact {
  import opened Wrappers
  import opened DivMod
  import opened Grouping
  import opened Moments
  import opened TracingRecords

  datatype Acc = Acc(
    count: nat, total: int, min: int, max: int, mean: real, m2: real,
    codes: map<int, int>, errors: map<string, int>)

  const EMPTY: Acc := Acc(0, 0, -1, 0, 0.0, 0.0, map[], map[])

  /** Records may be missing, and those that count nothing are passed over. */
  type Item = Option<Record>

  predicate Counts(o: Item) {
    o.Some? && o.value.count > 0
  }

  function KeyOf(o: Item): Key {
    if o.Some? then o.value.key else Key("", 0, false)
  }

  /** The merged mean. */
  function MergedMean(a: Acc, r: Record): real
    requires r.count > 0
  {
    PooledMean(r.count as real, (a.count + r.count) as real, a.mean, Over(r.total as real, r.count as real))
  }

  /** The merged sum of squared deviations. */
  function MergedM2(a: Acc, r: Record): real
    requires r.count > 0
  {
    a.m2 + r.variance as real * r.count as real
    + Between(a.count as real, r.count as real, (a.count + r.count) as real, a.mean, Over(r.total as real, r.count as real))
  }

  /** One turn of the merging loop. */
  function Absorb(a: Acc, o: Item): (b: Acc) {
    if !Counts(o) then a
    else
      var r := o.value;
      var merged := if r.key.start then a else a.(
          mean := MergedMean(a, r),
          m2 := MergedM2(a, r),
          total := a.total + r.total,
          min := if a.min < 0 || r.min < a.min then r.min else a.min,
          max := if r.max > a.max then r.max else a.max);
      merged.(count := a.count + r.count,
              codes := AddTally(a.codes, r.codes), errors := AddTally(a.errors, r.errors))
  }

  /** The record that is emitted for a key. */
  function Emit(k: Key, a: Acc): (r: Record)
    requires a.count > 0
  {
    if k.start then Record(k, a.count, 0, 0, 0, 0, a.codes, a.errors)
    else Record(k, a.count, a.total, if a.min >= 0 then a.min else 0, a.max,
                Truncate(Over(a.m2, a.count as real)), a.codes, a.errors)
  }

  const MERGE: Reader<Item, Key, Acc> := Reader(Counts, KeyOf, EMPTY, Absorb)

  /** The records of key `k` that count something, in input order. */
  function Group(rs: seq<Item>, k: Key): (g: seq<Item>)
    ensures forall o :: o in g ==> o in rs && Counts(o) && KeyOf(o) == k
  {
    Select(MERGE, rs, k)
  }

  lemma {:induction false} FoldCounts(g: seq<Item>)
    requires g != [] && forall o :: o in g ==> Counts(o)
    ensures Fold(MERGE, g).count > 0
  {
    assert Counts(g[|g| - 1]);
  }

  /** What the result says about key `k`. */
  function Summary(rs: seq<Item>, k: Key): (r: Record)
    requires Group(rs, k) != []
    ensures r.key == k
  {
    FoldCounts(Group(rs, k));
    Emit(k, Fold(MERGE, Group(rs, k)))
  }

  /** One record per key that occurs, strictly sorted: the result is fully determined by this. */
  ghost predicate IsCompaction(rs: seq<Item>, out: seq<Record>) {
    && Sorted(out)
    && forall x :: x in out <==> Group(rs, x.key) != [] && x == Summary(rs, x.key)
  }

  lemma CompactionUnique(rs: seq<Item>, a: seq<Record>, b: seq<Record>)
    requires IsCompaction(rs, a) && IsCompaction(rs, b)
    ensures a == b
  {
    SortedUnique(a, b);
  }

  /** One emitted record per key, in the order of the keys. */
  ghost predicate Emitted(rs: seq<Item>, ks: seq<Key>, out: seq<Record>) {
    |out| == |ks| && forall i :: 0 <= i < |ks| ==> Group(rs, ks[i]) != [] && out[i] == Summary(rs, ks[i])
  }

  lemma EmittedSorts(rs: seq<Item>, out: seq<Record>)
    requires Emitted(rs, Keys(MERGE, rs), out)
    ensures IsCompaction(rs, Sort(out))
  {
    var ks := Keys(MERGE, rs);
    KeysDistinct(MERGE, rs);
    assert forall i :: 0 <= i < |ks| ==> out[i].key == ks[i];
    SortSorts(out);
    forall x
      ensures x in Sort(out) <==> Group(rs, x.key) != [] && x == Summary(rs, x.key)
    {
      SameMembers(Sort(out), out, x);
      KeysSelected(MERGE, rs, x.key);
      if Group(rs, x.key) != [] && x == Summary(rs, x.key) {
        var i :| 0 <= i < |ks| && ks[i] == x.key;
        assert out[i] == x;
      }
    }
  }

  /** The accumulator of a key emits its summary. */
  lemma EmitOne(rs: seq<Item>, gs: Groups<Key, Acc>, k: Key)
    requires Grouped(MERGE, rs, gs) && k in gs.order
    ensures k in gs.accs && gs.accs[k].count > 0
    ensures Group(rs, k) != [] && Emit(k, gs.accs[k]) == Summary(rs, k)
  {
    KeysSelected(MERGE, rs, k);
    FoldCounts(Group(rs, k));
  }

  lemma EmitNext(rs: seq<Item>, ks: seq<Key>, i: nat, out: seq<Record>, r: Record)
    requires i < |ks| && Emitted(rs, ks[..i], out) && Group(rs, ks[i]) != [] && r == Summary(rs, ks[i])
    ensures Emitted(rs, ks[..i + 1], out + [r])
  {
  }

  /** `CompactTracingsBySecond`. */
  method Compact(records: seq<Item>) returns (result: seq<Record>)
    ensures IsCompaction(records, result)
    ensures forall i, j :: 0 <= i < j < |result| ==> InReportOrder(result[i].key, result[j].key)
  {
    var groups := GroupAll(MERGE, records);
    PutAllGroups(MERGE, records);
    result := [];
    for i := 0 to |groups.order|
      invariant Emitted(records, groups.order[..i], result)
    {
      var k := groups.order[i];
      EmitOne(records, groups, k);
      var r := Emit(k, groups.accs[k]);
      EmitNext(records, groups.order, i, result, r);
      result := result + [r];
    }
    assert groups.order[..|groups.order|] == groups.order;
    EmittedSorts(records, result);
    result := Sort(result);
    forall i, j | 0 <= i < j < |result|
      ensures InReportOrder(result[i].key, result[j].key)
    {
      BeforeMeans(result[i].key, result[j].key);
    }
  }
}
