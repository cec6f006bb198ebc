/** Compacting twice changes nothing. */
module TracingLaws {
  import opened Wrappers
  import opened DivMod
  import opened Grouping
  import opened Moments
  import opened TracingRecords
  import opened TracingCompact
  import opened TracingTotals

  function Items(rs: seq<Record>): (items: seq<Item>)
    ensures |items| == |rs| && forall i :: 0 <= i < |rs| ==> items[i] == Some(rs[i])
  {
    seq(|rs|, i requires 0 <= i < |rs| => Some(rs[i]))
  }

  /** Records as compaction emits them. */
  predicate Plain(r: Record) {
    && r.count > 0 && r.min >= 0 && r.max >= 0
    && (r.key.start ==> r.total == 0 && r.min == 0 && r.max == 0 && r.variance == 0)
  }

  lemma SummaryPlain(rs: seq<Item>, k: Key)
    requires Group(rs, k) != []
    ensures Plain(Summary(rs, k))
  {
    SummaryTotals(rs, k);
    if !k.start {
      GreatestKept(Group(rs, k));
    }
  }

  lemma KeptAlone(n: nat, s: int, v: int)
    requires n > 0
    ensures Truncate(Over(KeptSquares(n, s, v) - MeanTimesSum(n, s), n as real)) == v
  {
    assert KeptSquares(n, s, v) - MeanTimesSum(n, s) == v as real * n as real;
    OverUnique(v as real * n as real, n as real, v as real);
    assert Truncate(v as real) == v;
  }

  /** A plain record alone is emitted as it is. */
  lemma PlainAlone(r: Record)
    requires Plain(r)
    ensures Add(ZERO, Some(r)).count > 0 && EmitTotals(r.key, Add(ZERO, Some(r))) == r
  {
    AddTallyEmpty(r.codes);
    AddTallyEmpty(r.errors);
    if !r.key.start {
      KeptAlone(r.count, r.total, r.variance);
    }
  }

  lemma AloneSummary(out: seq<Record>, i: nat)
    requires i < |out| && DistinctKeys(out) && Plain(out[i])
    ensures Group(Items(out), out[i].key) != [] && Summary(Items(out), out[i].key) == out[i]
  {
    var items, r := Items(out), out[i];
    SelectAlone(MERGE, items, i);
    SummaryTotals(items, r.key);
    assert [Some(r)] == [] + [Some(r)];
    FoldNext(TOTALS, [], Some(r));
    PlainAlone(r);
  }

  /** Compacting a compacted list changes nothing. */
  lemma Idempotent(rs: seq<Item>, out: seq<Record>, again: seq<Record>)
    requires IsCompaction(rs, out) && IsCompaction(Items(out), again)
    ensures again == out
  {
    var items := Items(out);
    forall x
      ensures x in again <==> x in out
    {
      if i :| 0 <= i < |out| && out[i].key == x.key {
        assert out[i] in out;
        SummaryPlain(rs, out[i].key);
        AloneSummary(out, i);
        assert x in again <==> x == out[i];
      } else {
        SelectNone(MERGE, items, x.key);
      }
    }
    SortedUnique(again, out);
  }
}
