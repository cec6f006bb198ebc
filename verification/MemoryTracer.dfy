/** The sharded double buffer around the banks. */
module MemoryTracer {
  import opened Masks
  import opened Grouping
  import opened TracingRecords
  import opened Tracer

  /** Two banks, one of which takes new records. */
  datatype Shard = Shard(active: nat, banks: seq<Bank>) {
    predicate Shaped() {
      active < 2 && |banks| == 2
    }
  }

  /** The updates of the calls whose name belongs to shard `i`. */
  function UpdatesFor(pick: string -> nat, i: nat, calls: seq<Call>): seq<Update> {
    if calls == [] then []
    else
      var init, last := UpdatesFor(pick, i, calls[..|calls| - 1]), calls[|calls| - 1];
      if pick(last.name) == i then init + UpdatesOf(last) else init
  }

  /** The active bank holds the pending calls of the shard; the other bank is empty. */
  ghost predicate ShardHolds(pick: string -> nat, i: nat, shard: Shard, pending: seq<Call>) {
    && shard.Shaped()
    && shard.banks[shard.active] == Filled(UpdatesFor(pick, i, pending))
    && shard.banks[1 - shard.active] == EMPTY_BANK
  }

  lemma SelectForeign(c: Call, k: Key)
    requires k.name != c.name
    ensures Select(BUCKETS, UpdatesOf(c), k) == []
  {
    SelectNone(BUCKETS, UpdatesOf(c), k);
  }

  /** All updates of a key are in the shard its name belongs to. */
  lemma {:induction false} SelectShard(pick: string -> nat, i: nat, calls: seq<Call>, k: Key)
    ensures Select(BUCKETS, UpdatesFor(pick, i, calls), k)
            == if pick(k.name) == i then Select(BUCKETS, Updates(calls), k) else []
  {
    if calls != [] {
      var init, last := calls[..|calls| - 1], calls[|calls| - 1];
      SelectShard(pick, i, init, k);
      SelectAppend(BUCKETS, Updates(init), UpdatesOf(last), k);
      if pick(last.name) == i {
        SelectAppend(BUCKETS, UpdatesFor(pick, i, init), UpdatesOf(last), k);
      }
      if k.name != last.name {
        SelectForeign(last, k);
      }
    }
  }

  /** The harvest of the shards below `n`: every key of theirs once, with all its calls. */
  ghost predicate Harvested(pick: string -> nat, n: nat, pending: seq<Call>, rs: seq<Record>) {
    && DistinctKeys(rs)
    && forall x :: x in rs <==> pick(x.key.name) < n && Listed(Updates(pending), x.key, x)
  }

  lemma ListedInShard(pick: string -> nat, n: nat, pending: seq<Call>, x: Record)
    ensures Listed(UpdatesFor(pick, n, pending), x.key, x)
            <==> pick(x.key.name) == n && Listed(Updates(pending), x.key, x)
  {
    SelectShard(pick, n, pending, x.key);
  }

  lemma HarvestNext(pick: string -> nat, n: nat, pending: seq<Call>, rs: seq<Record>)
    requires Harvested(pick, n, pending, rs)
    ensures var bank := Filled(UpdatesFor(pick, n, pending));
            Harvested(pick, n + 1, pending, rs + Snapshot(bank, |bank.order|))
  {
    var us := UpdatesFor(pick, n, pending);
    var more := Snapshot(Filled(us), |Filled(us).order|);
    SnapshotReports(us);
    forall x
      ensures x in more <==> pick(x.key.name) == n && Listed(Updates(pending), x.key, x)
    {
      ListedInShard(pick, n, pending, x);
    }
    assert forall i :: 0 <= i < |rs| ==> rs[i] in rs;
    assert forall i :: 0 <= i < |more| ==> more[i] in more;
  }

  /** Both updates of a call go to the active bank. */
  function AddTo(bank: Bank, c: Call): Bank {
    Put(BUCKETS, Put(BUCKETS, bank, UpdatesOf(c)[0]), UpdatesOf(c)[1])
  }

  lemma AddToFilled(us: seq<Update>, c: Call)
    ensures AddTo(Filled(us), c) == Filled(us + UpdatesOf(c))
  {
    var ended, began := UpdatesOf(c)[0], UpdatesOf(c)[1];
    PutAllNext(BUCKETS, us, ended);
    PutAllNext(BUCKETS, us + [ended], began);
    assert us + [ended] + [began] == us + UpdatesOf(c);
  }

  lemma UpdatesForNext(pick: string -> nat, i: nat, calls: seq<Call>, c: Call)
    ensures UpdatesFor(pick, i, calls + [c])
            == if pick(c.name) == i then UpdatesFor(pick, i, calls) + UpdatesOf(c) else UpdatesFor(pick, i, calls)
  {
    assert (calls + [c])[..|calls|] == calls;
  }

  /** Between the two loops of a flush: the filled bank is the inactive one. */
  ghost predicate Swapped(pick: string -> nat, i: nat, shard: Shard, calls: seq<Call>) {
    && shard.Shaped()
    && shard.banks[1 - shard.active] == Filled(UpdatesFor(pick, i, calls))
    && shard.banks[shard.active] == EMPTY_BANK
  }

  /** Every shard holds its share of the calls pending. */
  ghost predicate AllHold(pick: string -> nat, shards: seq<Shard>, pending: seq<Call>) {
    forall i :: 0 <= i < |shards| ==> ShardHolds(pick, i, shards[i], pending)
  }

  /** The shards from `i` on are still to be harvested, those below are empty. */
  ghost predicate HalfFlushed(pick: string -> nat, shards: seq<Shard>, i: nat, pending: seq<Call>) {
    && (forall j :: i <= j < |shards| ==> Swapped(pick, j, shards[j], pending))
    && (forall j :: 0 <= j < i && j < |shards| ==> ShardHolds(pick, j, shards[j], []))
  }

  lemma MasksAll(hash: string -> nat, p: nat, k: nat)
    requires p == Pow2(k)
    ensures forall name :: And(hash(name), p - 1) == hash(name) % p
  {
    forall name
      ensures And(hash(name), p - 1) == hash(name) % p
    {
      MaskIsModulo(hash(name), k);
    }
  }

  lemma AddKeeps(pick: string -> nat, shards: seq<Shard>, pending: seq<Call>, c: Call)
    requires AllHold(pick, shards, pending) && pick(c.name) < |shards|
    ensures var i := pick(c.name);
            var shard := shards[i];
            && shard.Shaped()
            && AllHold(pick, shards[i := shard.(banks := shard.banks[shard.active := AddTo(shard.banks[shard.active], c)])],
                       pending + [c])
  {
    var i := pick(c.name);
    assert ShardHolds(pick, i, shards[i], pending);
    AddToFilled(UpdatesFor(pick, i, pending), c);
    forall j | 0 <= j < |shards|
      ensures UpdatesFor(pick, j, pending + [c])
              == if j == i then UpdatesFor(pick, j, pending) + UpdatesOf(c) else UpdatesFor(pick, j, pending)
    {
      UpdatesForNext(pick, j, pending, c);
    }
  }

  lemma HarvestStep(pick: string -> nat, shards: seq<Shard>, i: nat, pending: seq<Call>)
    requires HalfFlushed(pick, shards, i, pending) && i < |shards|
    ensures var shard := shards[i];
            && shard.Shaped() && shard.banks[1 - shard.active] == Filled(UpdatesFor(pick, i, pending))
            && HalfFlushed(pick, shards[i := shard.(banks := shard.banks[1 - shard.active := EMPTY_BANK])], i + 1, pending)
  {
    assert Swapped(pick, i, shards[i], pending);
  }

  class MemoryTracer {
    var shards: seq<Shard>
    const pick: string -> nat
    ghost var pending: seq<Call>

    ghost predicate Valid()
      reads this
    {
      (forall name :: pick(name) < |shards|) && AllHold(pick, shards, pending)
    }

    /** `NewMemoryTracerWithShards`: at least one shard, rounded up to a power of two; names are masked. */
    constructor (shardCount: int, hash: string -> nat)
      ensures Valid() && pending == []
      ensures shardCount <= |shards| && (|shards| == 1 || |shards| / 2 < shardCount)
      ensures forall name :: pick(name) == hash(name) % |shards|
    {
      var wanted := if shardCount <= 0 then 1 else shardCount;
      var p, k := RoundUp(wanted);
      MasksAll(hash, p, k);
      pick := name => And(hash(name), p - 1);
      shards := seq(p, _ => Shard(0, [EMPTY_BANK, EMPTY_BANK]));
      pending := [];
    }

    /** `addRecord`. */
    method AddRecord(c: Call)
      requires Valid()
      modifies this
      ensures Valid() && pending == old(pending) + [c] && |shards| == |old(shards)|
    {
      AddKeeps(pick, shards, pending, c);
      var i := pick(c.name);
      var shard := shards[i];
      var bank := shard.banks[shard.active];
      shards := shards[i := shard.(banks := shard.banks[shard.active := AddTo(bank, c)])];
      pending := pending + [c];
    }

    /** The first loop of `Flush`: make the empty bank of every shard the active one. */
    method SwapBanks()
      requires Valid()
      modifies this`shards
      ensures |shards| == |old(shards)| && HalfFlushed(pick, shards, 0, pending)
    {
      var n := |shards|;
      for i := 0 to n
        invariant |shards| == n
        invariant forall j :: i <= j < n ==> ShardHolds(pick, j, shards[j], pending)
        invariant forall j :: 0 <= j < i ==> Swapped(pick, j, shards[j], pending)
      {
        var shard := shards[i];
        var newIdx := 1 - shard.active;
        shards := shards[i := Shard(newIdx, shard.banks[newIdx := EMPTY_BANK])];
      }
    }

    /** `Flush`: swap the banks of every shard, then harvest the old ones. */
    method Flush() returns (rs: seq<Record>)
      requires Valid()
      modifies this
      ensures Valid() && pending == [] && |shards| == |old(shards)|
      ensures Reports(Updates(old(pending)), rs)
    {
      SwapBanks();
      var n := |shards|;
      rs := [];
      for i := 0 to n
        invariant |shards| == n && pending == old(pending)
        invariant HalfFlushed(pick, shards, i, pending) && Harvested(pick, i, pending, rs)
      {
        HarvestStep(pick, shards, i, pending);
        HarvestNext(pick, i, pending, rs);
        var shard := shards[i];
        var oldIdx := 1 - shard.active;
        var bank := shard.banks[oldIdx];
        rs := rs + Snapshot(bank, |bank.order|);
        shards := shards[i := shard.(banks := shard.banks[oldIdx := EMPTY_BANK])];
      }
      pending := [];
    }

    /** `Reset`. */
    method Reset()
      requires Valid()
      modifies this
      ensures Valid() && pending == [] && |shards| == |old(shards)|
    {
      var n := |shards|;
      for i := 0 to n
        invariant |shards| == n
        invariant forall j :: i <= j < n ==> shards[j].Shaped()
        invariant forall j :: 0 <= j < i ==> ShardHolds(pick, j, shards[j], [])
      {
        shards := shards[i := shards[i].(banks := [EMPTY_BANK, EMPTY_BANK])];
      }
      pending := [];
    }
  }

  // ---------- Whole runs ----------

  datatype Op = Log(call: Call) | Flush | Reset

  /** The calls recorded since the last flush or reset. */
  function Pending(ops: seq<Op>): seq<Call> {
    if ops == [] then []
    else
      match ops[|ops| - 1]
      case Log(c) => Pending(ops[..|ops| - 1]) + [c]
      case _ => []
  }

  /** The calls that each flush takes. */
  function Batches(ops: seq<Op>): seq<seq<Call>> {
    if ops == [] then []
    else
      var init := ops[..|ops| - 1];
      if ops[|ops| - 1].Flush? then Batches(init) + [Pending(init)] else Batches(init)
  }

  /** All recorded calls, and those that a reset threw away. */
  function Recorded(ops: seq<Op>): seq<Call> {
    if ops == [] then []
    else Recorded(ops[..|ops| - 1]) + match ops[|ops| - 1] case Log(c) => [c] case _ => []
  }

  function Flatten(batches: seq<seq<Call>>): seq<Call> {
    if batches == [] then [] else Flatten(batches[..|batches| - 1]) + batches[|batches| - 1]
  }

  /** Without resets, every recorded call is in exactly one batch or still pending, in order. */
  lemma {:induction false} EveryCallOnce(ops: seq<Op>)
    requires forall o :: o in ops ==> !o.Reset?
    ensures Flatten(Batches(ops)) + Pending(ops) == Recorded(ops)
  {
    if ops != [] {
      var init, last := ops[..|ops| - 1], ops[|ops| - 1];
      assert last in ops;
      EveryCallOnce(init);
      if last.Flush? {
        var b := Batches(init);
        assert (b + [Pending(init)])[..|b|] == b;
      }
    }
  }

  /** Each flush so far has reported its batch. */
  ghost predicate AllReported(batches: seq<seq<Call>>, outputs: seq<seq<Record>>) {
    |outputs| == |batches| && forall j :: 0 <= j < |outputs| ==> Reports(Updates(batches[j]), outputs[j])
  }

  /** What one more operation does to the calls pending and the batches. */
  lemma OpsNext(ops: seq<Op>, i: nat)
    requires i < |ops|
    ensures Pending(ops[..i + 1]) == if ops[i].Log? then Pending(ops[..i]) + [ops[i].call] else []
    ensures Batches(ops[..i + 1]) == Batches(ops[..i]) + if ops[i].Flush? then [Pending(ops[..i])] else []
  {
    assert ops[..i + 1][..i] == ops[..i];
  }

  /** Any interleaving of records, flushes and resets: each flush reports exactly the calls of its batch. */
  method Run(shardCount: int, hash: string -> nat, ops: seq<Op>) returns (outputs: seq<seq<Record>>)
    ensures AllReported(Batches(ops), outputs)
  {
    var tracer := new MemoryTracer(shardCount, hash);
    outputs := [];
    for i := 0 to |ops|
      invariant fresh(tracer) && tracer.Valid() && tracer.pending == Pending(ops[..i])
      invariant AllReported(Batches(ops[..i]), outputs)
    {
      OpsNext(ops, i);
      match ops[i]
      case Log(c) =>
        tracer.AddRecord(c);
      case Reset =>
        tracer.Reset();
      case Flush =>
        var rs := tracer.Flush();
        outputs := outputs + [rs];
    }
    assert ops[..|ops|] == ops;
  }
}
