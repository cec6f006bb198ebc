/** The in-memory tracer: per-name shards, each with two banks of buckets that a flush swaps. */
module Tracer {
  import opened DivMod
  import opened Grouping
  import opened Moments
  import opened TracingRecords

  /** One finished call as it is recorded. */
  datatype Call = Call(name: string, startSec: int, endSec: int, duration: int, code: int, message: string)

  /** A call updates two buckets: one for the second it ended in, one for the second it started in. */
  datatype Update = Ended(key: Key, duration: int, code: int, message: string) | Began(key: Key)

  function UpdatesOf(c: Call): seq<Update> {
    [Ended(Key(c.name, c.endSec, false), c.duration, c.code, c.message), Began(Key(c.name, c.startSec, true))]
  }

  function Updates(calls: seq<Call>): seq<Update> {
    if calls == [] then [] else Updates(calls[..|calls| - 1]) + UpdatesOf(calls[|calls| - 1])
  }

  // ---------- Buckets ----------

  datatype Bucket = Bucket(
    count: nat, total: int, min: int, max: int, mean: real, m2: real,
    codes: map<int, int>, errors: map<string, int>)

  const FRESH: Bucket := Bucket(0, 0, -1, 0, 0.0, 0.0, map[], map[])

  function Bump<K>(m: map<K, int>, k: K): map<K, int> {
    m[k := Get(m, k) + 1]
  }

  /** `updateEnd`, or the plain count of a start bucket. */
  function Apply(b: Bucket, u: Update): (r: Bucket) {
    match u
    case Began(_) => b.(count := b.count + 1)
    case Ended(_, duration, code, message) =>
      var mean := NextMean(b.count + 1, b.mean, duration);
      Bucket(b.count + 1, b.total + duration,
             if b.min < 0 || duration < b.min then duration else b.min,
             if duration > b.max then duration else b.max,
             mean, NextDeviation(b.mean, mean, b.m2, duration),
             Bump(b.codes, code),
             if message != "" && code != 0 then Bump(b.errors, message) else b.errors)
  }

  function KeyOfUpdate(u: Update): Key {
    u.key
  }

  const BUCKETS: Reader<Update, Key, Bucket> := Reader((u: Update) => true, KeyOfUpdate, FRESH, Apply)

  // ---------- Banks ----------

  type Bank = Groups<Key, Bucket>

  const EMPTY_BANK: Bank := Groups(map[], [])

  /** The record a bucket is reported as. */
  function RecordOf(k: Key, b: Bucket): (r: Record)
    requires b.count > 0
  {
    if k.start then Record(k, b.count, 0, 0, 0, 0, map[], map[])
    else Record(k, b.count, b.total, if b.min >= 0 then b.min else 0, b.max,
                if b.count > 1 then Truncate(Over(b.m2, b.count as real)) else 0, b.codes, b.errors)
  }

  /** `snapshot`: the buckets that count something, in the order they were created. */
  function Snapshot(bank: Bank, n: nat): (rs: seq<Record>)
    requires n <= |bank.order|
  {
    if n == 0 then []
    else
      var k := bank.order[n - 1];
      Snapshot(bank, n - 1)
      + if k in bank.accs && bank.accs[k].count > 0 then [RecordOf(k, bank.accs[k])] else []
  }

  /** The bank after a list of updates to an empty one. */
  function Filled(us: seq<Update>): Bank {
    PutAll(BUCKETS, us)
  }

  lemma {:induction false} FoldNotEmpty(g: seq<Update>)
    ensures Fold(BUCKETS, g).count == |g|
  {
    if g != [] {
      FoldNotEmpty(g[..|g| - 1]);
    }
  }

  ghost function Report(us: seq<Update>, k: Key): (r: Record)
    requires Select(BUCKETS, us, k) != []
    ensures r.key == k
  {
    FoldNotEmpty(Select(BUCKETS, us, k));
    RecordOf(k, Fold(BUCKETS, Select(BUCKETS, us, k)))
  }

  /** The record carries the fold of all updates of the key. */
  ghost predicate Listed(us: seq<Update>, k: Key, r: Record) {
    Select(BUCKETS, us, k) != [] && r == Report(us, k)
  }

  /** The records of a list of updates: one per key that occurs. */
  ghost predicate Reports(us: seq<Update>, rs: seq<Record>) {
    && DistinctKeys(rs)
    && forall x :: x in rs <==> Listed(us, x.key, x)
  }

  lemma BankEntry(bank: Bank, us: seq<Update>, k: Key)
    requires Grouped(BUCKETS, us, bank) && k in bank.order
    ensures k in bank.accs && bank.accs[k].count > 0 && Listed(us, k, RecordOf(k, bank.accs[k]))
  {
    KeysSelected(BUCKETS, us, k);
    FoldNotEmpty(Select(BUCKETS, us, k));
  }

  /** Whatever holds of every bucket's record holds of the snapshot, position by position. */
  lemma {:induction false} SnapshotAll(bank: Bank, n: nat, p: (Key, Record) -> bool)
    requires n <= |bank.order|
    requires forall k :: k in bank.order ==>
               k in bank.accs && bank.accs[k].count > 0 && p(k, RecordOf(k, bank.accs[k]))
    ensures |Snapshot(bank, n)| == n
    ensures forall i :: 0 <= i < n ==> p(bank.order[i], Snapshot(bank, n)[i])
  {
    if n > 0 {
      SnapshotAll(bank, n - 1, p);
      var k := bank.order[n - 1];
      assert k in bank.order;
      assert Snapshot(bank, n) == Snapshot(bank, n - 1) + [RecordOf(k, bank.accs[k])];
    }
  }

  /** Position by position, a snapshot reports the keys in the order they were created. */
  lemma SnapshotListed(us: seq<Update>) returns (ks: seq<Key>, rs: seq<Record>)
    ensures ks == Keys(BUCKETS, us) && rs == Snapshot(Filled(us), |Filled(us).order|) && |ks| == |rs|
    ensures forall i :: 0 <= i < |ks| ==> Listed(us, ks[i], rs[i])
  {
    var bank := Filled(us);
    PutAllGroups(BUCKETS, us);
    ks, rs := bank.order, Snapshot(bank, |bank.order|);
    forall k | k in bank.order
      ensures k in bank.accs && bank.accs[k].count > 0 && Listed(us, k, RecordOf(k, bank.accs[k]))
    {
      BankEntry(bank, us, k);
    }
    SnapshotAll(bank, |bank.order|, (k, r) => Listed(us, k, r));
  }

  lemma SnapshotReports(us: seq<Update>)
    ensures Reports(us, Snapshot(Filled(us), |Filled(us).order|))
  {
    var ks, rs := SnapshotListed(us);
    KeysDistinct(BUCKETS, us);
    assert forall i :: 0 <= i < |ks| ==> rs[i].key == ks[i];
    forall x
      ensures x in rs <==> Listed(us, x.key, x)
    {
      KeysSelected(BUCKETS, us, x.key);
      if Listed(us, x.key, x) {
        var i :| 0 <= i < |ks| && ks[i] == x.key;
        assert Listed(us, ks[i], rs[i]);
      }
    }
  }
}
