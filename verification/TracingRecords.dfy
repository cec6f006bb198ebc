/** Tracing records, their keys and the order they are reported in. */
module TracingRecords {

  /** One aggregate per name, second and kind (started or ended calls). */
  datatype Key = Key(name: string, timestamp: int, start: bool)

  datatype Record = Record(
    key: Key, count: int, total: int, min: int, max: int, variance: int,
    codes: map<int, int>, errors: map<string, int>)

  // ---------- Tallies ----------

  function Get<K>(m: map<K, int>, k: K): int {
    if k in m then m[k] else 0
  }

  /** Adding one tally to another, entry by entry. */
  function AddTally<K>(a: map<K, int>, b: map<K, int>): (r: map<K, int>)
    ensures r.Keys == a.Keys + b.Keys
    ensures forall k :: k in r ==> r[k] == Get(a, k) + Get(b, k)
  {
    map k | k in a.Keys + b.Keys :: Get(a, k) + Get(b, k)
  }

  lemma AddTallySwap<K>(a: map<K, int>, b: map<K, int>, c: map<K, int>)
    ensures AddTally(AddTally(a, b), c) == AddTally(AddTally(a, c), b)
  {
    var l, r := AddTally(AddTally(a, b), c), AddTally(AddTally(a, c), b);
    assert l.Keys == r.Keys;
    assert forall k :: k in l ==> l[k] == Get(a, k) + Get(b, k) + Get(c, k) == r[k];
  }

  lemma AddTallyEmpty<K>(a: map<K, int>)
    ensures AddTally(map[], a) == a
  {
    assert AddTally(map[], a).Keys == a.Keys;
  }

  // ---------- The order of the report ----------

  /** Go's `<` on strings. */
  predicate NameLess(a: string, b: string) {
    b != [] && (a == [] || a[0] < b[0] || (a[0] == b[0] && NameLess(a[1..], b[1..])))
  }

  lemma {:induction false} NameOrder(a: string, b: string)
    ensures NameLess(a, b) || a == b || NameLess(b, a)
    ensures !(NameLess(a, b) && (a == b || NameLess(b, a)))
    decreases |a|
  {
    if a != [] && b != [] && a[0] == b[0] {
      NameOrder(a[1..], b[1..]);
      assert a == [a[0]] + a[1..] && b == [b[0]] + b[1..];
    }
  }

  lemma {:induction false} NameTransitive(a: string, b: string, c: string)
    requires NameLess(a, b) && NameLess(b, c)
    ensures NameLess(a, c)
    decreases |a|
  {
    if a != [] && a[0] == b[0] == c[0] {
      NameTransitive(a[1..], b[1..], c[1..]);
    }
  }

  /** The names agree up to `i`, and there the first one ends or has the lower character. */
  predicate DifferAt(a: string, b: string, i: nat) {
    i <= |a| && i < |b| && a[..i] == b[..i] && (i == |a| || a[i] < b[i])
  }

  /** That order is decided at the first position where the names differ. */
  lemma {:induction false} NameLessMeans(a: string, b: string)
    ensures NameLess(a, b) <==> exists i: nat :: DifferAt(a, b, i)
    decreases |a|
  {
    if NameLess(a, b) {
      if a == [] || a[0] < b[0] {
        assert DifferAt(a, b, 0);
      } else {
        NameLessMeans(a[1..], b[1..]);
        var i: nat :| DifferAt(a[1..], b[1..], i);
        assert a[..i + 1] == [a[0]] + a[1..][..i] && b[..i + 1] == [b[0]] + b[1..][..i];
        assert DifferAt(a, b, i + 1);
      }
    } else if i: nat :| DifferAt(a, b, i) {
      if i > 0 {
        assert a[0] == a[..i][0] == b[..i][0] == b[0];
        assert a[1..][..i - 1] == a[..i][1..] && b[1..][..i - 1] == b[..i][1..];
        assert DifferAt(a[1..], b[1..], i - 1);
        NameLessMeans(a[1..], b[1..]);
      }
      assert false;
    }
  }

  /** The comparison the report is sorted with: second, then name, then ended before started. */
  predicate Before(a: Key, b: Key) {
    if a.timestamp != b.timestamp then a.timestamp < b.timestamp
    else if a.name != b.name then NameLess(a.name, b.name)
    else !a.start
  }

  /** Seconds never fall; within one, names rise; of one name, the ended calls come first. */
  ghost predicate InReportOrder(a: Key, b: Key) {
    && a.timestamp <= b.timestamp
    && (a.timestamp == b.timestamp && a.name != b.name ==> exists i: nat :: DifferAt(a.name, b.name, i))
    && (a.timestamp == b.timestamp && a.name == b.name ==> !a.start && b.start)
  }

  lemma BeforeMeans(a: Key, b: Key)
    requires a != b
    ensures Before(a, b) <==> InReportOrder(a, b)
  {
    NameLessMeans(a.name, b.name);
  }

  /** On distinct keys that comparison is a strict total order. */
  lemma BeforeTotal(a: Key, b: Key)
    requires a != b
    ensures Before(a, b) <==> !Before(b, a)
  {
    NameOrder(a.name, b.name);
  }

  lemma BeforeTransitive(a: Key, b: Key, c: Key)
    requires a != b && b != c && a != c && Before(a, b) && Before(b, c)
    ensures Before(a, c)
  {
    NameOrder(a.name, b.name);
    NameOrder(b.name, c.name);
    NameOrder(a.name, c.name);
    if NameLess(a.name, b.name) && NameLess(b.name, c.name) {
      NameTransitive(a.name, b.name, c.name);
    }
  }

  /** Strictly sorted, hence without repeated keys. */
  predicate Sorted(rs: seq<Record>) {
    forall i, j :: 0 <= i < j < |rs| ==> rs[i].key != rs[j].key && Before(rs[i].key, rs[j].key)
  }

  predicate DistinctKeys(rs: seq<Record>) {
    forall i, j :: 0 <= i < j < |rs| ==> rs[i].key != rs[j].key
  }

  /** Strictly sorted lists of the same records are the same list. */
  lemma {:induction false} SortedUnique(a: seq<Record>, b: seq<Record>)
    requires Sorted(a) && Sorted(b) && (forall r :: r in a <==> r in b)
    ensures a == b
  {
    HasMember(a);
    HasMember(b);
    if a != [] {
      assert a[0] in b;
      assert b[0] in a;
      var i :| 0 <= i < |a| && a[i] == b[0];
      var j :| 0 <= j < |b| && b[j] == a[0];
      if i > 0 && j > 0 {
        BeforeTotal(a[0].key, b[0].key);
      }
      assert a[0] == b[0];
      forall r
        ensures r in a[1..] <==> r in b[1..]
      {
        InTail(a, r);
        InTail(b, r);
      }
      SortedUnique(a[1..], b[1..]);
    }
  }

  lemma HasMember(a: seq<Record>)
    ensures a != [] <==> exists r :: r in a
  {
    assert a != [] ==> a[0] in a;
  }

  lemma InTail(a: seq<Record>, r: Record)
    requires a != [] && Sorted(a)
    ensures r in a[1..] <==> r in a && r != a[0]
  {
    if r in a[1..] {
      var i :| 0 <= i < |a[1..]| && a[1..][i] == r;
      assert a[i + 1] == r;
    }
  }

  // ---------- Sorting ----------

  function Insert(r: Record, rs: seq<Record>): (s: seq<Record>)
    ensures multiset(s) == multiset(rs) + multiset{r}
  {
    if rs == [] || Before(r.key, rs[0].key) then [r] + rs
    else
      assert rs == [rs[0]] + rs[1..];
      [rs[0]] + Insert(r, rs[1..])
  }

  /** `sort.Slice`; any correct sort gives the same list, since keys are distinct. */
  function Sort(rs: seq<Record>): (s: seq<Record>)
    ensures multiset(s) == multiset(rs)
  {
    if rs == [] then []
    else
      assert rs == [rs[0]] + rs[1..];
      Insert(rs[0], Sort(rs[1..]))
  }

  lemma SameMembers(a: seq<Record>, b: seq<Record>, x: Record)
    requires multiset(a) == multiset(b)
    ensures x in a <==> x in b
  {
    assert x in a <==> x in multiset(a);
    assert x in b <==> x in multiset(b);
  }

  lemma {:induction false} InsertSorts(r: Record, rs: seq<Record>)
    requires Sorted(rs) && forall x :: x in rs ==> x.key != r.key
    ensures Sorted(Insert(r, rs))
  {
    if rs != [] {
      var s := Insert(r, rs);
      if Before(r.key, rs[0].key) {
        forall j | 0 < j < |s|
          ensures s[0].key != s[j].key && Before(s[0].key, s[j].key)
        {
          assert s[j] == rs[j - 1] && rs[j - 1] in rs;
          if j > 1 {
            BeforeTransitive(r.key, rs[0].key, rs[j - 1].key);
          }
        }
      } else {
        var tail := Insert(r, rs[1..]);
        InsertSorts(r, rs[1..]);
        BeforeTotal(r.key, rs[0].key);
        forall j | 0 < j < |s|
          ensures s[0].key != s[j].key && Before(s[0].key, s[j].key)
        {
          assert s[j] == tail[j - 1] && tail[j - 1] in tail;
          SameMembers(tail, rs[1..] + [r], tail[j - 1]);
        }
      }
    }
  }

  lemma {:induction false} SortSorts(rs: seq<Record>)
    requires DistinctKeys(rs)
    ensures Sorted(Sort(rs))
  {
    if rs != [] {
      SortSorts(rs[1..]);
      forall x | x in Sort(rs[1..])
        ensures x.key != rs[0].key
      {
        SameMembers(Sort(rs[1..]), rs[1..], x);
        var i :| 0 <= i < |rs[1..]| && rs[1..][i] == x;
        assert rs[i + 1] == x;
      }
      InsertSorts(rs[0], Sort(rs[1..]));
    }
  }
}
