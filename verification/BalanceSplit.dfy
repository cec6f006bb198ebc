/** How the master splits an account range and a rate over its agents. */
module BalanceSplit {
  import opened DivMod

  /** What one agent is given: accounts `[lo, hi)` and its share of the rate. */
  datatype Shard = Shard(agent: nat, lo: int, hi: int, qps: real)

  /** Go's integer division, which truncates toward zero. */
  function TruncDiv(a: int, b: nat): int
    requires b > 0
  {
    if a >= 0 then a / b else -((-a) / b)
  }

  function PerAgent(start: int, end: int, agents: nat): int
    requires agents > 0
  {
    TruncDiv(end - start + agents - 1, agents)
  }

  function ShareQPS(qps: real, agents: nat): real
    requires agents > 0
  {
    if qps > 0.0 then qps / agents as real else qps
  }

  /** The shards are non-empty and follow one another from `start` to `end`, one per leading agent. */
  ghost predicate Tiles(shards: seq<Shard>, start: int, end: int) {
    && (forall j :: 0 <= j < |shards| ==> shards[j].agent == j && shards[j].lo < shards[j].hi)
    && (forall i, j :: 0 <= i && j == i + 1 < |shards| ==> shards[i].hi == shards[j].lo)
    && (if shards == [] then end <= start else shards[0].lo == start && shards[|shards| - 1].hi == end)
  }

  /** How many accounts a shard holds. */
  function Size(s: Shard): int {
    s.hi - s.lo
  }

  /**
   * No shard holds a whole account more than an equal part of the range, all but the last are as large as the first,
   * and as many shards of that size as there are agents would cover the range.
   */
  ghost predicate Balanced(shards: seq<Shard>, total: int, agents: nat) {
    forall j :: 0 <= j < |shards| ==>
      && agents * Size(shards[j]) < total + agents
      && Size(shards[j]) <= Size(shards[0])
      && (j < |shards| - 1 ==> Size(shards[j]) == Size(shards[0]))
      && total <= agents * Size(shards[0])
  }

  /** Every shard has an equal part of a positive rate; any other rate, which sets no limit, is passed on. */
  ghost predicate Shared(shards: seq<Shard>, qps: real, agents: nat) {
    forall j :: 0 <= j < |shards| ==>
      if qps > 0.0 then shards[j].qps * agents as real == qps else shards[j].qps == qps
  }

  /** The balance branch of `distributeSingleCase`. */
  method Split(start: int, end: int, qps: real, agents: nat) returns (shards: seq<Shard>)
    requires agents > 0
    ensures Tiles(shards, start, end) && |shards| <= agents
    ensures shards == [] <==> end <= start
    ensures Balanced(shards, end - start, agents)
    ensures Shared(shards, qps, agents)
  {
    CeilingCovers(end - start, agents);
    shards := Cut(start, end, PerAgent(start, end, agents), ShareQPS(qps, agents), agents);
    if shards != [] {
      EqualParts(shards, start, end, PerAgent(start, end, agents), agents);
    }
  }

  /** Shards of the per-agent count are equal parts. */
  lemma EqualParts(shards: seq<Shard>, start: int, end: int, perAgent: int, agents: nat)
    requires agents > 0 && Tiles(shards, start, end) && shards != [] && start < end
    requires end - start <= agents * perAgent < end - start + agents
    requires forall j :: 0 <= j < |shards| ==> Size(shards[j]) <= perAgent
    requires forall j :: 0 <= j < |shards| - 1 ==> Size(shards[j]) == perAgent
    ensures Balanced(shards, end - start, agents)
  {
    forall j | 0 <= j < |shards|
      ensures agents * Size(shards[j]) < end - start + agents
    {
      TimesMonotone(agents, Size(shards[j]), perAgent);
    }
    if |shards| == 1 {
      assert Size(shards[0]) == end - start;
      TimesMonotone(Size(shards[0]), 1, agents);
    }
  }

  /** Where the part of agent `j` begins, if the range reaches that far. */
  function Mark(start: int, perAgent: int, j: nat): int {
    start + j * perAgent
  }

  lemma MarkNext(start: int, perAgent: int, j: nat)
    ensures Mark(start, perAgent, j + 1) == Mark(start, perAgent, j) + perAgent
  {
  }

  /** The shards are cut at the marks, the last one possibly short. */
  ghost predicate AtMarks(shards: seq<Shard>, start: int, end: int, perAgent: int, share: real) {
    forall j: nat :: j < |shards| ==>
      shards[j] == PartOf(j, Mark(start, perAgent, j), end, perAgent, share) && Size(shards[j]) > 0
  }

  function PartOf(j: nat, lo: int, end: int, perAgent: int, share: real): Shard {
    Shard(j, lo, if lo + perAgent > end then end else lo + perAgent, share)
  }

  /** The loop over the agents. */
  method Cut(start: int, end: int, perAgent: int, share: real, agents: nat) returns (shards: seq<Shard>)
    requires start < end ==> 1 <= perAgent && end - start <= agents * perAgent
    requires end <= start ==> perAgent <= 0
    ensures Tiles(shards, start, end) && |shards| <= agents
    ensures shards == [] <==> end <= start
    ensures forall j :: 0 <= j < |shards| ==> Size(shards[j]) <= perAgent && shards[j].qps == share
    ensures forall j :: 0 <= j < |shards| - 1 ==> Size(shards[j]) == perAgent
  {
    shards := [];
    for i := 0 to agents
      invariant |shards| <= i && AtMarks(shards, start, end, perAgent, share)
      invariant start < end ==> |shards| == i || end <= Mark(start, perAgent, |shards|) <= Mark(start, perAgent, i)
      invariant end <= start ==> shards == []
    {
      MarkNext(start, perAgent, i);
      var lo := start + i * perAgent;
      var hi := if lo + perAgent > end then end else lo + perAgent;
      if lo < hi {
        shards := shards + [Shard(i, lo, hi, share)];
      }
    }
    if start < end {
      MarksTile(shards, start, end, perAgent, share);
    }
  }

  lemma MarksTile(shards: seq<Shard>, start: int, end: int, perAgent: int, share: real)
    requires start < end && perAgent >= 1 && AtMarks(shards, start, end, perAgent, share)
    requires end <= Mark(start, perAgent, |shards|)
    ensures shards != [] && Tiles(shards, start, end)
    ensures forall j :: 0 <= j < |shards| ==> Size(shards[j]) <= perAgent && shards[j].qps == share
    ensures forall j :: 0 <= j < |shards| - 1 ==> Size(shards[j]) == perAgent
  {
    forall j: nat | j < |shards|
      ensures shards[j].agent == j && shards[j].lo < shards[j].hi && shards[j].qps == share
      ensures Size(shards[j]) <= perAgent && (j + 1 < |shards| ==> shards[j].hi == shards[j + 1].lo)
      ensures j + 1 < |shards| ==> Size(shards[j]) == perAgent
      ensures j + 1 == |shards| ==> shards[j].hi == end
    {
      MarkNext(start, perAgent, j);
      if j + 1 < |shards| {
        assert Size(shards[j + 1]) > 0;
      }
    }
  }

  /** The per-agent count times the agents covers the range, barely, and is not positive for an empty one. */
  lemma CeilingCovers(total: int, agents: nat)
    requires agents > 0
    ensures total > 0 ==>
              var q := TruncDiv(total + agents - 1, agents); 1 <= q && total <= agents * q < total + agents
    ensures total <= 0 ==> TruncDiv(total + agents - 1, agents) <= 0
  {
    var a := total + agents - 1;
    if total > 0 {
      var q := a / agents;
      assert a == agents * q + a % agents;
      assert q <= 0 ==> agents * q <= 0;
    } else if a >= 0 {
      DivModUnique(a, agents, 0, a);
    }
  }

  // ---------- What the split means ----------

  lemma {:induction false} TilesGrow(shards: seq<Shard>, start: int, end: int, i: nat, j: nat)
    requires Tiles(shards, start, end) && i < j < |shards|
    ensures shards[i].hi <= shards[j].lo
    decreases j - i
  {
    if i + 1 < j {
      TilesGrow(shards, start, end, i, j - 1);
    }
  }

  ghost predicate Holds(s: Shard, id: int) {
    s.lo <= id < s.hi
  }

  lemma {:induction false} ShardOf(shards: seq<Shard>, start: int, end: int, id: int, k: nat) returns (j: nat)
    requires Tiles(shards, start, end) && start <= id && k < |shards| && id < shards[k].hi
    ensures j <= k && Holds(shards[j], id)
  {
    assert shards[0].lo == start;
    if shards[k].lo <= id {
      j := k;
    } else {
      j := ShardOf(shards, start, end, id, k - 1);
    }
  }

  /** Every account of the range is in exactly one shard, and no other account is in any. */
  lemma Partition(shards: seq<Shard>, start: int, end: int, id: int) returns (j: nat)
    requires Tiles(shards, start, end)
    ensures start <= id < end <==> exists i :: 0 <= i < |shards| && Holds(shards[i], id)
    ensures start <= id < end ==>
              j < |shards| && Holds(shards[j], id) && forall i :: 0 <= i < |shards| && i != j ==> !Holds(shards[i], id)
  {
    j := 0;
    assert shards != [] ==> shards[0].lo == start && shards[|shards| - 1].hi == end;
    if start <= id < end {
      j := ShardOf(shards, start, end, id, |shards| - 1);
    }
    forall i | 0 <= i < |shards| && Holds(shards[i], id)
      ensures start <= id < end
      ensures start <= id < end ==> i == j
    {
      if i > 0 {
        TilesGrow(shards, start, end, 0, i);
      }
      if i < |shards| - 1 {
        TilesGrow(shards, start, end, i, |shards| - 1);
      }
      if i < j {
        TilesGrow(shards, start, end, i, j);
      } else if j < i {
        TilesGrow(shards, start, end, j, i);
      }
    }
  }

  function TotalQPS(shards: seq<Shard>): real {
    if shards == [] then 0.0 else TotalQPS(shards[..|shards| - 1]) + shards[|shards| - 1].qps
  }

  lemma {:induction false} TotalIsProduct(shards: seq<Shard>, each: real)
    requires forall j :: 0 <= j < |shards| ==> shards[j].qps == each
    ensures TotalQPS(shards) == each * |shards| as real
  {
    if shards != [] {
      TotalIsProduct(shards[..|shards| - 1], each);
    }
  }

  /** The rate every shard has. */
  lemma EqualRates(shards: seq<Shard>, qps: real, agents: nat) returns (each: real)
    requires agents > 0 && qps > 0.0 && Shared(shards, qps, agents)
    ensures each * agents as real == qps && forall j :: 0 <= j < |shards| ==> shards[j].qps == each
  {
    var n := agents as real;
    each := qps / n;
    forall j | 0 <= j < |shards|
      ensures shards[j].qps == each
    {
      SamePart(shards[j].qps, each, n);
    }
  }

  lemma SamePart(x: real, y: real, n: real)
    requires n > 0.0 && x * n == y * n
    ensures x == y
  {
    assert (x - y) * n == 0.0;
  }

  /** Fewer parts than there are make less than the whole. */
  lemma PartsBelow(each: real, k: nat, n: nat, part: real, whole: real)
    requires k <= n && part == each * k as real && whole == each * n as real && whole > 0.0
    ensures part <= whole && (part == whole <==> k == n)
  {
    var x, y := k as real, n as real;
    assert each > 0.0;
    assert whole - part == each * (y - x);
    assert x < y ==> each * (y - x) > 0.0;
  }

  /** The fleet never exceeds the target rate, and reaches it exactly when no agent is skipped. */
  lemma RateKept(shards: seq<Shard>, qps: real, agents: nat)
    requires 0 < agents && |shards| <= agents && qps > 0.0
    requires Shared(shards, qps, agents)
    ensures TotalQPS(shards) <= qps
    ensures TotalQPS(shards) == qps <==> |shards| == agents
  {
    var each := EqualRates(shards, qps, agents);
    TotalIsProduct(shards, each);
    PartsBelow(each, |shards|, agents, TotalQPS(shards), qps);
  }
}
