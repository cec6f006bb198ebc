/** The master's split composed with the agents' schedulers. */
module Fleet {
  import opened Wrappers
  import opened BalanceSplit
  import opened Scheduler
  import opened SchedulerRuns

  /** The parameters of a case that every agent gets unchanged. */
  datatype CaseParams = CaseParams(runTime: int, batch: int)

  /** What one agent does: the processors it has and the steps its scheduler took. */
  datatype AgentRun = AgentRun(procs: nat, steps: seq<Step>)

  /** An agent's run over its shard that was not broken off and has nothing left to do. */
  ghost predicate Completed(shard: Shard, run: AgentRun, p: CaseParams) {
    var c := Setup(shard.lo, shard.hi, p.runTime, p.batch, run.procs);
    && c.Some? && RunOf(c.value, run.steps) && Quiet(c.value, EndOf(c.value, run.steps))
    && forall t :: t in run.steps ==> !t.Break?
  }

  /** How often the agent with this shard ran account `id`. */
  ghost function RunsOf(shard: Shard, run: AgentRun, p: CaseParams, id: int): nat
    requires Completed(shard, run, p)
  {
    var c := Setup(shard.lo, shard.hi, p.runTime, p.batch, run.procs).value;
    if Holds(shard, id) then EndOf(c, run.steps).accounts[id - shard.lo].runs else 0
  }

  ghost predicate AllCompleted(shards: seq<Shard>, runs: seq<AgentRun>, p: CaseParams) {
    |runs| == |shards| && forall j :: 0 <= j < |shards| ==> Completed(shards[j], runs[j], p)
  }

  lemma AgentRunsEach(shard: Shard, run: AgentRun, p: CaseParams, id: int)
    requires Completed(shard, run, p)
    ensures RunsOf(shard, run, p, id) == if Holds(shard, id) then EffectiveRunTime(p.runTime) else 0
  {
    if Holds(shard, id) {
      ExactRuns(Setup(shard.lo, shard.hi, p.runTime, p.batch, run.procs).value, run.steps, id - shard.lo);
    }
  }

  function Total(counts: seq<nat>): nat {
    if counts == [] then 0 else Total(counts[..|counts| - 1]) + counts[|counts| - 1]
  }

  /** How often each agent ran account `id`. */
  ghost function CountsOf(shards: seq<Shard>, runs: seq<AgentRun>, p: CaseParams, id: int): (counts: seq<nat>)
    requires AllCompleted(shards, runs, p)
  {
    seq(|shards|, j requires 0 <= j < |shards| =>
      assert Completed(shards[j], runs[j], p); RunsOf(shards[j], runs[j], p, id))
  }

  /** How often the fleet ran account `id`. */
  ghost function FleetRuns(shards: seq<Shard>, runs: seq<AgentRun>, p: CaseParams, id: int): nat
    requires AllCompleted(shards, runs, p)
  {
    Total(CountsOf(shards, runs, p, id))
  }

  lemma {:induction false} TotalOfOne(counts: seq<nat>, j: nat, n: nat)
    requires forall i :: 0 <= i < |counts| ==> counts[i] == if i == j then n else 0
    ensures Total(counts) == if j < |counts| then n else 0
  {
    if counts != [] {
      TotalOfOne(counts[..|counts| - 1], j, n);
    }
  }

  /** Across the fleet, every account of the range runs exactly as often as the case says, and no other runs at all. */
  lemma FleetRunsEveryAccount(shards: seq<Shard>, start: int, end: int, runs: seq<AgentRun>, p: CaseParams, id: int)
    requires Tiles(shards, start, end) && AllCompleted(shards, runs, p)
    ensures FleetRuns(shards, runs, p, id) == if start <= id < end then EffectiveRunTime(p.runTime) else 0
  {
    var j := Partition(shards, start, end, id);
    var holder := if start <= id < end then j else |shards|;
    var counts := CountsOf(shards, runs, p, id);
    forall i | 0 <= i < |counts|
      ensures counts[i] == if i == holder then EffectiveRunTime(p.runTime) else 0
    {
      assert Completed(shards[i], runs[i], p);
      AgentRunsEach(shards[i], runs[i], p, id);
    }
    TotalOfOne(counts, holder, EffectiveRunTime(p.runTime));
  }
}
