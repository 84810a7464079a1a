/** The simulation driver (`orchestrator/orchestrator.py`): the orchestrator's slot cursor,
    the metrics log it appends to once per slot, and the slot loop of a run.  The emulated
    network is reduced to the number of switches it holds, which `collect_metrics` reads. */
module Orchestrator {
  import opened Slots
  import opened Topology

  /** One metrics record (the wall-clock `timestamp` is not modelled). */
  datatype Metrics = Metrics(slot: int, numNodes: int, numDomains: nat, remappings: nat)

  /** The state a run moves through: the manager's cursor, the orchestrator's cursor and the
      metrics log. */
  datatype RunState = RunState(managerSlot: int, currentSlot: int, log: seq<Metrics>)

  // ---------------------------------------------------------------------------------------
  // Counting domains.

  /** The distinct domain values above 0 among the first `k` entries. */
  function PositiveDomains(s: Slot, k: nat): set<int>
    requires k <= |s|
  {
    set i | 0 <= i < k && DomainOr0(s[i]) > 0 :: DomainOr0(s[i])
  }

  /** The nonzero-domain count is the number of positive domains that group at least one
      node, and never exceeds the number of entries. */
  lemma DomainCountMatchesGroups(s: Slot)
    ensures PositiveDomains(s, |s|) == set d | d in Groups(s, |s|) && d > 0
    ensures |PositiveDomains(s, |s|)| <= |s|
  {
    var n := |s|;
    GroupsCharacterised(s, n);
    forall d | d in Groups(s, n) && d > 0
      ensures d in PositiveDomains(s, n)
    {
      var id := Groups(s, n)[d][0];
      assert Listed(s, n, d, id);
      assert DomainOr0(s[id - 1]) == d;
    }
    forall d | d in PositiveDomains(s, n)
      ensures d in Groups(s, n)
    {
      var i :| 0 <= i < n && DomainOr0(s[i]) > 0 && DomainOr0(s[i]) == d;
      assert Listed(s, n, d, i + 1);
    }
    ImageBound(s, n);
  }

  lemma {:induction false} ImageBound(s: Slot, k: nat)
    requires k <= |s|
    ensures |PositiveDomains(s, k)| <= k
  {
    if k > 0 {
      ImageBound(s, k - 1);
      var d := DomainOr0(s[k - 1]);
      assert PositiveDomains(s, k) == PositiveDomains(s, k - 1) + (if d > 0 then {d} else {});
    }
  }

  /** The `unique_domains` loop of `collect_metrics`. */
  method CountDomains(s: Slot) returns (count: nat)
    ensures count == |PositiveDomains(s, |s|)|
  {
    var unique: set<int> := {};
    var idx := 0;
    while idx < |s|
      invariant 0 <= idx <= |s|
      invariant unique == PositiveDomains(s, idx)
    {
      var domain := DomainOr0(s[idx]);
      if domain > 0 {
        unique := unique + {domain};
      }
      assert PositiveDomains(s, idx + 1) == PositiveDomains(s, idx) + (if domain > 0 then {domain} else {});
      idx := idx + 1;
    }
    return |unique|;
  }

  // ---------------------------------------------------------------------------------------
  // One step of a run, as a function of the run state.

  /** The manager's cursor after one `get_next_slot_changes` that did not raise. */
  function AfterCall(ch: Option<Changes>, c: int): int {
    if ch.Some? then c + 1 else c
  }

  /** `collect_metrics(slot)`: the slot's entries (Python indexing), the distinct positive
      domains, and for a slot after the first one more report from the manager. */
  function CollectStep(ts: seq<Slot>, st: RunState, slot: int, numNodes: int): Result<RunState>
    requires st.managerSlot >= 1
  {
    match PyIndex(ts, slot - 1)
    case Err(e) => Err(e)
    case Ok(s) =>
      var domains := |PositiveDomains(s, |s|)|;
      if slot > 1 then
        match NextChanges(ts, st.managerSlot)
        case Err(e) => Err(e)
        case Ok(ch) =>
          var remaps := if ch.Some? then |ch.value.remappings| else 0;
          Ok(st.(managerSlot := AfterCall(ch, st.managerSlot),
                 log := st.log + [Metrics(slot, numNodes, domains, remaps)]))
      else Ok(st.(log := st.log + [Metrics(slot, numNodes, domains, 0)]))
  }

  /** `transition_to_next_slot`: `false` once the orchestrator is at `num_slots`; otherwise
      one more report from the manager (only logged) and the orchestrator moves on. */
  function TransitionStep(ts: seq<Slot>, st: RunState, numSlots: int): Result<(bool, RunState)>
    requires st.managerSlot >= 1
  {
    if st.currentSlot >= numSlots then Ok((false, st))
    else
      match NextChanges(ts, st.managerSlot)
      case Err(e) => Err(e)
      case Ok(ch) => Ok((true, st.(managerSlot := AfterCall(ch, st.managerSlot), currentSlot := st.currentSlot + 1)))
  }

  /** The slot loop of `run_simulation` from slot `slot` on. */
  function LoopFrom(ts: seq<Slot>, st: RunState, slot: int, numSlots: int, numNodes: int): Result<RunState>
    requires st.managerSlot >= 1
    decreases numSlots + 1 - slot
  {
    if slot > numSlots then Ok(st)
    else
      match TransitionStep(ts, st, numSlots)
      case Err(e) => Err(e)
      case Ok((go, st1)) =>
        if !go then Ok(st1)
        else
          match CollectStep(ts, st1, slot, numNodes)
          case Err(e) => Err(e)
          case Ok(st2) => LoopFrom(ts, st2, slot + 1, numSlots, numNodes)
  }

  /** `run_simulation` with the network steps abstracted: collect slot 1, then the loop. */
  function Run(ts: seq<Slot>, st: RunState, numSlots: int, numNodes: int): Result<RunState>
    requires st.managerSlot >= 1
  {
    match CollectStep(ts, st, 1, numNodes)
    case Err(e) => Err(e)
    case Ok(st1) => LoopFrom(ts, st1, 2, numSlots, numNodes)
  }

  // ---------------------------------------------------------------------------------------
  // The orchestrator.

  class SAGINOrchestrator {
    const timeSlots: seq<Slot>
    const topologyManager: DynamicTopologyManager
    const numSlots: int
    var metrics: seq<Metrics>
    var currentSlot: int

    ghost predicate Valid()
      reads this, topologyManager
    {
      topologyManager.Valid() && topologyManager.timeSlots == timeSlots
    }

    function State(): RunState
      reads this, topologyManager
    {
      RunState(topologyManager.currentSlot, currentSlot, metrics)
    }

    /** `__init__` with the topology data already parsed. */
    constructor (timeSlots: seq<Slot>, numSlots: int)
      ensures Valid() && fresh(topologyManager)
      ensures this.timeSlots == timeSlots && this.numSlots == numSlots
      ensures State() == RunState(1, 1, [])
    {
      this.timeSlots := timeSlots;
      this.numSlots := numSlots;
      topologyManager := new DynamicTopologyManager(timeSlots);
      metrics := [];
      currentSlot := 1;
    }

    /** `collect_metrics(slot)`, with `len(self.net.switches)` passed in as `numNodes`. */
    method CollectMetrics(slot: int, numNodes: int) returns (r: Result<Metrics>)
      requires Valid()
      modifies this`metrics, topologyManager
      ensures Valid()
      ensures var step := CollectStep(timeSlots, old(State()), slot, numNodes);
        && (r.Ok? <==> step.Ok?)
        && (r.Err? ==> r.error == step.error && State() == old(State()))
        && (r.Ok? ==> State() == step.value && metrics == old(metrics) + [r.value])
    {
      var slotData := PyIndex(timeSlots, slot - 1);
      if slotData.Err? {
        return Err(slotData.error);
      }
      var numDomains := CountDomains(slotData.value);
      var remappings := 0;
      if slot > 1 {
        var changes := topologyManager.GetNextSlotChanges();
        if changes.Err? {
          return Err(changes.error);
        }
        if changes.value.Some? {
          remappings := |changes.value.value.remappings|;
        }
      }
      var record := Metrics(slot, numNodes, numDomains, remappings);
      metrics := metrics + [record];
      return Ok(record);
    }

    /** `transition_to_next_slot`. */
    method TransitionToNextSlot() returns (r: Result<bool>)
      requires Valid()
      modifies this`currentSlot, topologyManager
      ensures Valid()
      ensures var step := TransitionStep(timeSlots, old(State()), numSlots);
        && (r.Ok? <==> step.Ok?)
        && (r.Err? ==> r.error == step.error && State() == old(State()))
        && (r.Ok? ==> r.value == step.value.0 && State() == step.value.1)
    {
      if currentSlot >= numSlots {
        return Ok(false);
      }
      var nextSlot := currentSlot + 1;
      var changes := topologyManager.GetNextSlotChanges();
      if changes.Err? {
        return Err(changes.error);
      }
      currentSlot := nextSlot;
      return Ok(true);
    }

    /** The slot loop of `run_simulation`, with `setup_network`, the sleeps and the clean-up
        left out and the network's switch count passed in. */
    method RunSimulation(numNodes: int) returns (r: Outcome)
      requires Valid()
      modifies this`metrics, this`currentSlot, topologyManager
      ensures Valid()
      ensures var run := Run(timeSlots, old(State()), numSlots, numNodes);
        && (r.Pass? <==> run.Ok?)
        && (r.Fail? ==> r.error == run.error)
        && (r.Pass? ==> State() == run.value)
    {
      var first := CollectMetrics(1, numNodes);
      if first.Err? {
        return Fail(first.error);
      }
      ghost var target := Run(timeSlots, old(State()), numSlots, numNodes);
      var slot := 2;
      while slot <= numSlots
        invariant Valid()
        invariant slot >= 2
        invariant LoopFrom(timeSlots, State(), slot, numSlots, numNodes) == target
        decreases numSlots + 1 - slot
      {
        var go := TransitionToNextSlot();
        if go.Err? {
          return Fail(go.error);
        }
        if !go.value {
          return Pass;
        }
        var collected := CollectMetrics(slot, numNodes);
        if collected.Err? {
          return Fail(collected.error);
        }
        slot := slot + 1;
      }
      return Pass;
    }
  }

  // ---------------------------------------------------------------------------------------
  // What a fresh run logs.

  /** The manager's cursor when `collect_metrics(j)` consults it in a fresh run (j >= 2): the
      transition into slot j and every earlier slot's two calls have each moved it once. */
  function CursorAtCollect(ts: seq<Slot>, j: int): int
    requires j >= 2
  {
    Advanced(1, |ts|, 2 * j - 3)
  }

  /** The remapping count `collect_metrics(j)` records in a fresh run that has not raised. */
  function LoggedRemappings(ts: seq<Slot>, j: int): nat
    requires j >= 2
  {
    var c := CursorAtCollect(ts, j);
    if c >= |ts| || Detect(ts[c - 1], ts[c], true).Err? then 0
    else |Detect(ts[c - 1], ts[c], true).value|
  }

  /** The state of a fresh run just before the loop's iteration for slot `j`. */
  predicate FreshBefore(ts: seq<Slot>, st: RunState, j: int, numNodes: int) {
    && 2 <= j
    && st.currentSlot == j - 1
    && st.managerSlot == Advanced(1, |ts|, 2 * j - 4)
    && |st.log| == j - 1
    && (forall i :: 0 <= i < j - 1 ==> st.log[i].slot == i + 1 && st.log[i].numNodes == numNodes)
    && st.log[0].remappings == 0
    && (forall i :: 1 <= i < j - 1 ==> st.log[i].remappings == LoggedRemappings(ts, i + 1))
  }

  lemma AdvancedFacts(c: int, n: int, q: nat)
    requires c >= 1
    ensures Advanced(c, n, q) >= 1
    ensures Advanced(c, n, q + 1) == (if Advanced(c, n, q) < n then Advanced(c, n, q) + 1 else Advanced(c, n, q))
  {
  }

  /** A fresh run that does not raise logs one record per slot 1..`num_slots` (one record
      even when `num_slots` < 1), in ascending slot order; slot 1 records no remappings and
      slot j >= 2 records the manager's report from cursor `2j - 2`, because both the
      transition into slot j and `collect_metrics(j)` advance the shared manager. */
  lemma {:induction false} FreshRunLog(ts: seq<Slot>, numSlots: int, numNodes: int)
    requires Run(ts, RunState(1, 1, []), numSlots, numNodes).Ok?
    ensures var log := Run(ts, RunState(1, 1, []), numSlots, numNodes).value.log;
      && |log| == (if numSlots < 1 then 1 else numSlots)
      && (forall i :: 0 <= i < |log| ==> log[i].slot == i + 1 && log[i].numNodes == numNodes)
      && log[0].remappings == 0
      && (forall i :: 1 <= i < |log| ==> log[i].remappings == LoggedRemappings(ts, i + 1))
  {
    var st1 := CollectStep(ts, RunState(1, 1, []), 1, numNodes).value;
    assert FreshBefore(ts, st1, 2, numNodes);
    LoopFromFresh(ts, st1, 2, numSlots, numNodes);
  }

  lemma {:induction false} LoopFromFresh(ts: seq<Slot>, st: RunState, j: int, numSlots: int, numNodes: int)
    requires FreshBefore(ts, st, j, numNodes) && st.managerSlot >= 1
    requires j <= numSlots + 1 || j == 2
    requires LoopFrom(ts, st, j, numSlots, numNodes).Ok?
    ensures var log := LoopFrom(ts, st, j, numSlots, numNodes).value.log;
      && |log| == (if numSlots < 1 then 1 else numSlots)
      && (forall i :: 0 <= i < |log| ==> log[i].slot == i + 1 && log[i].numNodes == numNodes)
      && log[0].remappings == 0
      && (forall i :: 1 <= i < |log| ==> log[i].remappings == LoggedRemappings(ts, i + 1))
    decreases numSlots + 1 - j
  {
    if j <= numSlots {
      var st2 := FreshStep(ts, st, j, numSlots, numNodes);
      LoopFromFresh(ts, st2, j + 1, numSlots, numNodes);
    }
  }

  /** One iteration of a fresh run's loop: the transition and `collect_metrics(j)` each
      consult the manager once, and the record for slot `j` carries the second report. */
  lemma FreshStep(ts: seq<Slot>, st: RunState, j: int, numSlots: int, numNodes: int) returns (st2: RunState)
    requires FreshBefore(ts, st, j, numNodes) && st.managerSlot >= 1 && j <= numSlots
    requires LoopFrom(ts, st, j, numSlots, numNodes).Ok?
    ensures st2.managerSlot >= 1
    ensures LoopFrom(ts, st, j, numSlots, numNodes) == LoopFrom(ts, st2, j + 1, numSlots, numNodes)
    ensures FreshBefore(ts, st2, j + 1, numNodes)
  {
    AdvancedFacts(1, |ts|, 2 * j - 4);
    AdvancedFacts(1, |ts|, 2 * j - 3);
    var st1 := TransitionStep(ts, st, numSlots).value.1;
    assert st1.managerSlot == Advanced(1, |ts|, 2 * j - 3);
    st2 := CollectStep(ts, st1, j, numNodes).value;
    assert st2.log == st.log + [Metrics(j, numNodes, st2.log[j - 1].numDomains, LoggedRemappings(ts, j))];
    FreshBeforeExtends(ts, st, st2, j, numNodes, st2.log[j - 1].numDomains);
  }

  lemma FreshBeforeExtends(ts: seq<Slot>, st: RunState, st2: RunState, j: int, numNodes: int, domains: nat)
    requires FreshBefore(ts, st, j, numNodes)
    requires st2.currentSlot == j && st2.managerSlot == Advanced(1, |ts|, 2 * j - 2)
    requires st2.log == st.log + [Metrics(j, numNodes, domains, LoggedRemappings(ts, j))]
    ensures FreshBefore(ts, st2, j + 1, numNodes)
  {
  }

  // ---------------------------------------------------------------------------------------
  // One report per slot.

  /** The intended loop: the report fetched when moving into slot `slot` is the one its
      metrics record counts, so the manager advances once per slot. */
  function IntendedLoopFrom(ts: seq<Slot>, st: RunState, slot: int, numSlots: int, numNodes: int): Result<RunState>
    requires st.managerSlot >= 1
    decreases numSlots + 1 - slot
  {
    if slot > numSlots || st.currentSlot >= numSlots then Ok(st)
    else
      match NextChanges(ts, st.managerSlot)
      case Err(e) => Err(e)
      case Ok(ch) =>
        match PyIndex(ts, slot - 1)
        case Err(e) => Err(e)
        case Ok(s) =>
          var remaps := if ch.Some? then |ch.value.remappings| else 0;
          var record := Metrics(slot, numNodes, |PositiveDomains(s, |s|)|, remaps);
          IntendedLoopFrom(ts, RunState(AfterCall(ch, st.managerSlot), st.currentSlot + 1, st.log + [record]),
                           slot + 1, numSlots, numNodes)
  }

  function IntendedRun(ts: seq<Slot>, st: RunState, numSlots: int, numNodes: int): Result<RunState>
    requires st.managerSlot >= 1
  {
    match CollectStep(ts, st, 1, numNodes)
    case Err(e) => Err(e)
    case Ok(st1) => IntendedLoopFrom(ts, st1, 2, numSlots, numNodes)
  }

  /** Record `i` of the log counts the remappings between slots `i` and `i + 1`, the slot it
      is about and the one before. */
  predicate CountsOwnSlot(ts: seq<Slot>, log: seq<Metrics>, i: int)
    requires 1 <= i < |log|
  {
    i < |ts| && Detect(ts[i - 1], ts[i], true).Ok?
    && log[i].remappings == |Detect(ts[i - 1], ts[i], true).value|
  }

  /** The state of an intended fresh run just before the iteration for slot `j`. */
  predicate IntendedBefore(ts: seq<Slot>, st: RunState, j: int, numNodes: int) {
    && 2 <= j
    && st.currentSlot == j - 1
    && st.managerSlot == j - 1
    && |st.log| == j - 1
    && (forall i :: 0 <= i < j - 1 ==> st.log[i].slot == i + 1 && st.log[i].numNodes == numNodes)
    && st.log[0].remappings == 0
    && (forall i :: 1 <= i < j - 1 ==> CountsOwnSlot(ts, st.log, i))
  }

  /** A fresh intended run that does not raise logs one record per slot, and the record of
      slot j >= 2 counts exactly the remappings between slots j - 1 and j. */
  lemma {:induction false} IntendedRunLog(ts: seq<Slot>, numSlots: int, numNodes: int)
    requires IntendedRun(ts, RunState(1, 1, []), numSlots, numNodes).Ok?
    ensures var log := IntendedRun(ts, RunState(1, 1, []), numSlots, numNodes).value.log;
      && |log| == (if numSlots < 1 then 1 else numSlots)
      && (forall i :: 0 <= i < |log| ==> log[i].slot == i + 1 && log[i].numNodes == numNodes)
      && log[0].remappings == 0
      && (forall i :: 1 <= i < |log| ==> CountsOwnSlot(ts, log, i))
  {
    var st1 := CollectStep(ts, RunState(1, 1, []), 1, numNodes).value;
    assert IntendedBefore(ts, st1, 2, numNodes);
    IntendedLoopFromFresh(ts, st1, 2, numSlots, numNodes);
  }

  lemma {:induction false} IntendedLoopFromFresh(ts: seq<Slot>, st: RunState, j: int, numSlots: int, numNodes: int)
    requires IntendedBefore(ts, st, j, numNodes) && st.managerSlot >= 1
    requires j <= numSlots + 1 || j == 2
    requires IntendedLoopFrom(ts, st, j, numSlots, numNodes).Ok?
    ensures var log := IntendedLoopFrom(ts, st, j, numSlots, numNodes).value.log;
      && |log| == (if numSlots < 1 then 1 else numSlots)
      && (forall i :: 0 <= i < |log| ==> log[i].slot == i + 1 && log[i].numNodes == numNodes)
      && log[0].remappings == 0
      && (forall i :: 1 <= i < |log| ==> CountsOwnSlot(ts, log, i))
    decreases numSlots + 1 - j
  {
    if j <= numSlots {
      var s := PyIndex(ts, j - 1).value;
      assert j - 1 < |ts|;
      var rs := Detect(ts[j - 2], ts[j - 1], true).value;
      var st2 := RunState(j, j, st.log + [Metrics(j, numNodes, |PositiveDomains(s, |s|)|, |rs|)]);
      assert IntendedLoopFrom(ts, st, j, numSlots, numNodes) == IntendedLoopFrom(ts, st2, j + 1, numSlots, numNodes);
      forall i | 1 <= i < j
        ensures CountsOwnSlot(ts, st2.log, i)
      {
        if i < j - 1 {
          assert CountsOwnSlot(ts, st.log, i) && st2.log[i] == st.log[i];
        }
      }
      assert IntendedBefore(ts, st2, j + 1, numNodes);
      IntendedLoopFromFresh(ts, st2, j + 1, numSlots, numNodes);
    }
  }

  /** Three slots with one node whose controller moves from 1 to 2 between slots 1 and 2 and
      then stays: the run as written records no remapping for slot 2, while one report per
      slot records the one remapping. */
  lemma DoubleAdvanceMissesRemapping()
    ensures var p1 := Position(Some(1), Some(1), None, None, None);
      var p2 := Position(Some(1), Some(2), None, None, None);
      var ts := [[p1], [p2], [p2]];
      && Run(ts, RunState(1, 1, []), 3, 1).Ok?
      && Run(ts, RunState(1, 1, []), 3, 1).value.log[1].remappings == 0
      && IntendedRun(ts, RunState(1, 1, []), 3, 1).Ok?
      && IntendedRun(ts, RunState(1, 1, []), 3, 1).value.log[1].remappings == 1
  {
    var p1 := Position(Some(1), Some(1), None, None, None);
    var p2 := Position(Some(1), Some(2), None, None, None);
    var ts := [[p1], [p2], [p2]];
    assert ControllersPresent(ts[0], ts[1], 1) && ControllersPresent(ts[1], ts[2], 1);
    assert Collect(ts[0], ts[1], 1, true) == [Remapping(1, 1, 2)];
    assert Collect(ts[1], ts[2], 1, true) == [];
    assert Detect(ts[0], ts[1], true) == Ok([Remapping(1, 1, 2)]);
    assert Detect(ts[1], ts[2], true) == Ok([]);
  }

  // ---------------------------------------------------------------------------------------
  // The summary.

  /** The counts `print_summary` prints (its two floating-point averages are not modelled). */
  datatype Summary = Summary(slotCount: nat, totalRemappings: nat)

  function TotalRemappings(log: seq<Metrics>): nat {
    if log == [] then 0 else TotalRemappings(log[..|log| - 1]) + log[|log| - 1].remappings
  }

  /** `print_summary`: nothing when no metrics were collected, else the slot count and the
      total remapping count. */
  function SummaryOf(log: seq<Metrics>): Option<Summary> {
    if log == [] then None else Some(Summary(|log|, TotalRemappings(log)))
  }

  /** The total of a log split in two is the sum of the totals of its parts. */
  lemma {:induction false} TotalRemappingsAppend(a: seq<Metrics>, b: seq<Metrics>)
    ensures TotalRemappings(a + b) == TotalRemappings(a) + TotalRemappings(b)
    decreases |b|
  {
    if b != [] {
      var b' := b[..|b| - 1];
      assert (a + b)[..|a + b| - 1] == a + b';
      assert (a + b)[|a + b| - 1] == b[|b| - 1];
      TotalRemappingsAppend(a, b');
    } else {
      assert a + b == a;
    }
  }

  /** No record counts more remappings than the total. */
  lemma {:induction false} RecordWithinTotal(log: seq<Metrics>, i: int)
    requires 0 <= i < |log|
    ensures log[i].remappings <= TotalRemappings(log)
  {
    assert log == log[..i] + [log[i]] + log[i + 1..];
    TotalRemappingsAppend(log[..i] + [log[i]], log[i + 1..]);
    TotalRemappingsAppend(log[..i], [log[i]]);
    assert TotalRemappings([log[i]]) == log[i].remappings by {
      assert [log[i]][..0] == [];
    }
  }

  /** The summary is missing exactly for an empty log; otherwise it counts the records and
      its total is at least every record's count. */
  lemma SummaryCharacterised(log: seq<Metrics>)
    ensures SummaryOf(log).None? <==> log == []
    ensures SummaryOf(log).Some? ==>
      var sm := SummaryOf(log).value;
      && sm.slotCount == |log|
      && (forall i :: 0 <= i < |log| ==> log[i].remappings <= sm.totalRemappings)
  {
    forall i | 0 <= i < |log|
      ensures log[i].remappings <= TotalRemappings(log)
    {
      RecordWithinTotal(log, i);
    }
  }

  /** Collecting one more record adds its count to the summary's total. */
  lemma SummaryAfterRecord(log: seq<Metrics>, m: Metrics)
    ensures SummaryOf(log + [m]).Some?
    ensures SummaryOf(log + [m]).value.totalRemappings == TotalRemappings(log) + m.remappings
  {
    assert (log + [m])[..|log|] == log;
  }
}
