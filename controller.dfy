/** The controller application (`controller/comosat_controller.py`): the per-switch domain
    and controller tables a COMOSAT controller loads for one slot, the remapping updates it
    receives, its counters, and the coordinator that notifies the domain controllers of a
    slot change.  OpenFlow messages are reduced to the records the handlers send. */
module Controller {
  import opened Slots

  /** `self.stats`. */
  datatype Stats = Stats(remappings: int, flowRulesInstalled: int, packetsProcessed: int)

  /** One `OFPFlowMod` sent to switch `dpid` (priority 0: the table-miss entry installed on
      connection; priority 1: the reverse-path entry installed on a packet-in). */
  datatype FlowRule = FlowRule(dpid: int, priority: int)

  /** The part of a packet-in the handler inspects: the first Ethernet header, if any. */
  datatype Frame = NoEthernet | Ethernet(isLldp: bool)

  /** Every field of a controller, as a value. */
  datatype ControllerState = ControllerState(
    topologyData: Option<seq<Slot>>,
    domainAssignments: map<int, int>,
    controllerAssignments: map<int, int>,
    switchDomains: map<int, seq<int>>,
    stats: Stats,
    sent: seq<FlowRule>)

  // ---------------------------------------------------------------------------------------
  // Loading one slot's tables.

  /** The slot `load_domain_assignments(slot)` reads: nothing when no data is loaded or the
      slot is past the last one, `IndexError` when Python indexing of `slot - 1` fails. */
  function LoadedSlot(data: Option<seq<Slot>>, slot: int): Result<Option<Slot>> {
    if data.None? || slot > |data.value| then Ok(None)
    else
      match PyIndex(data.value, slot - 1)
      case Err(e) => Err(e)
      case Ok(s) => Ok(Some(s))
  }

  /** `domain_assignments` after the loop over the first `k` entries: dpid `i + 1` has the
      entry's domain, 0 when the key is missing. */
  function DomainTable(s: Slot, k: nat): map<int, int>
    requires k <= |s|
  {
    if k == 0 then map[] else DomainTable(s, k - 1)[k := DomainOr0(s[k - 1])]
  }

  /** `controller_assignments` after the loop over the first `k` entries. */
  function ControllerTable(s: Slot, k: nat): map<int, int>
    requires k <= |s|
  {
    if k == 0 then map[] else ControllerTable(s, k - 1)[k := ControllerOr0(s[k - 1])]
  }

  /** Both flat tables hold exactly the dpids 1..k, with the entry's domain and controller. */
  lemma {:induction false} FlatTablesCharacterised(s: Slot, k: nat)
    requires k <= |s|
    ensures forall id :: id in DomainTable(s, k) <==> 1 <= id <= k
    ensures forall id :: id in ControllerTable(s, k) <==> 1 <= id <= k
    ensures forall id :: 1 <= id <= k ==>
      DomainTable(s, k)[id] == DomainOr0(s[id - 1]) && ControllerTable(s, k)[id] == ControllerOr0(s[id - 1])
  {
    if k > 0 {
      FlatTablesCharacterised(s, k - 1);
    }
  }

  lemma DomainTableAt(s: Slot, id: int)
    requires 1 <= id <= |s|
    ensures id in DomainTable(s, |s|) && DomainTable(s, |s|)[id] == DomainOr0(s[id - 1])
  {
    FlatTablesCharacterised(s, |s|);
  }

  /** The three loaded tables describe the same slot: `switch_domains` lists a dpid under a
      domain exactly when `domain_assignments` gives it that domain. */
  lemma LoadedTablesAgree(s: Slot, k: nat)
    requires k <= |s|
    ensures forall d, id :: Listed(s, k, d, id) <==> id in DomainTable(s, k) && DomainTable(s, k)[id] == d
  {
    FlatTablesCharacterised(s, k);
    GroupsCharacterised(s, k);
  }

  // ---------------------------------------------------------------------------------------
  // Remapping updates.

  /** `controller_assignments` after `update_controller_assignments(rs)`: each record for a
      known dpid overwrites its controller, in list order; unknown dpids are ignored. */
  function ApplyRemaps(t: map<int, int>, rs: seq<Remapping>): map<int, int> {
    if rs == [] then t
    else
      var e := ApplyRemaps(t, rs[..|rs| - 1]);
      var r := rs[|rs| - 1];
      if r.nodeId in e then e[r.nodeId := r.newController] else e
  }

  /** How many records of `rs` name a dpid of `t` (the increments of `stats['remappings']`). */
  function KnownCount(t: map<int, int>, rs: seq<Remapping>): nat {
    if rs == [] then 0
    else KnownCount(t, rs[..|rs| - 1]) + if rs[|rs| - 1].nodeId in t then 1 else 0
  }

  /** The new controller of the last record naming `id`, if any. */
  function LastNew(rs: seq<Remapping>, id: int): Option<int> {
    if rs == [] then None
    else if rs[|rs| - 1].nodeId == id then Some(rs[|rs| - 1].newController)
    else LastNew(rs[..|rs| - 1], id)
  }

  lemma {:induction false} LastNewCharacterised(rs: seq<Remapping>, id: int)
    ensures LastNew(rs, id).None? <==> forall r :: r in rs ==> r.nodeId != id
    ensures LastNew(rs, id).Some? ==> exists r :: r in rs && r.nodeId == id && r.newController == LastNew(rs, id).value
  {
    if rs != [] {
      var init := rs[..|rs| - 1];
      LastNewCharacterised(init, id);
      assert rs == init + [rs[|rs| - 1]];
      if LastNew(rs, id).Some? && rs[|rs| - 1].nodeId != id {
        var r :| r in init && r.nodeId == id && r.newController == LastNew(rs, id).value;
        assert r in rs;
      }
    }
  }

  /** Remapping keeps the set of known dpids, gives every dpid the controller of the last
      record naming it, and leaves the others alone. */
  lemma {:induction false} ApplyRemapsCharacterised(t: map<int, int>, rs: seq<Remapping>)
    ensures ApplyRemaps(t, rs).Keys == t.Keys
    ensures forall id :: id in t ==>
      ApplyRemaps(t, rs)[id] == if LastNew(rs, id).Some? then LastNew(rs, id).value else t[id]
  {
    if rs != [] {
      ApplyRemapsCharacterised(t, rs[..|rs| - 1]);
    }
  }

  /** Delivering the same remappings twice has the effect of delivering them once. */
  lemma ApplyRemapsIdempotent(t: map<int, int>, rs: seq<Remapping>)
    ensures ApplyRemaps(ApplyRemaps(t, rs), rs) == ApplyRemaps(t, rs)
  {
    var once := ApplyRemaps(t, rs);
    ApplyRemapsCharacterised(t, rs);
    ApplyRemapsCharacterised(once, rs);
    assert ApplyRemaps(once, rs).Keys == once.Keys;
    forall id | id in once
      ensures ApplyRemaps(once, rs)[id] == once[id]
    {
    }
  }

  /** Applying the unfiltered remappings between two slots to the controller table of the
      first turns every dpid the walk visits into its controller in the second slot; dpids
      beyond the shorter slot keep their first-slot controller. */
  lemma RemapsRebuildControllerTable(prev: Slot, next: Slot)
    requires Detect(prev, next, false).Ok?
    ensures var after := ApplyRemaps(ControllerTable(prev, |prev|), Detect(prev, next, false).value);
      && (forall id :: id in after <==> 1 <= id <= |prev|)
      && (forall id :: 1 <= id <= Min(|prev|, |next|) ==> id in after && after[id] == ControllerOr0(next[id - 1]))
      && (forall id :: Min(|prev|, |next|) < id <= |prev| ==> id in after && after[id] == ControllerOr0(prev[id - 1]))
  {
    var t := ControllerTable(prev, |prev|);
    var rs := Detect(prev, next, false).value;
    assert forall id :: id in t <==> 1 <= id <= |prev| by {
      FlatTablesCharacterised(prev, |prev|);
    }
    ApplyRemapsCharacterised(t, rs);
    forall id | 1 <= id <= |prev|
      ensures ApplyRemaps(t, rs)[id] ==
        if id <= Min(|prev|, |next|) then ControllerOr0(next[id - 1]) else ControllerOr0(prev[id - 1])
    {
      RemappedAt(prev, next, id);
    }
  }

  /** The controller one dpid ends up with after the unfiltered remappings. */
  lemma RemappedAt(prev: Slot, next: Slot, id: int)
    requires Detect(prev, next, false).Ok? && 1 <= id <= |prev|
    ensures var after := ApplyRemaps(ControllerTable(prev, |prev|), Detect(prev, next, false).value);
      id in after &&
      after[id] == if id <= Min(|prev|, |next|) then ControllerOr0(next[id - 1]) else ControllerOr0(prev[id - 1])
  {
    var t := ControllerTable(prev, |prev|);
    var rs := Detect(prev, next, false).value;
    assert id in t && t[id] == ControllerOr0(prev[id - 1]) by {
      FlatTablesCharacterised(prev, |prev|);
    }
    ApplyRemapsCharacterised(t, rs);
    LastNewOfDetect(prev, next, id);
  }

  /** The last record naming `id` in the unfiltered walk: present exactly when the walk visits
      entry `id - 1` and its controller changes, and then it carries the new controller. */
  lemma LastNewOfDetect(prev: Slot, next: Slot, id: int)
    requires Detect(prev, next, false).Ok?
    ensures var m := Min(|prev|, |next|);
      LastNew(Detect(prev, next, false).value, id) ==
        if 1 <= id <= m && prev[id - 1].controller != next[id - 1].controller
        then Some(next[id - 1].controller.value) else None
  {
    var m := Min(|prev|, |next|);
    var rs := Detect(prev, next, false).value;
    CollectCharacterised(prev, next, m, false);
    LastNewCharacterised(rs, id);
    if 1 <= id <= m && prev[id - 1].controller != next[id - 1].controller {
      var r := Remapping(id, prev[id - 1].controller.value, next[id - 1].controller.value);
      assert Describes(prev, next, m, false, r);
      var last :| last in rs && last.nodeId == id && last.newController == LastNew(rs, id).value;
      assert Describes(prev, next, m, false, last);
    } else {
      forall r | r in rs
        ensures r.nodeId != id
      {
        assert Describes(prev, next, m, false, r);
      }
    }
  }

  // ---------------------------------------------------------------------------------------
  // Per-switch domain rules.

  /** `lst.remove(x)`: drop the first occurrence, `ValueError` when there is none. */
  function RemoveFirst(lst: seq<int>, x: int): (r: Result<seq<int>>)
    ensures r.Ok? <==> x in lst
    ensures r.Err? ==> r.error == ValueError
    ensures r.Ok? ==> |r.value| == |lst| - 1 && forall y :: y in r.value ==> y in lst
    ensures r.Ok? ==> forall y :: y != x ==> (y in r.value <==> y in lst)
    ensures r.Ok? ==> exists i :: RemovedAt(lst, x, i, r.value)
  {
    if lst == [] then Err(ValueError)
    else if lst[0] == x then
      assert RemovedAt(lst, x, 0, lst[1..]);
      Ok(lst[1..])
    else
      match RemoveFirst(lst[1..], x)
      case Err(e) => Err(e)
      case Ok(rest) =>
        RemovedAtCons(lst, x, rest);
        Ok([lst[0]] + rest)
  }

  /** `r` is `lst` without its element at `i`, which is the first occurrence of `x`. */
  predicate RemovedAt(lst: seq<int>, x: int, i: int, r: seq<int>) {
    0 <= i < |lst| && lst[i] == x && x !in lst[..i] && r == lst[..i] + lst[i + 1..]
  }

  lemma RemovedAtCons(lst: seq<int>, x: int, rest: seq<int>)
    requires lst != [] && lst[0] != x
    requires exists i :: RemovedAt(lst[1..], x, i, rest)
    ensures exists i :: RemovedAt(lst, x, i, [lst[0]] + rest)
  {
    var i :| RemovedAt(lst[1..], x, i, rest);
    assert lst[..i + 1] == [lst[0]] + lst[1..][..i];
    assert lst[i + 2..] == lst[1..][i + 1..];
    assert RemovedAt(lst, x, i + 1, [lst[0]] + rest);
  }

  /** `switch_domains` after `_install_domain_rules` for `dpid` as written: the list of the
      switch's domain is shortened in place by `remove(dpid)`; nothing happens for an
      unassigned switch or domain 0; `ValueError` when the switch is no longer listed. */
  function InstallAsWritten(domainAssignments: map<int, int>, switchDomains: map<int, seq<int>>, dpid: int): Result<map<int, seq<int>>> {
    if dpid !in domainAssignments || domainAssignments[dpid] == 0 then Ok(switchDomains)
    else
      var d := domainAssignments[dpid];
      var members := if d in switchDomains then switchDomains[d] else [];
      match RemoveFirst(members, dpid)
      case Err(e) => Err(e)
      case Ok(rest) => Ok(switchDomains[d := rest])
  }

  /** The peers `_install_domain_rules` evidently means to iterate over: the other switches of
      the domain, read from a copy so `switch_domains` is left alone.  `None` when no rules
      are installed (unassigned switch, domain 0). */
  function DomainPeers(domainAssignments: map<int, int>, switchDomains: map<int, seq<int>>, dpid: int): Option<seq<int>> {
    if dpid !in domainAssignments || domainAssignments[dpid] == 0 then None
    else
      var d := domainAssignments[dpid];
      var members := if d in switchDomains then switchDomains[d] else [];
      Some(Without(members, dpid))
  }

  function Without(lst: seq<int>, x: int): (r: seq<int>)
    ensures forall y :: y in r <==> y in lst && y != x
  {
    if lst == [] then []
    else (if lst[0] == x then [] else [lst[0]]) + Without(lst[1..], x)
  }

  /** As written, the first connection of a switch of a nonzero domain succeeds and takes the
      switch out of `switch_domains`, so that the table no longer agrees with
      `domain_assignments`, and a second connection of the same switch raises `ValueError`. */
  lemma ReinstallRaises(s: Slot, dpid: int)
    requires 1 <= dpid <= |s| && DomainOr0(s[dpid - 1]) != 0
    ensures var da, sd := DomainTable(s, |s|), Groups(s, |s|);
      var first := InstallAsWritten(da, sd, dpid);
      var d := DomainOr0(s[dpid - 1]);
      && first.Ok?
      && dpid in da && da[dpid] == d
      && d in first.value && dpid !in first.value[d]
      && InstallAsWritten(da, first.value, dpid) == Err(ValueError)
  {
    var n := |s|;
    var d := DomainOr0(s[dpid - 1]);
    DomainTableAt(s, dpid);
    ListedIff(s, d, dpid);
    GroupAscending(s, n, d);
    RemoveFromAscending(Groups(s, n)[d], dpid);
  }

  /** Removing a member of an ascending list keeps it ascending and leaves no copy behind. */
  lemma RemoveFromAscending(lst: seq<int>, x: int)
    requires StrictlyAscending(lst) && x in lst
    ensures StrictlyAscending(RemoveFirst(lst, x).value)
    ensures x !in RemoveFirst(lst, x).value
  {
    var rest := RemoveFirst(lst, x).value;
    var i :| RemovedAt(lst, x, i, rest);
    RemovedAtAscending(lst, x, i, rest);
  }

  lemma RemovedAtAscending(lst: seq<int>, x: int, i: int, rest: seq<int>)
    requires StrictlyAscending(lst) && RemovedAt(lst, x, i, rest)
    ensures StrictlyAscending(rest) && x !in rest
  {
    forall a, b | 0 <= a < b < |rest| ensures rest[a] < rest[b] {
      assert rest[a] == lst[if a < i then a else a + 1];
      assert rest[b] == lst[if b < i then b else b + 1];
    }
    forall t | 0 <= t < |rest| ensures rest[t] != x {
      assert rest[t] == lst[if t < i then t else t + 1];
    }
  }

  /** With the tables of a loaded slot, the intended peers of a switch in a nonzero domain are
      exactly the other switches of that domain, and asking again gives the same answer. */
  lemma DomainPeersCharacterised(s: Slot, dpid: int)
    requires 1 <= dpid <= |s|
    ensures var da, sd := DomainTable(s, |s|), Groups(s, |s|);
      var d := DomainOr0(s[dpid - 1]);
      && (DomainPeers(da, sd, dpid).None? <==> d == 0)
      && (d != 0 ==> forall id :: id in DomainPeers(da, sd, dpid).value <==>
            1 <= id <= |s| && id != dpid && DomainOr0(s[id - 1]) == d)
  {
    var n := |s|;
    DomainTableAt(s, dpid);
    var d := DomainOr0(s[dpid - 1]);
    if d != 0 {
      ListedIff(s, d, dpid);
      var members := Groups(s, n)[d];
      forall id ensures id in Without(members, dpid) <==> 1 <= id <= n && id != dpid && DomainOr0(s[id - 1]) == d
      {
        ListedIff(s, d, id);
      }
    }
  }

  // ---------------------------------------------------------------------------------------
  // The controller.

  /** The state after `update_controller_assignments(rs)` followed by
      `load_domain_assignments(slot)`, when the load does not raise; when it does, the state
      after the update alone. */
  function Notified(c: ControllerState, rs: seq<Remapping>, slot: int): ControllerState {
    var updated := c.(controllerAssignments := ApplyRemaps(c.controllerAssignments, rs),
                      stats := c.stats.(remappings := c.stats.remappings + KnownCount(c.controllerAssignments, rs)));
    match LoadedSlot(c.topologyData, slot)
    case Ok(Some(s)) =>
      updated.(domainAssignments := DomainTable(s, |s|), controllerAssignments := ControllerTable(s, |s|),
               switchDomains := Groups(s, |s|))
    case _ => updated
  }

  /** Both flat tables know the same dpids; each `switch_domains` list is ascending and
      names only dpids assigned to that domain. */
  predicate TablesAgree(domainAssignments: map<int, int>, controllerAssignments: map<int, int>, switchDomains: map<int, seq<int>>) {
    && domainAssignments.Keys == controllerAssignments.Keys
    && (forall d :: d in switchDomains ==> StrictlyAscending(switchDomains[d]))
    && (forall d, id :: d in switchDomains && id in switchDomains[d] ==>
          id in domainAssignments && domainAssignments[id] == d)
  }

  /** The three tables loaded from any slot agree with each other. */
  lemma LoadedTablesConsistent(s: Slot)
    ensures TablesAgree(DomainTable(s, |s|), ControllerTable(s, |s|), Groups(s, |s|))
  {
    var n := |s|;
    FlatTablesCharacterised(s, n);
    GroupsCharacterised(s, n);
    forall d, id | d in Groups(s, n) && id in Groups(s, n)[d]
      ensures id in DomainTable(s, n) && DomainTable(s, n)[id] == d
    {
      assert Listed(s, n, d, id);
    }
  }

  /** Replacing a domain's list by an ascending sub-list keeps the tables in agreement. */
  lemma TablesAgreeAfterRemoval(da: map<int, int>, ca: map<int, int>, sd: map<int, seq<int>>, d: int, rest: seq<int>)
    requires TablesAgree(da, ca, sd) && d in sd
    requires StrictlyAscending(rest) && forall y :: y in rest ==> y in sd[d]
    ensures TablesAgree(da, ca, sd[d := rest])
  {
  }

  class COMOSATController {
    var topologyData: Option<seq<Slot>>
    /** dpid -> domain id */
    var domainAssignments: map<int, int>
    /** dpid -> controller node id */
    var controllerAssignments: map<int, int>
    /** domain id -> dpids */
    var switchDomains: map<int, seq<int>>
    var stats: Stats
    /** the flow rules sent to switches, oldest first */
    var sent: seq<FlowRule>

    /** The tables agree, the counters are non-negative and `flow_rules_installed` counts
        the flow rules sent. */
    ghost predicate Valid()
      reads this
    {
      && TablesAgree(domainAssignments, controllerAssignments, switchDomains)
      && stats.remappings >= 0 && stats.packetsProcessed >= 0
      && stats.flowRulesInstalled == |sent|
    }

    function Snapshot(): ControllerState
      reads this
    {
      ControllerState(topologyData, domainAssignments, controllerAssignments, switchDomains, stats, sent)
    }

    /** `__init__`, with the content of the topology file (or `None` when it is missing or
        unreadable) passed in. */
    constructor (topologyData: Option<seq<Slot>>)
      ensures Valid()
      ensures Snapshot() == ControllerState(topologyData, map[], map[], map[], Stats(0, 0, 0), [])
    {
      this.topologyData := topologyData;
      domainAssignments := map[];
      controllerAssignments := map[];
      switchDomains := map[];
      stats := Stats(0, 0, 0);
      sent := [];
    }

    /** `load_domain_assignments(slot)`: replace the three tables by those of the slot; leave
        them as they are when there is nothing to load or the slot cannot be indexed. */
    method LoadDomainAssignments(slot: int) returns (r: Outcome)
      requires Valid()
      modifies this`domainAssignments, this`controllerAssignments, this`switchDomains
      ensures Valid()
      ensures r.Pass? <==> LoadedSlot(topologyData, slot).Ok?
      ensures r.Fail? ==> r.error == IndexError
      ensures LoadedSlot(topologyData, slot).Ok? && LoadedSlot(topologyData, slot).value.Some? ==>
        var s := LoadedSlot(topologyData, slot).value.value;
        && domainAssignments == DomainTable(s, |s|)
        && controllerAssignments == ControllerTable(s, |s|)
        && switchDomains == Groups(s, |s|)
      ensures !(LoadedSlot(topologyData, slot).Ok? && LoadedSlot(topologyData, slot).value.Some?) ==>
        domainAssignments == old(domainAssignments) && controllerAssignments == old(controllerAssignments)
        && switchDomains == old(switchDomains)
    {
      if topologyData.None? {
        return Pass;
      }
      var timeSlots := topologyData.value;
      if slot > |timeSlots| {
        return Pass;
      }
      var slotData := PyIndex(timeSlots, slot - 1);
      if slotData.Err? {
        return Fail(slotData.error);
      }
      var positions := slotData.value;
      FillTables(positions);
      LoadedTablesConsistent(positions);
      return Pass;
    }

    /** The loop of `load_domain_assignments` over one slot's entries, from empty tables. */
    method FillTables(positions: Slot)
      modifies this`domainAssignments, this`controllerAssignments, this`switchDomains
      ensures domainAssignments == DomainTable(positions, |positions|)
      ensures controllerAssignments == ControllerTable(positions, |positions|)
      ensures switchDomains == Groups(positions, |positions|)
    {
      domainAssignments := map[];
      controllerAssignments := map[];
      switchDomains := map[];
      var idx := 0;
      while idx < |positions|
        invariant 0 <= idx <= |positions|
        invariant domainAssignments == DomainTable(positions, idx)
        invariant controllerAssignments == ControllerTable(positions, idx)
        invariant switchDomains == Groups(positions, idx)
      {
        var dpid := idx + 1;
        var domainId := DomainOr0(positions[idx]);
        var controllerId := ControllerOr0(positions[idx]);
        domainAssignments := domainAssignments[dpid := domainId];
        controllerAssignments := controllerAssignments[dpid := controllerId];
        if domainId !in switchDomains {
          switchDomains := switchDomains[domainId := []];
        }
        switchDomains := switchDomains[domainId := switchDomains[domainId] + [dpid]];
        idx := idx + 1;
      }
    }

    /** `_add_flow`: send one flow rule and count it. */
    method AddFlow(dpid: int, priority: int)
      requires Valid()
      modifies this`sent, this`stats
      ensures Valid()
      ensures sent == old(sent) + [FlowRule(dpid, priority)]
      ensures stats == old(stats).(flowRulesInstalled := old(stats).flowRulesInstalled + 1)
    {
      sent := sent + [FlowRule(dpid, priority)];
      stats := stats.(flowRulesInstalled := stats.flowRulesInstalled + 1);
    }

    /** `_install_domain_rules` as written (see `InstallAsWritten`); the loop over the other
        switches has an empty body and is not repeated here. */
    method InstallDomainRules(dpid: int) returns (r: Outcome)
      requires Valid()
      modifies this`switchDomains
      ensures Valid()
      ensures r.Pass? <==> InstallAsWritten(domainAssignments, old(switchDomains), dpid).Ok?
      ensures r.Fail? ==> r.error == ValueError && switchDomains == old(switchDomains)
      ensures r.Pass? ==> switchDomains == InstallAsWritten(domainAssignments, old(switchDomains), dpid).value
    {
      if dpid !in domainAssignments {
        return Pass;
      }
      var domainId := domainAssignments[dpid];
      if domainId == 0 {
        return Pass;
      }
      var domainSwitches := if domainId in switchDomains then switchDomains[domainId] else [];
      var removed := RemoveFirst(domainSwitches, dpid);
      if removed.Err? {
        return Fail(removed.error);
      }
      RemoveFromAscending(domainSwitches, dpid);
      TablesAgreeAfterRemoval(domainAssignments, controllerAssignments, switchDomains, domainId, removed.value);
      switchDomains := switchDomains[domainId := removed.value];
      return Pass;
    }

    /** `switch_features_handler` for switch `dpid`: the table-miss rule, then the domain
        rules when data is loaded and the switch has a domain. */
    method SwitchFeaturesHandler(dpid: int) returns (r: Outcome)
      requires Valid()
      modifies this`sent, this`stats, this`switchDomains
      ensures Valid()
      ensures sent == old(sent) + [FlowRule(dpid, 0)]
      ensures stats == old(stats).(flowRulesInstalled := old(stats).flowRulesInstalled + 1)
      ensures topologyData.None? || dpid !in domainAssignments ==> r.Pass? && switchDomains == old(switchDomains)
      ensures topologyData.Some? && dpid in domainAssignments ==>
        var installed := InstallAsWritten(domainAssignments, old(switchDomains), dpid);
        && (r.Pass? <==> installed.Ok?)
        && (r.Fail? ==> r.error == ValueError && switchDomains == old(switchDomains))
        && (r.Pass? ==> switchDomains == installed.value)
    {
      AddFlow(dpid, 0);
      if topologyData.Some? && dpid in domainAssignments {
        r := InstallDomainRules(dpid);
      } else {
        r := Pass;
      }
    }

    /** `packet_in_handler`: count the packet; a frame without an Ethernet header raises
        `IndexError`, LLDP is ignored, anything else installs a reverse-path rule. */
    method PacketInHandler(dpid: int, frame: Frame) returns (r: Outcome)
      requires Valid()
      modifies this`sent, this`stats
      ensures Valid()
      ensures r.Pass? <==> frame.Ethernet?
      ensures r.Fail? ==> r.error == IndexError
      ensures stats.packetsProcessed == old(stats).packetsProcessed + 1
      ensures stats.remappings == old(stats).remappings
      ensures frame == Ethernet(false) ==>
        sent == old(sent) + [FlowRule(dpid, 1)] && stats.flowRulesInstalled == old(stats).flowRulesInstalled + 1
      ensures frame != Ethernet(false) ==> sent == old(sent) && stats.flowRulesInstalled == old(stats).flowRulesInstalled
    {
      stats := stats.(packetsProcessed := stats.packetsProcessed + 1);
      if frame.NoEthernet? {
        return Fail(IndexError);
      }
      if frame.isLldp {
        return Pass;
      }
      AddFlow(dpid, 1);
      return Pass;
    }

    /** `update_controller_assignments(remappings)`: move every known dpid to its new
        controller and count each such record. */
    method UpdateControllerAssignments(rs: seq<Remapping>)
      requires Valid()
      modifies this`controllerAssignments, this`stats
      ensures Valid()
      ensures controllerAssignments == ApplyRemaps(old(controllerAssignments), rs)
      ensures stats == old(stats).(remappings := old(stats).remappings + KnownCount(old(controllerAssignments), rs))
    {
      ghost var start := controllerAssignments;
      var k := 0;
      while k < |rs|
        invariant 0 <= k <= |rs|
        invariant Valid()
        invariant controllerAssignments == ApplyRemaps(start, rs[..k])
        invariant stats == old(stats).(remappings := old(stats).remappings + KnownCount(start, rs[..k]))
      {
        var remap := rs[k];
        assert rs[..k + 1][..k] == rs[..k];
        ApplyRemapsCharacterised(start, rs[..k]);
        if remap.nodeId in controllerAssignments {
          controllerAssignments := controllerAssignments[remap.nodeId := remap.newController];
          stats := stats.(remappings := stats.remappings + 1);
        }
        k := k + 1;
      }
      assert rs[..k] == rs;
    }

    /** The body of the coordinator's notification loop for this controller:
        `update_controller_assignments(rs)`, then `load_domain_assignments(slot)`. */
    method Notify(rs: seq<Remapping>, slot: int) returns (r: Outcome)
      requires Valid()
      modifies this
      ensures Valid()
      ensures Snapshot() == Notified(old(Snapshot()), rs, slot)
      ensures r.Fail? <==> LoadedSlot(topologyData, slot).Err?
      ensures r.Fail? ==> r.error == IndexError
    {
      UpdateControllerAssignments(rs);
      r := LoadDomainAssignments(slot);
    }

    /** `get_statistics`: a copy of the counters. */
    method GetStatistics() returns (s: Stats)
      requires Valid()
      ensures s.remappings >= 0 && s.packetsProcessed >= 0 && s.flowRulesInstalled == |sent|
      ensures s == stats
    {
      return stats;
    }
  }

  // ---------------------------------------------------------------------------------------
  // The coordinator.

  /** Controller `k` of the list is the one whose own slot lookup raised. */
  predicate FailedAt(controllers: seq<COMOSATController>, k: int, slot: int)
    reads set c | c in controllers
  {
    0 <= k < |controllers| && LoadedSlot(controllers[k].topologyData, slot).Err?
  }

  class MultiDomainCOMOSATController {
    const timeSlots: seq<Slot>
    /** `domain_controllers.values()`, in insertion order */
    var domainControllers: seq<COMOSATController>
    var currentSlot: int

    ghost predicate Valid()
      reads this, set c | c in domainControllers
    {
      && NoDuplicates(domainControllers)
      && forall c :: c in domainControllers ==> c.Valid()
    }

    constructor (timeSlots: seq<Slot>)
      ensures Valid()
      ensures this.timeSlots == timeSlots && domainControllers == [] && currentSlot == 1
    {
      this.timeSlots := timeSlots;
      domainControllers := [];
      currentSlot := 1;
    }

    /** `update_topology(new_slot)`: 0 past the last slot; otherwise the unfiltered
        remappings between the cursor's slot and `new_slot` are delivered to every domain
        controller, which then loads `new_slot`, and their number is returned.  An error
        stops the call before the cursor moves. */
    method UpdateTopology(newSlot: int) returns (r: Result<nat>)
      requires Valid()
      modifies this`currentSlot, set c | c in domainControllers
      ensures Valid()
      ensures var found := RemapsBetween(timeSlots, old(currentSlot), newSlot);
        !(found.Ok? && found.value.Some?) ==>
          && r == (if found.Err? then Err(found.error) else Ok(0))
          && currentSlot == old(currentSlot)
          && (forall c :: c in domainControllers ==> c.Snapshot() == old(c.Snapshot()))
      ensures var found := RemapsBetween(timeSlots, old(currentSlot), newSlot);
        found.Ok? && found.value.Some? && r.Ok? ==>
          && r.value == |found.value.value|
          && currentSlot == newSlot
          && (forall c :: c in domainControllers ==> c.Snapshot() == Notified(old(c.Snapshot()), found.value.value, newSlot))
      ensures var found := RemapsBetween(timeSlots, old(currentSlot), newSlot);
        found.Ok? && found.value.Some? && r.Err? ==>
          && r.error == IndexError
          && currentSlot == old(currentSlot)
          && (exists k :: FailedAt(domainControllers, k, newSlot)
                && (forall j :: 0 <= j <= k ==>
                      domainControllers[j].Snapshot() == Notified(old(domainControllers[j].Snapshot()), found.value.value, newSlot))
                && (forall j :: k < j < |domainControllers| ==>
                      domainControllers[j].Snapshot() == old(domainControllers[j].Snapshot())))
    {
      if newSlot > |timeSlots| {
        return Ok(0);
      }
      var oldSlotData := PyIndex(timeSlots, currentSlot - 1);
      if oldSlotData.Err? {
        return Err(oldSlotData.error);
      }
      var newSlotData := PyIndex(timeSlots, newSlot - 1);
      if newSlotData.Err? {
        return Err(newSlotData.error);
      }
      var remaps := ScanRemappings(oldSlotData.value, newSlotData.value, false);
      if remaps.Err? {
        return Err(remaps.error);
      }
      var rs := remaps.value;
      var notified := NotifyAll(rs, newSlot);
      if notified.Fail? {
        return Err(notified.error);
      }
      currentSlot := newSlot;
      return Ok(|rs|);
    }

    /** The notification loop of `update_topology`: each domain controller in turn receives
        the remappings, then loads `slot`; the first load that raises stops the loop. */
    method NotifyAll(rs: seq<Remapping>, slot: int) returns (r: Outcome)
      requires Valid()
      modifies set c | c in domainControllers
      ensures Valid()
      ensures r.Fail? ==> r.error == IndexError
      ensures r.Pass? ==>
        forall c :: c in domainControllers ==> c.Snapshot() == Notified(old(c.Snapshot()), rs, slot)
      ensures r.Fail? ==>
        exists k ::
          && FailedAt(domainControllers, k, slot)
          && (forall j :: 0 <= j <= k ==>
                domainControllers[j].Snapshot() == Notified(old(domainControllers[j].Snapshot()), rs, slot))
          && (forall j :: k < j < |domainControllers| ==>
                domainControllers[j].Snapshot() == old(domainControllers[j].Snapshot()))
    {
      var i := 0;
      while i < |domainControllers|
        invariant 0 <= i <= |domainControllers|
        invariant Valid()
        invariant forall j :: 0 <= j < i ==>
          domainControllers[j].Snapshot() == Notified(old(domainControllers[j].Snapshot()), rs, slot)
        invariant forall j :: i <= j < |domainControllers| ==>
          domainControllers[j].Snapshot() == old(domainControllers[j].Snapshot())
      {
        var controller := domainControllers[i];
        assert forall j :: 0 <= j < |domainControllers| && j != i ==> domainControllers[j] != controller;
        var loaded := controller.Notify(rs, slot);
        if loaded.Fail? {
          assert FailedAt(domainControllers, i, slot);
          return loaded;
        }
        i := i + 1;
      }
      return Pass;
    }
  }
}
