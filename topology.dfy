/** The topology side of the emulation (`topology/sagin_topology.py`): the per-slot switch
    and link set handed to the network emulator, and the two slot cursors that report the
    controller remappings between slots.  The emulator's `addSwitch` / `addLink` calls are
    kept as logs of records. */
module Topology {
  import opened Slots

  /** The dictionary `{'remappings': [...], 'new_links': [...], 'removed_links': [...]}`. */
  datatype Changes = Changes(remappings: seq<Remapping>, newLinks: seq<LinkAdded>, removedLinks: seq<LinkAdded>)

  /** One element of `topology_data['nodes'][node_type]`. */
  datatype NodeInfo = NodeInfo(id: int, name: Option<string>)

  /** One `addSwitch(node_name, **metadata)` call; `caption` is the node's `name`, and absent
      means the switch name itself is the label. */
  datatype SwitchAdded = SwitchAdded(
    switchName: SwitchName, nodeId: int, nodeType: string, domain: int, controller: int, caption: Option<string>)

  /** One `addLink(switch1, switch2, delay=..., bw=..., loss=...)` call, with the node ids the
      two switch names were looked up for. */
  datatype LinkAdded = LinkAdded(
    node1: int, node2: int, switch1: SwitchName, switch2: SwitchName, delayMs: int, bandwidth: int, loss: int)

  /** The node kinds `_build_topology` visits, in this order; other keys are ignored. */
  const NodeTypes: seq<string> := ["meo", "leo", "ground", "haps"]

  /** Bandwidth of every intra-domain link, in Mbit/s. */
  const LinkBandwidth: int := 100

  // ---------------------------------------------------------------------------------------
  // Switch names: `'s%d' % node_id`.

  function DigitChar(d: int): char
    requires 0 <= d < 10
  {
    "0123456789"[d]
  }

  function NatToDecimal(n: nat): (r: string)
    ensures |r| >= 1 && r[0] != '-'
    ensures n < 10 <==> |r| == 1
  {
    if n < 10 then [DigitChar(n)] else NatToDecimal(n / 10) + [DigitChar(n % 10)]
  }

  function IntToDecimal(i: int): string {
    if i < 0 then "-" + NatToDecimal(-i) else NatToDecimal(i)
  }

  /** A switch of the emulated network, named `'s%d' % node_id`.  Names are kept as the id
      they render, which is lossless by `TextInjective`. */
  datatype SwitchName = Switch(nodeId: int) {
    function Text(): string {
      "s" + IntToDecimal(nodeId)
    }
  }

  lemma {:induction false} NatToDecimalInjective(a: nat, b: nat)
    ensures NatToDecimal(a) == NatToDecimal(b) ==> a == b
  {
    if NatToDecimal(a) == NatToDecimal(b) {
      var s := NatToDecimal(a);
      if a < 10 {
        assert |s| == 1 && b < 10;
        assert DigitChar(a) == s[0] == DigitChar(b);
      } else {
        assert |s| > 1 && b >= 10;
        assert DigitChar(a % 10) == s[|s| - 1] == DigitChar(b % 10);
        assert NatToDecimal(a / 10) == s[..|s| - 1] == NatToDecimal(b / 10);
        NatToDecimalInjective(a / 10, b / 10);
      }
    }
  }

  lemma IntToDecimalInjective(a: int, b: int)
    ensures IntToDecimal(a) == IntToDecimal(b) ==> a == b
  {
    if IntToDecimal(a) == IntToDecimal(b) {
      var s := IntToDecimal(a);
      if a < 0 {
        assert b < 0 by {
          assert s[0] == '-';
        }
        assert NatToDecimal(-a) == s[1..] == NatToDecimal(-b);
        NatToDecimalInjective(-a, -b);
      } else {
        assert b >= 0 by {
          assert s == NatToDecimal(a) && s[0] != '-';
        }
        NatToDecimalInjective(a, b);
      }
    }
  }

  /** Distinct node ids get distinct switch names, so `nodes_dict` never sends two nodes to
      one switch. */
  lemma TextInjective(a: SwitchName, b: SwitchName)
    ensures a.Text() == b.Text() ==> a == b
  {
    if a.Text() == b.Text() {
      assert IntToDecimal(a.nodeId) == a.Text()[1..] == IntToDecimal(b.nodeId);
      IntToDecimalInjective(a.nodeId, b.nodeId);
    }
  }

  // ---------------------------------------------------------------------------------------
  // DynamicTopologyManager

  /** What `get_next_slot_changes` reports from cursor `c`: nothing once `c` is the last slot,
      else the filtered walk between slot `c` and slot `c + 1`. */
  function NextChanges(ts: seq<Slot>, c: int): Result<Option<Changes>>
    requires c >= 1
  {
    if c >= |ts| then Ok(None)
    else
      match Detect(ts[c - 1], ts[c], true)
      case Err(e) => Err(e)
      case Ok(rs) => Ok(Some(Changes(rs, [], [])))
  }

  /** The cursor after `q` successful calls of `get_next_slot_changes` starting from `c`. */
  function Advanced(c: int, slotCount: int, q: nat): int {
    if c >= slotCount then c else Min(c + q, slotCount)
  }

  class DynamicTopologyManager {
    const timeSlots: seq<Slot>
    var currentSlot: int
    var remapCount: int

    /** The cursor never drops below the first slot, and `remap_count` is never written after
        construction. */
    ghost predicate Valid()
      reads this
    {
      currentSlot >= 1 && remapCount == 0
    }

    constructor (timeSlots: seq<Slot>)
      ensures Valid()
      ensures this.timeSlots == timeSlots && currentSlot == 1 && remapCount == 0
    {
      this.timeSlots := timeSlots;
      currentSlot := 1;
      remapCount := 0;
    }

    /** `get_next_slot_changes`: `None` at the last slot with the cursor left alone; otherwise
        the filtered remappings towards the next slot, and the cursor moves by one.  A
        `KeyError` raised inside the walk leaves the cursor where it was. */
    method GetNextSlotChanges() returns (r: Result<Option<Changes>>)
      requires Valid()
      modifies this
      ensures Valid()
      ensures r == NextChanges(timeSlots, old(currentSlot))
      ensures currentSlot == if r.Ok? && r.value.Some? then old(currentSlot) + 1 else old(currentSlot)
    {
      if currentSlot >= |timeSlots| {
        return Ok(None);
      }
      var nextSlot := currentSlot + 1;
      var prevPositions := timeSlots[currentSlot - 1];
      var nextPositions := timeSlots[nextSlot - 1];
      var remaps := ScanRemappings(prevPositions, nextPositions, true);
      if remaps.Err? {
        return Err(remaps.error);
      }
      currentSlot := nextSlot;
      return Ok(Some(Changes(remaps.value, [], [])));
    }

    /** `get_remapping_count`: the counter is never updated, so this is always 0. */
    method GetRemappingCount() returns (count: int)
      requires Valid()
      ensures count == 0
    {
      return remapCount;
    }
  }

  /** `new_links` and `removed_links` are empty in every report, and every reported node id
      lies within both slots. */
  lemma NextChangesShape(ts: seq<Slot>, c: int)
    requires c >= 1
    ensures NextChanges(ts, c).Ok? && NextChanges(ts, c).value.Some? ==>
      var ch := NextChanges(ts, c).value.value;
      && ch.newLinks == [] && ch.removedLinks == []
      && forall r :: r in ch.remappings ==> 1 <= r.nodeId <= |ts[c - 1]| && r.nodeId <= |ts[c]|
  {
    if c < |ts| && Detect(ts[c - 1], ts[c], true).Ok? {
      CollectCharacterised(ts[c - 1], ts[c], Min(|ts[c - 1]|, |ts[c]|), true);
    }
  }

  // ---------------------------------------------------------------------------------------
  // SAGINTopology

  /** The metadata `_create_switch` computes for one node: domain and controller of entry
      `node_id - 1` when `node_id <= len(node_positions)` (Python indexing, so a non-positive
      id counts from the end and may raise), else 0. */
  function SwitchFor(node: NodeInfo, nodeType: string, positions: Slot): Result<SwitchAdded> {
    var name := Switch(node.id);
    if node.id <= |positions| then
      match PyIndex(positions, node.id - 1)
      case Err(e) => Err(e)
      case Ok(pos) => Ok(SwitchAdded(name, node.id, nodeType, DomainOr0(pos), ControllerOr0(pos), node.name))
    else Ok(SwitchAdded(name, node.id, nodeType, 0, 0, node.name))
  }

  /** The `addSwitch` records for one kind's node list, in order, or the first error. */
  function KindSwitches(nodeType: string, list: seq<NodeInfo>, positions: Slot): Result<seq<SwitchAdded>> {
    if list == [] then Ok([])
    else
      match KindSwitches(nodeType, list[..|list| - 1], positions)
      case Err(e) => Err(e)
      case Ok(built) =>
        match SwitchFor(list[|list| - 1], nodeType, positions)
        case Err(e) => Err(e)
        case Ok(sw) => Ok(built + [sw])
  }

  /** The records for all kinds in `types` that are keys of `nodes`, in that order. */
  function AllSwitches(types: seq<string>, nodes: map<string, seq<NodeInfo>>, positions: Slot): Result<seq<SwitchAdded>> {
    if types == [] then Ok([])
    else
      var t := types[|types| - 1];
      match AllSwitches(types[..|types| - 1], nodes, positions)
      case Err(e) => Err(e)
      case Ok(built) =>
        if t !in nodes then Ok(built)
        else
          match KindSwitches(t, nodes[t], positions)
          case Err(e) => Err(e)
          case Ok(more) => Ok(built + more)
  }

  function KindIds(list: seq<NodeInfo>): set<int> {
    if list == [] then {} else KindIds(list[..|list| - 1]) + {list[|list| - 1].id}
  }

  function AllIds(types: seq<string>, nodes: map<string, seq<NodeInfo>>): set<int> {
    if types == [] then {}
    else
      var t := types[|types| - 1];
      AllIds(types[..|types| - 1], nodes) + if t in nodes then KindIds(nodes[t]) else {}
  }

  /** `nodes_dict` after the switches of one kind's list are added to `d`. */
  function KindDict(d: map<int, SwitchName>, list: seq<NodeInfo>): map<int, SwitchName> {
    if list == [] then d
    else
      var id := list[|list| - 1].id;
      KindDict(d, list[..|list| - 1])[id := Switch(id)]
  }

  /** `nodes_dict` after the switches of all kinds in `types` are added to `d`. */
  function AllDict(d: map<int, SwitchName>, types: seq<string>, nodes: map<string, seq<NodeInfo>>): map<int, SwitchName> {
    if types == [] then d
    else
      var t := types[|types| - 1];
      var e := AllDict(d, types[..|types| - 1], nodes);
      if t in nodes then KindDict(e, nodes[t]) else e
  }

  /** Every entry maps a node id to the switch named after it. */
  predicate NamedDict(d: map<int, SwitchName>) {
    forall id :: id in d ==> d[id] == Switch(id)
  }

  lemma {:induction false} KindDictCharacterised(d: map<int, SwitchName>, list: seq<NodeInfo>)
    ensures KindDict(d, list).Keys == d.Keys + KindIds(list)
    ensures forall id :: id in KindDict(d, list) ==> KindDict(d, list)[id] == if id in KindIds(list) then Switch(id) else d[id]
    decreases |list|
  {
    if list != [] {
      KindDictCharacterised(d, list[..|list| - 1]);
    }
  }

  /** Building the switches adds exactly the listed node ids to `nodes_dict`, each mapped to
      its own switch name, and keeps the other entries. */
  lemma {:induction false} AllDictCharacterised(d: map<int, SwitchName>, types: seq<string>, nodes: map<string, seq<NodeInfo>>)
    ensures AllDict(d, types, nodes).Keys == d.Keys + AllIds(types, nodes)
    ensures forall id :: id in AllDict(d, types, nodes) ==>
      AllDict(d, types, nodes)[id] == if id in AllIds(types, nodes) then Switch(id) else d[id]
    ensures NamedDict(d) ==> NamedDict(AllDict(d, types, nodes))
    decreases |types|
  {
    if types != [] {
      var t := types[|types| - 1];
      var e := AllDict(d, types[..|types| - 1], nodes);
      AllDictCharacterised(d, types[..|types| - 1], nodes);
      if t in nodes {
        KindDictCharacterised(e, nodes[t]);
      }
    }
  }

  /** Once a node of the list raises, the whole list does. */
  lemma {:induction false} KindSwitchesErrPersists(nodeType: string, list: seq<NodeInfo>, positions: Slot, k: nat)
    requires k <= |list| && KindSwitches(nodeType, list[..k], positions).Err?
    ensures KindSwitches(nodeType, list, positions).Err?
    decreases |list|
  {
    if k < |list| {
      var init := list[..|list| - 1];
      assert init[..k] == list[..k];
      KindSwitchesErrPersists(nodeType, init, positions, k);
    } else {
      assert list[..k] == list;
    }
  }

  /** Once a kind raises, the whole build does. */
  lemma {:induction false} AllSwitchesErrPersists(types: seq<string>, nodes: map<string, seq<NodeInfo>>, positions: Slot, k: nat)
    requires k <= |types| && AllSwitches(types[..k], nodes, positions).Err?
    ensures AllSwitches(types, nodes, positions).Err?
    decreases |types|
  {
    if k < |types| {
      var init := types[..|types| - 1];
      assert init[..k] == types[..k];
      AllSwitchesErrPersists(init, nodes, positions, k);
    } else {
      assert types[..k] == types;
    }
  }

  /** Every switch `_build_topology` adds is named `s<id>`, belongs to a listed node, and carries
      the domain and controller of that node's entry (0 past the end of the entries). */
  lemma {:induction false} AllSwitchesCharacterised(types: seq<string>, nodes: map<string, seq<NodeInfo>>, positions: Slot)
    requires AllSwitches(types, nodes, positions).Ok?
    ensures forall sw :: sw in AllSwitches(types, nodes, positions).value ==>
      && sw.switchName == Switch(sw.nodeId)
      && sw.nodeId in AllIds(types, nodes)
      && sw.nodeType in types && sw.nodeType in nodes
      && (1 <= sw.nodeId <= |positions| ==>
            sw.domain == DomainOr0(positions[sw.nodeId - 1]) && sw.controller == ControllerOr0(positions[sw.nodeId - 1]))
      && (sw.nodeId > |positions| ==> sw.domain == 0 && sw.controller == 0)
    decreases |types|
  {
    if types != [] {
      var init := types[..|types| - 1];
      var t := types[|types| - 1];
      AllSwitchesCharacterised(init, nodes, positions);
      if t in nodes {
        KindSwitchesCharacterised(t, nodes[t], positions);
      }
    }
  }

  lemma {:induction false} KindSwitchesCharacterised(nodeType: string, list: seq<NodeInfo>, positions: Slot)
    requires KindSwitches(nodeType, list, positions).Ok?
    ensures forall sw :: sw in KindSwitches(nodeType, list, positions).value ==>
      && sw.switchName == Switch(sw.nodeId)
      && sw.nodeId in KindIds(list)
      && sw.nodeType == nodeType
      && (1 <= sw.nodeId <= |positions| ==>
            sw.domain == DomainOr0(positions[sw.nodeId - 1]) && sw.controller == ControllerOr0(positions[sw.nodeId - 1]))
      && (sw.nodeId > |positions| ==> sw.domain == 0 && sw.controller == 0)
    decreases |list|
  {
    if list != [] {
      KindSwitchesCharacterised(nodeType, list[..|list| - 1], positions);
    }
  }

  /** `_calculate_link_delay`: every branch answers 100 ms. */
  function CalculateLinkDelay(positions: Slot, node1: int, node2: int): (delayMs: int)
    ensures delayMs == 100
  {
    var pos1 := if 1 <= node1 <= |positions| then Some(positions[node1 - 1]) else None;
    var pos2 := if 1 <= node2 <= |positions| then Some(positions[node2 - 1]) else None;
    if pos1.None? || pos2.None? || IsEmptyEntry(pos1.value) || IsEmptyEntry(pos2.value) then 100
    else if pos1.value.latitude.Some? && pos1.value.longitude.Some? then 100
    else 100
  }

  /** An entry with none of the five modelled keys.  Python's `not pos` is true only for an
      entry with no keys at all; an entry with other keys only is treated as empty here.
      Every branch of `CalculateLinkDelay` gives 100 ms, so the difference has no effect. */
  predicate IsEmptyEntry(p: Position) {
    p.domain.None? && p.controller.None? && p.latitude.None? && p.longitude.None? && p.nodeType.None?
  }

  /** Every entry has a `domain` key (`_create_links` reads `pos['domain']` directly). */
  predicate DomainsPresent(positions: Slot) {
    forall i :: 0 <= i < |positions| ==> positions[i].domain.Some?
  }

  /** The links from the first member of a group to each later member that has a switch. */
  function StarLinks(positions: Slot, first: int, others: seq<int>, dict: map<int, SwitchName>): seq<LinkAdded>
    requires first in dict
  {
    if others == [] then []
    else
      var o := others[|others| - 1];
      StarLinks(positions, first, others[..|others| - 1], dict)
        + if o in dict
          then [LinkAdded(first, o, dict[first], dict[o], CalculateLinkDelay(positions, first, o), LinkBandwidth, 0)]
          else []
  }

  /** The links one domain group contributes: none for domain 0, for a single member, or when
      the first member has no switch. */
  function DomainStar(positions: Slot, d: int, groups: map<int, seq<int>>, dict: map<int, SwitchName>): seq<LinkAdded> {
    if d == 0 || d !in groups || |groups[d]| <= 1 || groups[d][0] !in dict then []
    else StarLinks(positions, groups[d][0], groups[d][1..], dict)
  }

  /** The links of all groups, domains taken in dict insertion order. */
  function DomainLinks(positions: Slot, order: seq<int>, groups: map<int, seq<int>>, dict: map<int, SwitchName>): seq<LinkAdded> {
    if order == [] then []
    else
      DomainLinks(positions, order[..|order| - 1], groups, dict)
        + DomainStar(positions, order[|order| - 1], groups, dict)
  }

  lemma DomainLinksStep(positions: Slot, order: seq<int>, k: nat, groups: map<int, seq<int>>, dict: map<int, SwitchName>)
    requires k < |order|
    ensures DomainLinks(positions, order[..k + 1], groups, dict)
      == DomainLinks(positions, order[..k], groups, dict) + DomainStar(positions, order[k], groups, dict)
  {
    assert order[..k + 1][..k] == order[..k];
  }

  /** What `_create_links` passes to `addLink` for one slot. */
  function CreatedLinks(positions: Slot, dict: map<int, SwitchName>): seq<LinkAdded> {
    DomainLinks(positions, DomainOrder(positions, |positions|), Groups(positions, |positions|), dict)
  }

  /** `l` joins the lowest-numbered node of a nonzero domain to another node of that domain,
      both of which have switches, at 100 ms and 100 Mbit/s. */
  predicate IntraDomainStarLink(positions: Slot, dict: map<int, SwitchName>, l: LinkAdded) {
    && 1 <= l.node1 < l.node2 <= |positions|
    && DomainOr0(positions[l.node1 - 1]) != 0
    && DomainOr0(positions[l.node2 - 1]) == DomainOr0(positions[l.node1 - 1])
    && (forall j :: 0 <= j < l.node1 - 1 ==> DomainOr0(positions[j]) != DomainOr0(positions[l.node1 - 1]))
    && l.node1 in dict && l.node2 in dict
    && l.switch1 == dict[l.node1] && l.switch2 == dict[l.node2]
    && l.delayMs == 100 && l.bandwidth == 100 && l.loss == 0
  }

  lemma {:induction false} StarLinksCharacterised(positions: Slot, first: int, others: seq<int>, dict: map<int, SwitchName>, l: LinkAdded)
    requires first in dict
    ensures l in StarLinks(positions, first, others, dict) <==>
      && l.node1 == first && l.node2 in others && l.node2 in dict
      && l.switch1 == dict[first] && l.switch2 == dict[l.node2]
      && l.delayMs == 100 && l.bandwidth == LinkBandwidth && l.loss == 0
  {
    if others != [] {
      var init := others[..|others| - 1];
      StarLinksCharacterised(positions, first, init, dict, l);
      assert others == init + [others[|others| - 1]];
    }
  }

  lemma {:induction false} DomainLinksMembers(positions: Slot, order: seq<int>, groups: map<int, seq<int>>, dict: map<int, SwitchName>, l: LinkAdded)
    ensures l in DomainLinks(positions, order, groups, dict) <==>
      exists i :: 0 <= i < |order| && l in DomainStar(positions, order[i], groups, dict)
  {
    if order != [] {
      var init, last := order[..|order| - 1], order[|order| - 1];
      DomainLinksMembers(positions, init, groups, dict, l);
      assert forall i :: 0 <= i < |init| ==> init[i] == order[i];
      assert l in DomainLinks(positions, order, groups, dict) <==>
        l in DomainLinks(positions, init, groups, dict) || l in DomainStar(positions, last, groups, dict);
    }
  }

  /** `_create_links` adds exactly the intra-domain star links: a link for every node whose
      domain is nonzero and shared with a lower-numbered node, hung off the domain's
      lowest-numbered node, provided both have switches — and nothing else. */
  lemma CreatedLinksCharacterised(positions: Slot, dict: map<int, SwitchName>, l: LinkAdded)
    ensures l in CreatedLinks(positions, dict) <==> IntraDomainStarLink(positions, dict, l)
  {
    if l in CreatedLinks(positions, dict) {
      CreatedLinkIsStar(positions, dict, l);
    }
    if IntraDomainStarLink(positions, dict, l) {
      StarLinkIsCreated(positions, dict, l);
    }
  }

  lemma CreatedLinkIsStar(positions: Slot, dict: map<int, SwitchName>, l: LinkAdded)
    requires l in CreatedLinks(positions, dict)
    ensures IntraDomainStarLink(positions, dict, l)
  {
    var n := |positions|;
    var order, groups := DomainOrder(positions, n), Groups(positions, n);
    DomainLinksMembers(positions, order, groups, dict, l);
    var i :| 0 <= i < |order| && l in DomainStar(positions, order[i], groups, dict);
    GroupStarIsIntra(positions, dict, order[i], l);
  }

  /** A link of one domain's star is an intra-domain star link. */
  lemma GroupStarIsIntra(positions: Slot, dict: map<int, SwitchName>, d: int, l: LinkAdded)
    requires l in DomainStar(positions, d, Groups(positions, |positions|), dict)
    ensures IntraDomainStarLink(positions, dict, l)
  {
    var n := |positions|;
    var lst := Groups(positions, n)[d];
    GroupIsDomainList(positions, n, d);
    ListStarIsIntra(positions, dict, d, lst, l);
  }

  /** A star hung off the head of a domain list joins that head to a later member. */
  lemma ListStarIsIntra(positions: Slot, dict: map<int, SwitchName>, d: int, lst: seq<int>, l: LinkAdded)
    requires d != 0 && DomainList(positions, d, lst) && lst[0] in dict
    requires l in StarLinks(positions, lst[0], lst[1..], dict)
    ensures IntraDomainStarLink(positions, dict, l)
  {
    StarLinksCharacterised(positions, lst[0], lst[1..], dict, l);
    var u :| 0 <= u < |lst| - 1 && lst[1..][u] == l.node2;
    assert lst[u + 1] == l.node2;
  }

  lemma StarLinkIsCreated(positions: Slot, dict: map<int, SwitchName>, l: LinkAdded)
    requires IntraDomainStarLink(positions, dict, l)
    ensures l in CreatedLinks(positions, dict)
  {
    var n := |positions|;
    var order, groups := DomainOrder(positions, n), Groups(positions, n);
    var d := DomainOr0(positions[l.node1 - 1]);
    var t := GroupOfEntry(positions, n, l.node2);
    GroupIsDomainList(positions, n, d);
    IntraLinkInListStar(positions, dict, d, groups[d], t, l);
    assert l in DomainStar(positions, d, groups, dict);
    var i :| 0 <= i < |order| && order[i] == d;
    DomainLinksMembers(positions, order, groups, dict, l);
  }

  /** An intra-domain star link to member `t` of a domain list is among the list's star links. */
  lemma IntraLinkInListStar(positions: Slot, dict: map<int, SwitchName>, d: int, lst: seq<int>, t: nat, l: LinkAdded)
    requires IntraDomainStarLink(positions, dict, l) && d == DomainOr0(positions[l.node1 - 1])
    requires DomainList(positions, d, lst) && t < |lst| && lst[t] == l.node2
    ensures lst[0] == l.node1 && |lst| > 1
    ensures l in StarLinks(positions, lst[0], lst[1..], dict)
  {
    assert !(lst[0] < l.node1);
    assert !(l.node1 < lst[0]);
    assert t != 0;
    assert lst[1..][t - 1] == l.node2;
    StarLinksCharacterised(positions, lst[0], lst[1..], dict, l);
  }

  /** The grouping loop of `_create_links`: node ids by domain, and the domains in order of
      first appearance; `KeyError` at the first entry without a `domain` key. */
  method GroupByDomain(positions: Slot) returns (r: Result<(map<int, seq<int>>, seq<int>)>)
    ensures r.Ok? <==> DomainsPresent(positions)
    ensures r.Err? ==> r.error == KeyError
    ensures r.Ok? ==> r.value == (Groups(positions, |positions|), DomainOrder(positions, |positions|))
  {
    var groups: map<int, seq<int>> := map[];
    var order: seq<int> := [];
    var idx := 0;
    while idx < |positions|
      invariant 0 <= idx <= |positions|
      invariant forall i :: 0 <= i < idx ==> positions[i].domain.Some?
      invariant groups == Groups(positions, idx) && order == DomainOrder(positions, idx)
    {
      if positions[idx].domain.None? {
        return Err(KeyError);
      }
      var domain := positions[idx].domain.value;
      var nodeId := idx + 1;
      if domain !in groups {
        groups := groups[domain := []];
      }
      groups := groups[domain := groups[domain] + [nodeId]];
      if domain !in order {
        order := order + [domain];
      }
      idx := idx + 1;
    }
    return Ok((groups, order));
  }

  /** What `SAGINTopology.update_topology(new_slot)` returns from cursor `c`: the shared walk
      `RemapsBetween`, wrapped as a change report with no added or removed links. */
  function TopologyUpdate(ts: seq<Slot>, c: int, newSlot: int): Result<Option<Changes>> {
    match RemapsBetween(ts, c, newSlot)
    case Err(e) => Err(e)
    case Ok(None) => Ok(None)
    case Ok(Some(rs)) => Ok(Some(Changes(rs, [], [])))
  }

  /** From the same in-range cursor, the manager's report towards the next slot is the
      topology's report with the entries that leave controller 0 dropped: it keeps every
      other change, and it succeeds exactly when the topology's does. */
  lemma ManagerReportsFewerThanTopology(ts: seq<Slot>, c: int)
    requires 1 <= c < |ts|
    ensures NextChanges(ts, c).Ok? <==> TopologyUpdate(ts, c, c + 1).Ok?
    ensures NextChanges(ts, c).Ok? ==>
      var filtered := NextChanges(ts, c).value.value.remappings;
      var all := TopologyUpdate(ts, c, c + 1).value.value.remappings;
      && |filtered| <= |all|
      && (forall r :: r in filtered <==> r in all && r.oldController != 0)
  {
    var prev, next := ts[c - 1], ts[c];
    var m := Min(|prev|, |next|);
    if ControllersPresent(prev, next, m) {
      FilteredWithinUnfiltered(prev, next, m);
      CollectCharacterised(prev, next, m, true);
      CollectCharacterised(prev, next, m, false);
    }
  }

  class SAGINTopology {
    const timeSlots: seq<Slot>
    const nodes: map<string, seq<NodeInfo>>
    var currentSlot: int
    /** node id -> switch name */
    var nodesDict: map<int, SwitchName>
    /** the slot data the topology was built from */
    var domains: Slot
    var switches: seq<SwitchAdded>
    var links: seq<LinkAdded>

    /** Every entry of `nodes_dict` is the switch named after its node. */
    ghost predicate Valid()
      reads this
    {
      NamedDict(nodesDict)
    }

    /** The attribute set-up of `__init__`, before `_build_topology` runs. */
    constructor (timeSlots: seq<Slot>, nodes: map<string, seq<NodeInfo>>, currentSlot: int)
      ensures Valid()
      ensures this.timeSlots == timeSlots && this.nodes == nodes && this.currentSlot == currentSlot
      ensures nodesDict == map[] && domains == [] && switches == [] && links == []
    {
      this.timeSlots := timeSlots;
      this.nodes := nodes;
      this.currentSlot := currentSlot;
      nodesDict := map[];
      domains := [];
      switches := [];
      links := [];
    }

    /** `__init__`: set up the attributes, then `_build_topology`; an exception in the
        build escapes from the constructor, which `r` reports. */
    static method Create(timeSlots: seq<Slot>, nodes: map<string, seq<NodeInfo>>, currentSlot: int)
      returns (topo: SAGINTopology, r: Outcome)
      ensures fresh(topo) && topo.Valid()
      ensures topo.timeSlots == timeSlots && topo.nodes == nodes && topo.currentSlot == currentSlot
      ensures r.Pass? <==>
        && PyIndex(timeSlots, currentSlot - 1).Ok?
        && AllSwitches(NodeTypes, nodes, PyIndex(timeSlots, currentSlot - 1).value).Ok?
        && DomainsPresent(PyIndex(timeSlots, currentSlot - 1).value)
      ensures r.Pass? ==>
        var positions := PyIndex(timeSlots, currentSlot - 1).value;
        && topo.domains == positions
        && topo.switches == AllSwitches(NodeTypes, nodes, positions).value
        && topo.nodesDict == AllDict(map[], NodeTypes, nodes)
        && topo.links == CreatedLinks(positions, topo.nodesDict)
    {
      topo := new SAGINTopology(timeSlots, nodes, currentSlot);
      r := topo.BuildTopology();
    }

    /** `update_topology`: report the controller changes between the current slot and
        `new_slot`, then move the cursor; the topology itself is not rebuilt. */
    method UpdateTopology(newSlot: int) returns (r: Result<Option<Changes>>)
      modifies this`currentSlot
      ensures r == TopologyUpdate(timeSlots, old(currentSlot), newSlot)
      ensures currentSlot == if r.Ok? && r.value.Some? then newSlot else old(currentSlot)
    {
      if newSlot > |timeSlots| {
        return Ok(None);
      }
      var oldSlotData := PyIndex(timeSlots, currentSlot - 1);
      if oldSlotData.Err? {
        return Err(oldSlotData.error);
      }
      var newSlotData := PyIndex(timeSlots, newSlot - 1);
      if newSlotData.Err? {
        return Err(newSlotData.error);
      }
      var remaps := ScanRemappings(oldSlotData.value, newSlotData.value, false);
      if remaps.Err? {
        return Err(remaps.error);
      }
      currentSlot := newSlot;
      return Ok(Some(Changes(remaps.value, [], [])));
    }

    /** `_create_switch`: one `addSwitch` record and one `nodes_dict` entry, or the
        `IndexError` of indexing the positions with a non-positive id. */
    method CreateSwitch(node: NodeInfo, nodeType: string, positions: Slot) returns (r: Outcome)
      requires Valid()
      modifies this`switches, this`nodesDict
      ensures Valid()
      ensures r.Pass? <==> SwitchFor(node, nodeType, positions).Ok?
      ensures r.Fail? ==> r.error == IndexError && switches == old(switches) && nodesDict == old(nodesDict)
      ensures r.Pass? ==> switches == old(switches) + [SwitchFor(node, nodeType, positions).value]
      ensures r.Pass? ==> nodesDict == old(nodesDict)[node.id := Switch(node.id)]
    {
      var nodeId := node.id;
      var nodeName := Switch(nodeId);
      var domainId, controllerId := 0, 0;
      if nodeId <= |positions| {
        var pos := PyIndex(positions, nodeId - 1);
        if pos.Err? {
          return Fail(pos.error);
        }
        domainId := DomainOr0(pos.value);
        controllerId := ControllerOr0(pos.value);
      }
      switches := switches + [SwitchAdded(nodeName, nodeId, nodeType, domainId, controllerId, node.name)];
      nodesDict := nodesDict[nodeId := nodeName];
      return Pass;
    }

    /** `_create_links`: group the entries by `pos['domain']` (raising `KeyError` on an entry
        without one, before any link is added), then add the star links of every group. */
    method CreateLinks(positions: Slot) returns (r: Outcome)
      modifies this`links
      ensures r.Pass? <==> DomainsPresent(positions)
      ensures r.Fail? ==> r.error == KeyError && links == old(links)
      ensures r.Pass? ==> links == old(links) + CreatedLinks(positions, nodesDict)
    {
      var grouped := GroupByDomain(positions);
      if grouped.Err? {
        return Fail(grouped.error);
      }
      var (groups, order) := grouped.value;
      AddAllDomainLinks(positions, order, groups);
      return Pass;
    }

    /** The links of every group, domains taken in `order`. */
    method AddAllDomainLinks(positions: Slot, order: seq<int>, groups: map<int, seq<int>>)
      modifies this`links
      ensures links == old(links) + DomainLinks(positions, order, groups, nodesDict)
    {
      var k := 0;
      while k < |order|
        invariant 0 <= k <= |order|
        invariant links == old(links) + DomainLinks(positions, order[..k], groups, nodesDict)
      {
        DomainLinksStep(positions, order, k, groups, nodesDict);
        AddDomainLinks(positions, order[k], groups);
        k := k + 1;
      }
      assert order[..k] == order;
    }

    /** The links of one domain group, added in member order. */
    method AddDomainLinks(positions: Slot, domain: int, groups: map<int, seq<int>>)
      modifies this`links
      ensures links == old(links) + DomainStar(positions, domain, groups, nodesDict)
    {
      if domain != 0 && domain in groups && |groups[domain]| > 1 && groups[domain][0] in nodesDict {
        var members := groups[domain];
        var first := members[0];
        var switch1 := nodesDict[first];
        var j := 1;
        while j < |members|
          invariant 1 <= j <= |members|
          invariant links == old(links) + StarLinks(positions, first, members[1..j], nodesDict)
        {
          var other := members[j];
          assert members[1..j + 1][..j - 1] == members[1..j];
          if other in nodesDict {
            var switch2 := nodesDict[other];
            var delay := CalculateLinkDelay(positions, first, other);
            links := links + [LinkAdded(first, other, switch1, switch2, delay, LinkBandwidth, 0)];
          }
          j := j + 1;
        }
        assert members[1..j] == members[1..];
      }
    }

    /** `_build_topology`: pick the slot (Python indexing of `current_slot - 1`), add a switch
        for every node of the four kinds in order, then the links. */
    method BuildTopology() returns (r: Outcome)
      requires Valid()
      modifies this`switches, this`nodesDict, this`domains, this`links
      ensures Valid()
      ensures PyIndex(timeSlots, currentSlot - 1).Err? ==> r == Fail(IndexError) && switches == old(switches) && links == old(links)
      ensures PyIndex(timeSlots, currentSlot - 1).Ok? ==>
        var positions := PyIndex(timeSlots, currentSlot - 1).value;
        var built := AllSwitches(NodeTypes, nodes, positions);
        && domains == positions
        && (built.Err? ==> r == Fail(IndexError))
        && (built.Ok? ==>
              && switches == old(switches) + built.value
              && nodesDict == AllDict(old(nodesDict), NodeTypes, nodes)
              && (r.Pass? <==> DomainsPresent(positions))
              && (r.Fail? ==> r == Fail(KeyError) && links == old(links))
              && (r.Pass? ==> links == old(links) + CreatedLinks(positions, nodesDict)))
    {
      var slotData := PyIndex(timeSlots, currentSlot - 1);
      if slotData.Err? {
        return Fail(slotData.error);
      }
      var positions := slotData.value;
      domains := positions;
      r := CreateSwitches(NodeTypes, positions);
      if r.Pass? {
        r := CreateLinks(positions);
      }
    }

    /** The node loop of `_build_topology`: the switches of every kind in `types` order,
        stopping at the first node that raises. */
    method CreateSwitches(types: seq<string>, positions: Slot) returns (r: Outcome)
      requires Valid()
      modifies this`switches, this`nodesDict
      ensures Valid()
      ensures r.Pass? <==> AllSwitches(types, nodes, positions).Ok?
      ensures r.Fail? ==> r.error == IndexError
      ensures r.Pass? ==> switches == old(switches) + AllSwitches(types, nodes, positions).value
      ensures r.Pass? ==> nodesDict == AllDict(old(nodesDict), types, nodes)
    {
      var t := 0;
      while t < |types|
        invariant 0 <= t <= |types|
        invariant Valid()
        invariant AllSwitches(types[..t], nodes, positions).Ok?
        invariant switches == old(switches) + AllSwitches(types[..t], nodes, positions).value
        invariant nodesDict == AllDict(old(nodesDict), types[..t], nodes)
      {
        var nodeType := types[t];
        ghost var done, upTo := types[..t], types[..t + 1];
        assert upTo[..|upTo| - 1] == done && upTo[|upTo| - 1] == nodeType;
        ghost var built := AllSwitches(done, nodes, positions).value;
        if nodeType in nodes {
          var ok := CreateSwitchesOfKind(nodeType, nodes[nodeType], positions);
          if ok.Fail? {
            assert AllSwitches(upTo, nodes, positions).Err?;
            AllSwitchesErrPersists(types, nodes, positions, t + 1);
            return ok;
          }
          assert AllSwitches(upTo, nodes, positions) == Ok(built + KindSwitches(nodeType, nodes[nodeType], positions).value);
        } else {
          assert AllSwitches(upTo, nodes, positions) == Ok(built);
        }
        t := t + 1;
      }
      assert types[..t] == types;
      return Pass;
    }

    /** The inner loop of `_build_topology`: a switch for every node of one kind, in order,
        stopping at the first that raises. */
    method CreateSwitchesOfKind(nodeType: string, list: seq<NodeInfo>, positions: Slot) returns (r: Outcome)
      requires Valid()
      modifies this`switches, this`nodesDict
      ensures Valid()
      ensures r.Pass? <==> KindSwitches(nodeType, list, positions).Ok?
      ensures r.Fail? ==> r.error == IndexError
      ensures r.Pass? ==> switches == old(switches) + KindSwitches(nodeType, list, positions).value
      ensures r.Pass? ==> nodesDict == KindDict(old(nodesDict), list)
    {
      var j := 0;
      while j < |list|
        invariant 0 <= j <= |list|
        invariant Valid()
        invariant KindSwitches(nodeType, list[..j], positions).Ok?
        invariant switches == old(switches) + KindSwitches(nodeType, list[..j], positions).value
        invariant nodesDict == KindDict(old(nodesDict), list[..j])
      {
        assert list[..j + 1][..j] == list[..j];
        var ok := CreateSwitch(list[j], nodeType, positions);
        if ok.Fail? {
          KindSwitchesErrPersists(nodeType, list, positions, j + 1);
          return ok;
        }
        j := j + 1;
      }
      assert list[..j] == list;
      return Pass;
    }
  }
}
