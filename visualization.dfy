/** The integer logic of the result visualiser (`visualization/visualize_results.py`): which
    slots are plotted, the bounds checks on a requested slot, the grouping of a slot's
    positions into per-domain marks with controllers flagged, and the colour a domain gets.
    What is drawn is represented by the groups handed to the plotting library. */
module Visualization {
  import opened Slots

  // ---------------------------------------------------------------------------------------
  // Marks and domain groups.

  /** An entry is drawn only when it has both coordinates. */
  predicate Kept(p: Position) {
    p.latitude.Some? && p.longitude.Some?
  }

  /** `pos.get('type', 'UNKNOWN')` */
  function TypeOrUnknown(p: Position): string {
    if p.nodeType.Some? then p.nodeType.value else "UNKNOWN"
  }

  /** The `(lon, lat, node_type, is_controller)` tuple `plot_topology` groups. */
  datatype Mark = Mark(lon: real, lat: real, nodeType: string, isController: bool)

  /** The mark of the entry at list index `idx`: a controller exactly when `idx + 1` is the
      controller id the entry names (0 when it names none). */
  function MarkOf(p: Position, idx: int): Mark
    requires Kept(p)
  {
    Mark(p.longitude.value, p.latitude.value, TypeOrUnknown(p), idx + 1 == ControllerOr0(p))
  }

  /** `domain_groups` of `plot_topology` after the first `k` entries. */
  function TopologyGroups(s: Slot, k: nat): map<int, seq<Mark>>
    requires k <= |s|
  {
    if k == 0 then map[]
    else
      var g := TopologyGroups(s, k - 1);
      var p := s[k - 1];
      if !Kept(p) then g
      else
        var d := DomainOr0(p);
        g[d := (if d in g then g[d] else []) + [MarkOf(p, k - 1)]]
  }

  /** Reference definition: the marks of the kept entries of domain `d`, in list order. */
  function DomainMarks(s: Slot, k: nat, d: int): seq<Mark>
    requires k <= |s|
  {
    if k == 0 then []
    else DomainMarks(s, k - 1, d) + (if Kept(s[k - 1]) && DomainOr0(s[k - 1]) == d then [MarkOf(s[k - 1], k - 1)] else [])
  }

  /** The grouping holds a key exactly for the domains of kept entries, and under each key
      exactly that domain's marks in list order. */
  lemma {:induction false} TopologyGroupsCharacterised(s: Slot, k: nat)
    requires k <= |s|
    ensures forall d :: d in TopologyGroups(s, k) <==> DomainMarks(s, k, d) != []
    ensures forall d :: d in TopologyGroups(s, k) ==> TopologyGroups(s, k)[d] == DomainMarks(s, k, d)
  {
    if k > 0 {
      TopologyGroupsCharacterised(s, k - 1);
    }
  }

  /** A mark lies in domain `d`'s list exactly when some kept entry of domain `d` yields it. */
  lemma {:induction false} DomainMarksCharacterised(s: Slot, k: nat, d: int, m: Mark)
    requires k <= |s|
    ensures m in DomainMarks(s, k, d) <==>
      exists i :: 0 <= i < k && Kept(s[i]) && DomainOr0(s[i]) == d && MarkOf(s[i], i) == m
  {
    if k > 0 {
      DomainMarksCharacterised(s, k - 1, d, m);
      if m in DomainMarks(s, k, d) && m !in DomainMarks(s, k - 1, d) {
        assert MarkOf(s[k - 1], k - 1) == m;
      }
    }
  }

  /** Every kept entry is drawn in its own domain's group, flagged as a controller exactly
      when its index plus one is its controller id; an entry without coordinates is drawn in
      no group. */
  lemma KeptEntryDrawn(s: Slot, i: nat)
    requires i < |s|
    ensures Kept(s[i]) ==>
      && DomainOr0(s[i]) in TopologyGroups(s, |s|)
      && MarkOf(s[i], i) in TopologyGroups(s, |s|)[DomainOr0(s[i])]
      && (MarkOf(s[i], i).isController <==> i + 1 == ControllerOr0(s[i]))
    ensures !Kept(s[i]) ==> TopologyGroups(s, i + 1) == TopologyGroups(s, i)
  {
    TopologyGroupsCharacterised(s, |s|);
    DomainMarksCharacterised(s, |s|, DomainOr0(s[i]), if Kept(s[i]) then MarkOf(s[i], i) else Mark(0.0, 0.0, "", false));
  }

  /** The grouping loop of `plot_topology`. */
  method GroupMarks(s: Slot) returns (groups: map<int, seq<Mark>>)
    ensures groups == TopologyGroups(s, |s|)
  {
    groups := map[];
    for idx := 0 to |s|
      invariant groups == TopologyGroups(s, idx)
    {
      var pos := s[idx];
      var domain := DomainOr0(pos);
      if Kept(pos) {
        var isController := idx + 1 == ControllerOr0(pos);
        var mark := Mark(pos.longitude.value, pos.latitude.value, TypeOrUnknown(pos), isController);
        if domain !in groups {
          groups := groups[domain := []];
        }
        groups := groups[domain := groups[domain] + [mark]];
      }
    }
  }

  /** The `{'nodes': [...], 'controllers': [...]}` entry of `plot_controller_evolution`. */
  datatype Buckets = Buckets(nodes: seq<(real, real)>, controllers: seq<(real, real)>)

  /** `domain_groups` of `plot_controller_evolution` after the first `k` entries. */
  function EvolutionGroups(s: Slot, k: nat): map<int, Buckets>
    requires k <= |s|
  {
    if k == 0 then map[]
    else
      var g := EvolutionGroups(s, k - 1);
      var p := s[k - 1];
      if !Kept(p) then g
      else
        var d := DomainOr0(p);
        var b := if d in g then g[d] else Buckets([], []);
        var pt := (p.longitude.value, p.latitude.value);
        g[d := if k == ControllerOr0(p) then b.(controllers := b.controllers + [pt]) else b.(nodes := b.nodes + [pt])]
  }

  /** Splits a domain's marks into plain nodes and controllers, keeping coordinates only. */
  function Split(ms: seq<Mark>): Buckets {
    if ms == [] then Buckets([], [])
    else
      var b := Split(ms[..|ms| - 1]);
      var m := ms[|ms| - 1];
      if m.isController then b.(controllers := b.controllers + [(m.lon, m.lat)])
      else b.(nodes := b.nodes + [(m.lon, m.lat)])
  }

  /** Each mark lands in exactly one of the two lists: the lists together are as long as the
      marks, a controller mark's point is among the controllers and any other mark's among
      the nodes, and every listed point comes from a mark of the matching kind. */
  lemma {:induction false} SplitCharacterised(ms: seq<Mark>)
    ensures |Split(ms).nodes| + |Split(ms).controllers| == |ms|
    ensures forall m :: m in ms && m.isController ==> (m.lon, m.lat) in Split(ms).controllers
    ensures forall m :: m in ms && !m.isController ==> (m.lon, m.lat) in Split(ms).nodes
    ensures forall pt :: pt in Split(ms).controllers ==> exists m :: m in ms && m.isController && (m.lon, m.lat) == pt
    ensures forall pt :: pt in Split(ms).nodes ==> exists m :: m in ms && !m.isController && (m.lon, m.lat) == pt
  {
    if ms != [] {
      var init := ms[..|ms| - 1];
      SplitCharacterised(init);
      assert ms == init + [ms[|ms| - 1]];
    }
  }

  /** The evolution plot groups the same entries as the topology plot: the same domains, and
      under each the topology plot's marks split by their controller flag. */
  lemma {:induction false} EvolutionSplitsTopology(s: Slot, k: nat)
    requires k <= |s|
    ensures EvolutionGroups(s, k).Keys == TopologyGroups(s, k).Keys
    ensures forall d :: d in EvolutionGroups(s, k) ==> EvolutionGroups(s, k)[d] == Split(TopologyGroups(s, k)[d])
  {
    if k > 0 {
      EvolutionSplitsTopology(s, k - 1);
      var p := s[k - 1];
      if Kept(p) {
        var d := DomainOr0(p);
        var ms := if d in TopologyGroups(s, k - 1) then TopologyGroups(s, k - 1)[d] else [];
        var ms' := ms + [MarkOf(p, k - 1)];
        assert ms'[..|ms'| - 1] == ms;
      }
    }
  }

  /** The grouping loop of `plot_controller_evolution` for one slot. */
  method GroupBuckets(s: Slot) returns (groups: map<int, Buckets>)
    ensures groups == EvolutionGroups(s, |s|)
  {
    groups := map[];
    for posIdx := 0 to |s|
      invariant groups == EvolutionGroups(s, posIdx)
    {
      var pos := s[posIdx];
      if !Kept(pos) {
        continue;
      }
      var domain := DomainOr0(pos);
      var isController := posIdx + 1 == ControllerOr0(pos);
      if domain !in groups {
        groups := groups[domain := Buckets([], [])];
      }
      var pt := (pos.longitude.value, pos.latitude.value);
      if isController {
        groups := groups[domain := groups[domain].(controllers := groups[domain].controllers + [pt])];
      } else {
        groups := groups[domain := groups[domain].(nodes := groups[domain].nodes + [pt])];
      }
    }
  }

  // ---------------------------------------------------------------------------------------
  // Colours.

  /** The colour a domain is drawn in: grey for domain 0, otherwise entry `domain % 12` of
      the twelve-colour palette (Python's `%`, which agrees with Dafny's for a positive
      divisor). */
  datatype Colour = Grey | Palette(index: int)

  const PaletteSize := 12

  function DomainColour(d: int): (c: Colour)
    ensures c == Grey <==> d == 0
    ensures c.Palette? ==> 0 <= c.index < PaletteSize && (d - c.index) % PaletteSize == 0
  {
    if d == 0 then Grey else Palette(d % PaletteSize)
  }

  /** Twelve consecutive nonzero domains get twelve different colours; domains twelve apart
      share one. */
  lemma ColourCycle(a: int, b: int)
    requires a != 0 && b != 0
    ensures (a - b) % PaletteSize == 0 <==> DomainColour(a) == DomainColour(b)
  {
  }

  // ---------------------------------------------------------------------------------------
  // Choosing and checking slots.

  /** The slots `plot_controller_evolution` plots when none are given, for `n` slots: four
      from 4 slots on and `n` below that (none when there are no slots), starting at 1,
      never decreasing and never beyond `n`. */
  function DefaultSlots(n: int): (r: seq<int>)
    ensures |r| == if n >= 4 then 4 else if n <= 0 then 0 else n
    ensures n >= 1 ==> r[0] == 1
    ensures forall i :: 0 <= i < |r| ==> 1 <= r[i] <= n
    ensures forall i, j :: 0 <= i < j < |r| ==> r[i] <= r[j]
  {
    if n >= 22 then [1, 8, 15, 22]
    else if n >= 15 then [1, 8, 15, n]
    else if n >= 8 then [1, 8, n, n]
    else if n <= 0 then []
    else seq(Min(4, n), i => i + 1)
  }

  /** How many leading slots of `slots` the evolution plot draws: it stops at the fourth
      panel and at the first slot beyond `n`. */
  function DrawnCount(slots: seq<int>, n: int): (c: nat)
    ensures c <= |slots| && c <= 4
  {
    if slots == [] || slots[0] > n then 0
    else Min(4, 1 + DrawnCount(slots[1..], n))
  }

  /** The drawn slots are the longest prefix of at most four slots, none beyond `n`. */
  lemma {:induction false} DrawnCountCharacterised(slots: seq<int>, n: int)
    ensures forall i :: 0 <= i < DrawnCount(slots, n) ==> slots[i] <= n
    ensures DrawnCount(slots, n) < 4 && DrawnCount(slots, n) < |slots| ==> slots[DrawnCount(slots, n)] > n
  {
    if slots != [] && slots[0] <= n {
      var rest := slots[1..];
      DrawnCountCharacterised(rest, n);
      forall i | 0 <= i < DrawnCount(slots, n)
        ensures slots[i] <= n
      {
        if i > 0 {
          assert slots[i] == rest[i - 1];
        }
      }
    }
  }

  /** The panels drawn for `slots`, in order: one grouping per slot, the slot read with
      Python indexing (so a slot below 1 counts from the end or raises). */
  function Panels(ts: seq<Slot>, slots: seq<int>): Result<seq<map<int, Buckets>>> {
    if slots == [] then Ok([])
    else
      match Panels(ts, slots[..|slots| - 1])
      case Err(e) => Err(e)
      case Ok(ps) =>
        match PyIndex(ts, slots[|slots| - 1] - 1)
        case Err(e) => Err(e)
        case Ok(s) => Ok(ps + [EvolutionGroups(s, |s|)])
  }

  /** Once a prefix of the requested slots raises, every longer list raises the same way. */
  lemma {:induction false} PanelsErrExtends(ts: seq<Slot>, a: seq<int>, b: seq<int>)
    requires Panels(ts, a).Err?
    ensures Panels(ts, a + b) == Panels(ts, a)
    decreases |b|
  {
    if b == [] {
      assert a + b == a;
    } else {
      var b' := b[..|b| - 1];
      PanelsErrExtends(ts, a, b');
      assert (a + b)[..|a + b| - 1] == a + b';
    }
  }

  /** Slots between 1 and the slot count always yield one panel each: panel `i` groups slot
      `slots[i]`. */
  lemma {:induction false} PanelsInRange(ts: seq<Slot>, slots: seq<int>)
    requires forall i :: 0 <= i < |slots| ==> 1 <= slots[i] <= |ts|
    ensures Panels(ts, slots).Ok?
    ensures |Panels(ts, slots).value| == |slots|
    ensures forall i :: 0 <= i < |slots| ==>
      Panels(ts, slots).value[i] == EvolutionGroups(ts[slots[i] - 1], |ts[slots[i] - 1]|)
  {
    if slots != [] {
      PanelsInRange(ts, slots[..|slots| - 1]);
    }
  }

  function ChosenSlots(ts: seq<Slot>, slots: Option<seq<int>>): seq<int> {
    if slots.None? then DefaultSlots(|ts|) else slots.value
  }

  /** `plot_controller_evolution` up to the drawing: the panels of the drawn slots. */
  method PlotControllerEvolution(ts: seq<Slot>, slots: Option<seq<int>>) returns (r: Result<seq<map<int, Buckets>>>)
    ensures var chosen := ChosenSlots(ts, slots);
      r == Panels(ts, chosen[..DrawnCount(chosen, |ts|)])
  {
    var chosen := if slots.None? then DefaultSlots(|ts|) else slots.value;
    ghost var count := DrawnCount(chosen, |ts|);
    DrawnCountCharacterised(chosen, |ts|);
    var panels: seq<map<int, Buckets>> := [];
    var idx := 0;
    while idx < |chosen|
      invariant 0 <= idx <= count
      invariant Panels(ts, chosen[..idx]) == Ok(panels)
    {
      var slot := chosen[idx];
      if idx >= 4 || slot > |ts| {
        break;
      }
      var slotData := PyIndex(ts, slot - 1);
      assert chosen[..idx + 1][..idx] == chosen[..idx];
      assert idx < count;
      if slotData.Err? {
        PanelsErrExtends(ts, chosen[..idx + 1], chosen[idx + 1..count]);
        assert chosen[..idx + 1] + chosen[idx + 1..count] == chosen[..count];
        return Err(slotData.error);
      }
      var groups := GroupBuckets(slotData.value);
      panels := panels + [groups];
      idx := idx + 1;
    }
    return Ok(panels);
  }

  /** With the default choice every chosen slot is drawn and none raises. */
  lemma DefaultSlotsAllDrawn(ts: seq<Slot>)
    ensures DrawnCount(DefaultSlots(|ts|), |ts|) == |DefaultSlots(|ts|)|
    ensures Panels(ts, DefaultSlots(|ts|)).Ok?
    ensures |Panels(ts, DefaultSlots(|ts|)).value| == |DefaultSlots(|ts|)|
  {
    var d := DefaultSlots(|ts|);
    DrawnCountCharacterised(d, |ts|);
    PanelsInRange(ts, d);
  }

  /** `plot_topology` up to the drawing: `ValueError` for a slot beyond the slot count,
      Python indexing otherwise, then the slot's domain groups.  So a slot from 1 to the
      slot count is plotted from that slot, and one at or below minus the slot count raises
      `IndexError`. */
  function TopologyPlot(ts: seq<Slot>, slot: int): (r: Result<map<int, seq<Mark>>>)
    ensures 1 <= slot <= |ts| ==> r == Ok(TopologyGroups(ts[slot - 1], |ts[slot - 1]|))
    ensures r == Err(ValueError) <==> slot > |ts|
    ensures r == Err(IndexError) <==> slot <= -|ts|
    ensures r.Ok? <==> -|ts| < slot <= |ts|
  {
    if slot > |ts| then Err(ValueError)
    else
      match PyIndex(ts, slot - 1)
      case Err(e) => Err(e)
      case Ok(s) => Ok(TopologyGroups(s, |s|))
  }

  method PlotTopology(ts: seq<Slot>, slot: int) returns (r: Result<map<int, seq<Mark>>>)
    ensures r == TopologyPlot(ts, slot)
  {
    if slot > |ts| {
      return Err(ValueError);
    }
    var slotData := PyIndex(ts, slot - 1);
    if slotData.Err? {
      return Err(slotData.error);
    }
    var groups := GroupMarks(slotData.value);
    return Ok(groups);
  }

  /** `generate_report` up to the drawing: topology plots of slots 1 to `min(5, n)` and the
      evolution plot, with `[1, 8, 15, 22]` passed explicitly from 22 slots on.  None of its
      plots raises, and the explicit list is the default one. */
  method GenerateReport(ts: seq<Slot>) returns (topologies: seq<map<int, seq<Mark>>>, evolution: seq<map<int, Buckets>>)
    ensures |topologies| == Min(5, |ts|)
    ensures forall i :: 0 <= i < |topologies| ==> topologies[i] == TopologyGroups(ts[i], |ts[i]|)
    ensures Panels(ts, DefaultSlots(|ts|)) == Ok(evolution)
  {
    var numSlotsToPlot := Min(5, |ts|);
    topologies := [];
    for slot := 1 to numSlotsToPlot + 1
      invariant |topologies| == slot - 1
      invariant forall i :: 0 <= i < |topologies| ==> topologies[i] == TopologyGroups(ts[i], |ts[i]|)
    {
      var plotted := PlotTopology(ts, slot);
      topologies := topologies + [plotted.value];
    }
    var numSlotsTotal := |ts|;
    var slots := if numSlotsTotal >= 22 then Some([1, 8, 15, 22]) else None;
    DefaultSlotsAllDrawn(ts);
    assert ChosenSlots(ts, slots)[..DrawnCount(ChosenSlots(ts, slots), |ts|)] == DefaultSlots(|ts|);
    var panels := PlotControllerEvolution(ts, slots);
    evolution := panels.value;
  }
}
