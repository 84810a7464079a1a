# CPP-SAGIN core, modelled in Dafny

CPP-SAGIN emulates a space–air–ground integrated network (SAGIN). A precomputed topology
feed gives, for each time slot, one `node_positions` list. Entry `i` of that list describes
node `i + 1`: its domain, its controller, its coordinates and its type. This project models
the code that interprets that feed:

- **Slots** (`slots.dfy`): the feed as values, and the Python semantics the code relies on.
  These are list indexing with negative wrap-around, `KeyError` on a missing key, and
  `.get(key, 0)` defaults. The module also holds the two walks that three files share:
  - the slot-to-slot controller-change walk over `zip(prev, next)`;
  - the grouping of entries by domain.
- **Topology** (`topology/sagin_topology.py`, `topology.dfy`):
  - `DynamicTopologyManager`, whose slot cursor reports the filtered remappings towards the
    next slot;
  - `SAGINTopology`, which records the switches (`addSwitch`) and links (`addLink`) it
    builds for a slot, keeps `nodes_dict`, and reports unfiltered remappings on
    `update_topology`.
- **Controller** (`controller/comosat_controller.py`, `controller.dfy`):
  - `COMOSATController`, with its three tables (dpid → domain, dpid → controller,
    domain → dpids), its statistics counters and the flow rules it sends;
  - `MultiDomainCOMOSATController`, which notifies its domain controllers on a slot change.
- **Orchestrator** (`orchestrator/orchestrator.py`, `orchestrator.dfy`): the metrics log,
  the slot cursor, the slot loop of a run and the summary totals.
- **Visualization** (`visualization/visualize_results.py`, `visualization.dfy`):
  - which slots get plotted, and the bounds check on a requested slot;
  - grouping a slot's positions into per-domain marks, with controllers flagged;
  - the colour each domain gets.

Python exceptions are modelled as results. `Result` is `Ok(value)` or `Err(KeyError |
IndexError | ValueError)`, and `Outcome` is `Pass` or `Fail(error)`. A method that raises
leaves its object in the state the Python code leaves it in, because later assignments do
not run. Stateful classes are Dafny classes, and each method is proved against a pure
specification function. The properties the code promises are lemmas about those functions.

Where the design documentation and the code disagree, the model follows the code:

- The design says a change is not counted when the node's *current* controller is 0. The
  code (`get_next_slot_changes`) instead skips a change when the node's *previous*
  controller is 0. The model follows the code: see `Slots.FromUnassignedSkipped`.
- The design describes one remapping report per slot. The orchestrator actually consumes
  two reports per slot; see Findings.
- `MultiDomainCOMOSATController.domain_controllers` is never filled in the code. The model
  keeps it as a sequence of distinct controller objects, so its notification loop is
  modelled for any contents.

## Model

| member | source | states |
|---|---|---|
| Slots.PyIndex | orchestrator/orchestrator.py:194 | Python list indexing: succeeds exactly for `-len <= i < len`; a negative index counts from the end; anything else raises `IndexError` |
| Slots.ScanRemappings | topology/sagin_topology.py:269-277 | The `enumerate(zip(...))` walk returns exactly the detector's result. It raises `KeyError` as soon as a visited entry lacks `controller` |
| Slots.CollectCharacterised | topology/sagin_topology.py:269-277 | A record is produced exactly for a visited entry whose controller changes (and, with the filter, whose old controller is nonzero), and it carries both slots' controllers. Node ids are strictly ascending, so no node is reported twice, and none exceeds the length of the shorter slot |
| Slots.RecordForChangedEntry | topology/sagin_topology.py:217-222 | Completeness per node: every changed entry within the walk yields its record |
| Slots.FilteredWithinUnfiltered | topology/sagin_topology.py:272 | The manager's old-controller-0 filter only drops records: the filtered report is no longer than the unfiltered one and is contained in it |
| Slots.FromUnassignedSkipped | topology/sagin_topology.py:272 | A node whose old controller is 0 never appears in the filtered report, whatever its new controller. The unfiltered walk reports it once its new controller differs |
| Slots.GroupsCharacterised | controller/comosat_controller.py:98-109 | A dpid is listed under domain `d` exactly when its entry has domain `d` (default 0). Every list is non-empty and strictly ascending. The dict's key order lists each domain exactly once |
| Slots.FirstMemberIsLowest | topology/sagin_topology.py:114-122 | The first member of a domain's group is its lowest-numbered node |
| Topology.TextInjective | topology/sagin_topology.py:78 | `'s%d' % node_id` is injective: distinct node ids get distinct switch names |
| Topology.DynamicTopologyManager.constructor | topology/sagin_topology.py:237-246 | The cursor starts at slot 1 and the remap counter at 0 |
| Topology.DynamicTopologyManager.GetNextSlotChanges | topology/sagin_topology.py:248-280 | `None`, with the cursor unchanged, once the cursor reaches the last slot. Otherwise it returns the filtered remappings between the cursor's slot and the next, and the cursor advances by one. On `KeyError` the cursor stays where it was |
| Topology.DynamicTopologyManager.GetRemappingCount | topology/sagin_topology.py:282-284 | Always 0: the counter is never written after construction |
| Topology.NextChangesShape | topology/sagin_topology.py:263-277 | `new_links` and `removed_links` are always empty. Every reported node id lies within both slots |
| Topology.ManagerReportsFewerThanTopology | topology/sagin_topology.py:209-222 | From the same cursor, the manager's report is the topology's report without the entries that leave controller 0. Each succeeds exactly when the other does |
| Topology.KindDictCharacterised | topology/sagin_topology.py:62-63 | Adding one kind's switches adds exactly that kind's node ids to `nodes_dict`, each mapped to its own switch name, and keeps every other entry |
| Topology.AllDictCharacterised | topology/sagin_topology.py:57-63 | `nodes_dict` gains exactly the ids of the listed nodes of the known kinds, each mapped to its own switch name, and keeps its other entries |
| Topology.KindSwitchesErrPersists | topology/sagin_topology.py:62-63 | Once one node of a kind's list raises, building that whole list raises |
| Topology.AllSwitchesErrPersists | topology/sagin_topology.py:57-63 | Once one kind raises, the whole build raises |
| Topology.KindSwitchesCharacterised | topology/sagin_topology.py:68-101 | Each switch built for one kind is named after its node, belongs to that kind's list, and carries the kind as its type. Its domain and controller are those of entry `id - 1` (default 0), or 0 when the id is past the end of the entries |
| Topology.AllSwitchesCharacterised | topology/sagin_topology.py:56-63 | Every switch built is named after its node, belongs to a listed node of a known kind, and carries the domain and controller of its entry (0 past the end) |
| Topology.CalculateLinkDelay | topology/sagin_topology.py:150-183 | Every branch answers 100 ms |
| Topology.StarLinksCharacterised | topology/sagin_topology.py:136-148 | The links of one group join its first node to each later member that has a switch, at 100 ms, 100 Mbit/s and loss 0 |
| Topology.DomainLinksMembers | topology/sagin_topology.py:125-127 | A link comes from the domain groups exactly when one of the domains in key order contributes it |
| Topology.CreatedLinksCharacterised | topology/sagin_topology.py:103-148 | `_create_links` adds exactly the intra-domain star links and nothing else. Each joins the lowest-numbered node of a nonzero domain to another node of that domain, both with switches |
| Topology.CreatedLinkIsStar | topology/sagin_topology.py:113-148 | Every link `_create_links` adds joins the lowest-numbered node of a nonzero domain to a later node of the same domain, both with switches, at 100 ms, 100 Mbit/s and no loss |
| Topology.StarLinkIsCreated | topology/sagin_topology.py:113-148 | Conversely, every such intra-domain star link is among the links `_create_links` adds |
| Topology.GroupByDomain | topology/sagin_topology.py:114-122 | The grouping loop builds the domain groups and their key order. It raises `KeyError` exactly when some entry lacks `domain` |
| Topology.SAGINTopology.constructor | topology/sagin_topology.py:38-43 | Attributes as set before the build: the given slot, and empty `nodes_dict` and records |
| Topology.SAGINTopology.Create | topology/sagin_topology.py:29-46 | Succeeds exactly when the slot lookup, every switch and the domain grouping succeed. On success it holds the slot's switches, `nodes_dict` and links |
| Topology.SAGINTopology.UpdateTopology | topology/sagin_topology.py:185-226 | Returns `None` past the last slot. Otherwise it returns the unfiltered changes between the current slot and `new_slot` (Python indexing on both) and moves the cursor to `new_slot`. On error the cursor is unchanged |
| Topology.SAGINTopology.CreateSwitch | topology/sagin_topology.py:68-101 | One switch record and one `nodes_dict` entry `id -> s<id>`, or `IndexError` with nothing changed |
| Topology.SAGINTopology.CreateLinks | topology/sagin_topology.py:103-148 | Appends exactly the intra-domain star links, or raises `KeyError` with no link added |
| Topology.SAGINTopology.AddAllDomainLinks | topology/sagin_topology.py:125-148 | The loop over `domain_groups.items()` appends the star links of each domain in the dict's insertion order |
| Topology.SAGINTopology.AddDomainLinks | topology/sagin_topology.py:125-148 | Appends one domain group's star links |
| Topology.SAGINTopology.BuildTopology | topology/sagin_topology.py:48-66 | Picks the slot with Python indexing, builds the switches of the four kinds in order and then the links. The first error stops it |
| Topology.SAGINTopology.CreateSwitches | topology/sagin_topology.py:57-63 | The switches of every known kind, in kind order, and the matching `nodes_dict` |
| Topology.SAGINTopology.CreateSwitchesOfKind | topology/sagin_topology.py:61-63 | The switches of one kind's list, in order |
| Controller.FlatTablesCharacterised | controller/comosat_controller.py:98-104 | After loading, both flat tables hold exactly dpids `1..n`, with each entry's domain and controller (default 0) |
| Controller.LoadedTablesAgree | controller/comosat_controller.py:98-109 | `switch_domains` lists a dpid under `d` exactly when `domain_assignments` maps it to `d` |
| Controller.LastNewCharacterised | controller/comosat_controller.py:259-265 | The last record naming a dpid exists exactly when some record names it, and it carries that record's new controller |
| Controller.ApplyRemapsCharacterised | controller/comosat_controller.py:259-268 | Updating never adds or removes dpids. Each known dpid takes the new controller of the last record naming it; the other dpids keep theirs |
| Controller.ApplyRemapsIdempotent | controller/comosat_controller.py:259-265 | Delivering the same remappings twice leaves the table as delivering them once does |
| Controller.RemapsRebuildControllerTable | controller/comosat_controller.py:259-265 | Applying the unfiltered remappings between two slots to the first slot's controller table gives every visited dpid its controller in the second slot. Dpids beyond the shorter slot keep their old controller |
| Controller.LastNewOfDetect | controller/comosat_controller.py:320-331 | In the unfiltered walk, a dpid has a last record exactly when the walk visits it and its controller changes. That record carries the new controller |
| Controller.RemoveFirst | controller/comosat_controller.py:197 | `list.remove`: `ValueError` exactly when the value is absent. Otherwise the list with its first occurrence of the value dropped and the rest kept in order |
| Controller.ReinstallRaises | controller/comosat_controller.py:184-197 | As written, the first install for a switch of a nonzero domain deletes it from the stored domain list. A second install for the same switch raises `ValueError` |
| Controller.RemoveFromAscending | controller/comosat_controller.py:197 | Removing a member of an ascending list keeps it ascending and leaves no copy of the member |
| Controller.DomainPeersCharacterised | controller/comosat_controller.py:184-201 | Intended peers: none for domain 0. Otherwise exactly the other switches of the switch's domain, read without modifying `switch_domains` |
| Controller.Without | controller/comosat_controller.py:196-201 | Membership in the peer list is membership in the domain list minus the switch itself |
| Controller.COMOSATController.constructor | controller/comosat_controller.py:38-58 | Empty tables, zero counters, no rules sent |
| Controller.COMOSATController.LoadDomainAssignments | controller/comosat_controller.py:75-112 | With no data, or a slot past the end, nothing changes. Otherwise the three tables become those of the slot (Python indexing, so `IndexError` at or below `-n`) |
| Controller.COMOSATController.FillTables | controller/comosat_controller.py:98-109 | After clearing, the loop leaves `domain_assignments`, `controller_assignments` and `switch_domains` equal to the tables of the slot's entries |
| Controller.LoadedTablesConsistent | controller/comosat_controller.py:98-109 | The three tables loaded from any slot agree: the same dpids in both flat tables, ascending domain lists, and every listed dpid assigned to that domain |
| Controller.COMOSATController.AddFlow | controller/comosat_controller.py:144-168 | One rule sent and `flow_rules_installed` incremented |
| Controller.COMOSATController.InstallDomainRules | controller/comosat_controller.py:170-207 | The as-written install, including the in-place `remove` and its `ValueError` |
| Controller.COMOSATController.SwitchFeaturesHandler | controller/comosat_controller.py:115-142 | Installs the table-miss rule. The domain rules are installed only when data is loaded and the dpid is known |
| Controller.COMOSATController.PacketInHandler | controller/comosat_controller.py:210-246 | Counts the packet. A frame without Ethernet raises `IndexError`, LLDP is ignored, and any other frame installs exactly one rule |
| Controller.COMOSATController.UpdateControllerAssignments | controller/comosat_controller.py:248-268 | The controller table follows the records for known dpids. `stats['remappings']` grows by the number of records naming a known dpid |
| Controller.COMOSATController.GetStatistics | controller/comosat_controller.py:281-288 | A copy of the counters: non-negative, and `flow_rules_installed` equals the number of rules sent |
| Controller.MultiDomainCOMOSATController.constructor | controller/comosat_controller.py:299-302 | No domain controllers, cursor at slot 1 |
| Controller.MultiDomainCOMOSATController.UpdateTopology | controller/comosat_controller.py:304-340 | Returns 0 past the last slot. Otherwise every controller is notified, the cursor moves to the new slot, and the count of unfiltered remappings is returned. A lookup error propagates with the cursor unchanged |
| Controller.MultiDomainCOMOSATController.NotifyAll | controller/comosat_controller.py:333-336 | Each domain controller in turn applies the remappings and reloads. On failure, the controllers before the failing one are notified and the later ones are untouched |
| Controller.COMOSATController.Notify | controller/comosat_controller.py:334-335 | One controller applies the remappings, then reloads the new slot. It raises `IndexError` exactly when the slot cannot be indexed, and the remappings are applied even then |
| Orchestrator.DomainCountMatchesGroups | orchestrator/orchestrator.py:194-202 | `num_domains` counts the distinct positive domains. These are exactly the positive keys of the domain grouping, and there are never more than the entries |
| Orchestrator.CountDomains | orchestrator/orchestrator.py:195-202 | The set-building loop counts the distinct positive domains |
| Orchestrator.SAGINOrchestrator.constructor | orchestrator/orchestrator.py:53-60 | A fresh manager, an empty log and the cursor at 1 |
| Orchestrator.SAGINOrchestrator.CollectMetrics | orchestrator/orchestrator.py:175-212 | Appends exactly one record, whose `slot` is the argument. Slot 1 records 0 remappings without consulting the manager. A later slot records the length of the manager's next report, or 0 for `None`. Errors propagate with nothing appended |
| Orchestrator.SAGINOrchestrator.TransitionToNextSlot | orchestrator/orchestrator.py:214-255 | `False`, with nothing changed, once the cursor reaches `num_slots`. Otherwise it consumes one manager report, advances the cursor by one and returns `True` |
| Orchestrator.SAGINOrchestrator.RunSimulation | orchestrator/orchestrator.py:257-298 | The slot loop: collect slot 1, then transition and collect for slots 2..`num_slots`, stopping early when a transition returns `False` |
| Orchestrator.FreshRunLog | orchestrator/orchestrator.py:277-289 | A fresh run that does not raise logs one record per slot in ascending order from 1. Slot 1 has 0 remappings. Slot `j` counts the manager's report from cursor `2j - 2`, because the manager advances twice per slot |
| Orchestrator.IntendedRunLog | orchestrator/orchestrator.py:233 | With one report per slot, the record of slot `j` counts exactly the remappings between slots `j - 1` and `j` |
| Orchestrator.DoubleAdvanceMissesRemapping | orchestrator/orchestrator.py:206 | A three-slot input where the as-written run records 0 remappings for slot 2 and the one-report-per-slot run records 1 |
| Orchestrator.TotalRemappingsAppend | orchestrator/orchestrator.py:343 | The remapping total of a log split in two is the sum of the parts' totals |
| Orchestrator.RecordWithinTotal | orchestrator/orchestrator.py:343 | No record counts more remappings than the total |
| Orchestrator.SummaryCharacterised | orchestrator/orchestrator.py:336-347 | Nothing numeric exactly when the log is empty. Otherwise the slot count, and a total no smaller than any record's count |
| Orchestrator.SummaryAfterRecord | orchestrator/orchestrator.py:210 | One more record adds its remappings to the summary total |
| Visualization.TopologyGroupsCharacterised | visualization/visualize_results.py:105-120 | A domain group exists exactly for the domains (default 0) of entries that have both coordinates, and holds exactly that domain's marks in list order |
| Visualization.DomainMarksCharacterised | visualization/visualize_results.py:105-120 | A mark is in domain `d`'s group exactly when some kept entry of domain `d` produces it |
| Visualization.KeptEntryDrawn | visualization/visualize_results.py:105-120 | Every entry with coordinates is in its own domain's group, flagged as a controller exactly when `idx + 1 == controller`. An entry without coordinates changes no group |
| Visualization.GroupMarks | visualization/visualize_results.py:105-120 | The `plot_topology` grouping loop computes the domain groups |
| Visualization.SplitCharacterised | visualization/visualize_results.py:264-271 | Each mark lands in exactly one of `nodes` and `controllers`: the two lists together are as long as the marks, and each point comes from a mark of the matching kind |
| Visualization.EvolutionSplitsTopology | visualization/visualize_results.py:253-271 | The evolution plot has the same domains as the topology plot. Under each domain it holds that plot's marks, split by the controller flag |
| Visualization.GroupBuckets | visualization/visualize_results.py:253-271 | The `plot_controller_evolution` grouping loop computes the per-domain buckets |
| Visualization.DomainColour | visualization/visualize_results.py:274-278 | Grey exactly for domain 0. Otherwise a palette index in `[0, 12)`, congruent to the domain modulo 12 |
| Visualization.ColourCycle | visualization/visualize_results.py:41 | Two nonzero domains share a colour exactly when they differ by a multiple of 12 |
| Visualization.DefaultSlots | visualization/visualize_results.py:231-240 | Four slots from 4 slots on, `n` slots below that, none when there are none. The list starts at 1, never decreases and never exceeds `n` |
| Visualization.DrawnCountCharacterised | visualization/visualize_results.py:243-245 | The drawn slots are the longest prefix of at most four slots with none beyond the slot count |
| Visualization.PanelsErrExtends | visualization/visualize_results.py:243-248 | Once a slot lookup raises, drawing a longer list raises the same way |
| Visualization.PanelsInRange | visualization/visualize_results.py:247-251 | Slots from 1 to the slot count always give one panel each, and panel `i` groups slot `slots[i]` |
| Visualization.PlotControllerEvolution | visualization/visualize_results.py:219-251 | The panels of exactly the drawn prefix of the chosen (or default) slots |
| Visualization.DefaultSlotsAllDrawn | visualization/visualize_results.py:231-245 | With the default choice every chosen slot is drawn, and none raises |
| Visualization.TopologyPlot | visualization/visualize_results.py:79-82 | `ValueError` exactly past the slot count. `IndexError` exactly at or below minus the slot count. Otherwise the groups of that slot, which is the slot itself for 1..n |
| Visualization.PlotTopology | visualization/visualize_results.py:70-120 | The bounds check and lookup, then the grouping loop |
| Visualization.GenerateReport | visualization/visualize_results.py:763-781 | Topology plots of exactly slots 1..`min(5, n)`, none raising. The explicit `[1, 8, 15, 22]` from 22 slots on is the default choice, so the evolution plot is the default one |

## Left out

- Ryu and OpenFlow are not modelled: message construction, `send_msg`, packet parsing
  beyond "has an Ethernet header / is LLDP", `msg.match['in_port']`, and the `_monitor`
  thread. A sent flow rule is recorded as `(dpid, priority)`. These are foreign library
  calls, wire I/O and concurrency.
- Mininet is not modelled: `addSwitch` and `addLink` are recorded as values, and
  `net.start`/`stop`, the ping test and `setup_network` are outside the model. The
  orchestrator takes `len(self.net.switches)` as a parameter. These are external emulation.
- `subprocess` handling of `ryu-manager`, `time.sleep`, `time.time()` timestamps and
  `KeyboardInterrupt` are not modelled. They are I/O and the clock.
- JSON and file loading and saving, and path probing, are not modelled. The topology data
  is taken as an already-parsed value whose `time_slots` and `node_positions` keys exist;
  only the keys inside position entries are optional.
- `load_topology_data` of the controller is reduced to an optional value, because it is
  file I/O.
- Matplotlib drawing, the legend, marker sizes, the `np.random` example data, the
  emulation-metrics and MATLAB plots (with their line scan and `float` parsing), and the
  averages in `print_summary` are not modelled. They are plotting and floating-point
  numerics; the domain groups handed to the plotting calls are modelled instead.
- `generate_report`'s remapping-statistics and emulation plots, and `generate_visualizations`
  in the orchestrator, are not modelled. They read metrics files and only draw.
- The argparse `main` functions are not modelled. They are command-line wiring.
- The `for other_dpid in domain_switches: pass` loop of `_install_domain_rules` does
  nothing, so only its list is modelled.
- Orchestrator.SAGINOrchestrator.RunSimulation: the `setup_network(slot=1)` call before
  the first collection is not modelled, so an error raised while building the network is
  not part of its contract.
- Controller.MultiDomainCOMOSATController.Valid: the controllers are required to be distinct
  objects. A Python dict that maps two domains to one controller object would notify it
  twice; the code never fills the dict, so this case has no caller.
- The metrics log has one record even when `num_slots < 1`, because slot 1 is always
  collected. So "at most `num_slots` records" holds only for `num_slots >= 1`;
  `Orchestrator.FreshRunLog` states the exact length.

## Findings

| source | as written | input that shows it | evidently intended | confidence | as-written member | corrected member |
|---|---|---|---|---|---|---|
| orchestrator/orchestrator.py:206,233 | `transition_to_next_slot` and `collect_metrics` each call `get_next_slot_changes` on the shared manager. So each slot advances the manager twice, and slot `j` records the changes between slots `2j - 2` and `2j - 1` | three slots with one node whose controller goes 1 → 2 → 2, `num_slots = 3`: slot 2 records 0 remappings | slot `j` records the remappings between slots `j - 1` and `j` (1 for slot 2) | not executed | Orchestrator.DoubleAdvanceMissesRemapping | Orchestrator.IntendedRunLog |
| controller/comosat_controller.py:196-197 | `switch_domains.get(domain_id, []).remove(dpid)` removes the switch from the stored domain list itself. After that, `switch_domains` no longer matches `domain_assignments`, and a second features event for the same switch raises `ValueError` | a slot whose entry 1 has domain 1; switch 1 connects twice | iterate over the other members of the domain without changing `switch_domains` | not executed | Controller.ReinstallRaises | Controller.DomainPeersCharacterised |
