/** The per-slot data feed shared by the topology builder, the controller and the
    orchestrator: one `node_positions` list per time slot, entry `i` describing node `i+1`.
    Every field of an entry is optional in the feed; the code reads some with a default of 0
    and indexes others directly (a missing key then raises `KeyError`). */
module Slots {

  datatype Option<+T> = None | Some(value: T)

  /** The Python exceptions the modelled code can raise on malformed data or bad indices. */
  datatype PyError = KeyError | IndexError | ValueError

  datatype Result<+T> = Ok(value: T) | Err(error: PyError)

  /** The result of a procedure that returns nothing but may raise. */
  datatype Outcome = Pass | Fail(error: PyError)

  /** One entry of a slot's `node_positions` list. */
  datatype Position = Position(
    domain: Option<int>,
    controller: Option<int>,
    latitude: Option<real>,
    longitude: Option<real>,
    nodeType: Option<string>)

  type Slot = seq<Position>

  /** `pos.get('domain', 0)` */
  function DomainOr0(p: Position): int {
    if p.domain.Some? then p.domain.value else 0
  }

  /** `pos.get('controller', 0)` */
  function ControllerOr0(p: Position): int {
    if p.controller.Some? then p.controller.value else 0
  }

  function Min(a: int, b: int): int {
    if a <= b then a else b
  }

  /** Python's `s[i]` on a list: a negative index counts from the end, anything outside
      `-len(s) .. len(s)-1` raises `IndexError`. */
  function PyIndex<T>(s: seq<T>, i: int): (r: Result<T>)
    ensures r.Ok? <==> -|s| <= i < |s|
    ensures r.Ok? && 0 <= i ==> r.value == s[i]
    ensures r.Ok? && i < 0 ==> r.value == s[|s| + i]
    ensures r.Err? ==> r.error == IndexError
  {
    if 0 <= i < |s| then Ok(s[i])
    else if -|s| <= i < 0 then Ok(s[|s| + i])
    else Err(IndexError)
  }

  predicate StrictlyAscending(s: seq<int>) {
    forall i, j :: 0 <= i < j < |s| ==> s[i] < s[j]
  }

  predicate NoDuplicates<T(==)>(s: seq<T>) {
    forall i, j :: 0 <= i < j < |s| ==> s[i] != s[j]
  }

  // ---------------------------------------------------------------------------------------
  // Slot-to-slot remapping detection.  Three call sites walk `zip(prev, next)` and compare
  // `old_pos['controller']` with `new_pos['controller']`; one of them also skips entries
  // whose old controller is 0.

  /** One element of `changes['remappings']`. */
  datatype Remapping = Remapping(nodeId: int, oldController: int, newController: int)

  /** Every entry the `zip` walk visits (the first `k`) has a `controller` key in both slots. */
  predicate ControllersPresent(prev: Slot, next: Slot, k: nat)
    requires k <= |prev| && k <= |next|
  {
    forall i :: 0 <= i < k ==> prev[i].controller.Some? && next[i].controller.Some?
  }

  /** The condition under which entry `i` yields a remapping record. */
  predicate Reported(o: Position, n: Position, skipUnassigned: bool)
    requires o.controller.Some? && n.controller.Some?
  {
    o.controller.value != n.controller.value && (!skipUnassigned || o.controller.value != 0)
  }

  /** The records the walk has appended after visiting the first `k` entries. */
  function Collect(prev: Slot, next: Slot, k: nat, skipUnassigned: bool): seq<Remapping>
    requires k <= |prev| && k <= |next| && ControllersPresent(prev, next, k)
  {
    if k == 0 then []
    else
      var o, n := prev[k - 1], next[k - 1];
      Collect(prev, next, k - 1, skipUnassigned)
        + if Reported(o, n, skipUnassigned)
          then [Remapping(k, o.controller.value, n.controller.value)] else []
  }

  /** The whole walk over `zip(prev, next)`: `KeyError` as soon as one visited entry lacks its
      `controller` key, else every record the walk appends. */
  function Detect(prev: Slot, next: Slot, skipUnassigned: bool): Result<seq<Remapping>> {
    var m := Min(|prev|, |next|);
    if ControllersPresent(prev, next, m) then Ok(Collect(prev, next, m, skipUnassigned))
    else Err(KeyError)
  }

  /** The `for i, (old_pos, new_pos) in enumerate(zip(...))` loop shared by the three call
      sites; it stops with `KeyError` at the first visited entry lacking `controller`. */
  method ScanRemappings(prev: Slot, next: Slot, skipUnassigned: bool) returns (r: Result<seq<Remapping>>)
    ensures r == Detect(prev, next, skipUnassigned)
  {
    var m := Min(|prev|, |next|);
    var remaps: seq<Remapping> := [];
    var i := 0;
    while i < m
      invariant 0 <= i <= m
      invariant ControllersPresent(prev, next, i)
      invariant remaps == Collect(prev, next, i, skipUnassigned)
    {
      if prev[i].controller.None? || next[i].controller.None? {
        return Err(KeyError);
      }
      var o, n := prev[i].controller.value, next[i].controller.value;
      if o != n && (!skipUnassigned || o != 0) {
        remaps := remaps + [Remapping(i + 1, o, n)];
      }
      i := i + 1;
    }
    return Ok(remaps);
  }

  /** A record `r` describes entry `r.nodeId - 1` of the first `k`, and that entry qualifies. */
  predicate Describes(prev: Slot, next: Slot, k: nat, skipUnassigned: bool, r: Remapping)
    requires k <= |prev| && k <= |next| && ControllersPresent(prev, next, k)
  {
    && 1 <= r.nodeId <= k
    && r.oldController == prev[r.nodeId - 1].controller.value
    && r.newController == next[r.nodeId - 1].controller.value
    && Reported(prev[r.nodeId - 1], next[r.nodeId - 1], skipUnassigned)
  }

  /** A record is emitted exactly for the qualifying entries, with the controllers of both
      slots, and in strictly ascending node order (so never twice for one node). */
  lemma {:induction false} CollectCharacterised(prev: Slot, next: Slot, k: nat, skipUnassigned: bool)
    requires k <= |prev| && k <= |next| && ControllersPresent(prev, next, k)
    ensures forall r :: r in Collect(prev, next, k, skipUnassigned) <==> Describes(prev, next, k, skipUnassigned, r)
    ensures forall i, j :: 0 <= i < j < |Collect(prev, next, k, skipUnassigned)| ==>
      Collect(prev, next, k, skipUnassigned)[i].nodeId < Collect(prev, next, k, skipUnassigned)[j].nodeId
    ensures forall r :: r in Collect(prev, next, k, skipUnassigned) ==> r.nodeId <= k
  {
    if k > 0 {
      CollectCharacterised(prev, next, k - 1, skipUnassigned);
      var earlier := Collect(prev, next, k - 1, skipUnassigned);
      forall r
        ensures r in Collect(prev, next, k, skipUnassigned) <==> Describes(prev, next, k, skipUnassigned, r)
      {
        if r in earlier {
          assert Describes(prev, next, k - 1, skipUnassigned, r);
        }
        if Describes(prev, next, k, skipUnassigned, r) && r.nodeId < k {
          assert Describes(prev, next, k - 1, skipUnassigned, r);
        }
      }
    }
  }

  /** The record for entry `i` when it qualifies: the completeness half, stated per node. */
  lemma RecordForChangedEntry(prev: Slot, next: Slot, skipUnassigned: bool, i: nat)
    requires i < Min(|prev|, |next|) && ControllersPresent(prev, next, Min(|prev|, |next|))
    requires Reported(prev[i], next[i], skipUnassigned)
    ensures Detect(prev, next, skipUnassigned).Ok?
    ensures Remapping(i + 1, prev[i].controller.value, next[i].controller.value)
      in Detect(prev, next, skipUnassigned).value
  {
    var m := Min(|prev|, |next|);
    CollectCharacterised(prev, next, m, skipUnassigned);
    assert Describes(prev, next, m, skipUnassigned,
      Remapping(i + 1, prev[i].controller.value, next[i].controller.value));
  }

  /** Skipping entries whose old controller is 0 only ever drops records: the filtered walk's
      records are a subsequence-by-count and a subset of the unfiltered walk's. */
  lemma {:induction false} FilteredWithinUnfiltered(prev: Slot, next: Slot, k: nat)
    requires k <= |prev| && k <= |next| && ControllersPresent(prev, next, k)
    ensures |Collect(prev, next, k, true)| <= |Collect(prev, next, k, false)|
    ensures forall r :: r in Collect(prev, next, k, true) ==> r in Collect(prev, next, k, false)
  {
    if k > 0 {
      FilteredWithinUnfiltered(prev, next, k - 1);
    }
  }

  /** A node whose old controller is 0 never appears in the filtered walk, whatever its next
      controller; the unfiltered walk reports it as soon as the new controller differs. */
  lemma FromUnassignedSkipped(prev: Slot, next: Slot, i: nat)
    requires i < Min(|prev|, |next|) && ControllersPresent(prev, next, Min(|prev|, |next|))
    requires prev[i].controller.value == 0
    ensures forall r :: r in Detect(prev, next, true).value ==> r.nodeId != i + 1
    ensures next[i].controller.value != 0 ==>
      Remapping(i + 1, 0, next[i].controller.value) in Detect(prev, next, false).value
  {
    var m := Min(|prev|, |next|);
    CollectCharacterised(prev, next, m, true);
    if next[i].controller.value != 0 {
      RecordForChangedEntry(prev, next, false, i);
    }
  }

  // ---------------------------------------------------------------------------------------
  // Grouping entries by `domain` (default 0): `switch_domains` in the controller and
  // `domain_groups` in the topology builder.  A Python dict keeps insertion order, so the
  // grouping is a map together with the order in which its keys first appeared.

  /** After visiting the first `k` entries: domain id -> node ids (1-based), in visit order. */
  function Groups(s: Slot, k: nat): map<int, seq<int>>
    requires k <= |s|
  {
    if k == 0 then map[]
    else
      var g := Groups(s, k - 1);
      var d := DomainOr0(s[k - 1]);
      g[d := (if d in g then g[d] else []) + [k]]
  }

  /** The domain ids in the order the dict's keys were inserted. */
  function DomainOrder(s: Slot, k: nat): seq<int>
    requires k <= |s|
  {
    if k == 0 then []
    else
      var o := DomainOrder(s, k - 1);
      var d := DomainOr0(s[k - 1]);
      if d in o then o else o + [d]
  }

  /** Node `id` is listed under domain `d` once the first `k` entries are grouped. */
  predicate Listed(s: Slot, k: nat, d: int, id: int)
    requires k <= |s|
  {
    d in Groups(s, k) && id in Groups(s, k)[d]
  }

  /** Node `id` is listed under domain `d` exactly when entry `id - 1` (among the first `k`)
      has domain `d`; every list is non-empty and strictly ascending; the key order lists each
      key of the map exactly once. */
  lemma {:induction false} GroupsCharacterised(s: Slot, k: nat)
    requires k <= |s|
    ensures forall d, id :: Listed(s, k, d, id) <==> 1 <= id <= k && DomainOr0(s[id - 1]) == d
    ensures forall d :: d in Groups(s, k) ==>
      Groups(s, k)[d] != [] && StrictlyAscending(Groups(s, k)[d])
    ensures forall d :: d in DomainOrder(s, k) <==> d in Groups(s, k)
    ensures NoDuplicates(DomainOrder(s, k))
  {
    if k > 0 {
      GroupsCharacterised(s, k - 1);
      var g := Groups(s, k - 1);
      var d := DomainOr0(s[k - 1]);
      var lst := if d in g then g[d] else [];
      assert Groups(s, k) == g[d := lst + [k]];
      forall e, id
        ensures Listed(s, k, e, id) <==> 1 <= id <= k && DomainOr0(s[id - 1]) == e
      {
        assert Listed(s, k - 1, e, id) <==> 1 <= id <= k - 1 && DomainOr0(s[id - 1]) == e;
        if e != d {
          if e in g {
            assert Groups(s, k)[e] == g[e];
          }
        } else {
          assert id in lst + [k] <==> id in lst || id == k;
        }
      }
      forall id | id in lst
        ensures id <= k - 1
      {
        assert Listed(s, k - 1, d, id);
      }
      assert StrictlyAscending(lst + [k]) by {
        forall i, j | 0 <= i < j < |lst + [k]|
          ensures (lst + [k])[i] < (lst + [k])[j]
        {
          assert (lst + [k])[i] in lst;
        }
      }
    }
  }

  /** The first node listed under a domain is the lowest-numbered node of that domain. */
  lemma FirstMemberIsLowest(s: Slot, k: nat, d: int)
    requires k <= |s| && d in Groups(s, k)
    ensures Groups(s, k)[d] != []
    ensures var f := Groups(s, k)[d][0];
      1 <= f <= k && DomainOr0(s[f - 1]) == d &&
      forall j :: 0 <= j < f - 1 ==> DomainOr0(s[j]) != d
  {
    GroupsCharacterised(s, k);
    var lst := Groups(s, k)[d];
    var f := lst[0];
    assert Listed(s, k, d, f);
    assert forall id :: id in lst ==> f <= id by {
      forall id | id in lst
        ensures f <= id
      {
        var t :| 0 <= t < |lst| && lst[t] == id;
        assert t == 0 || lst[0] < lst[t];
      }
    }
    forall j | 0 <= j < f - 1
      ensures DomainOr0(s[j]) != d
    {
      assert Listed(s, k, d, j + 1) <==> 1 <= j + 1 <= k && DomainOr0(s[j]) == d;
    }
  }

  /** Member `t` of domain `d`'s group is a node of domain `d` among the first `k`, and a
      later member is above the first one. */
  lemma MemberOfGroup(s: Slot, k: nat, d: int, t: nat)
    requires k <= |s| && d in Groups(s, k) && t < |Groups(s, k)[d]|
    ensures var id := Groups(s, k)[d][t];
      1 <= id <= k && DomainOr0(s[id - 1]) == d
    ensures t > 0 ==> Groups(s, k)[d][0] < Groups(s, k)[d][t]
  {
    GroupsCharacterised(s, k);
    assert Listed(s, k, d, Groups(s, k)[d][t]);
  }

  /** Node `id` among the first `k` is a member of its own domain's group, and that domain is
      among the dict's keys in order. */
  lemma GroupOfEntry(s: Slot, k: nat, id: int) returns (t: nat)
    requires k <= |s| && 1 <= id <= k
    ensures DomainOr0(s[id - 1]) in Groups(s, k) && DomainOr0(s[id - 1]) in DomainOrder(s, k)
    ensures t < |Groups(s, k)[DomainOr0(s[id - 1])]| && Groups(s, k)[DomainOr0(s[id - 1])][t] == id
  {
    GroupsCharacterised(s, k);
    var d := DomainOr0(s[id - 1]);
    assert Listed(s, k, d, id);
    var lst := Groups(s, k)[d];
    t :| 0 <= t < |lst| && lst[t] == id;
  }

  /** `lst` lists nodes of domain `d` (1-based ids into `s`), its head being the
      lowest-numbered node of that domain and below every other member. */
  predicate DomainList(s: Slot, d: int, lst: seq<int>) {
    && lst != []
    && 1 <= lst[0] <= |s| && DomainOr0(s[lst[0] - 1]) == d
    && (forall j :: 0 <= j < lst[0] - 1 ==> DomainOr0(s[j]) != d)
    && forall t :: 0 < t < |lst| ==> lst[0] < lst[t] <= |s| && DomainOr0(s[lst[t] - 1]) == d
  }

  lemma GroupIsDomainList(s: Slot, k: nat, d: int)
    requires k <= |s| && d in Groups(s, k)
    ensures DomainList(s, d, Groups(s, k)[d])
  {
    var lst := Groups(s, k)[d];
    FirstMemberIsLowest(s, k, d);
    forall t | 0 < t < |lst|
      ensures lst[0] < lst[t] <= |s| && DomainOr0(s[lst[t] - 1]) == d
    {
      MemberOfGroup(s, k, d, t);
    }
  }

  /** One instance of `GroupsCharacterised`, for use where its quantifiers would cost more
      than they give. */
  lemma ListedIff(s: Slot, d: int, id: int)
    ensures Listed(s, |s|, d, id) <==> 1 <= id <= |s| && DomainOr0(s[id - 1]) == d
  {
    GroupsCharacterised(s, |s|);
  }

  /** The walk `update_topology(new_slot)` makes from cursor `c` (in both the topology and
      the controller coordinator): nothing past the last slot, else the unfiltered remappings
      between the cursor's slot and `new_slot`, both picked with Python indexing, so either
      lookup may raise `IndexError`. */
  function RemapsBetween(ts: seq<Slot>, c: int, newSlot: int): Result<Option<seq<Remapping>>> {
    if newSlot > |ts| then Ok(None)
    else
      match PyIndex(ts, c - 1)
      case Err(e) => Err(e)
      case Ok(prev) =>
        match PyIndex(ts, newSlot - 1)
        case Err(e) => Err(e)
        case Ok(next) =>
          match Detect(prev, next, false)
          case Err(e) => Err(e)
          case Ok(rs) => Ok(Some(rs))
  }

  lemma GroupAscending(s: Slot, k: nat, d: int)
    requires k <= |s| && d in Groups(s, k)
    ensures StrictlyAscending(Groups(s, k)[d])
  {
    GroupsCharacterised(s, k);
  }
}
