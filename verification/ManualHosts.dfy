/**
 Manually added hosts: an id allocator, a map by id, and the array in the settings store that persists
 it. Old entries beyond the array's current size stay in the store.
 */
module ManualHosts {
  import opened Collections

  type Mac = seq<int>

  const MAC_BYTES := 6

  datatype ManualHost = ManualHost(id: int, host: string, registered: bool, mac: Mac)

  /** The settings under one array index; a missing value reads as its default. */
  datatype Slot = Slot(id: Option<int>, host: string, registered: bool, mac: Mac)

  /** The `manual_hosts` array: its recorded size, and slots that may reach beyond it. */
  datatype Store = Store(size: nat, slots: map<nat, Slot>)

  const NO_MAC: Mac := [0, 0, 0, 0, 0, 0]

  // ---------------------------------------------------------------- one host

  function SaveHost(h: ManualHost): Slot {
    Slot(Some(h.id), h.host, h.registered, h.mac)
  }

  function LoadHost(store: Store, i: nat): ManualHost {
    if i !in store.slots then ManualHost(-1, "", false, NO_MAC)
    else
      var slot := store.slots[i];
      ManualHost(if slot.id.Some? then slot.id.value else -1, slot.host, slot.registered,
                 if |slot.mac| == MAC_BYTES then slot.mac else NO_MAC)
  }

  // ---------------------------------------------------------------- saving and loading the map

  predicate AtMost(a: int, b: int) {
    a <= b
  }

  /** The hosts in the order of their ids. */
  function Listed(hosts: map<int, ManualHost>): seq<ManualHost> {
    if hosts == map[] then [] else
      var k := Least(hosts.Keys, AtMost);
      [hosts[k]] + Listed(hosts - {k})
  }

  /** Writing entry `i` of a list and those after it, each into its own slot. */
  function WriteFrom(slots: map<nat, Slot>, list: seq<ManualHost>, i: nat): map<nat, Slot>
    requires i <= |list|
    decreases |list| - i
  {
    if i == |list| then slots else WriteFrom(slots[i := SaveHost(list[i])], list, i + 1)
  }

  /** Writing a list into the array overwrites its first slots and records its length. */
  function Written(store: Store, list: seq<ManualHost>): Store {
    Store(|list|, WriteFrom(store.slots, list, 0))
  }

  datatype Loaded = Loaded(hosts: map<int, ManualHost>, next: int)

  /** Loading entry `i` and those after it. */
  function LoadFrom(store: Store, i: nat, l: Loaded): Loaded
    requires i <= store.size
    decreases store.size - i
  {
    if i == store.size then l
    else
      var h := LoadHost(store, i);
      LoadFrom(store, i + 1,
               if h.id < 0 then l else Loaded(l.hosts[h.id := h], if l.next <= h.id then h.id + 1 else l.next))
  }

  /** Loading replaces the map but never lowers the id counter. */
  function Load(store: Store, next: int): Loaded {
    LoadFrom(store, 0, Loaded(map[], next))
  }

  ghost predicate Keyed(hosts: map<int, ManualHost>, next: int) {
    forall id :: id in hosts ==> hosts[id].id == id && 0 <= id < next && |hosts[id].mac| == MAC_BYTES
  }

  lemma {:induction false} ListedMembers(hosts: map<int, ManualHost>, next: int)
    requires Keyed(hosts, next)
    ensures forall h :: h in Listed(hosts) <==> h.id in hosts && hosts[h.id] == h
  {
    if hosts == map[] {
    } else {
      var k := Least(hosts.Keys, AtMost);
      var rest := hosts - {k};
      ListedMembers(rest, next);
      forall h ensures h in Listed(hosts) <==> h.id in hosts && hosts[h.id] == h {
        assert h in Listed(hosts) <==> h == hosts[k] || h in Listed(rest);
        assert h in Listed(rest) <==> h.id in rest && rest[h.id] == h;
      }
    }
  }

  lemma {:induction false} ListedAscending(hosts: map<int, ManualHost>, next: int)
    requires Keyed(hosts, next)
    ensures forall i, j :: 0 <= i < j < |Listed(hosts)| ==> Listed(hosts)[i].id < Listed(hosts)[j].id
  {
    if hosts == map[] {
    } else {
      var k := Least(hosts.Keys, AtMost);
      var rest := Listed(hosts - {k});
      ListedAscending(hosts - {k}, next);
      ListedMembers(hosts - {k}, next);
      forall j | 0 <= j < |rest| ensures k < rest[j].id {
        assert rest[j] in rest;
      }
    }
  }

  lemma {:induction false} LoadFromKeyed(store: Store, i: nat, l: Loaded)
    requires i <= store.size && l.next >= 0 && Keyed(l.hosts, l.next)
    ensures var r := LoadFrom(store, i, l);
            r.next >= l.next && Keyed(r.hosts, r.next)
    decreases store.size - i
  {
    if i < store.size {
      var h := LoadHost(store, i);
      LoadFromKeyed(store, i + 1,
                    if h.id < 0 then l else Loaded(l.hosts[h.id := h], if l.next <= h.id then h.id + 1 else l.next));
    }
  }

  lemma {:induction false} WriteFromSlots(slots: map<nat, Slot>, list: seq<ManualHost>, i: nat, k: nat)
    requires i <= |list|
    ensures i <= k < |list| ==> k in WriteFrom(slots, list, i) && WriteFrom(slots, list, i)[k] == SaveHost(list[k])
    ensures k < i && k in slots ==> k in WriteFrom(slots, list, i) && WriteFrom(slots, list, i)[k] == slots[k]
    decreases |list| - i
  {
    if i < |list| {
      WriteFromSlots(slots[i := SaveHost(list[i])], list, i + 1, k);
    }
  }

  lemma WrittenReadsBack(store: Store, list: seq<ManualHost>, i: nat)
    requires i < |list| && |list[i].mac| == MAC_BYTES
    ensures LoadHost(Written(store, list), i) == list[i]
  {
    WriteFromSlots(store.slots, list, 0, i);
  }

  /** Each entry to load is a host of the map, with an id below the counter. */
  ghost predicate EntriesOf(store: Store, hosts: map<int, ManualHost>, next: int) {
    forall j :: 0 <= j < store.size ==>
      var h := LoadHost(store, j);
      0 <= h.id < next && h.id in hosts && hosts[h.id] == h
  }

  ghost predicate Within(some: map<int, ManualHost>, hosts: map<int, ManualHost>) {
    forall id :: id in some ==> id in hosts && some[id] == hosts[id]
  }

  lemma {:induction false} LoadFromWithin(store: Store, i: nat, l: Loaded, hosts: map<int, ManualHost>)
    requires i <= store.size && EntriesOf(store, hosts, l.next) && Within(l.hosts, hosts)
    ensures var r := LoadFrom(store, i, l);
            && r.next == l.next && Within(r.hosts, hosts) && l.hosts.Keys <= r.hosts.Keys
            && forall j :: i <= j < store.size ==> LoadHost(store, j).id in r.hosts
    decreases store.size - i
  {
    if i < store.size {
      var h := LoadHost(store, i);
      LoadFromWithin(store, i + 1, Loaded(l.hosts[h.id := h], l.next), hosts);
    }
  }

  lemma SavedEntry(hosts: map<int, ManualHost>, next: int, store: Store, i: nat)
    requires Keyed(hosts, next) && i < |Listed(hosts)|
    ensures var h := LoadHost(Written(store, Listed(hosts)), i);
            h == Listed(hosts)[i] && 0 <= h.id < next && h.id in hosts && hosts[h.id] == h
  {
    ListedMembers(hosts, next);
    assert Listed(hosts)[i] in Listed(hosts);
    WrittenReadsBack(store, Listed(hosts), i);
  }

  /** Every host of the map has its entry in the saved array. */
  lemma SavedHost(hosts: map<int, ManualHost>, next: int, store: Store, id: int) returns (i: nat)
    requires Keyed(hosts, next) && id in hosts
    ensures i < |Listed(hosts)| && LoadHost(Written(store, Listed(hosts)), i).id == id
  {
    ListedMembers(hosts, next);
    assert hosts[id] in Listed(hosts);
    i :| 0 <= i < |Listed(hosts)| && Listed(hosts)[i] == hosts[id];
    SavedEntry(hosts, next, store, i);
  }

  /**
   Saving the map and loading it again gives the same map, whatever older entries the array still has
   beyond its new size, and leaves the id counter as it was.
   */
  lemma SaveThenLoad(hosts: map<int, ManualHost>, next: int, store: Store)
    requires next >= 0 && Keyed(hosts, next)
    ensures Load(Written(store, Listed(hosts)), next) == Loaded(hosts, next)
  {
    var saved := Written(store, Listed(hosts));
    forall j | 0 <= j < saved.size
      ensures var h := LoadHost(saved, j); 0 <= h.id < next && h.id in hosts && hosts[h.id] == h
    {
      SavedEntry(hosts, next, store, j);
    }
    LoadFromWithin(saved, 0, Loaded(map[], next), hosts);
    var r := Load(saved, next);
    forall id | id in hosts ensures id in r.hosts {
      var i := SavedHost(hosts, next, store, id);
      assert LoadHost(saved, i).id in r.hosts;
    }
    assert forall id :: id in r.hosts ==> id in hosts && r.hosts[id] == hosts[id];
    assert r.hosts == hosts;
  }

  // ---------------------------------------------------------------- runs of the settings object

  /** `issued` records the ids given out or loaded so far in this process. */
  datatype State = State(hosts: map<int, ManualHost>, next: int, store: Store, issued: set<int>)

  datatype Event = Set(host: ManualHost) | Remove(id: int) | LoadAll(from: Store)

  const INITIAL := State(map[], 0, Store(0, map[]), {})

  function SetId(s: State, h: ManualHost): int {
    if h.id < 0 then s.next else h.id
  }

  function SetStep(s: State, h: ManualHost): State {
    var id := SetId(s, h);
    var hosts := s.hosts[id := h.(id := id)];
    State(hosts, if h.id < 0 then s.next + 1 else s.next, Written(s.store, Listed(hosts)), s.issued + {id})
  }

  function RemoveStep(s: State, id: int): State {
    var hosts := s.hosts - {id};
    s.(hosts := hosts, store := Written(s.store, Listed(hosts)))
  }

  function LoadStep(s: State, from: Store): State {
    var l := Load(from, s.next);
    State(l.hosts, l.next, s.store, s.issued + l.hosts.Keys)
  }

  /** Callers pass a negative id, for a new host, or one below the counter; addresses have six bytes. */
  predicate Legal(s: State, e: Event) {
    e.Set? ==> e.host.id < s.next && |e.host.mac| == MAC_BYTES
  }

  function Step(s: State, e: Event): State {
    match e
    case Set(h) => SetStep(s, h)
    case Remove(id) => RemoveStep(s, id)
    case LoadAll(from) => LoadStep(s, from)
  }

  predicate LegalRun(s: State, es: seq<Event>)
    decreases |es|
  {
    es == [] || (Legal(s, es[0]) && LegalRun(Step(s, es[0]), es[1..]))
  }

  function Run(s: State, es: seq<Event>): State
    decreases |es|
  {
    if es == [] then s else Run(Step(s, es[0]), es[1..])
  }

  ghost predicate Inv(s: State) {
    && s.next >= 0
    && Keyed(s.hosts, s.next)
    && (forall id :: id in s.issued ==> id < s.next)
  }

  lemma StepKeepsInv(s: State, e: Event)
    requires Inv(s) && Legal(s, e)
    ensures Inv(Step(s, e)) && Step(s, e).next >= s.next && s.issued <= Step(s, e).issued
  {
    if e.LoadAll? {
      LoadFromKeyed(e.from, 0, Loaded(map[], s.next));
    }
  }

  lemma {:induction false} RunKeepsInv(s: State, es: seq<Event>)
    requires Inv(s) && LegalRun(s, es)
    ensures Inv(Run(s, es)) && Run(s, es).next >= s.next && s.issued <= Run(s, es).issued
    decreases |es|
  {
    if es == [] {
    } else {
      StepKeepsInv(s, es[0]);
      RunKeepsInv(Step(s, es[0]), es[1..]);
    }
  }

  /**
   Over every run each key is its host's id and lies below the counter, the counter never goes down,
   and the id that a new host gets was never given out or loaded before.
   */
  lemma IdsNeverReused(es: seq<Event>, more: seq<Event>, host: ManualHost)
    requires LegalRun(INITIAL, es) && LegalRun(Run(INITIAL, es), more) && host.id < 0
    ensures var s := Run(INITIAL, es);
            var t := Run(s, more);
            && (forall id :: id in s.hosts ==> s.hosts[id].id == id && 0 <= id < s.next)
            && s.next <= t.next && s.issued <= t.issued
            && SetId(t, host) !in t.issued && SetId(t, host) !in s.issued
  {
    RunKeepsInv(INITIAL, es);
    RunKeepsInv(Run(INITIAL, es), more);
  }

  /** After a host was set or removed, the stored array holds exactly the map in memory. */
  lemma StoreMirrorsMap(es: seq<Event>, e: Event)
    requires LegalRun(INITIAL, es) && Legal(Run(INITIAL, es), e) && !e.LoadAll?
    ensures var t := Step(Run(INITIAL, es), e);
            Load(t.store, t.next) == Loaded(t.hosts, t.next)
  {
    var s := Run(INITIAL, es);
    RunKeepsInv(INITIAL, es);
    StepKeepsInv(s, e);
    var t := Step(s, e);
    SaveThenLoad(t.hosts, t.next, s.store);
  }

  /**
   The callers' rule is exactly what is needed: setting a host keeps the invariant if and only if its
   id is below the counter, and setting the counter itself makes the next new host reuse that id.
   */
  lemma SetKeepsInvIff(s: State, h: ManualHost, later: ManualHost)
    requires Inv(s) && |h.mac| == MAC_BYTES && later.id < 0
    ensures Inv(SetStep(s, h)) <==> h.id < s.next
    ensures h.id == s.next ==> SetId(SetStep(s, h), later) == h.id
  {
  }

  // ---------------------------------------------------------------- what is found later

  /** The event may change what is stored under the id. */
  predicate Concerns(e: Event, id: int) {
    match e
    case Set(host) => host.id == id
    case Remove(removed) => removed == id
    case LoadAll(_) => true
  }

  /** Nothing else touches a host: what is stored under an issued id stays as it is. */
  lemma {:induction false} OthersLeaveAlone(s: State, es: seq<Event>, id: int)
    requires Inv(s) && LegalRun(s, es) && 0 <= id < s.next && forall e :: e in es ==> !Concerns(e, id)
    ensures var t := Run(s, es);
            (id in t.hosts <==> id in s.hosts) && (id in s.hosts ==> t.hosts[id] == s.hosts[id])
    decreases |es|
  {
    if es == [] {
    } else {
      assert es[0] in es;
      StepKeepsInv(s, es[0]);
      OthersLeaveAlone(Step(s, es[0]), es[1..], id);
    }
  }

  /** The stored array loads back to the map in memory. */
  ghost predicate Mirrors(s: State) {
    Load(s.store, s.next) == Loaded(s.hosts, s.next)
  }

  lemma {:induction false} RunMirrors(s: State, es: seq<Event>)
    requires Inv(s) && LegalRun(s, es) && Mirrors(s) && forall e :: e in es ==> !e.LoadAll?
    ensures Mirrors(Run(s, es))
    decreases |es|
  {
    if es == [] {
    } else {
      var t := Step(s, es[0]);
      assert es[0] in es;
      StepKeepsInv(s, es[0]);
      SaveThenLoad(t.hosts, t.next, s.store);
      RunMirrors(t, es[1..]);
    }
  }

  /**
   A host that was set is found again, in memory and after loading what is stored, with every field as it
   was given, whatever happens to other hosts.
   */
  lemma SetIsFound(s: State, h: ManualHost, more: seq<Event>)
    requires Inv(s) && Legal(s, Set(h)) && LegalRun(SetStep(s, h), more)
    requires var id := if h.id < 0 then s.next else h.id; forall e :: e in more ==> !Concerns(e, id)
    ensures var id := if h.id < 0 then s.next else h.id;
            var t := Run(SetStep(s, h), more);
            var reloaded := Load(t.store, t.next).hosts;
            && id in t.hosts && t.hosts[id] == ManualHost(id, h.host, h.registered, h.mac)
            && id in reloaded && reloaded[id] == t.hosts[id]
  {
    var u := SetStep(s, h);
    StepKeepsInv(s, Set(h));
    assert u == Step(s, Set(h));
    SaveThenLoad(u.hosts, u.next, s.store);
    OthersLeaveAlone(u, more, SetId(s, h));
    RunMirrors(u, more);
  }

  /** New hosts get the ids one after the other. */
  lemma IdsAreConsecutive(s: State, first: ManualHost, second: ManualHost)
    requires first.id < 0 && second.id < 0
    ensures SetId(SetStep(s, first), second) == SetId(s, first) + 1
  {
  }

  /** A host that was removed is found no more, in memory or after loading, until its id is set again. */
  lemma RemovedIsGone(s: State, id: int, more: seq<Event>)
    requires Inv(s) && 0 <= id < s.next && LegalRun(RemoveStep(s, id), more)
    requires forall e :: e in more ==> !Concerns(e, id)
    ensures var t := Run(RemoveStep(s, id), more);
            id !in t.hosts && id !in Load(t.store, t.next).hosts
  {
    var u := RemoveStep(s, id);
    StepKeepsInv(s, Remove(id));
    assert u == Step(s, Remove(id));
    SaveThenLoad(u.hosts, u.next, s.store);
    OthersLeaveAlone(u, more, id);
    RunMirrors(u, more);
  }

  // ---------------------------------------------------------------- what a stored array means

  /** The array entry is a host with this id: the id is there and not negative. */
  predicate IsEntry(store: Store, i: nat, id: int) {
    i in store.slots && store.slots[i].id == Some(id) && id >= 0
  }

  /** A host as its entry describes it; an address without six bytes reads as the empty one. */
  predicate Describes(slot: Slot, h: ManualHost) {
    && slot.id == Some(h.id) && h.host == slot.host && h.registered == slot.registered
    && h.mac == (if |slot.mac| == 6 then slot.mac else [0, 0, 0, 0, 0, 0])
  }

  /** Of the entries from `i` on, the last one with the id is at `k`. */
  predicate IsLastEntry(store: Store, i: nat, id: int, k: nat) {
    i <= k < store.size && IsEntry(store, k, id) && forall j :: k < j < store.size ==> !IsEntry(store, j, id)
  }

  lemma {:induction false} LoadFromMeaning(store: Store, i: nat, l: Loaded, id: int)
    requires i <= store.size
    ensures var r := LoadFrom(store, i, l);
            && (forall k: nat :: IsLastEntry(store, i, id, k) ==>
                  id in r.hosts && Describes(store.slots[k], r.hosts[id]))
            && ((forall k: nat :: i <= k < store.size ==> !IsEntry(store, k, id)) ==>
                  (id in r.hosts <==> id in l.hosts) && (id in r.hosts ==> r.hosts[id] == l.hosts[id]))
    decreases store.size - i
  {
    if i == store.size {
    } else {
      var h := LoadHost(store, i);
      var next := if h.id < 0 then l else Loaded(l.hosts[h.id := h], if l.next <= h.id then h.id + 1 else l.next);
      LoadFromMeaning(store, i + 1, next, id);
      assert h.id == id && id >= 0 <==> IsEntry(store, i, id);
      forall k: nat | IsLastEntry(store, i, id, k)
        ensures id in LoadFrom(store, i, l).hosts && Describes(store.slots[k], LoadFrom(store, i, l).hosts[id])
      {
        if k > i {
          assert IsLastEntry(store, i + 1, id, k);
        }
      }
    }
  }

  /**
   What a stored array means: under each id the last entry with that id, and nothing under an id that no
   entry has; entries without an id, or with a negative one, count for nothing.
   */
  lemma LoadMeaning(store: Store, next: int, id: int)
    ensures var hosts := Load(store, next).hosts;
            && (id in hosts ==> exists k: nat :: k < store.size && IsEntry(store, k, id))
            && (forall k: nat :: IsLastEntry(store, 0, id, k) ==> id in hosts && Describes(store.slots[k], hosts[id]))
  {
    LoadFromMeaning(store, 0, Loaded(map[], next), id);
  }

  /** Loading raises the id counter above every id of the array, and no further. */
  lemma {:induction false} CounterAfterLoad(store: Store, i: nat, l: Loaded)
    requires i <= store.size
    ensures var next := LoadFrom(store, i, l).next;
            && l.next <= next
            && (forall k: nat, id :: i <= k < store.size && IsEntry(store, k, id) ==> id < next)
            && (next == l.next || exists k: nat, id :: i <= k < store.size && IsEntry(store, k, id) && next == id + 1)
    decreases store.size - i
  {
    if i == store.size {
    } else {
      var h := LoadHost(store, i);
      var after := if h.id < 0 then l else Loaded(l.hosts[h.id := h], if l.next <= h.id then h.id + 1 else l.next);
      CounterAfterLoad(store, i + 1, after);
      if h.id >= 0 {
        assert IsEntry(store, i, h.id);
      }
      if after.next != l.next {
        assert IsEntry(store, i, h.id) && after.next == h.id + 1;
      }
    }
  }

  // ---------------------------------------------------------------- the object

  class Settings {
    var manualHosts: map<int, ManualHost>
    var manualHostsIdNext: int
    var store: Store
    ghost var issued: set<int>

    ghost function Abs(): State
      reads this
    {
      State(manualHosts, manualHostsIdNext, store, issued)
    }

    constructor ()
      ensures Abs() == INITIAL
    {
      manualHosts, manualHostsIdNext, store, issued := map[], 0, Store(0, map[]), {};
    }

    method LoadManualHosts(from: Store)
      modifies this
      ensures Abs() == LoadStep(old(Abs()), from)
    {
      manualHosts := map[];
      for i := 0 to from.size
        invariant LoadFrom(from, i, Loaded(manualHosts, manualHostsIdNext)) == Load(from, old(manualHostsIdNext))
        invariant store == old(store) && issued == old(issued)
      {
        var host := LoadHost(from, i);
        if host.id >= 0 {
          if manualHostsIdNext <= host.id {
            manualHostsIdNext := host.id + 1;
          }
          manualHosts := manualHosts[host.id := host];
        }
      }
      issued := issued + manualHosts.Keys;
    }

    method SaveManualHosts()
      modifies this`store
      ensures store == Written(old(store), Listed(manualHosts))
    {
      var list := Listed(manualHosts);
      var slots: map<nat, Slot> := store.slots;
      for i := 0 to |list|
        invariant WriteFrom(slots, list, i) == WriteFrom(store.slots, list, 0)
      {
        slots := slots[i := SaveHost(list[i])];
      }
      store := Store(|list|, slots);
    }

    method SetManualHost(host: ManualHost) returns (id: int)
      modifies this
      ensures Abs() == SetStep(old(Abs()), host) && id == SetId(old(Abs()), host)
    {
      id := host.id;
      if id < 0 {
        id := manualHostsIdNext;
        manualHostsIdNext := manualHostsIdNext + 1;
      }
      manualHosts := manualHosts[id := ManualHost(id, host.host, host.registered, host.mac)];
      issued := issued + {id};
      SaveManualHosts();
    }

    method RemoveManualHost(id: int)
      modifies this
      ensures Abs() == RemoveStep(old(Abs()), id)
    {
      manualHosts := manualHosts - {id};
      SaveManualHosts();
    }
  }
}
