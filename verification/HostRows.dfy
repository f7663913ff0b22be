/**
 The rows of the host list shown to the user, and the lookup that turns a row number into the host to
 connect to. Both walk the discovered, manual and PSN hosts in the same order but skip different ones.
 */
module HostRows {
  import opened Collections

  type Mac = int

  datatype Discovered = Discovered(name: string, address: string, mac: Mac, ps5: bool)

  datatype Manual = Manual(id: int, host: string, registered: bool, mac: Mac)

  datatype Psn = Psn(duid: string, name: string, ps5: bool)

  /** The host that a row shows or that a lookup returns. */
  datatype Host = DiscoveredHost(discovered: Discovered) | ManualHost(manual: Manual) | PsnHost(psn: Psn)

  /** What both functions read; `psn` is the map of PSN hosts in the order of its keys. */
  datatype Model = Model(
    discovered: seq<Discovered>,
    manual: seq<Manual>,
    psn: seq<Psn>,
    hidden: set<Mac>,
    registered: set<Mac>,
    registeredPs4s: nat,
    waking: seq<string>)

  const MAIN_PS4 := "Main PS4 Console"

  // ---------------------------------------------------------------- the rows

  /** The address of a host whose id cannot be read, and of a default record. */
  const NO_MAC: Mac := 0

  /**
   What listing one host does to the hidden list. A hidden host that is registered is taken off; its
   record is then looked up again, and the default record found in its place, which has no name and no
   address, is stored when the host has a name.
   */
  function Unhide(hidden: set<Mac>, d: Discovered, registered: set<Mac>): set<Mac> {
    if d.mac in hidden && d.mac in registered
    then hidden - {d.mac} + (if d.name != "" then {NO_MAC} else {})
    else hidden
  }

  /** The hidden list after the given hosts have been listed, first to last. */
  function HiddenAfter(hosts: seq<Discovered>, hidden: set<Mac>, registered: set<Mac>): set<Mac> {
    if hosts == [] then hidden
    else Unhide(HiddenAfter(hosts[..|hosts| - 1], hidden, registered), hosts[|hosts| - 1], registered)
  }

  /** The discovered hosts that are shown: those not on the hidden list when their turn comes. */
  function ShownDiscovered(hosts: seq<Discovered>, hidden: set<Mac>, registered: set<Mac>): seq<Discovered> {
    if hosts == [] then []
    else
      var before := hosts[..|hosts| - 1];
      var d := hosts[|hosts| - 1];
      ShownDiscovered(before, hidden, registered)
      + (if d.mac in HiddenAfter(before, hidden, registered) then [] else [d])
  }

  predicate MatchesManual(d: Discovered, m: Manual) {
    m.registered && m.mac == d.mac && m.host == d.address
  }

  predicate Matched(m: Manual, discovered: seq<Discovered>) {
    exists d :: d in discovered && MatchesManual(d, m)
  }

  predicate NameDiscovered(name: string, discovered: seq<Discovered>) {
    exists d :: d in discovered && d.name == name
  }

  function RegisteredPs4sFound(discovered: seq<Discovered>, registered: set<Mac>): nat {
    if discovered == [] then 0
    else
      (if !discovered[0].ps5 && discovered[0].mac in registered then 1 else 0)
      + RegisteredPs4sFound(discovered[1..], registered)
  }

  /** All registered PS4 consoles are discovered, so the shared PSN entry for them is not listed. */
  predicate MainPs4Suppressed(m: Model) {
    RegisteredPs4sFound(m.discovered, m.registered) >= m.registeredPs4s
  }

  predicate PsnListed(m: Model, p: Psn) {
    && !NameDiscovered(p.name, m.discovered)
    && !(p.name == MAIN_PS4 && MainPs4Suppressed(m))
    && p.name !in m.waking
  }

  function WrapDiscovered(hosts: seq<Discovered>): seq<Host> {
    if hosts == [] then [] else [DiscoveredHost(hosts[0])] + WrapDiscovered(hosts[1..])
  }

  function WrapManual(hosts: seq<Manual>): seq<Host> {
    if hosts == [] then [] else [ManualHost(hosts[0])] + WrapManual(hosts[1..])
  }

  function WrapPsn(hosts: seq<Psn>): seq<Host> {
    if hosts == [] then [] else [PsnHost(hosts[0])] + WrapPsn(hosts[1..])
  }

  function Unmatched(m: Model, manual: seq<Manual>): seq<Manual> {
    Filter(manual, (h: Manual) => !Matched(h, m.discovered))
  }

  function ListedPsn(m: Model, psn: seq<Psn>): seq<Psn> {
    Filter(psn, (p: Psn) => PsnListed(m, p))
  }

  function Rows(m: Model): seq<Host> {
    WrapDiscovered(ShownDiscovered(m.discovered, m.hidden, m.registered))
    + WrapManual(Unmatched(m, m.manual)) + WrapPsn(ListedPsn(m, m.psn))
  }

  // ---------------------------------------------------------------- the lookup

  /** The PSN hosts that the lookup counts. */
  function CountedPsn(m: Model, psn: seq<Psn>): seq<Psn> {
    Filter(psn, (p: Psn) => !NameDiscovered(p.name, m.discovered))
  }

  function Targets(m: Model): seq<Host> {
    WrapDiscovered(m.discovered) + WrapManual(m.manual) + WrapPsn(CountedPsn(m, m.psn))
  }

  /** The host at a row number, found by counting through the three lists. */
  method DisplayServerAt(m: Model, index: int) returns (server: Option<Host>)
    ensures server == if 0 <= index < |Targets(m)| then Some(Targets(m)[index]) else None
  {
    WrapsPointwise(m);
    if index < 0 {
      return None;
    }
    if index < |m.discovered| {
      return Some(DiscoveredHost(m.discovered[index]));
    }
    var i := index - |m.discovered|;
    if i < |m.manual| {
      return Some(ManualHost(m.manual[i]));
    }
    i := i - |m.manual|;
    if i < |m.psn| {
      var found := PsnAt(m, i);
      if found.Some? {
        assert Targets(m)[|m.discovered| + |m.manual| + i] == PsnHost(CountedPsn(m, m.psn)[i]);
        return Some(PsnHost(found.value));
      }
    }
    return None;
  }

  lemma CountedFrom(m: Model, k: nat)
    requires k < |m.psn|
    ensures CountedPsn(m, m.psn[k..])
            == (if NameDiscovered(m.psn[k].name, m.discovered) then [] else [m.psn[k]]) + CountedPsn(m, m.psn[k + 1..])
  {
    assert m.psn[k..][0] == m.psn[k] && m.psn[k..][1..] == m.psn[k + 1..];
  }

  /** The j-th PSN host that no discovered host hides. */
  method PsnAt(m: Model, index: nat) returns (found: Option<Psn>)
    ensures found == if index < |CountedPsn(m, m.psn)| then Some(CountedPsn(m, m.psn)[index]) else None
  {
    var j := 0;
    ghost var passed: seq<Psn> := [];
    assert m.psn[0..] == m.psn;
    for k := 0 to |m.psn|
      invariant j == |passed| <= index
      invariant CountedPsn(m, m.psn) == passed + CountedPsn(m, m.psn[k..])
    {
      var isHidden := IsNameDiscovered(m.psn[k].name, m.discovered);
      CountedFrom(m, k);
      if !isHidden {
        ConcatAssoc(passed, [m.psn[k]], CountedPsn(m, m.psn[k + 1..]));
        if j == index {
          return Some(m.psn[k]);
        }
        passed := passed + [m.psn[k]];
        j := j + 1;
      }
    }
    return None;
  }

  method IsNameDiscovered(name: string, discovered: seq<Discovered>) returns (found: bool)
    ensures found == NameDiscovered(name, discovered)
  {
    found := false;
    for i := 0 to |discovered|
      invariant found <==> exists d :: d in discovered[..i] && d.name == name
    {
      assert discovered[..i + 1] == discovered[..i] + [discovered[i]];
      if discovered[i].name == name {
        found := true;
      }
    }
    assert discovered[..|discovered|] == discovered;
  }

  lemma {:induction false} WrapDiscoveredAt(hosts: seq<Discovered>)
    ensures |WrapDiscovered(hosts)| == |hosts|
    ensures forall i :: 0 <= i < |hosts| ==> WrapDiscovered(hosts)[i] == DiscoveredHost(hosts[i])
  {
    if hosts == [] {
    } else {
      WrapDiscoveredAt(hosts[1..]);
    }
  }

  lemma {:induction false} WrapManualAt(hosts: seq<Manual>)
    ensures |WrapManual(hosts)| == |hosts|
    ensures forall i :: 0 <= i < |hosts| ==> WrapManual(hosts)[i] == ManualHost(hosts[i])
  {
    if hosts == [] {
    } else {
      WrapManualAt(hosts[1..]);
    }
  }

  lemma {:induction false} WrapPsnAt(hosts: seq<Psn>)
    ensures |WrapPsn(hosts)| == |hosts|
    ensures forall i :: 0 <= i < |hosts| ==> WrapPsn(hosts)[i] == PsnHost(hosts[i])
  {
    if hosts == [] {
    } else {
      WrapPsnAt(hosts[1..]);
    }
  }

  lemma WrapsPointwise(m: Model)
    ensures var n := |m.discovered|;
            var k := |m.manual|;
            var counted := CountedPsn(m, m.psn);
            && |Targets(m)| == n + k + |counted|
            && (forall i :: 0 <= i < n ==> Targets(m)[i] == DiscoveredHost(m.discovered[i]))
            && (forall i :: 0 <= i < k ==> Targets(m)[n + i] == ManualHost(m.manual[i]))
            && (forall i :: 0 <= i < |counted| ==> Targets(m)[n + k + i] == PsnHost(counted[i]))
  {
    WrapDiscoveredAt(m.discovered);
    WrapManualAt(m.manual);
    WrapPsnAt(CountedPsn(m, m.psn));
  }

  // ---------------------------------------------------------------- when rows and lookup agree

  /** Nothing is left out of the rows that the lookup counts. */
  ghost predicate NothingSkipped(m: Model) {
    && (forall d :: d in m.discovered ==> d.mac !in m.hidden)
    && (forall h :: h in m.manual ==> !Matched(h, m.discovered))
    && (forall p :: p in m.psn && !NameDiscovered(p.name, m.discovered) ==>
          p.name !in m.waking && !(p.name == MAIN_PS4 && MainPs4Suppressed(m)))
  }

  lemma {:induction false} ShownAll(hosts: seq<Discovered>, hidden: set<Mac>, registered: set<Mac>)
    ensures |ShownDiscovered(hosts, hidden, registered)| <= |hosts|
    ensures (forall d :: d in hosts ==> d.mac !in hidden) <==> |ShownDiscovered(hosts, hidden, registered)| == |hosts|
    ensures (forall d :: d in hosts ==> d.mac !in hidden) ==>
              ShownDiscovered(hosts, hidden, registered) == hosts && HiddenAfter(hosts, hidden, registered) == hidden
  {
    if hosts == [] {
    } else {
      var before := hosts[..|hosts| - 1];
      assert hosts == before + [hosts[|hosts| - 1]];
      ShownAll(before, hidden, registered);
    }
  }

  lemma RowsLengths(m: Model)
    ensures |Rows(m)| == |ShownDiscovered(m.discovered, m.hidden, m.registered)|
                         + |Unmatched(m, m.manual)| + |ListedPsn(m, m.psn)|
    ensures |Targets(m)| == |m.discovered| + |m.manual| + |CountedPsn(m, m.psn)|
  {
    WrapDiscoveredAt(ShownDiscovered(m.discovered, m.hidden, m.registered));
    WrapManualAt(Unmatched(m, m.manual));
    WrapPsnAt(ListedPsn(m, m.psn));
    WrapsPointwise(m);
  }

  lemma ManualAll(m: Model)
    ensures |Unmatched(m, m.manual)| <= |m.manual|
    ensures |Unmatched(m, m.manual)| == |m.manual| <==> (forall h :: h in m.manual ==> !Matched(h, m.discovered))
    ensures (forall h :: h in m.manual ==> !Matched(h, m.discovered)) ==> Unmatched(m, m.manual) == m.manual
  {
    FilterAll(m.manual, (h: Manual) => !Matched(h, m.discovered));
  }

  lemma PsnAll(m: Model)
    ensures |ListedPsn(m, m.psn)| <= |CountedPsn(m, m.psn)|
    ensures |ListedPsn(m, m.psn)| == |CountedPsn(m, m.psn)|
            <==> (forall p :: p in m.psn && !NameDiscovered(p.name, m.discovered) ==> PsnListed(m, p))
    ensures (forall p :: p in m.psn && !NameDiscovered(p.name, m.discovered) ==> PsnListed(m, p)) ==>
              ListedPsn(m, m.psn) == CountedPsn(m, m.psn)
  {
    FilterNarrower(m.psn, (p: Psn) => !NameDiscovered(p.name, m.discovered), (p: Psn) => PsnListed(m, p));
  }

  /**
   Rows and lookup agree exactly when nothing is skipped: then, and only then, every row number looks
   up the host of that row and every other number looks up nothing. Each list of rows can only be
   shorter than the list the lookup counts, so equal lengths leave no room for a skipped host.
   */
  lemma RowsMatchLookupIff(m: Model)
    ensures Rows(m) == Targets(m) <==> NothingSkipped(m)
  {
    ShownAll(m.discovered, m.hidden, m.registered);
    ManualAll(m);
    PsnAll(m);
    RowsLengths(m);
    if |Rows(m)| == |Targets(m)| {
      assert NothingSkipped(m);
    }
  }

  // ---------------------------------------------------------------- the hidden list after listing

  /** A real address leaves the hidden list exactly when a host with it is listed and registered; none joins. */
  lemma {:induction false} HiddenRealMac(hosts: seq<Discovered>, hidden: set<Mac>, registered: set<Mac>, mac: Mac)
    requires mac != NO_MAC
    ensures mac in HiddenAfter(hosts, hidden, registered)
            <==> mac in hidden && !(mac in registered && exists d :: d in hosts && d.mac == mac)
  {
    if hosts == [] {
    } else {
      var before := hosts[..|hosts| - 1];
      var last := hosts[|hosts| - 1];
      assert forall d :: d in hosts <==> d in before || d == last;
      HiddenRealMac(before, hidden, registered, mac);
    }
  }

  /** Host `i` is a registered, hidden, named console and the first one listed with its address. */
  predicate LeavesDefault(hosts: seq<Discovered>, hidden: set<Mac>, registered: set<Mac>, i: nat)
    requires i < |hosts|
  {
    var d := hosts[i];
    && d.mac != NO_MAC && d.mac in hidden && d.mac in registered && d.name != ""
    && forall j :: 0 <= j < i ==> hosts[j].mac != d.mac
  }

  /** Host `i` takes the empty address off the hidden list without putting it back. */
  predicate TakesDefault(hosts: seq<Discovered>, registered: set<Mac>, i: nat)
    requires i < |hosts|
  {
    hosts[i].mac == NO_MAC && hosts[i].name == "" && NO_MAC in registered
  }

  predicate NoneTakesDefault(hosts: seq<Discovered>, registered: set<Mac>, from: int) {
    forall j :: from <= j && 0 <= j < |hosts| ==> !TakesDefault(hosts, registered, j)
  }

  /** The empty address is left by some host, or was hidden before, and no later host takes it off. */
  ghost predicate DefaultStays(hosts: seq<Discovered>, hidden: set<Mac>, registered: set<Mac>) {
    || (NO_MAC in hidden && NoneTakesDefault(hosts, registered, 0))
    || (exists i :: 0 <= i < |hosts| && LeavesDefault(hosts, hidden, registered, i)
                    && NoneTakesDefault(hosts, registered, i + 1))
  }

  lemma DefaultStaysStep(before: seq<Discovered>, d: Discovered, hidden: set<Mac>, registered: set<Mac>)
    ensures var hosts := before + [d];
            var n := |before|;
            DefaultStays(hosts, hidden, registered)
            <==> LeavesDefault(hosts, hidden, registered, n)
                 || (DefaultStays(before, hidden, registered) && !TakesDefault(hosts, registered, n))
  {
    var hosts := before + [d];
    var n := |before|;
    assert forall i :: 0 <= i < n ==> hosts[i] == before[i];
    forall i | 0 <= i < n
      ensures LeavesDefault(hosts, hidden, registered, i) == LeavesDefault(before, hidden, registered, i)
      ensures TakesDefault(hosts, registered, i) == TakesDefault(before, registered, i)
    {
    }
    forall from | 0 <= from <= n
      ensures NoneTakesDefault(hosts, registered, from)
              <==> NoneTakesDefault(before, registered, from) && !TakesDefault(hosts, registered, n)
    {
      if NoneTakesDefault(hosts, registered, from) {
        assert !TakesDefault(hosts, registered, n);
        forall j | from <= j < n ensures !TakesDefault(before, registered, j) {
          assert !TakesDefault(hosts, registered, j);
        }
      }
      if NoneTakesDefault(before, registered, from) && !TakesDefault(hosts, registered, n) {
        forall j | from <= j < |hosts| ensures !TakesDefault(hosts, registered, j) {
          if j < n {
            assert !TakesDefault(before, registered, j);
          }
        }
      }
    }
  }

  /** Exactly when listing the hosts leaves the empty address on the hidden list. */
  lemma {:induction false} DefaultEntryIff(hosts: seq<Discovered>, hidden: set<Mac>, registered: set<Mac>)
    ensures NO_MAC in HiddenAfter(hosts, hidden, registered) <==> DefaultStays(hosts, hidden, registered)
  {
    if hosts == [] {
    } else {
      var n := |hosts| - 1;
      var before, d := hosts[..n], hosts[n];
      assert hosts == before + [d];
      DefaultEntryIff(before, hidden, registered);
      DefaultStaysStep(before, d, hidden, registered);
      if d.mac != NO_MAC {
        HiddenRealMac(before, hidden, registered, d.mac);
        assert (exists e :: e in before && e.mac == d.mac) <==> (exists j :: 0 <= j < n && hosts[j].mac == d.mac);
      }
    }
  }

  /**
   Listing the hosts only takes entries off the hidden list if and only if the empty address was
   hidden before or does not stay.
   */
  lemma ListingOnlyUnhidesIff(hosts: seq<Discovered>, hidden: set<Mac>, registered: set<Mac>)
    ensures HiddenAfter(hosts, hidden, registered) <= hidden
            <==> NO_MAC in hidden || !DefaultStays(hosts, hidden, registered)
  {
    DefaultEntryIff(hosts, hidden, registered);
    forall mac | mac in HiddenAfter(hosts, hidden, registered) && mac != NO_MAC ensures mac in hidden {
      HiddenRealMac(hosts, hidden, registered, mac);
    }
  }

  /** A registered hidden console, listed before a host whose id cannot be read, hides that host too. */
  lemma UnhidingHidesUnreadableHost(a: Discovered, b: Discovered)
    requires a.mac == 7 && a.name != "" && b.mac == NO_MAC
    ensures ShownDiscovered([a, b], {7}, {7}) == [] && HiddenAfter([a, b], {7}, {7}) == {NO_MAC}
    ensures ShownDiscovered([b], {7}, {7}) == [b]
  {
    assert [a, b][..1] == [a] && [a][..0] == [] && [b][..0] == [];
    assert HiddenAfter([], {7}, {7}) == {7};
    assert HiddenAfter([a], {7}, {7}) == Unhide({7}, a, {7}) == {NO_MAC};
    assert ShownDiscovered([a], {7}, {7}) == [];
    assert HiddenAfter([a, b], {7}, {7}) == Unhide({NO_MAC}, b, {7});
  }

  /** Rows and lookup disagree already for one hidden host and nothing else. */
  lemma HiddenHostBreaksRows(d: Discovered)
    ensures var m := Model([d], [], [], {d.mac}, {}, 0, []);
            Rows(m) == [] && Targets(m) == [DiscoveredHost(d)] && !NothingSkipped(m)
  {
    var m := Model([d], [], [], {d.mac}, {}, 0, []);
    assert [d][..0] == [] && [d][1..] == [];
    assert ShownDiscovered([d], {d.mac}, {}) == [];
    assert WrapDiscovered([d]) == [DiscoveredHost(d)];
    assert Unmatched(m, []) == [] && ListedPsn(m, []) == [] && CountedPsn(m, []) == [];
    assert d in m.discovered;
  }

  // ---------------------------------------------------------------- which hosts have a row

  /** No discovered host is registered by hand at the same address with the same hardware address. */
  predicate ManualUnseen(m: Model, h: Manual) {
    !(h.registered && exists d :: d in m.discovered && d.mac == h.mac && d.address == h.host)
  }

  function FoundPs4s(m: Model): seq<Discovered> {
    Filter(m.discovered, (d: Discovered) => !d.ps5 && d.mac in m.registered)
  }

  /** No discovered host has the name, and no host being woken; the shared PS4 entry needs a missing PS4. */
  predicate PsnUnseen(m: Model, p: Psn) {
    && p.name !in m.waking && (forall d :: d in m.discovered ==> d.name != p.name)
    && (p.name == "Main PS4 Console" ==> |FoundPs4s(m)| < m.registeredPs4s)
  }

  lemma {:induction false} FoundIsFilter(discovered: seq<Discovered>, registered: set<Mac>)
    ensures RegisteredPs4sFound(discovered, registered)
            == |Filter(discovered, (d: Discovered) => !d.ps5 && d.mac in registered)|
  {
    if discovered == [] {
    } else {
      FoundIsFilter(discovered[1..], registered);
    }
  }

  /**
   The rows are, in this order, the discovered hosts that are shown, the manual hosts that no discovered
   host is, and the PSN hosts that are neither discovered nor waking; the lookup counts all discovered and
   manual hosts and the PSN hosts that no discovered host has the name of.
   */
  lemma RowsMeaning(m: Model)
    ensures Rows(m) == WrapDiscovered(ShownDiscovered(m.discovered, m.hidden, m.registered))
                       + WrapManual(Filter(m.manual, (h: Manual) => ManualUnseen(m, h)))
                       + WrapPsn(Filter(m.psn, (p: Psn) => PsnUnseen(m, p)))
    ensures Targets(m) == WrapDiscovered(m.discovered) + WrapManual(m.manual)
                          + WrapPsn(Filter(m.psn, (p: Psn) => forall d :: d in m.discovered ==> d.name != p.name))
  {
    FoundIsFilter(m.discovered, m.registered);
    ManualFilter(m);
    PsnFilter(m);
    CountedFilter(m);
  }

  lemma ManualFilter(m: Model)
    ensures Unmatched(m, m.manual) == Filter(m.manual, (h: Manual) => ManualUnseen(m, h))
  {
    forall h ensures Matched(h, m.discovered) <==> !ManualUnseen(m, h) {
      if d :| d in m.discovered && MatchesManual(d, h) {
        assert d.mac == h.mac && d.address == h.host;
      }
      if d :| d in m.discovered && h.registered && d.mac == h.mac && d.address == h.host {
        assert MatchesManual(d, h);
      }
    }
    FilterSame(m.manual, (h: Manual) => !Matched(h, m.discovered), (h: Manual) => ManualUnseen(m, h));
  }

  lemma PsnFilter(m: Model)
    ensures ListedPsn(m, m.psn) == Filter(m.psn, (p: Psn) => PsnUnseen(m, p))
  {
    FoundIsFilter(m.discovered, m.registered);
    FilterSame(m.psn, (p: Psn) => PsnListed(m, p), (p: Psn) => PsnUnseen(m, p));
  }

  lemma CountedFilter(m: Model)
    ensures CountedPsn(m, m.psn) == Filter(m.psn, (p: Psn) => forall d :: d in m.discovered ==> d.name != p.name)
  {
    FilterSame(m.psn, (p: Psn) => !NameDiscovered(p.name, m.discovered),
               (p: Psn) => forall d :: d in m.discovered ==> d.name != p.name);
  }

  /**
   Which discovered hosts are shown, one after the other: one with a real address unless it is hidden when
   its turn comes, that is unless the address was hidden and no registered host with it came before; and
   one whose id cannot be read unless the empty address is hidden by then.
   */
  lemma ShownWhen(hosts: seq<Discovered>, i: nat, hidden: set<Mac>, registered: set<Mac>)
    requires i < |hosts|
    ensures var d := hosts[i];
            var before := hosts[..i];
            var isHidden :=
              if d.mac == 0 then DefaultStays(before, hidden, registered)
              else d.mac in hidden && !(d.mac in registered && exists e :: e in before && e.mac == d.mac);
            ShownDiscovered(hosts[..i + 1], hidden, registered)
            == ShownDiscovered(before, hidden, registered) + (if isHidden then [] else [d])
  {
    var d, before := hosts[i], hosts[..i];
    assert hosts[..i + 1][..i] == before;
    if d.mac == 0 {
      DefaultEntryIff(before, hidden, registered);
    } else {
      HiddenRealMac(before, hidden, registered, d.mac);
    }
  }

  // ---------------------------------------------------------------- building the rows

  lemma {:induction false} WrapDiscoveredAppend(a: seq<Discovered>, d: Discovered)
    ensures WrapDiscovered(a + [d]) == WrapDiscovered(a) + [DiscoveredHost(d)]
  {
    if a == [] {
      assert a + [d] == [d] && [d][1..] == [];
    } else {
      assert (a + [d])[1..] == a[1..] + [d];
      WrapDiscoveredAppend(a[1..], d);
    }
  }

  lemma ManualStep(m: Model, hosts: seq<Manual>)
    requires hosts != []
    ensures var rest := WrapManual(Unmatched(m, hosts[1..]));
            WrapManual(Unmatched(m, hosts))
            == if Matched(hosts[0], m.discovered) then rest else [ManualHost(hosts[0])] + rest
  {
    var rest := Unmatched(m, hosts[1..]);
    assert [] + rest == rest && ([hosts[0]] + rest)[1..] == rest;
  }

  lemma PsnStep(m: Model, hosts: seq<Psn>)
    requires hosts != []
    ensures var rest := WrapPsn(ListedPsn(m, hosts[1..]));
            WrapPsn(ListedPsn(m, hosts)) == if PsnListed(m, hosts[0]) then [PsnHost(hosts[0])] + rest else rest
  {
    var rest := ListedPsn(m, hosts[1..]);
    assert [] + rest == rest && ([hosts[0]] + rest)[1..] == rest;
  }

  lemma ShownStep(hosts: seq<Discovered>, i: nat, hidden: set<Mac>, registered: set<Mac>)
    requires i < |hosts|
    ensures var d := hosts[i];
            var before := HiddenAfter(hosts[..i], hidden, registered);
            var shown := ShownDiscovered(hosts[..i], hidden, registered);
            && HiddenAfter(hosts[..i + 1], hidden, registered) == Unhide(before, d, registered)
            && ShownDiscovered(hosts[..i + 1], hidden, registered) == if d.mac in before then shown else shown + [d]
  {
    assert hosts[..i + 1][..i] == hosts[..i];
    var shown := ShownDiscovered(hosts[..i], hidden, registered);
    assert shown + [] == shown;
  }

  /** The rows of the discovered hosts, and the hidden list as it is left behind. */
  method DiscoveredRows(m: Model) returns (rows: seq<Host>, hidden: set<Mac>)
    ensures rows == WrapDiscovered(ShownDiscovered(m.discovered, m.hidden, m.registered))
    ensures hidden == HiddenAfter(m.discovered, m.hidden, m.registered)
  {
    rows, hidden := [], m.hidden;
    for i := 0 to |m.discovered|
      invariant rows == WrapDiscovered(ShownDiscovered(m.discovered[..i], m.hidden, m.registered))
      invariant hidden == HiddenAfter(m.discovered[..i], m.hidden, m.registered)
    {
      var d := m.discovered[i];
      ghost var shown := ShownDiscovered(m.discovered[..i], m.hidden, m.registered);
      var isHidden := d.mac in hidden;
      ShownStep(m.discovered, i, m.hidden, m.registered);
      WrapDiscoveredAppend(shown, d);
      if isHidden {
        if d.mac in m.registered {
          hidden := hidden - {d.mac};
        }
        if d.mac !in hidden && d.name != "" {
          hidden := hidden + {NO_MAC};
        }
      } else {
        rows := rows + [DiscoveredHost(d)];
      }
    }
    assert m.discovered[..|m.discovered|] == m.discovered;
  }

  /** What the loop over the discovered hosts collects for the two lists after it. */
  method CollectDiscovered(m: Model) returns (matched: seq<Manual>, names: seq<string>, ps4s: nat)
    ensures forall h :: h in matched <==> h in m.manual && Matched(h, m.discovered)
    ensures forall n :: n in names <==> NameDiscovered(n, m.discovered)
    ensures ps4s == RegisteredPs4sFound(m.discovered, m.registered)
  {
    matched, names, ps4s := [], [], 0;
    assert m.discovered[0..] == m.discovered;
    for i := 0 to |m.discovered|
      invariant ps4s + RegisteredPs4sFound(m.discovered[i..], m.registered)
                == RegisteredPs4sFound(m.discovered, m.registered)
      invariant forall h :: h in matched <==> h in m.manual && Matched(h, m.discovered[..i])
      invariant forall n :: n in names <==> NameDiscovered(n, m.discovered[..i])
    {
      var d := m.discovered[i];
      assert m.discovered[i..][0] == d && m.discovered[i..][1..] == m.discovered[i + 1..];
      assert m.discovered[..i + 1] == m.discovered[..i] + [d];
      var these := ManualsMatching(d, m.manual);
      matched := matched + these;
      names := names + [d.name];
      if !d.ps5 && d.mac in m.registered {
        ps4s := ps4s + 1;
      }
    }
    assert m.discovered[..|m.discovered|] == m.discovered;
  }

  method Hosts(m: Model) returns (out: seq<Host>, hidden: set<Mac>)
    ensures out == Rows(m)
    ensures hidden == HiddenAfter(m.discovered, m.hidden, m.registered)
  {
    out, hidden := DiscoveredRows(m);
    var matched, names, ps4s := CollectDiscovered(m);
    var manualRows := ManualRows(m, matched);
    if ps4s >= m.registeredPs4s {
      names := names + [MAIN_PS4];
    }
    var psnRows := PsnRows(m, names);
    out := out + manualRows + psnRows;
  }

  method ManualsMatching(d: Discovered, manual: seq<Manual>) returns (these: seq<Manual>)
    ensures forall h :: h in these <==> h in manual && MatchesManual(d, h)
  {
    these := [];
    for i := 0 to |manual|
      invariant forall h :: h in these <==> h in manual[..i] && MatchesManual(d, h)
    {
      assert manual[..i + 1] == manual[..i] + [manual[i]];
      if manual[i].registered && manual[i].mac == d.mac && manual[i].host == d.address {
        these := these + [manual[i]];
      }
    }
    assert manual[..|manual|] == manual;
  }

  method ManualRows(m: Model, matched: seq<Manual>) returns (rows: seq<Host>)
    requires forall h :: h in matched <==> h in m.manual && Matched(h, m.discovered)
    ensures rows == WrapManual(Unmatched(m, m.manual))
  {
    rows := [];
    assert m.manual[0..] == m.manual;
    for i := 0 to |m.manual|
      invariant rows + WrapManual(Unmatched(m, m.manual[i..])) == WrapManual(Unmatched(m, m.manual))
    {
      var h := m.manual[i];
      assert m.manual[i..][0] == h && m.manual[i..][1..] == m.manual[i + 1..];
      ManualStep(m, m.manual[i..]);
      if h !in matched {
        ConcatAssoc(rows, [ManualHost(h)], WrapManual(Unmatched(m, m.manual[i + 1..])));
        rows := rows + [ManualHost(h)];
      }
    }
  }

  method PsnRows(m: Model, names: seq<string>) returns (rows: seq<Host>)
    requires forall n :: n in names <==> NameDiscovered(n, m.discovered) || (n == MAIN_PS4 && MainPs4Suppressed(m))
    ensures rows == WrapPsn(ListedPsn(m, m.psn))
  {
    rows := [];
    assert m.psn[0..] == m.psn;
    for i := 0 to |m.psn|
      invariant rows + WrapPsn(ListedPsn(m, m.psn[i..])) == WrapPsn(ListedPsn(m, m.psn))
    {
      var p := m.psn[i];
      assert m.psn[i..][0] == p && m.psn[i..][1..] == m.psn[i + 1..];
      PsnStep(m, m.psn[i..]);
      if p.name !in names && p.name !in m.waking {
        ConcatAssoc(rows, [PsnHost(p)], WrapPsn(ListedPsn(m, m.psn[i + 1..])));
        rows := rows + [PsnHost(p)];
      }
    }
  }
}
