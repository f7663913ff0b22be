/**
 Merging the installed games that PSN reports for each device into the stored list: a keyed merge per
 device, a sort for display and a count of titles not seen before.
 */
module PsnGames {
  import opened Collections
  import opened Strings

  /** A game record; a missing field reads as the empty string. `rest` stands for all other fields. */
  datatype Game = Game(
    titleId: string,
    displaySpace: string,
    lastAccess: string,
    comment: string,
    titleName: string,
    rest: int)

  datatype Value = Object(game: Game) | NotObject

  datatype GamesField = Games(values: seq<Value>) | NotArray

  datatype DeviceVal = Device(name: string, games: GamesField) | NotDevice

  /** The stored text: empty, not JSON, JSON but not an object, or one entry per device. */
  datatype Stored = Blank | Unparsable | NotAnObject | Devices(devices: map<string, DeviceVal>)

  datatype Payload = Broken | OtherJson | Array(values: seq<Value>)

  /** One reported device; no payload when the installed games were not requested. */
  datatype DeviceInfo = DeviceInfo(duid: string, name: string, payload: Option<Payload>)

  type Library = map<string, Game>

  // ---------------------------------------------------------------- merging records by title id

  /** Records without a title id are skipped, and of reported records those that are not games too. */
  predicate Kept(v: Value, onlyGames: bool) {
    v.Object? && v.game.titleId != "" && (onlyGames ==> v.game.displaySpace == "game")
  }

  function AbsorbOne(m: Library, v: Value, onlyGames: bool): Library {
    if Kept(v, onlyGames) then m[v.game.titleId := v.game] else m
  }

  function Absorb(m: Library, values: seq<Value>, onlyGames: bool): Library
    decreases |values|
  {
    if values == [] then m else Absorb(AbsorbOne(m, values[0], onlyGames), values[1..], onlyGames)
  }

  /** The last record with the given id, which is not empty; of reported records only games count. */
  function LastRecord(values: seq<Value>, onlyGames: bool, id: string): Option<Game> {
    if values == [] then None
    else
      var later := LastRecord(values[1..], onlyGames, id);
      if later.Some? then later
      else if && values[0].Object? && values[0].game.titleId == id && id != ""
              && (onlyGames ==> values[0].game.displaySpace == "game")
        then Some(values[0].game)
      else None
  }

  /** Merging keeps every id, adds the incoming ones, and the last incoming record of an id wins. */
  lemma {:induction false} AbsorbMeaning(m: Library, values: seq<Value>, onlyGames: bool, id: string)
    ensures var r := Absorb(m, values, onlyGames);
            var last := LastRecord(values, onlyGames, id);
            && (id in r <==> id in m || last.Some?)
            && (last.Some? ==> r[id] == last.value)
            && (last.None? && id in m ==> r[id] == m[id])
    decreases |values|
  {
    if values == [] {
    } else {
      AbsorbMeaning(AbsorbOne(m, values[0], onlyGames), values[1..], onlyGames, id);
    }
  }

  lemma {:induction false} LastRecordIsKept(values: seq<Value>, onlyGames: bool, id: string)
    requires LastRecord(values, onlyGames, id).Some?
    ensures var g := LastRecord(values, onlyGames, id).value;
            Object(g) in values && g.titleId == id && Kept(Object(g), onlyGames)
  {
    if LastRecord(values[1..], onlyGames, id).Some? {
      LastRecordIsKept(values[1..], onlyGames, id);
    }
  }

  lemma {:induction false} KeptHasLastRecord(values: seq<Value>, onlyGames: bool, v: Value)
    requires v in values && Kept(v, onlyGames)
    ensures LastRecord(values, onlyGames, v.game.titleId).Some?
  {
    if v != values[0] {
      KeptHasLastRecord(values[1..], onlyGames, v);
    }
  }

  lemma {:induction false} AbsorbAppend(m: Library, a: seq<Value>, b: seq<Value>, onlyGames: bool)
    ensures Absorb(m, a + b, onlyGames) == Absorb(Absorb(m, a, onlyGames), b, onlyGames)
    decreases |a|
  {
    if a == [] {
      assert a + b == b;
    } else {
      assert (a + b)[1..] == a[1..] + b;
      AbsorbAppend(AbsorbOne(m, a[0], onlyGames), a[1..], b, onlyGames);
    }
  }

  ghost predicate Keyed(m: Library) {
    forall id :: id in m ==> id != "" && m[id].titleId == id
  }

  lemma {:induction false} AbsorbKeyed(m: Library, values: seq<Value>, onlyGames: bool)
    requires Keyed(m)
    ensures Keyed(Absorb(m, values, onlyGames))
    decreases |values|
  {
    if values == [] {
    } else {
      AbsorbKeyed(AbsorbOne(m, values[0], onlyGames), values[1..], onlyGames);
    }
  }

  lemma AbsorbTwice(m: Library, values: seq<Value>, onlyGames: bool)
    ensures Absorb(Absorb(m, values, onlyGames), values, onlyGames) == Absorb(m, values, onlyGames)
  {
    var once := Absorb(m, values, onlyGames);
    var twice := Absorb(once, values, onlyGames);
    forall id ensures (id in twice <==> id in once) && (id in twice ==> twice[id] == once[id]) {
      AbsorbMeaning(m, values, onlyGames, id);
      AbsorbMeaning(once, values, onlyGames, id);
    }
  }

  // ---------------------------------------------------------------- the display order

  function Name(g: Game): string {
    if g.comment == "" then g.titleName else g.comment
  }

  predicate Dated(g: Game) {
    g.lastAccess != ""
  }

  /** The comparator of the sort; `lower` folds the case of a name. */
  predicate Before(a: Game, b: Game, lower: string -> string) {
    if Dated(a) && Dated(b) then Less(b.lastAccess, a.lastAccess)
    else if Dated(a) then true
    else if Dated(b) then false
    else Less(lower(Name(a)), lower(Name(b)))
  }

  predicate Tied(a: Game, b: Game, lower: string -> string) {
    !Before(a, b, lower) && !Before(b, a, lower)
  }

  lemma LessTransitive(a: string, b: string, c: string)
    requires Less(a, b) && Less(b, c)
    ensures Less(a, c)
  {
    LessEqTransitive(a, b, c);
    if a == c {
      LessEqAntisymmetric(a, b);
    }
  }

  lemma NotLess(a: string, b: string)
    ensures Less(a, b) || a == b || Less(b, a)
    ensures !(Less(a, b) && Less(b, a))
  {
    LessEqTotal(a, b);
    if LessEq(a, b) && LessEq(b, a) {
      LessEqAntisymmetric(a, b);
    }
  }

  /** The name the user sees: the comment, unless it is empty. */
  function ShownName(g: Game): string {
    match g
    case Game(_, _, _, "", titleName, _) => titleName
    case Game(_, _, _, comment, _, _) => comment
  }

  /** Two games tie exactly when they agree on the one field that decides their order. */
  lemma TiedMeaning(a: Game, b: Game, lower: string -> string)
    ensures Tied(a, b, lower) <==>
              && a.lastAccess == b.lastAccess
              && (a.lastAccess == "" ==> lower(ShownName(a)) == lower(ShownName(b)))
  {
    NotLess(a.lastAccess, b.lastAccess);
    NotLess(lower(Name(a)), lower(Name(b)));
  }

  /** The comparator is a strict weak order, as the sort requires of it. */
  lemma StrictWeakOrder(a: Game, b: Game, c: Game, lower: string -> string)
    ensures !Before(a, a, lower)
    ensures Before(a, b, lower) ==> !Before(b, a, lower)
    ensures Before(a, b, lower) && Before(b, c, lower) ==> Before(a, c, lower)
    ensures Tied(a, b, lower) && Tied(b, c, lower) ==> Tied(a, c, lower)
  {
    NotLess(a.lastAccess, b.lastAccess);
    NotLess(lower(Name(a)), lower(Name(b)));
    if Before(a, b, lower) && Before(b, c, lower) {
      if Dated(c) {
        LessTransitive(c.lastAccess, b.lastAccess, a.lastAccess);
      } else if !Dated(a) {
        LessTransitive(lower(Name(a)), lower(Name(b)), lower(Name(c)));
      }
    }
    TiedMeaning(a, b, lower);
    TiedMeaning(b, c, lower);
    TiedMeaning(a, c, lower);
  }

  ghost predicate Sorted(s: seq<Game>, lower: string -> string) {
    forall i, j :: 0 <= i < j < |s| ==> !Before(s[j], s[i], lower)
  }

  function Insert(g: Game, s: seq<Game>, lower: string -> string): seq<Game> {
    if s == [] || !Before(s[0], g, lower) then [g] + s else [s[0]] + Insert(g, s[1..], lower)
  }

  function Sort(s: seq<Game>, lower: string -> string): seq<Game> {
    if s == [] then [] else Insert(s[0], Sort(s[1..], lower), lower)
  }

  lemma NotBeforeTransitive(a: Game, b: Game, c: Game, lower: string -> string)
    requires !Before(a, b, lower) && !Before(b, c, lower)
    ensures !Before(a, c, lower)
  {
    StrictWeakOrder(a, c, b, lower);
    StrictWeakOrder(b, a, c, lower);
    StrictWeakOrder(c, b, a, lower);
    StrictWeakOrder(a, b, c, lower);
  }

  lemma {:induction false} InsertContents(g: Game, s: seq<Game>, lower: string -> string)
    ensures multiset(Insert(g, s, lower)) == multiset(s) + multiset{g}
  {
    if s == [] || !Before(s[0], g, lower) {
    } else {
      assert s == [s[0]] + s[1..];
      InsertContents(g, s[1..], lower);
    }
  }

  /** A sorted list stays sorted when an element that nothing in it precedes is put in front. */
  lemma PrependSorts(g: Game, s: seq<Game>, lower: string -> string)
    requires Sorted(s, lower) && forall j :: 0 <= j < |s| ==> !Before(s[j], g, lower)
    ensures Sorted([g] + s, lower)
  {
    var r := [g] + s;
    forall i, j | 0 <= i < j < |r| ensures !Before(r[j], r[i], lower) {
      assert r[j] == s[j - 1];
      if i > 0 {
        assert r[i] == s[i - 1];
      }
    }
  }

  lemma {:induction false} InsertSorts(g: Game, s: seq<Game>, lower: string -> string)
    requires Sorted(s, lower)
    ensures Sorted(Insert(g, s, lower), lower)
  {
    if s == [] {
    } else if !Before(s[0], g, lower) {
      forall j | 0 <= j < |s| ensures !Before(s[j], g, lower) {
        if j > 0 {
          NotBeforeTransitive(s[j], s[0], g, lower);
        }
      }
      PrependSorts(g, s, lower);
    } else {
      var rest := Insert(g, s[1..], lower);
      InsertSorts(g, s[1..], lower);
      InsertContents(g, s[1..], lower);
      forall j | 0 <= j < |rest| ensures !Before(rest[j], s[0], lower) {
        assert rest[j] in multiset(rest);
        if rest[j] == g {
          StrictWeakOrder(s[0], g, g, lower);
        } else {
          assert rest[j] in s[1..];
        }
      }
      PrependSorts(s[0], rest, lower);
    }
  }

  lemma {:induction false} SortSorts(s: seq<Game>, lower: string -> string)
    ensures Sorted(Sort(s, lower), lower)
    ensures multiset(Sort(s, lower)) == multiset(s)
  {
    if s == [] {
    } else {
      assert s == [s[0]] + s[1..];
      SortSorts(s[1..], lower);
      InsertSorts(s[0], Sort(s[1..], lower), lower);
      InsertContents(s[0], Sort(s[1..], lower), lower);
    }
  }

  /** What sorted means on screen: dated games first, newest first, then undated ones by name. */
  lemma DisplayOrder(s: seq<Game>, lower: string -> string, i: nat, j: nat)
    requires Sorted(s, lower) && i < j < |s|
    ensures s[j].lastAccess != "" ==> s[i].lastAccess != "" && LessEq(s[j].lastAccess, s[i].lastAccess)
    ensures s[i].lastAccess == "" ==> s[j].lastAccess == "" && LessEq(lower(ShownName(s[i])), lower(ShownName(s[j])))
  {
    LessEqTotal(s[i].lastAccess, s[j].lastAccess);
    LessEqTotal(lower(Name(s[i])), lower(Name(s[j])));
  }

  // ---------------------------------------------------------------- one device entry

  function Records(m: Library, ids: seq<string>): seq<Game>
    requires forall id :: id in ids ==> id in m
  {
    if ids == [] then [] else [m[ids[0]]] + Records(m, ids[1..])
  }

  function Objects(games: seq<Game>): seq<Value> {
    if games == [] then [] else [Object(games[0])] + Objects(games[1..])
  }

  function GameList(m: Library, lower: string -> string): seq<Game> {
    Sort(Records(m, InOrder(m.Keys)), lower)
  }

  function Entry(name: string, m: Library, lower: string -> string): DeviceVal {
    Device(name, Games(Objects(GameList(m, lower))))
  }

  /** The stored records of a device by title id; none when the entry is missing or malformed. */
  function LibraryOf(devices: map<string, DeviceVal>, duid: string): Library {
    if duid in devices && devices[duid].Device? && devices[duid].games.Games?
    then Absorb(map[], devices[duid].games.values, false)
    else map[]
  }

  /** The games are exactly the records of the map. */
  ghost predicate Holds(games: seq<Game>, m: Library) {
    && (forall g :: g in games ==> g.titleId in m && m[g.titleId] == g)
    && (forall id :: id in m ==> m[id] in games)
  }

  lemma {:induction false} RecordsHold(m: Library, ids: seq<string>)
    requires Keyed(m) && forall id :: id in ids ==> id in m
    ensures forall g :: g in Records(m, ids) ==> g.titleId in ids && g.titleId in m && m[g.titleId] == g
    ensures forall id :: id in ids ==> m[id] in Records(m, ids)
  {
    if ids == [] {
    } else {
      assert ids == [ids[0]] + ids[1..];
      RecordsHold(m, ids[1..]);
    }
  }

  lemma {:induction false} RecordsDistinct(m: Library, ids: seq<string>)
    requires Keyed(m) && forall id :: id in ids ==> id in m
    requires NoDuplicates(ids)
    ensures forall g :: multiset(Records(m, ids))[g] <= 1
  {
    if ids == [] {
    } else {
      assert ids == [ids[0]] + ids[1..];
      RecordsDistinct(m, ids[1..]);
      RecordsHold(m, ids[1..]);
      var rest := Records(m, ids[1..]);
      assert m[ids[0]] !in rest;
      assert m[ids[0]] !in multiset(rest);
    }
  }

  lemma {:induction false} ObjectsMembers(games: seq<Game>)
    ensures forall v :: v in Objects(games) <==> v.Object? && v.game in games
  {
    if games == [] {
    } else {
      assert games == [games[0]] + games[1..];
      ObjectsMembers(games[1..]);
    }
  }

  lemma SameMultisetSameMembers<T>(a: seq<T>, b: seq<T>, x: T)
    requires multiset(a) == multiset(b)
    ensures x in a <==> x in b
  {
    assert x in a <==> x in multiset(a);
    assert x in b <==> x in multiset(b);
  }

  /** The stored list holds exactly the records of the library, sorted. */
  lemma GameListHolds(m: Library, lower: string -> string)
    requires Keyed(m)
    ensures Holds(GameList(m, lower), m) && Sorted(GameList(m, lower), lower)
    ensures multiset(GameList(m, lower)) == multiset(Records(m, InOrder(m.Keys)))
  {
    var records := Records(m, InOrder(m.Keys));
    RecordsHold(m, InOrder(m.Keys));
    SortSorts(records, lower);
    forall g ensures g in GameList(m, lower) <==> g in records {
      SameMultisetSameMembers(GameList(m, lower), records, g);
    }
  }

  /** Reading the records of a library, in any order, gives the library. */
  lemma ReadsBack(games: seq<Game>, m: Library)
    requires Keyed(m) && Holds(games, m)
    ensures Absorb(map[], Objects(games), false) == m
  {
    var values := Objects(games);
    var r := Absorb(map[], values, false);
    ObjectsMembers(games);
    forall id ensures (id in r <==> id in m) && (id in r ==> r[id] == m[id]) {
      AbsorbMeaning(map[], values, false, id);
      if LastRecord(values, false, id).Some? {
        LastRecordIsKept(values, false, id);
      }
      if id in m {
        KeptHasLastRecord(values, false, Object(m[id]));
      }
    }
  }

  /** Storing a library and reading it back gives the same library. */
  lemma EntryReadsBack(devices: map<string, DeviceVal>, duid: string, name: string, m: Library, lower: string -> string)
    requires Keyed(m)
    ensures LibraryOf(devices[duid := Entry(name, m, lower)], duid) == m
  {
    GameListHolds(m, lower);
    ReadsBack(GameList(m, lower), m);
  }

  lemma CountTwice<T>(s: seq<T>, i: nat, j: nat)
    requires i < j < |s| && s[i] == s[j]
    ensures multiset(s)[s[i]] >= 2
  {
    assert s == s[..j] + s[j..];
    assert s[i] in s[..j] && s[j] in s[j..];
    assert s[i] in multiset(s[..j]) && s[j] in multiset(s[j..]);
  }

  /** Every title is stored once. */
  lemma EachTitleOnce(m: Library, lower: string -> string, i: nat, j: nat)
    requires Keyed(m) && i < j < |GameList(m, lower)|
    ensures GameList(m, lower)[i].titleId != GameList(m, lower)[j].titleId
  {
    var games := GameList(m, lower);
    GameListHolds(m, lower);
    RecordsDistinct(m, InOrder(m.Keys));
    assert games[i] in games && games[j] in games;
    if games[i] == games[j] {
      CountTwice(games, i, j);
    }
  }

  // ---------------------------------------------------------------- a whole sync

  datatype Progress = Progress(devices: map<string, DeviceVal>, newCount: nat, total: nat)

  function CountNew(values: seq<Value>, known: set<string>): nat {
    if values == [] then 0
    else (if Kept(values[0], true) && values[0].game.titleId !in known then 1 else 0) + CountNew(values[1..], known)
  }

  predicate Reported(dev: DeviceInfo) {
    dev.payload.Some? && dev.payload.value.Array?
  }

  function MergeDevice(p: Progress, dev: DeviceInfo, known: set<string>, lower: string -> string): Progress {
    if Reported(dev) then
      var merged := Absorb(LibraryOf(p.devices, dev.duid), dev.payload.value.values, true);
      Progress(p.devices[dev.duid := Entry(dev.name, merged, lower)],
               p.newCount + CountNew(dev.payload.value.values, known), p.total + |merged|)
    else p
  }

  function MergeDevices(p: Progress, devs: seq<DeviceInfo>, known: set<string>, lower: string -> string): Progress
    decreases |devs|
  {
    if devs == [] then p else MergeDevices(MergeDevice(p, devs[0], known, lower), devs[1..], known, lower)
  }

  function DevicesOf(stored: Stored): map<string, DeviceVal> {
    if stored.Devices? then stored.devices else map[]
  }

  /** The title ids stored for any device. */
  function KnownIds(devices: map<string, DeviceVal>): set<string> {
    set duid, id | duid in devices && id in LibraryOf(devices, duid).Keys :: id
  }

  function Sync(stored: Stored, devs: seq<DeviceInfo>, lower: string -> string): Progress {
    MergeDevices(Progress(DevicesOf(stored), 0, 0), devs, KnownIds(DevicesOf(stored)), lower)
  }

  function Saved(stored: Stored, p: Progress): Stored {
    if p.devices == map[] then stored else Devices(p.devices)
  }

  /** The number announced to the user: new titles, or on a first sync all titles; otherwise nothing. */
  function Announced(stored: Stored, p: Progress): Option<nat> {
    if p.devices != map[] && (p.newCount > 0 || KnownIds(DevicesOf(stored)) == {})
    then Some(if p.newCount > 0 then p.newCount else p.total)
    else None
  }

  /** The device came with an array of installed games. */
  predicate HasReport(dev: DeviceInfo) {
    match dev.payload
    case Some(Array(_)) => true
    case _ => false
  }

  /** All records reported for one device, in the order they are merged. */
  function Incoming(devs: seq<DeviceInfo>, duid: string): seq<Value> {
    if devs == [] then []
    else
      (if HasReport(devs[0]) && devs[0].duid == duid then devs[0].payload.value.values else [])
      + Incoming(devs[1..], duid)
  }

  predicate Touches(devs: seq<DeviceInfo>, duid: string) {
    exists dev :: dev in devs && HasReport(dev) && dev.duid == duid
  }

  /** The name of the last reported device with this id. */
  function LastName(devs: seq<DeviceInfo>, duid: string): string {
    if devs == [] then ""
    else if Touches(devs[1..], duid) then LastName(devs[1..], duid)
    else devs[0].name
  }

  lemma LibraryKeyed(devices: map<string, DeviceVal>, duid: string)
    ensures Keyed(LibraryOf(devices, duid))
  {
    if duid in devices && devices[duid].Device? && devices[duid].games.Games? {
      AbsorbKeyed(map[], devices[duid].games.values, false);
    }
  }

  lemma TouchesFirst(devs: seq<DeviceInfo>, duid: string)
    requires devs != []
    ensures Touches(devs, duid) <==> (Reported(devs[0]) && devs[0].duid == duid) || Touches(devs[1..], duid)
    ensures Incoming(devs, duid) == Incoming([devs[0]], duid) + Incoming(devs[1..], duid)
  {
    assert devs == [devs[0]] + devs[1..];
    assert [devs[0]][1..] == [];
    assert Incoming([devs[0]], duid)
        == (if Reported(devs[0]) && devs[0].duid == duid then devs[0].payload.value.values else []) + [];
  }

  lemma IncomingOne(dev: DeviceInfo, duid: string)
    ensures HasReport(dev) <==> Reported(dev)
    ensures Incoming([dev], duid) == if Reported(dev) && dev.duid == duid then dev.payload.value.values else []
  {
    assert [dev][1..] == [];
    if Reported(dev) {
      var values := dev.payload.value.values;
      assert values + [] == values;
    }
  }

  lemma MergeReported(p: Progress, dev: DeviceInfo, known: set<string>, lower: string -> string)
    requires Reported(dev)
    ensures var r := MergeDevice(p, dev, known, lower);
            && LibraryOf(r.devices, dev.duid) == Absorb(LibraryOf(p.devices, dev.duid), dev.payload.value.values, true)
            && dev.duid in r.devices
            && r.devices[dev.duid] == Entry(dev.name, LibraryOf(r.devices, dev.duid), lower)
  {
    var values := dev.payload.value.values;
    LibraryKeyed(p.devices, dev.duid);
    AbsorbKeyed(LibraryOf(p.devices, dev.duid), values, true);
    EntryReadsBack(p.devices, dev.duid, dev.name, Absorb(LibraryOf(p.devices, dev.duid), values, true), lower);
  }

  lemma MergeOther(p: Progress, dev: DeviceInfo, known: set<string>, lower: string -> string, duid: string)
    requires !(Reported(dev) && dev.duid == duid)
    ensures var r := MergeDevice(p, dev, known, lower);
            && LibraryOf(r.devices, duid) == LibraryOf(p.devices, duid)
            && (duid in r.devices <==> duid in p.devices)
            && (duid in p.devices ==> r.devices[duid] == p.devices[duid])
  {
  }

  lemma MergeDeviceLibrary(p: Progress, dev: DeviceInfo, known: set<string>, lower: string -> string, duid: string)
    ensures var r := MergeDevice(p, dev, known, lower);
            && LibraryOf(r.devices, duid) == Absorb(LibraryOf(p.devices, duid), Incoming([dev], duid), true)
            && (Reported(dev) && dev.duid == duid ==>
                  duid in r.devices && r.devices[duid] == Entry(dev.name, LibraryOf(r.devices, duid), lower))
            && (!(Reported(dev) && dev.duid == duid) ==>
                  && (duid in r.devices <==> duid in p.devices)
                  && (duid in p.devices ==> r.devices[duid] == p.devices[duid]))
  {
    IncomingOne(dev, duid);
    if Reported(dev) && dev.duid == duid {
      MergeReported(p, dev, known, lower);
    } else {
      MergeOther(p, dev, known, lower, duid);
      assert Absorb(LibraryOf(p.devices, duid), [], true) == LibraryOf(p.devices, duid);
    }
  }

  /**
   A sync loses nothing. For every device, the stored library becomes the old one with all reported
   records merged in; a device with no readable report keeps its entry untouched, and a reported one
   is stored as the sorted list of its library.
   */
  lemma {:induction false} SyncMerges(p: Progress, devs: seq<DeviceInfo>, known: set<string>,
                                      lower: string -> string, duid: string)
    ensures var r := MergeDevices(p, devs, known, lower);
            && LibraryOf(r.devices, duid) == Absorb(LibraryOf(p.devices, duid), Incoming(devs, duid), true)
            && (!Touches(devs, duid) ==>
                  && (duid in r.devices <==> duid in p.devices)
                  && (duid in p.devices ==> r.devices[duid] == p.devices[duid]))
            && (Touches(devs, duid) ==>
                  && duid in r.devices
                  && r.devices[duid] == Entry(LastName(devs, duid), LibraryOf(r.devices, duid), lower))
    decreases |devs|
  {
    if devs == [] {
    } else {
      var dev := devs[0];
      MergeDeviceLibrary(p, dev, known, lower, duid);
      SyncMerges(MergeDevice(p, dev, known, lower), devs[1..], known, lower, duid);
      TouchesFirst(devs, duid);
      AbsorbAppend(LibraryOf(p.devices, duid), Incoming([dev], duid), Incoming(devs[1..], duid), true);
    }
  }

  /** The union of ids after a sync, and which record each id has. */
  lemma StoredIdsAfterSync(stored: Stored, devs: seq<DeviceInfo>, lower: string -> string, duid: string, id: string)
    ensures var before := LibraryOf(DevicesOf(stored), duid);
            var after := LibraryOf(Sync(stored, devs, lower).devices, duid);
            var last := LastRecord(Incoming(devs, duid), true, id);
            && (id in after <==> id in before || last.Some?)
            && (last.Some? ==> after[id] == last.value)
            && (last.None? && id in before ==> after[id] == before[id])
  {
    SyncMerges(Progress(DevicesOf(stored), 0, 0), devs, KnownIds(DevicesOf(stored)), lower, duid);
    AbsorbMeaning(LibraryOf(DevicesOf(stored), duid), Incoming(devs, duid), true, id);
  }

  /** The number of games stored for the reported devices. */
  function StoredCount(devices: map<string, DeviceVal>, devs: seq<DeviceInfo>): nat {
    if devs == [] then 0
    else (if HasReport(devs[0]) then |LibraryOf(devices, devs[0].duid)| else 0) + StoredCount(devices, devs[1..])
  }

  /** No two readable reports are for the same device. */
  predicate OneReportEach(devs: seq<DeviceInfo>) {
    devs == [] || ((HasReport(devs[0]) ==> !Touches(devs[1..], devs[0].duid)) && OneReportEach(devs[1..]))
  }

  /** With one report per device, the total announced on a first sync is the number of games stored for them. */
  lemma {:induction false} TotalIsStored(p: Progress, devs: seq<DeviceInfo>, known: set<string>,
                                         lower: string -> string)
    requires OneReportEach(devs)
    ensures var r := MergeDevices(p, devs, known, lower);
            r.total == p.total + StoredCount(r.devices, devs)
    decreases |devs|
  {
    if devs == [] {
    } else {
      var mid := MergeDevice(p, devs[0], known, lower);
      TotalIsStored(mid, devs[1..], known, lower);
      if Reported(devs[0]) {
        SyncMerges(mid, devs[1..], known, lower, devs[0].duid);
        assert LibraryOf(MergeDevices(mid, devs[1..], known, lower).devices, devs[0].duid)
            == LibraryOf(mid.devices, devs[0].duid);
        EntryReadsBackAfter(p, devs[0], known, lower);
      }
    }
  }

  lemma EntryReadsBackAfter(p: Progress, dev: DeviceInfo, known: set<string>, lower: string -> string)
    requires Reported(dev)
    ensures var r := MergeDevice(p, dev, known, lower);
            r.total == p.total + |LibraryOf(r.devices, dev.duid)|
  {
    LibraryKeyed(p.devices, dev.duid);
    var merged := Absorb(LibraryOf(p.devices, dev.duid), dev.payload.value.values, true);
    AbsorbKeyed(LibraryOf(p.devices, dev.duid), dev.payload.value.values, true);
    EntryReadsBack(p.devices, dev.duid, dev.name, merged, lower);
  }

  lemma {:induction false} CountNewZero(values: seq<Value>, known: set<string>)
    requires forall v :: v in values && Kept(v, true) ==> v.game.titleId in known
    ensures CountNew(values, known) == 0
  {
    if values == [] {
    } else {
      CountNewZero(values[1..], known);
    }
  }

  lemma {:induction false} IncomingMembers(devs: seq<DeviceInfo>, dev: DeviceInfo, v: Value)
    requires dev in devs && Reported(dev) && v in dev.payload.value.values
    ensures v in Incoming(devs, dev.duid)
  {
    if dev != devs[0] {
      IncomingMembers(devs[1..], dev, v);
    }
  }

  /** Everything reported is known afterwards. */
  lemma ReportedIsKnown(stored: Stored, devs: seq<DeviceInfo>, lower: string -> string, dev: DeviceInfo, v: Value)
    requires dev in devs && Reported(dev) && v in dev.payload.value.values && Kept(v, true)
    ensures v.game.titleId in KnownIds(Sync(stored, devs, lower).devices)
  {
    IncomingMembers(devs, dev, v);
    KeptHasLastRecord(Incoming(devs, dev.duid), true, v);
    StoredIdsAfterSync(stored, devs, lower, dev.duid, v.game.titleId);
    SyncMerges(Progress(DevicesOf(stored), 0, 0), devs, KnownIds(DevicesOf(stored)), lower, dev.duid);
    assert Touches(devs, dev.duid);
    assert v.game.titleId in LibraryOf(Sync(stored, devs, lower).devices, dev.duid).Keys;
  }

  lemma {:induction false} NothingNew(p: Progress, devs: seq<DeviceInfo>, known: set<string>, lower: string -> string)
    requires forall dev, v :: dev in devs && Reported(dev) && v in dev.payload.value.values && Kept(v, true) ==>
               v.game.titleId in known
    ensures MergeDevices(p, devs, known, lower).newCount == p.newCount
    decreases |devs|
  {
    if devs == [] {
    } else {
      if Reported(devs[0]) {
        CountNewZero(devs[0].payload.value.values, known);
      }
      NothingNew(MergeDevice(p, devs[0], known, lower), devs[1..], known, lower);
    }
  }

  /** Syncing the same report on top of its result changes no entry. */
  lemma SameDevicesAgain(stored: Stored, devs: seq<DeviceInfo>, known: set<string>, lower: string -> string)
    ensures var first := Sync(stored, devs, lower).devices;
            MergeDevices(Progress(first, 0, 0), devs, known, lower).devices == first
  {
    var first := Sync(stored, devs, lower).devices;
    var again := MergeDevices(Progress(first, 0, 0), devs, known, lower).devices;
    forall duid
      ensures duid in again <==> duid in first
      ensures duid in first ==> again[duid] == first[duid]
    {
      SyncMerges(Progress(DevicesOf(stored), 0, 0), devs, KnownIds(DevicesOf(stored)), lower, duid);
      SyncMerges(Progress(first, 0, 0), devs, known, lower, duid);
      AbsorbTwice(LibraryOf(DevicesOf(stored), duid), Incoming(devs, duid), true);
    }
  }

  /**
   Syncing the same report again changes no stored entry and counts no new game, so it announces
   nothing unless no title is known at all.
   */
  lemma SyncIsIdempotent(stored: Stored, devs: seq<DeviceInfo>, lower: string -> string)
    ensures var first := Sync(stored, devs, lower);
            var again := Sync(Saved(stored, first), devs, lower);
            && again.devices == first.devices
            && again.newCount == 0
            && (KnownIds(first.devices) != {} ==> Announced(Saved(stored, first), again) == None)
  {
    var first := Sync(stored, devs, lower);
    var known := KnownIds(first.devices);
    SavedDevices(stored, devs, lower);
    SameDevicesAgain(stored, devs, known, lower);
    forall dev, v | dev in devs && Reported(dev) && v in dev.payload.value.values && Kept(v, true)
      ensures v.game.titleId in known
    {
      ReportedIsKnown(stored, devs, lower, dev, v);
    }
    NothingNew(Progress(first.devices, 0, 0), devs, known, lower);
  }

  /** No device entry is ever dropped. */
  lemma KeepsDevices(stored: Stored, devs: seq<DeviceInfo>, lower: string -> string)
    ensures DevicesOf(stored).Keys <= Sync(stored, devs, lower).devices.Keys
  {
    forall duid | duid in DevicesOf(stored) ensures duid in Sync(stored, devs, lower).devices {
      SyncMerges(Progress(DevicesOf(stored), 0, 0), devs, KnownIds(DevicesOf(stored)), lower, duid);
    }
  }

  // ---------------------------------------------------------------- what the settings hold and what is announced

  /** The record of a title in the stored text, for one device. */
  function Lookup(stored: Stored, duid: string, id: string): Option<Game> {
    match stored
    case Devices(devices) =>
      if duid !in devices then None
      else
        (match devices[duid]
         case Device(_, Games(values)) => LastRecord(values, false, id)
         case _ => None)
    case _ => None
  }

  lemma LookupIsLibrary(stored: Stored, duid: string, id: string)
    ensures var m := LibraryOf(DevicesOf(stored), duid);
            (id in m <==> Lookup(stored, duid, id).Some?) && (id in m ==> Lookup(stored, duid, id) == Some(m[id]))
  {
    if stored.Devices? && duid in stored.devices {
      match stored.devices[duid]
      case Device(_, Games(values)) => AbsorbMeaning(map[], values, false, id);
      case _ =>
    }
  }

  lemma SavedDevices(stored: Stored, devs: seq<DeviceInfo>, lower: string -> string)
    ensures var p := Sync(stored, devs, lower);
            DevicesOf(Saved(stored, p)) == p.devices
  {
    if Sync(stored, devs, lower).devices == map[] {
      KeepsDevices(stored, devs, lower);
    }
  }

  /**
   What the settings hold after a sync. For every device and title it is the last record reported for them
   that is a game, or, when none was reported, what the settings held before.
   */
  lemma SettingsAfterSync(stored: Stored, devs: seq<DeviceInfo>, lower: string -> string, duid: string, id: string)
    ensures var reported := LastRecord(Incoming(devs, duid), true, id);
            Lookup(Saved(stored, Sync(stored, devs, lower)), duid, id)
            == if reported.Some? then reported else Lookup(stored, duid, id)
  {
    var saved := Saved(stored, Sync(stored, devs, lower));
    SavedDevices(stored, devs, lower);
    LookupIsLibrary(saved, duid, id);
    LookupIsLibrary(stored, duid, id);
    StoredIdsAfterSync(stored, devs, lower, duid, id);
  }

  /**
   The entry of a reported device has its last reported name and a list of records, each title once, in
   display order; the entry of any other device is the one that was stored.
   */
  lemma EntryAfterSync(stored: Stored, devs: seq<DeviceInfo>, lower: string -> string, duid: string)
    ensures var saved := DevicesOf(Saved(stored, Sync(stored, devs, lower)));
            if Touches(devs, duid) then
              exists games: seq<Game> ::
                && duid in saved && saved[duid] == Device(LastName(devs, duid), Games(Objects(games)))
                && Sorted(games, lower)
                && forall i, j :: 0 <= i < j < |games| ==> games[i].titleId != games[j].titleId
            else
              && (duid in saved <==> duid in DevicesOf(stored))
              && (duid in saved ==> saved[duid] == DevicesOf(stored)[duid])
  {
    var p := Sync(stored, devs, lower);
    SavedDevices(stored, devs, lower);
    SyncMerges(Progress(DevicesOf(stored), 0, 0), devs, KnownIds(DevicesOf(stored)), lower, duid);
    if Touches(devs, duid) {
      var m := LibraryOf(p.devices, duid);
      var games := GameList(m, lower);
      LibraryKeyed(p.devices, duid);
      GameListHolds(m, lower);
      forall i, j | 0 <= i < j < |games| ensures games[i].titleId != games[j].titleId {
        EachTitleOnce(m, lower, i, j);
      }
      assert p.devices[duid] == Device(LastName(devs, duid), Games(Objects(games)));
    }
  }

  /** Everything reported, in order. */
  function Reports(devs: seq<DeviceInfo>): seq<Value> {
    if devs == [] then []
    else (if HasReport(devs[0]) then devs[0].payload.value.values else []) + Reports(devs[1..])
  }

  /** A game that the settings hold for no device. */
  ghost predicate IsNew(stored: Stored, v: Value) {
    && v.Object? && v.game.titleId != "" && v.game.displaySpace == "game"
    && forall duid :: Lookup(stored, duid, v.game.titleId).None?
  }

  ghost function New(stored: Stored, values: seq<Value>): seq<Value> {
    Filter(values, (v: Value) => IsNew(stored, v))
  }

  lemma KnownMeaning(stored: Stored, id: string)
    ensures id in KnownIds(DevicesOf(stored)) <==> exists duid :: Lookup(stored, duid, id).Some?
  {
    forall duid ensures Lookup(stored, duid, id).Some? <==> id in LibraryOf(DevicesOf(stored), duid) {
      LookupIsLibrary(stored, duid, id);
    }
    if duid :| duid in DevicesOf(stored) && id in LibraryOf(DevicesOf(stored), duid).Keys {
      assert Lookup(stored, duid, id).Some?;
    }
    if duid :| Lookup(stored, duid, id).Some? {
      assert duid in DevicesOf(stored) && id in LibraryOf(DevicesOf(stored), duid).Keys;
    }
  }

  lemma {:induction false} CountNewCounts(stored: Stored, values: seq<Value>)
    ensures CountNew(values, KnownIds(DevicesOf(stored))) == |New(stored, values)|
  {
    if values == [] {
    } else {
      CountNewCounts(stored, values[1..]);
      if values[0].Object? {
        KnownMeaning(stored, values[0].game.titleId);
      }
    }
  }

  lemma {:induction false} NewCountCounts(stored: Stored, p: Progress, devs: seq<DeviceInfo>, lower: string -> string)
    ensures MergeDevices(p, devs, KnownIds(DevicesOf(stored)), lower).newCount
            == p.newCount + |New(stored, Reports(devs))|
    decreases |devs|
  {
    var known := KnownIds(DevicesOf(stored));
    if devs == [] {
    } else {
      var values := if HasReport(devs[0]) then devs[0].payload.value.values else [];
      CountNewCounts(stored, values);
      FilterAppend(values, Reports(devs[1..]), (v: Value) => IsNew(stored, v));
      NewCountCounts(stored, MergeDevice(p, devs[0], known, lower), devs[1..], lower);
    }
  }

  /** The stored text is left as it is, readable or not, exactly when there is no device to store. */
  lemma TextIsLeftAlone(stored: Stored, devs: seq<DeviceInfo>, lower: string -> string)
    ensures var saved := Saved(stored, Sync(stored, devs, lower));
            if DevicesOf(stored) == map[] && (forall dev :: dev in devs ==> !HasReport(dev)) then saved == stored
            else saved.Devices?
  {
    DevicesAfterSync(stored, devs, lower);
  }

  /** A sync counts new games exactly when some reported game was stored for no device before. */
  lemma CountsNewIff(stored: Stored, devs: seq<DeviceInfo>, lower: string -> string)
    ensures Sync(stored, devs, lower).newCount > 0 <==> exists v :: v in Reports(devs) && IsNew(stored, v)
  {
    NewCountCounts(stored, Progress(DevicesOf(stored), 0, 0), devs, lower);
    FilterMembers(Reports(devs), (v: Value) => IsNew(stored, v));
    var unseen := New(stored, Reports(devs));
    assert unseen != [] ==> unseen[0] in unseen;
  }

  lemma DevicesAfterSync(stored: Stored, devs: seq<DeviceInfo>, lower: string -> string)
    ensures Sync(stored, devs, lower).devices == map[]
            <==> DevicesOf(stored) == map[] && forall dev :: dev in devs ==> !HasReport(dev)
  {
    var p := Sync(stored, devs, lower);
    forall duid ensures duid in p.devices <==> duid in DevicesOf(stored) || Touches(devs, duid) {
      SyncMerges(Progress(DevicesOf(stored), 0, 0), devs, KnownIds(DevicesOf(stored)), lower, duid);
      KeepsDevices(stored, devs, lower);
    }
    if dev :| dev in devs && HasReport(dev) {
      assert Touches(devs, dev.duid);
    }
    if duid :| duid in DevicesOf(stored) {
      assert duid in p.devices;
    }
  }

  /**
   The number shown to the user after a sync with one report per device: nothing when the settings hold no
   device; the number of reported games that the settings held for no device; when there is none and the
   settings held no title at all, the number of titles now stored for the reported devices; and nothing
   otherwise.
   */
  lemma AnnouncedIs(stored: Stored, devs: seq<DeviceInfo>, lower: string -> string)
    requires OneReportEach(devs)
    ensures var p := Sync(stored, devs, lower);
            var unseen := |New(stored, Reports(devs))|;
            var noDevice := DevicesOf(stored) == map[] && forall dev :: dev in devs ==> !HasReport(dev);
            var noTitle := forall duid, id :: Lookup(stored, duid, id).None?;
            Announced(stored, p)
            == if noDevice then None
               else if unseen > 0 then Some(unseen)
               else if noTitle then Some(StoredCount(DevicesOf(Saved(stored, p)), devs))
               else None
  {
    var start := Progress(DevicesOf(stored), 0, 0);
    var known := KnownIds(DevicesOf(stored));
    var p := Sync(stored, devs, lower);
    DevicesAfterSync(stored, devs, lower);
    SavedDevices(stored, devs, lower);
    NewCountCounts(stored, start, devs, lower);
    TotalIsStored(start, devs, known, lower);
    assert p.newCount == |New(stored, Reports(devs))| && p.total == StoredCount(p.devices, devs);
    NoTitleKnown(stored);
  }

  lemma NoTitleKnown(stored: Stored)
    ensures KnownIds(DevicesOf(stored)) == {} <==> forall duid, id :: Lookup(stored, duid, id).None?
  {
    if KnownIds(DevicesOf(stored)) == {} {
      forall duid, id ensures Lookup(stored, duid, id).None? {
        KnownMeaning(stored, id);
        assert id !in KnownIds(DevicesOf(stored));
      }
    } else {
      var id :| id in KnownIds(DevicesOf(stored));
      KnownMeaning(stored, id);
      var duid :| Lookup(stored, duid, id).Some?;
      assert !Lookup(stored, duid, id).None?;
    }
  }

  // ---------------------------------------------------------------- the method

  method ReadLibrary(values: seq<Value>, start: Library, onlyGames: bool) returns (m: Library)
    ensures m == Absorb(start, values, onlyGames)
  {
    m := start;
    assert values[0..] == values;
    for i := 0 to |values|
      invariant Absorb(m, values[i..], onlyGames) == Absorb(start, values, onlyGames)
    {
      assert values[i..][0] == values[i] && values[i..][1..] == values[i + 1..];
      if values[i].Object? && values[i].game.titleId != "" && (!onlyGames || values[i].game.displaySpace == "game") {
        m := m[values[i].game.titleId := values[i].game];
      }
    }
  }

  method CountNewTitles(values: seq<Value>, known: set<string>) returns (count: nat)
    ensures count == CountNew(values, known)
  {
    count := 0;
    assert values[0..] == values;
    for i := 0 to |values|
      invariant count + CountNew(values[i..], known) == CountNew(values, known)
    {
      assert values[i..][0] == values[i] && values[i..][1..] == values[i + 1..];
      if && values[i].Object? && values[i].game.displaySpace == "game"
         && values[i].game.titleId != "" && values[i].game.titleId !in known
      {
        count := count + 1;
      }
    }
  }

  ghost predicate Lists(devices: map<string, DeviceVal>, duid: string, id: string) {
    duid in devices && id in LibraryOf(devices, duid)
  }

  method CollectKnownIds(devices: map<string, DeviceVal>) returns (known: set<string>)
    ensures known == KnownIds(devices)
  {
    known := {};
    var todo := devices.Keys;
    while todo != {}
      invariant todo <= devices.Keys
      invariant forall id :: id in known <==> exists duid :: duid !in todo && Lists(devices, duid, id)
      decreases |todo|
    {
      var duid :| duid in todo;
      ghost var before := todo;
      ghost var knownBefore := known;
      todo := todo - {duid};
      if devices[duid].Device? && devices[duid].games.Games? {
        var m := ReadLibrary(devices[duid].games.values, map[], false);
        known := known + m.Keys;
      }
      forall id ensures id in known <==> exists d :: d !in todo && Lists(devices, d, id) {
        assert id in known <==> id in knownBefore || Lists(devices, duid, id);
        if d :| d !in todo && Lists(devices, d, id) {
          assert d == duid || (d !in before && Lists(devices, d, id));
        }
        if d :| d !in before && Lists(devices, d, id) {
          assert d !in todo;
        }
        if Lists(devices, duid, id) {
          assert duid !in todo;
        }
      }
    }
    assert forall id :: id in known <==> exists duid :: duid in devices && id in LibraryOf(devices, duid).Keys by {
      forall id ensures id in known <==> exists duid :: duid in devices && id in LibraryOf(devices, duid).Keys {
        if duid :| duid in devices && id in LibraryOf(devices, duid).Keys {
          assert Lists(devices, duid, id);
        }
        if duid :| duid !in todo && Lists(devices, duid, id) {
          assert duid in devices && id in LibraryOf(devices, duid).Keys;
        }
      }
    }
  }

  method MergeReport(p: Progress, dev: DeviceInfo, known: set<string>, lower: string -> string) returns (r: Progress)
    ensures r == MergeDevice(p, dev, known, lower)
  {
    if dev.payload.None? || !dev.payload.value.Array? {
      return p;
    }
    var existing := map[];
    if dev.duid in p.devices && p.devices[dev.duid].Device? && p.devices[dev.duid].games.Games? {
      existing := ReadLibrary(p.devices[dev.duid].games.values, map[], false);
    }
    var unseen := CountNewTitles(dev.payload.value.values, known);
    var merged := ReadLibrary(dev.payload.value.values, existing, true);
    r := Progress(p.devices[dev.duid := Entry(dev.name, merged, lower)], p.newCount + unseen, p.total + |merged|);
  }

  method MergeReports(devices: map<string, DeviceVal>, devs: seq<DeviceInfo>, known: set<string>,
                      lower: string -> string)
    returns (p: Progress)
    ensures p == MergeDevices(Progress(devices, 0, 0), devs, known, lower)
  {
    p := Progress(devices, 0, 0);
    assert devs[0..] == devs;
    for i := 0 to |devs|
      invariant MergeDevices(p, devs[i..], known, lower) == MergeDevices(Progress(devices, 0, 0), devs, known, lower)
    {
      assert devs[i..][0] == devs[i] && devs[i..][1..] == devs[i + 1..];
      p := MergeReport(p, devs[i], known, lower);
    }
  }

  method SavePsnGamesFromDevices(stored: Stored, devs: seq<DeviceInfo>, lower: string -> string)
    returns (saved: Stored, announced: Option<nat>)
    ensures saved == Saved(stored, Sync(stored, devs, lower))
    ensures announced == Announced(stored, Sync(stored, devs, lower))
  {
    var devices := DevicesOf(stored);
    var known := CollectKnownIds(devices);
    var p := MergeReports(devices, devs, known, lower);
    saved, announced := stored, None;
    if p.devices != map[] {
      saved := Devices(p.devices);
      if p.newCount > 0 || known == {} {
        announced := Some(if p.newCount > 0 then p.newCount else p.total);
      }
    }
  }
}
