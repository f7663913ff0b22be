/**
 Editing a controller mapping: the two indexes stay inverse to each other while buttons are moved,
 and the editor object reads, edits and writes a mapping.
 */
module MappingEditor {
  import opened Collections
  import opened Strings
  import opened MappingText

  // ---------------------------------------------------------------- the two indexes after reading

  /** `p` is listed under the key `k`, and `k` is a button or an axis. */
  ghost predicate Bound(forward: map<string, seq<string>>, k: string, p: string) {
    !IsMetadata(k) && k in forward && p in forward[k]
  }

  /** No physical input is listed under two keys. */
  ghost predicate Unambiguous(forward: map<string, seq<string>>) {
    forall k1, k2, p :: Bound(forward, k1, p) && Bound(forward, k2, p) ==> k1 == k2
  }

  /** The inverse index knows exactly the bound inputs and gives each a key it is listed under. */
  ghost predicate Covers(ix: Index) {
    && (forall p :: p in ix.inverse ==> Bound(ix.forward, ix.inverse[p], p))
    && (forall k, p :: Bound(ix.forward, k, p) ==> p in ix.inverse)
  }

  lemma ReadFieldCovers(ix: Index, field: string)
    requires Covers(ix)
    ensures Covers(ReadField(ix, field))
  {
    var parts := Split(field, ':');
    var r := ReadField(ix, field);
    if |parts| >= 2 {
      var key := parts[0];
      forall k, p | Bound(ix.forward, k, p) ensures Bound(r.forward, k, p) {
      }
      forall k, p | Bound(r.forward, k, p) ensures p in r.inverse {
        if k != key {
          assert Bound(ix.forward, k, p);
        }
      }
      forall p | p in r.inverse ensures Bound(r.forward, r.inverse[p], p) {
        if IsMetadata(key) || p !in r.forward[key] {
          assert Bound(ix.forward, ix.inverse[p], p);
        }
      }
    }
  }

  lemma {:induction false} ReadFieldsCover(ix: Index, fields: seq<string>)
    requires Covers(ix)
    ensures Covers(ReadFields(ix, fields))
    decreases |fields|
  {
    if fields == [] {
    } else {
      ReadFieldCovers(ix, fields[0]);
      ReadFieldsCover(ReadField(ix, fields[0]), fields[1..]);
    }
  }

  /**
   After reading any text the inverse index covers the forward one, and it is its exact inverse if and
   only if no physical input is listed under two keys.
   */
  lemma ParsedIndexes(text: string, deviceName: string)
    requires Parse(text, deviceName).Some?
    ensures var ix := Parse(text, deviceName).value.index;
            && Covers(ix)
            && ((forall k, p :: Bound(ix.forward, k, p) ==> p in ix.inverse && ix.inverse[p] == k)
                <==> Unambiguous(ix.forward))
  {
    ReadFieldsCover(EMPTY, Split(text, ',')[2..]);
  }

  // ---------------------------------------------------------------- moving one input

  function WithoutFirst(s: seq<string>, x: string): seq<string> {
    if s == [] then [] else if s[0] == x then s[1..] else [s[0]] + WithoutFirst(s[1..], x)
  }

  /** Takes `p` out of the list of `key`, and drops the key when it had no other input. */
  function Unlist(forward: map<string, seq<string>>, key: string, p: string): map<string, seq<string>> {
    if |Bindings(forward, key)| > 1 then forward[key := WithoutFirst(forward[key], p)] else forward - {key}
  }

  /** Puts `p` into a list at a position, in place of the input that was there. */
  function Place(list: seq<string>, p: string, index: nat): seq<string> {
    var kept := if |list| > index then list[..index] + list[index + 1..] else list;
    if index == 0 then [p] + kept else kept + [p]
  }

  /** Moves the input `p` to position `index` of the list of `button`. */
  function Move(ix: Index, button: string, p: string, index: nat): Index {
    var oldKey := if p in ix.inverse then ix.inverse[p] else "";
    if button == oldKey then ix
    else
      var unlisted := if oldKey != "" then Unlist(ix.forward, oldKey, p) else ix.forward;
      var list := Bindings(unlisted, button);
      var inverse := if |list| > index then ix.inverse[list[index] := ""] else ix.inverse;
      Index(unlisted[button := Place(list, p, index)], inverse[p := button])
  }

  /** The indexes are inverse on the named keys, and lists are non-empty and duplicate-free. */
  ghost predicate Inverse(ix: Index) {
    && (forall k, p :: k != "" && Bound(ix.forward, k, p) ==> p in ix.inverse && ix.inverse[p] == k)
    && (forall p :: p in ix.inverse && ix.inverse[p] != "" ==> Bound(ix.forward, ix.inverse[p], p))
    && (forall k :: k in ix.forward && k != "" && !IsMetadata(k) ==> ix.forward[k] != [] && NoDuplicates(ix.forward[k]))
  }

  lemma {:induction false} WithoutFirstMembers(s: seq<string>, x: string)
    requires NoDuplicates(s)
    ensures NoDuplicates(WithoutFirst(s, x))
    ensures forall y :: y in WithoutFirst(s, x) <==> y in s && y != x
    ensures |WithoutFirst(s, x)| == |s| - (if x in s then 1 else 0)
  {
    if s == [] {
    } else {
      assert s == [s[0]] + s[1..];
      WithoutFirstMembers(s[1..], x);
      if s[0] != x {
        var rest := WithoutFirst(s[1..], x);
        assert forall j :: 0 <= j < |rest| ==> rest[j] in rest;
      }
    }
  }

  lemma WithoutAtMembers(list: seq<string>, index: nat)
    requires NoDuplicates(list) && index < |list|
    ensures var kept := list[..index] + list[index + 1..];
            NoDuplicates(kept) && forall y :: y in kept <==> y in list && y != list[index]
  {
    var kept := list[..index] + list[index + 1..];
    forall i | 0 <= i < |kept| ensures kept[i] == list[if i < index then i else i + 1] {
    }
    forall y ensures y in kept <==> y in list && y != list[index] {
      if y in list && y != list[index] {
        var i :| 0 <= i < |list| && list[i] == y;
        assert kept[if i < index then i else i - 1] == y;
      }
    }
  }

  lemma PlaceMembers(list: seq<string>, p: string, index: nat)
    requires NoDuplicates(list) && p !in list
    ensures NoDuplicates(Place(list, p, index)) && Place(list, p, index) != []
    ensures forall y :: y in Place(list, p, index) <==> y == p || (y in list && (|list| > index ==> y != list[index]))
    ensures |Place(list, p, index)| == (if |list| > index then |list| else |list| + 1)
    ensures Place(list, p, index)[if index == 0 then 0 else |Place(list, p, index)| - 1] == p
  {
    if |list| > index {
      WithoutAtMembers(list, index);
    }
  }

  lemma {:induction false} WithoutFirstSplits(a: seq<string>, x: string, b: seq<string>)
    requires x !in a
    ensures WithoutFirst(a + ([x] + b), x) == a + b
  {
    var s := a + ([x] + b);
    if a == [] {
      assert s == [x] + b && a + b == b;
    } else {
      assert s[0] == a[0] && s[1..] == a[1..] + ([x] + b);
      WithoutFirstSplits(a[1..], x, b);
      assert a == [a[0]] + a[1..];
      ConcatAssoc([a[0]], a[1..], b);
    }
  }

  lemma SplitAtIndex(list: seq<string>, index: nat)
    requires index < |list|
    ensures list == list[..index] + ([list[index]] + list[index + 1..])
  {
  }

  lemma WithoutFirstAt(list: seq<string>, index: nat)
    requires NoDuplicates(list) && index < |list|
    ensures WithoutFirst(list, list[index]) == list[..index] + list[index + 1..]
  {
    var a, x, b := list[..index], list[index], list[index + 1..];
    forall i | 0 <= i < index ensures a[i] != x {
      assert a[i] == list[i];
    }
    SplitAtIndex(list, index);
    WithoutFirstSplits(a, x, b);
  }

  lemma WithoutPlaced(kept: seq<string>, p: string)
    requires p !in kept
    ensures WithoutFirst([p] + kept, p) == kept && WithoutFirst(kept + [p], p) == kept
  {
    WithoutFirstSplits(kept, p, []);
    assert [p] + [] == [p] && kept + [] == kept;
  }

  /** Placing an input leaves the other inputs of the list in their order. */
  lemma PlaceKeepsOrder(list: seq<string>, p: string, index: nat)
    requires NoDuplicates(list) && p !in list
    ensures WithoutFirst(Place(list, p, index), p) == if |list| > index then WithoutFirst(list, list[index]) else list
  {
    if |list| > index {
      WithoutFirstAt(list, index);
      WithoutPlaced(list[..index] + list[index + 1..], p);
    } else {
      WithoutPlaced(list, p);
    }
  }

  /** What taking `p` off its old key does to the other bindings. */
  lemma UnlistBindings(ix: Index, p: string)
    requires Inverse(ix) && p in ix.inverse && ix.inverse[p] != ""
    ensures var f := Unlist(ix.forward, ix.inverse[p], p);
            && (forall k, q :: k != "" ==> (Bound(f, k, q) <==> Bound(ix.forward, k, q) && q != p))
            && (forall k :: k in f && k != "" && !IsMetadata(k) ==> f[k] != [] && NoDuplicates(f[k]))
            && (forall k :: k != ix.inverse[p] ==> Bindings(f, k) == Bindings(ix.forward, k))
  {
    var oldKey := ix.inverse[p];
    assert Bound(ix.forward, oldKey, p);
    var list := ix.forward[oldKey];
    var f := Unlist(ix.forward, oldKey, p);
    WithoutFirstMembers(list, p);
    forall k, q | k != "" ensures Bound(f, k, q) <==> Bound(ix.forward, k, q) && q != p {
      if k == oldKey {
        if |list| == 1 {
          assert list == [p];
        } else {
          assert f[k] == WithoutFirst(list, p);
        }
      } else {
        assert Bindings(f, k) == Bindings(ix.forward, k) && (k in f <==> k in ix.forward);
        assert Bound(f, k, q) <==> Bound(ix.forward, k, q);
        assert Bound(ix.forward, k, q) ==> q != p;
      }
    }
  }

  /** A button that is not yet the key of `p` does not list `p`. */
  lemma NotYetListed(ix: Index, button: string, p: string)
    requires Inverse(ix) && button != "" && !IsMetadata(button)
    requires p !in ix.inverse || ix.inverse[p] != button
    ensures p !in Bindings(ix.forward, button) && NoDuplicates(Bindings(ix.forward, button))
  {
    assert !Bound(ix.forward, button, p);
  }

  /** Listing an unlisted input under a button keeps the indexes inverse. */
  lemma ListInput(forward: map<string, seq<string>>, inverse: map<string, string>,
                  button: string, p: string, index: nat)
    requires button != "" && !IsMetadata(button)
    requires p !in Bindings(forward, button) && NoDuplicates(Bindings(forward, button))
    requires forall k, q :: k != "" && Bound(forward, k, q) ==> q != p && q in inverse && inverse[q] == k
    requires forall q :: q in inverse && inverse[q] != "" && q != p ==> Bound(forward, inverse[q], q)
    requires forall k :: k in forward && k != "" && !IsMetadata(k) ==> forward[k] != [] && NoDuplicates(forward[k])
    ensures var list := Bindings(forward, button);
            Inverse(Index(forward[button := Place(list, p, index)],
                          (if |list| > index then inverse[list[index] := ""] else inverse)[p := button]))
  {
    var list := Bindings(forward, button);
    var f := forward[button := Place(list, p, index)];
    var inv := (if |list| > index then inverse[list[index] := ""] else inverse)[p := button];
    PlaceMembers(list, p, index);
    forall k, q | k != "" && Bound(f, k, q) ensures q in inv && inv[q] == k {
      if q != p {
        assert Bound(forward, k, q);
        if k != button && |list| > index && q == list[index] {
          assert Bound(forward, button, q);
        }
      } else if k != button {
        assert Bound(forward, k, p);
      }
    }
    forall q | q in inv && inv[q] != "" ensures Bound(f, inv[q], q) {
      if q != p {
        assert Bound(forward, inverse[q], q);
      }
    }
  }

  /**
   Moving an input to a button keeps the two indexes inverse to each other, with non-empty
   duplicate-free lists.
   */
  lemma MoveKeepsInverse(ix: Index, button: string, p: string, index: nat)
    requires Inverse(ix) && button != "" && !IsMetadata(button)
    ensures Inverse(Move(ix, button, p, index))
  {
    var oldKey := if p in ix.inverse then ix.inverse[p] else "";
    if button != oldKey {
      NotYetListed(ix, button, p);
      if oldKey != "" {
        UnlistBindings(ix, p);
        ListInput(Unlist(ix.forward, oldKey, p), ix.inverse, button, p, index);
      } else {
        forall k | k != "" ensures !Bound(ix.forward, k, p) {
        }
        ListInput(ix.forward, ix.inverse, button, p, index);
      }
    }
  }

  /** The key an input is bound to, or nothing. */
  function KeyOf(ix: Index, p: string): string {
    if p in ix.inverse then ix.inverse[p] else ""
  }

  lemma MoveEffectOnKeys(ix: Index, button: string, p: string, index: nat)
    requires Inverse(ix) && button != "" && !IsMetadata(button) && KeyOf(ix, p) != button
    ensures var r := Move(ix, button, p, index);
            var list := Bindings(ix.forward, button);
            && KeyOf(r, p) == button
            && (|list| > index ==> list[index] != p && KeyOf(r, list[index]) == "")
            && (forall q :: q != p && (|list| > index ==> q != list[index]) ==> KeyOf(r, q) == KeyOf(ix, q))
  {
    NotYetListed(ix, button, p);
    if KeyOf(ix, p) != "" {
      UnlistBindings(ix, p);
    }
  }

  lemma MoveEffectOnLists(ix: Index, button: string, p: string, index: nat)
    requires Inverse(ix) && button != "" && !IsMetadata(button) && KeyOf(ix, p) != button
    ensures var r := Move(ix, button, p, index).forward;
            var oldKey := KeyOf(ix, p);
            && Bindings(r, button) == Place(Bindings(ix.forward, button), p, index)
            && (forall k :: k != button && k != oldKey ==> Bindings(r, k) == Bindings(ix.forward, k))
            && (oldKey != "" ==> Bindings(r, oldKey) == WithoutFirst(Bindings(ix.forward, oldKey), p))
  {
    var oldKey := KeyOf(ix, p);
    if oldKey != "" {
      UnlistBindings(ix, p);
      assert Bound(ix.forward, oldKey, p);
      if |ix.forward[oldKey]| == 1 {
        assert ix.forward[oldKey] == [p];
      }
    }
  }

  /**
   What one move changes. The input is bound to the button, at the front for index 0 and at the end
   otherwise; the input it displaces, and only that one, is left unbound; lists of other keys lose at
   most the moved input.
   */
  lemma MoveEffect(ix: Index, button: string, p: string, index: nat)
    requires Inverse(ix) && button != "" && !IsMetadata(button) && KeyOf(ix, p) != button
    ensures var r := Move(ix, button, p, index);
            var list := Bindings(ix.forward, button);
            var oldKey := KeyOf(ix, p);
            && KeyOf(r, p) == button
            && Bindings(r.forward, button) == Place(list, p, index)
            && (|list| > index ==> list[index] != p && KeyOf(r, list[index]) == "")
            && (forall q :: q != p && (|list| > index ==> q != list[index]) ==> KeyOf(r, q) == KeyOf(ix, q))
            && (forall k :: k != button && k != oldKey ==> Bindings(r.forward, k) == Bindings(ix.forward, k))
            && (oldKey != "" ==> Bindings(r.forward, oldKey) == WithoutFirst(Bindings(ix.forward, oldKey), p))
  {
    MoveEffectOnKeys(ix, button, p, index);
    MoveEffectOnLists(ix, button, p, index);
  }

  /** Moving an input again to the same button changes nothing, whatever the slot. */
  lemma MoveTwice(ix: Index, button: string, p: string, index: nat, again: nat)
    ensures Move(Move(ix, button, p, index), button, p, again) == Move(ix, button, p, index)
    ensures KeyOf(ix, p) == button ==> Move(ix, button, p, index) == ix
  {
  }

  /** A code outside the table takes a bound input off its button and leaves every other button as it was. */
  lemma UnknownButtonUnbinds(ix: Index, p: string, index: nat)
    requires Inverse(ix) && KeyOf(ix, p) != ""
    ensures var r := Move(ix, "", p, index);
            && KeyOf(r, p) == ""
            && Bindings(r.forward, KeyOf(ix, p)) == WithoutFirst(Bindings(ix.forward, KeyOf(ix, p)), p)
            && forall k :: k != "" && k != KeyOf(ix, p) ==> Bindings(r.forward, k) == Bindings(ix.forward, k)
  {
    var oldKey := KeyOf(ix, p);
    UnlistBindings(ix, p);
    assert Bound(ix.forward, oldKey, p);
    if |ix.forward[oldKey]| == 1 {
      assert ix.forward[oldKey] == [p];
    }
  }

  ghost predicate AtMostTwoSlots(forward: map<string, seq<string>>) {
    forall k :: k in forward && !IsMetadata(k) ==> |forward[k]| <= 2
  }

  lemma MoveKeepsTwoSlots(ix: Index, button: string, p: string, index: nat)
    requires Inverse(ix) && button != "" && !IsMetadata(button) && KeyOf(ix, p) != button
    requires index <= 1 && AtMostTwoSlots(ix.forward)
    ensures AtMostTwoSlots(Move(ix, button, p, index).forward)
  {
    var r := Move(ix, button, p, index);
    var oldKey := KeyOf(ix, p);
    MoveEffect(ix, button, p, index);
    NotYetListed(ix, button, p);
    PlaceMembers(Bindings(ix.forward, button), p, index);
    forall k | k in r.forward && !IsMetadata(k) ensures |r.forward[k]| <= 2 {
      assert r.forward[k] == Bindings(r.forward, k);
      if k == oldKey && k != "" {
        assert Bound(ix.forward, k, p);
        WithoutFirstMembers(ix.forward[k], p);
      } else if k != button {
        assert Bindings(r.forward, k) == Bindings(ix.forward, k);
      }
    }
  }

  /** With two slots per button, a moved input lands in the slot asked for, or right after the last one. */
  lemma MoveLandsInSlot(ix: Index, button: string, p: string, index: nat)
    requires Inverse(ix) && button != "" && !IsMetadata(button) && KeyOf(ix, p) != button
    requires index <= 1 && AtMostTwoSlots(ix.forward)
    ensures var r := Move(ix, button, p, index);
            var length := |Bindings(ix.forward, button)|;
            var slot := if index <= length then index else length;
            && slot < |Bindings(r.forward, button)| && Bindings(r.forward, button)[slot] == p
            && AtMostTwoSlots(r.forward)
  {
    var list := Bindings(ix.forward, button);
    assert |list| <= 2;
    NotYetListed(ix, button, p);
    PlaceMembers(list, p, index);
    MoveEffect(ix, button, p, index);
    MoveKeepsTwoSlots(ix, button, p, index);
  }

  // ---------------------------------------------------------------- the button table

  const BUTTON_NAMES: map<int, string> := map[
    0x1 := "a", 0x2 := "b", 0x4 := "x", 0x8 := "y",
    0x10 := "dpleft", 0x20 := "dpright", 0x40 := "dpup", 0x80 := "dpdown",
    0x100 := "leftshoulder", 0x200 := "rightshoulder", 0x400 := "leftstick", 0x800 := "rightstick",
    0x1000 := "start", 0x2000 := "back", 0x4000 := "touchpad", 0x8000 := "guide",
    0x10000 := "lefttrigger", 0x20000 := "righttrigger",
    0x4000000 := "leftx", 0x8000000 := "lefty", 0x10000000 := "rightx", 0x20000000 := "righty",
    0x40000000 := "misc1"]

  /** The key of a button, empty for a code outside the table. */
  function ButtonName(button: int): string {
    if button in BUTTON_NAMES then BUTTON_NAMES[button] else ""
  }

  lemma ButtonNamesAreKeys(button: int)
    requires button in BUTTON_NAMES
    ensures BUTTON_NAMES[button] != "" && !IsMetadata(BUTTON_NAMES[button])
  {
    var name := BUTTON_NAMES[button];
    assert |name| >= 1 && name[0] != 'c' && name[0] != 'h' && name[0] != 'p';
    assert name[0] == 's' || name[0] == 't' ==> |name| >= 2 && name[1] != 'd' && name[1] != 'y';
  }

  /** No two buttons of the table have the same key. */
  lemma ButtonNamesDistinct(b1: int, b2: int)
    requires b1 in BUTTON_NAMES && b2 in BUTTON_NAMES && BUTTON_NAMES[b1] == BUTTON_NAMES[b2]
    ensures b1 == b2
  {
  }

  datatype Edit = Edit(button: int, input: string, index: nat)

  function Edited(ix: Index, edits: seq<Edit>): Index
    requires forall e :: e in edits ==> e.button in BUTTON_NAMES
    decreases |edits|
  {
    if edits == [] then ix
    else Edited(Move(ix, BUTTON_NAMES[edits[0].button], edits[0].input, edits[0].index), edits[1..])
  }

  /** Over any sequence of edits the two indexes stay inverse to each other. */
  lemma {:induction false} EditsKeepInverse(ix: Index, edits: seq<Edit>)
    requires Inverse(ix) && forall e :: e in edits ==> e.button in BUTTON_NAMES
    ensures Inverse(Edited(ix, edits))
    decreases |edits|
  {
    if edits == [] {
    } else {
      ButtonNamesAreKeys(edits[0].button);
      MoveKeepsInverse(ix, BUTTON_NAMES[edits[0].button], edits[0].input, edits[0].index);
      EditsKeepInverse(Move(ix, BUTTON_NAMES[edits[0].button], edits[0].input, edits[0].index), edits[1..]);
    }
  }

  // ---------------------------------------------------------------- edited mappings read back

  lemma ButtonNamesAreClean(button: int)
    requires button in BUTTON_NAMES
    ensures ',' !in BUTTON_NAMES[button] && ':' !in BUTTON_NAMES[button]
  {
    if button < 0x400 {
      assert ',' !in BUTTON_NAMES[button] && ':' !in BUTTON_NAMES[button];
    } else if button < 0x4000000 {
      assert ',' !in BUTTON_NAMES[button] && ':' !in BUTTON_NAMES[button];
    }
  }

  lemma {:induction false} WithoutFirstSubset(s: seq<string>, x: string)
    ensures forall y :: y in WithoutFirst(s, x) ==> y in s
    ensures |WithoutFirst(s, x)| >= |s| - 1
  {
    if s == [] {
    } else {
      assert s == [s[0]] + s[1..];
      WithoutFirstSubset(s[1..], x);
    }
  }

  lemma PlaceSubset(list: seq<string>, p: string, index: nat)
    ensures Place(list, p, index) != [] && forall y :: y in Place(list, p, index) ==> y == p || y in list
  {
  }

  lemma MoveKeepsClean(ix: Index, button: string, p: string, index: nat)
    requires Clean(ix.forward)
    requires ',' !in button && ':' !in button && ',' !in p && ':' !in p
    ensures Clean(Move(ix, button, p, index).forward)
  {
    var oldKey := KeyOf(ix, p);
    if button != oldKey {
      var unlisted := if oldKey != "" then Unlist(ix.forward, oldKey, p) else ix.forward;
      WithoutFirstSubset(Bindings(ix.forward, oldKey), p);
      assert Clean(unlisted);
      PlaceSubset(Bindings(unlisted, button), p, index);
    }
  }

  /** The edits name buttons of the table and inputs without separators. */
  predicate CleanEdits(edits: seq<Edit>) {
    forall e :: e in edits ==> e.button in BUTTON_NAMES && ',' !in e.input && ':' !in e.input
  }

  lemma {:induction false} EditsKeepClean(ix: Index, edits: seq<Edit>)
    requires Clean(ix.forward) && CleanEdits(edits)
    ensures Clean(Edited(ix, edits).forward)
    decreases |edits|
  {
    if edits == [] {
    } else {
      var e := edits[0];
      ButtonNamesAreClean(e.button);
      MoveKeepsClean(ix, BUTTON_NAMES[e.button], e.input, e.index);
      EditsKeepClean(Move(ix, BUTTON_NAMES[e.button], e.input, e.index), edits[1..]);
    }
  }

  /**
   A mapping that was read, edited and applied reads back: the stored text gives the GUID again, and
   the type and the edited lists of every key exactly when the type reads back.
   */
  lemma EditedReadsBack(text: string, deviceName: string, edits: seq<Edit>)
    requires Parse(text, deviceName).Some? && CleanEdits(edits)
    ensures var p := Parse(text, deviceName).value;
            var e := p.(index := Edited(p.index, edits));
            var q := Parse(PrintFull(e), deviceName);
            && q.Some? && q.value.guid == p.guid
            && (q.value.controllerType == p.controllerType && q.value.index.forward == e.index.forward
                <==> TypeReadsBack(p.controllerType))
  {
    ParsedIsClean(text, deviceName);
    var p := Parse(text, deviceName).value;
    EditsKeepClean(p.index, edits);
    ReadsBackIff(p.(index := Edited(p.index, edits)), deviceName);
  }

  /** A mapping as SDL gives it: each physical input listed once. */
  ghost predicate ListsEachInputOnce(forward: map<string, seq<string>>) {
    Unambiguous(forward) && forall k :: k in forward && !IsMetadata(k) ==> NoDuplicates(forward[k])
  }

  lemma ParsedIsInverse(text: string, deviceName: string)
    requires Parse(text, deviceName).Some? && ListsEachInputOnce(Parse(text, deviceName).value.index.forward)
    ensures Inverse(Parse(text, deviceName).value.index)
  {
    ParsedIndexes(text, deviceName);
    ParsedIsClean(text, deviceName);
  }

  lemma BindAllNext(inverse: map<string, string>, inputs: seq<string>, j: nat, key: string)
    requires j < |inputs|
    ensures BindAll(inverse, inputs[..j + 1], key) == BindAll(inverse, inputs[..j], key)[inputs[j] := key]
  {
    assert inputs[..j + 1] == inputs[..j] + [inputs[j]];
  }

  // ---------------------------------------------------------------- the editor object

  class ControllerMappingEditor {
    var inProgress: bool
    var guid: string
    var controllerType: string
    var mappings: map<string, seq<string>>
    var physical: map<string, string>
    var applied: map<string, seq<string>>
    var altered: bool

    /** The mark of unsaved changes is never missing. */
    ghost predicate Valid()
      reads this
    {
      mappings != applied ==> altered
    }

    ghost function Indexes(): Index
      reads this
    {
      Index(mappings, physical)
    }

    constructor ()
      ensures Valid() && !inProgress && !altered && Indexes() == EMPTY
    {
      inProgress, altered := false, false;
      guid, controllerType := "", "";
      mappings, physical, applied := map[], map[], map[];
    }

    /** Reads the mapping of a controller and opens it for editing. */
    method ControllerMappingUpdate(text: string, deviceName: string) returns (ok: bool)
      requires Valid()
      modifies this
      ensures Valid() && altered == old(altered)
      ensures ok <==> !old(inProgress) && Parse(text, deviceName).Some?
      ensures ok ==> inProgress && applied == mappings && Indexes() == ReadFields(old(Indexes()), Split(text, ',')[2..])
      ensures ok && old(Indexes()) == EMPTY ==> Some(Parsed(guid, controllerType, Indexes())) == Parse(text, deviceName)
      ensures !ok ==> inProgress == old(inProgress) && Indexes() == old(Indexes()) && applied == old(applied)
    {
      if inProgress {
        return false;
      }
      var fields := Split(text, ',');
      if |fields| < 2 {
        return false;
      }
      guid := fields[0];
      controllerType := fields[1];
      if controllerType == "*" {
        controllerType := deviceName;
        if controllerType == "" {
          controllerType := "Unidentified Controller";
        }
      }
      AddFields(fields[2..]);
      applied := mappings;
      inProgress := true;
      return true;
    }

    method AddFields(fields: seq<string>)
      modifies this`mappings, this`physical
      ensures Indexes() == ReadFields(old(Indexes()), fields)
    {
      assert fields[0..] == fields;
      for i := 0 to |fields|
        invariant ReadFields(Indexes(), fields[i..]) == ReadFields(old(Indexes()), fields)
      {
        assert fields[i..][0] == fields[i] && fields[i..][1..] == fields[i + 1..];
        AddField(fields[i]);
      }
    }

    method AddField(field: string)
      modifies this`mappings, this`physical
      ensures Indexes() == ReadField(old(Indexes()), field)
    {
      var parts := Split(field, ':');
      if |parts| < 2 {
        return;
      }
      var key := parts[0];
      var inputs := parts[1..];
      if key in mappings {
        inputs := mappings[key] + inputs;
      } else {
        assert [] + inputs == inputs;
      }
      mappings := mappings[key := inputs];
      if !IsMetadata(key) {
        BindInputs(inputs, key);
      }
    }

    method BindInputs(inputs: seq<string>, key: string)
      modifies this`physical
      ensures physical == BindAll(old(physical), inputs, key)
    {
      assert BindAll(physical, [], key) == physical;
      for j := 0 to |inputs|
        invariant physical == BindAll(old(physical), inputs[..j], key)
      {
        BindAllNext(old(physical), inputs, j, key);
        physical := physical[inputs[j] := key];
      }
      assert inputs[..|inputs|] == inputs;
    }

    /** Binds a physical input to a button; a code outside the table acts on the empty key. */
    method UpdateButton(chiakiButton: int, input: string, newIndex: nat)
      requires Valid()
      modifies this`mappings, this`physical, this`altered
      ensures Valid()
      ensures Indexes() == Move(old(Indexes()), ButtonName(chiakiButton), input, newIndex)
      ensures altered == if KeyOf(old(Indexes()), input) == ButtonName(chiakiButton) then old(altered)
                         else mappings != applied
    {
      MoveInput(ButtonName(chiakiButton), input, newIndex);
    }

    method MoveInput(button: string, input: string, newIndex: nat)
      requires Valid()
      modifies this`mappings, this`physical, this`altered
      ensures Valid()
      ensures Indexes() == Move(old(Indexes()), button, input, newIndex)
      ensures altered == if KeyOf(old(Indexes()), input) == button then old(altered) else mappings != applied
    {
      var oldKey := if input in physical then physical[input] else "";
      if button == oldKey {
        return;
      }
      if oldKey != "" {
        TakeOff(oldKey, input);
      }
      var list := if button in mappings then mappings[button] else [];
      if |list| > newIndex {
        physical := physical[list[newIndex] := ""];
        list := list[..newIndex] + list[newIndex + 1..];
      }
      list := if newIndex == 0 then [input] + list else list + [input];
      mappings := mappings[button := list];
      physical := physical[input := button];
      altered := mappings != applied;
    }

    method TakeOff(key: string, input: string)
      modifies this`mappings
      ensures mappings == Unlist(old(mappings), key, input)
    {
      var inputs := if key in mappings then mappings[key] else [];
      if |inputs| > 1 {
        mappings := mappings[key := WithoutFirst(inputs, input)];
      } else {
        mappings := mappings - {key};
      }
    }

    /** The text that applying the edited mapping stores. */
    method ControllerMappingApply() returns (text: string)
      ensures text == Print(controllerType, mappings)
    {
      text := controllerType;
      var keys := InOrder(mappings.Keys);
      assert keys[0..] == keys;
      for i := 0 to |keys|
        invariant text + Tail(AllFields(mappings, keys[i..])) == Print(controllerType, mappings)
      {
        assert keys[i] in keys && keys[i..][0] == keys[i] && keys[i..][1..] == keys[i + 1..];
        var inputs := mappings[keys[i]];
        TailAppend(KeyFields(keys[i], inputs), AllFields(mappings, keys[i + 1..]));
        ConcatAssoc(text, Tail(KeyFields(keys[i], inputs)), Tail(AllFields(mappings, keys[i + 1..])));
        text := AppendKey(text, keys[i], inputs);
      }
      assert text + "" == text;
    }

    static method AppendKey(prefix: string, key: string, inputs: seq<string>) returns (text: string)
      ensures text == prefix + Tail(KeyFields(key, inputs))
    {
      text := prefix;
      assert inputs[0..] == inputs;
      for j := 0 to |inputs|
        invariant text + Tail(KeyFields(key, inputs[j..])) == prefix + Tail(KeyFields(key, inputs))
      {
        assert inputs[j..][0] == inputs[j] && inputs[j..][1..] == inputs[j + 1..];
        var field := "," + (key + ":" + inputs[j]);
        ConcatAssoc(text, field, Tail(KeyFields(key, inputs[j + 1..])));
        text := text + field;
      }
      assert text + "" == text;
    }

    method ControllerMappingQuit()
      modifies this
      ensures Valid() && !inProgress && !altered && Indexes() == EMPTY && applied == map[]
    {
      guid, controllerType := "", "";
      mappings, applied, physical := map[], map[], map[];
      altered, inProgress := false, false;
    }
  }
}
