/**
 The controller-mapping text `guid,type,key:value,...`: how it is read into two indexes, from a
 logical key to its physical inputs and back, and how it is written again.
 */
module MappingText {
  import opened Collections
  import opened Strings

  /** `forward` lists the physical inputs of a key; `inverse` gives the key of a physical input. */
  datatype Index = Index(forward: map<string, seq<string>>, inverse: map<string, string>)

  datatype Parsed = Parsed(guid: string, controllerType: string, index: Index)

  const EMPTY := Index(map[], map[])

  /** Keys whose values are not physical inputs. */
  predicate IsMetadata(key: string) {
    key == "crc" || key == "platform" || key == "type" || key == "hint" || "sdk" <= key
  }

  function Bindings(forward: map<string, seq<string>>, key: string): seq<string> {
    if key in forward then forward[key] else []
  }

  /** Binds every listed input to the key, replacing earlier bindings. */
  function BindAll(inverse: map<string, string>, inputs: seq<string>, key: string): map<string, string> {
    inverse + (map p | p in inputs :: key)
  }

  /** One field of the text; a field without a colon is skipped. */
  function ReadField(ix: Index, field: string): Index {
    var parts := Split(field, ':');
    if |parts| < 2 then ix
    else
      var key := parts[0];
      var inputs := Bindings(ix.forward, key) + parts[1..];
      Index(ix.forward[key := inputs], if IsMetadata(key) then ix.inverse else BindAll(ix.inverse, inputs, key))
  }

  function ReadFields(ix: Index, fields: seq<string>): Index
    decreases |fields|
  {
    if fields == [] then ix else ReadFields(ReadField(ix, fields[0]), fields[1..])
  }

  /** The type shown for a mapping whose type field is `*`. */
  function Fallback(deviceName: string): string {
    if deviceName == "" then "Unidentified Controller" else deviceName
  }

  function Parse(text: string, deviceName: string): Option<Parsed> {
    var fields := Split(text, ',');
    if |fields| < 2 then None
    else
      var controllerType := if fields[1] == "*" then Fallback(deviceName) else fields[1];
      Some(Parsed(fields[0], controllerType, ReadFields(EMPTY, fields[2..])))
  }

  // ---------------------------------------------------------------- writing

  function KeyFields(key: string, inputs: seq<string>): seq<string> {
    if inputs == [] then [] else [key + ":" + inputs[0]] + KeyFields(key, inputs[1..])
  }

  function AllFields(forward: map<string, seq<string>>, keys: seq<string>): seq<string> {
    if keys == [] then [] else KeyFields(keys[0], Bindings(forward, keys[0])) + AllFields(forward, keys[1..])
  }

  /** Each field preceded by a comma. */
  function Tail(fields: seq<string>): string {
    if fields == [] then "" else "," + fields[0] + Tail(fields[1..])
  }

  /** The text stored in the settings: the type, then every binding, by ascending key. */
  function Print(controllerType: string, forward: map<string, seq<string>>): string {
    controllerType + Tail(AllFields(forward, InOrder(forward.Keys)))
  }

  /** The text handed back to the controller library: the stored text with the GUID put in front. */
  function PrintFull(p: Parsed): string {
    p.guid + "," + Print(p.controllerType, p.index.forward)
  }

  lemma {:induction false} TailAppend(a: seq<string>, b: seq<string>)
    ensures Tail(a + b) == Tail(a) + Tail(b)
  {
    if a == [] {
      assert a + b == b;
    } else {
      assert (a + b)[1..] == a[1..] + b;
      TailAppend(a[1..], b);
      ConcatAssoc("," + a[0], Tail(a[1..]), Tail(b));
    }
  }

  // ---------------------------------------------------------------- what reading a list of fields means

  /** The values that the fields give to `key`, in text order: an independent meaning of the fields. */
  function ValuesFor(fields: seq<string>, key: string): seq<string> {
    if fields == [] then []
    else
      var parts := Split(fields[0], ':');
      (if |parts| >= 2 && parts[0] == key then parts[1..] else []) + ValuesFor(fields[1..], key)
  }

  lemma {:induction false} ValuesForAppend(a: seq<string>, b: seq<string>, key: string)
    ensures ValuesFor(a + b, key) == ValuesFor(a, key) + ValuesFor(b, key)
  {
    if a == [] {
      assert a + b == b;
    } else {
      assert (a + b)[1..] == a[1..] + b;
      ValuesForAppend(a[1..], b, key);
      var parts := Split(a[0], ':');
      var own := if |parts| >= 2 && parts[0] == key then parts[1..] else [];
      ConcatAssoc(own, ValuesFor(a[1..], key), ValuesFor(b, key));
    }
  }

  /** Reading appends to every key exactly the values that the fields give to it. */
  lemma {:induction false} ReadFieldsMeaning(ix: Index, fields: seq<string>, key: string)
    ensures var r := ReadFields(ix, fields).forward;
            && Bindings(r, key) == Bindings(ix.forward, key) + ValuesFor(fields, key)
            && (key in r <==> key in ix.forward || ValuesFor(fields, key) != [])
    decreases |fields|
  {
    if fields == [] {
    } else {
      var parts := Split(fields[0], ':');
      var mid := ReadField(ix, fields[0]);
      ReadFieldsMeaning(mid, fields[1..], key);
      var own := if |parts| >= 2 && parts[0] == key then parts[1..] else [];
      assert Bindings(mid.forward, key) == Bindings(ix.forward, key) + own;
      ConcatAssoc(Bindings(ix.forward, key), own, ValuesFor(fields[1..], key));
    }
  }

  lemma {:induction false} ReadFieldsSnoc(ix: Index, fields: seq<string>, last: string)
    ensures ReadFields(ix, fields + [last]) == ReadField(ReadFields(ix, fields), last)
    decreases |fields|
  {
    if fields == [] {
      assert [last][1..] == [];
      assert [] + [last] == [last];
    } else {
      assert (fields + [last])[1..] == fields[1..] + [last];
      ReadFieldsSnoc(ReadField(ix, fields[0]), fields[1..], last);
    }
  }

  /**
   The key that owns a physical input: that of the last field, for a button or an axis, whose key has the
   input among the values given to it so far.
   */
  function Owner(fields: seq<string>, p: string): Option<string> {
    if fields == [] then None
    else
      var before := fields[..|fields| - 1];
      var parts := Split(fields[|fields| - 1], ':');
      var key := parts[0];
      if && |parts| >= 2 && p in ValuesFor(fields, key)
         && key != "crc" && key != "platform" && key != "type" && key != "hint" && !("sdk" <= key)
      then Some(key)
      else Owner(before, p)
  }

  lemma ReadFieldInverse(ix: Index, field: string, p: string)
    ensures var parts := Split(field, ':');
            var key := parts[0];
            var inverse := ReadField(ix, field).inverse;
            if |parts| >= 2 && p in Bindings(ReadField(ix, field).forward, key) && !IsMetadata(key)
            then p in inverse && inverse[p] == key
            else (p in inverse <==> p in ix.inverse) && (p in inverse ==> inverse[p] == ix.inverse[p])
  {
  }

  lemma BindingsAreValues(fields: seq<string>, key: string)
    ensures Bindings(ReadFields(EMPTY, fields).forward, key) == ValuesFor(fields, key)
  {
    ReadFieldsMeaning(EMPTY, fields, key);
    assert [] + ValuesFor(fields, key) == ValuesFor(fields, key);
  }

  /** Reading fields binds every physical input to the key that owns it, and binds nothing else. */
  lemma {:induction false} InverseMeaning(fields: seq<string>, p: string)
    ensures var inverse := ReadFields(EMPTY, fields).inverse;
            (p in inverse <==> Owner(fields, p).Some?) && (p in inverse ==> Owner(fields, p) == Some(inverse[p]))
  {
    if fields == [] {
    } else {
      var before, last := fields[..|fields| - 1], fields[|fields| - 1];
      assert fields == before + [last];
      InverseMeaning(before, p);
      ReadFieldsSnoc(EMPTY, before, last);
      BindingsAreValues(fields, Split(last, ':')[0]);
      ReadFieldInverse(ReadFields(EMPTY, before), last, p);
    }
  }

  // ---------------------------------------------------------------- the round trip

  /** No separator inside a key or a value, and no key without values. */
  ghost predicate Clean(forward: map<string, seq<string>>) {
    forall k :: k in forward ==>
      ',' !in k && ':' !in k && forward[k] != [] && Without(forward[k], ',') && Without(forward[k], ':')
  }

  lemma {:induction false} ReadFieldsClean(ix: Index, fields: seq<string>)
    requires Clean(ix.forward) && Without(fields, ',')
    ensures Clean(ReadFields(ix, fields).forward)
    decreases |fields|
  {
    if fields == [] {
    } else {
      SplitHasNoSeparator(fields[0], ':');
      SplitIntroducesNothing(fields[0], ':', ',');
      var parts := Split(fields[0], ':');
      assert parts[0] in parts;
      ReadFieldsClean(ReadField(ix, fields[0]), fields[1..]);
    }
  }

  lemma FieldParts(key: string, input: string)
    requires ':' !in key && ':' !in input
    ensures Split(key + ":" + input, ':') == [key, input]
  {
    SplitAt(key, input, ':');
    SplitWhole(key, ':');
    SplitWhole(input, ':');
    assert key + ":" + input == key + [':'] + input;
  }

  lemma {:induction false} KeyFieldsMeaning(key: string, inputs: seq<string>, k: string)
    requires ':' !in key && Without(inputs, ':')
    ensures ValuesFor(KeyFields(key, inputs), k) == if k == key then inputs else []
  {
    if inputs == [] {
    } else {
      assert inputs == [inputs[0]] + inputs[1..];
      FieldParts(key, inputs[0]);
      KeyFieldsMeaning(key, inputs[1..], k);
      assert KeyFields(key, inputs)[1..] == KeyFields(key, inputs[1..]);
    }
  }

  lemma AllFieldsStep(forward: map<string, seq<string>>, key: string, rest: seq<string>, k: string)
    requires key in forward && ':' !in key && Without(forward[key], ':')
    ensures ValuesFor(AllFields(forward, [key] + rest), k)
            == (if k == key then forward[key] else []) + ValuesFor(AllFields(forward, rest), k)
  {
    assert ([key] + rest)[1..] == rest;
    KeyFieldsMeaning(key, forward[key], k);
    ValuesForAppend(KeyFields(key, forward[key]), AllFields(forward, rest), k);
  }

  lemma {:induction false} AllFieldsMeaning(forward: map<string, seq<string>>, keys: seq<string>, k: string)
    requires Clean(forward) && NoDuplicates(keys) && forall x :: x in keys ==> x in forward
    ensures ValuesFor(AllFields(forward, keys), k) == if k in keys then forward[k] else []
  {
    if keys == [] {
    } else {
      var key, rest := keys[0], keys[1..];
      assert keys == [key] + rest;
      assert forall j :: 0 <= j < |rest| ==> rest[j] == keys[j + 1];
      AllFieldsMeaning(forward, rest, k);
      AllFieldsStep(forward, key, rest, k);
    }
  }

  lemma {:induction false} KeyFieldsCommaFree(key: string, inputs: seq<string>)
    requires ',' !in key && Without(inputs, ',')
    ensures Without(KeyFields(key, inputs), ',')
  {
    if inputs == [] {
    } else {
      assert inputs == [inputs[0]] + inputs[1..];
      KeyFieldsCommaFree(key, inputs[1..]);
    }
  }

  lemma {:induction false} AllFieldsCommaFree(forward: map<string, seq<string>>, keys: seq<string>)
    requires Clean(forward) && forall x :: x in keys ==> x in forward
    ensures Without(AllFields(forward, keys), ',')
  {
    if keys == [] {
    } else {
      assert keys == [keys[0]] + keys[1..];
      AllFieldsCommaFree(forward, keys[1..]);
      KeyFieldsCommaFree(keys[0], forward[keys[0]]);
    }
  }

  lemma {:induction false} SplitTail(text: string, fields: seq<string>)
    requires Without(fields, ',')
    ensures Split(text + Tail(fields), ',') == Split(text, ',') + fields
    decreases |fields|
  {
    if fields == [] {
      assert text + "" == text;
    } else {
      var longer := text + "," + fields[0];
      SplitAt(text, fields[0], ',');
      SplitWhole(fields[0], ',');
      SplitTail(longer, fields[1..]);
      ConcatAssoc(text, ",", fields[0]);
      ConcatAssoc(text, "," + fields[0], Tail(fields[1..]));
      assert text + Tail(fields) == longer + Tail(fields[1..]);
      assert longer == text + [','] + fields[0];
      ConcatAssoc(Split(text, ','), [fields[0]], fields[1..]);
      assert [fields[0]] + fields[1..] == fields;
    }
  }

  /** A mapping of a device: its type is one that reading a text can give. */
  ghost predicate WellFormed(p: Parsed, deviceName: string) {
    && Clean(p.index.forward) && ',' !in p.guid
    && (',' in p.controllerType || p.controllerType == "*" ==> p.controllerType == Fallback(deviceName))
  }

  lemma ParsedIsClean(text: string, deviceName: string)
    requires Parse(text, deviceName).Some?
    ensures WellFormed(Parse(text, deviceName).value, deviceName)
  {
    SplitHasNoSeparator(text, ',');
    var fields := Split(text, ',');
    assert fields[0] in fields && fields[1] in fields;
    ReadFieldsClean(EMPTY, fields[2..]);
  }

  function Printed(forward: map<string, seq<string>>): seq<string> {
    AllFields(forward, InOrder(forward.Keys))
  }

  lemma PrintedMeaning(forward: map<string, seq<string>>, k: string)
    requires Clean(forward)
    ensures ValuesFor(Printed(forward), k) == Bindings(forward, k)
    ensures Without(Printed(forward), ',')
  {
    AllFieldsMeaning(forward, InOrder(forward.Keys), k);
    AllFieldsCommaFree(forward, InOrder(forward.Keys));
  }

  lemma PrintSplits(p: Parsed)
    requires Clean(p.index.forward) && ',' !in p.guid
    ensures Split(PrintFull(p), ',') == [p.guid] + Split(p.controllerType, ',') + Printed(p.index.forward)
  {
    var printed := Printed(p.index.forward);
    PrintedMeaning(p.index.forward, "");
    var body := p.controllerType + Tail(printed);
    assert PrintFull(p) == p.guid + [','] + body;
    SplitAt(p.guid, body, ',');
    SplitWhole(p.guid, ',');
    SplitTail(p.controllerType, printed);
    ConcatAssoc([p.guid], Split(p.controllerType, ','), printed);
  }

  lemma HeaderFields(guid: string, types: seq<string>, printed: seq<string>)
    requires types != []
    ensures var fields := [guid] + types + printed;
            |fields| >= 2 && fields[0] == guid && fields[1] == types[0] && fields[2..] == types[1..] + printed
  {
  }

  /** The fields a type breaks into when the printed text is read again. */
  function ExtraFields(controllerType: string): seq<string> {
    Split(controllerType, ',')[1..]
  }

  /**
   When a printed mapping reads back: the type has no comma, or it reads as `*` followed by fields
   that are skipped.
   */
  predicate TypeReadsBack(controllerType: string) {
    || ',' !in controllerType
    || (Split(controllerType, ',')[0] == "*" && forall f :: f in ExtraFields(controllerType) ==> ':' !in f)
  }

  lemma {:induction false} ColonlessGiveNothing(fields: seq<string>, key: string)
    requires forall f :: f in fields ==> ':' !in f
    ensures ValuesFor(fields, key) == []
  {
    if fields == [] {
    } else {
      ColonlessGiveNothing(fields[1..], key);
    }
  }

  lemma {:induction false} ColonGivesSomething(fields: seq<string>, i: nat)
    requires i < |fields| && ':' in fields[i]
    ensures ValuesFor(fields, Split(fields[i], ':')[0]) != []
  {
    if i == 0 {
    } else {
      ColonGivesSomething(fields[1..], i - 1);
    }
  }

  /** Reading a printed mapping again: the fields of its type come first, then its own bindings. */
  function Reread(p: Parsed, deviceName: string): Parsed {
    var first := Split(p.controllerType, ',')[0];
    Parsed(p.guid, if first == "*" then Fallback(deviceName) else first,
           ReadFields(EMPTY, ExtraFields(p.controllerType) + Printed(p.index.forward)))
  }

  lemma ParseOfPrint(p: Parsed, deviceName: string)
    requires Clean(p.index.forward) && ',' !in p.guid
    ensures Parse(PrintFull(p), deviceName) == Some(Reread(p, deviceName))
  {
    PrintSplits(p);
    HeaderFields(p.guid, Split(p.controllerType, ','), Printed(p.index.forward));
  }

  lemma RereadKey(p: Parsed, deviceName: string, k: string)
    requires Clean(p.index.forward)
    ensures var r := Reread(p, deviceName).index.forward;
            var extra := ExtraFields(p.controllerType);
            && Bindings(r, k) == ValuesFor(extra, k) + Bindings(p.index.forward, k)
            && (k in r <==> ValuesFor(extra, k) != [] || k in p.index.forward)
  {
    var extra := ExtraFields(p.controllerType);
    var printed := Printed(p.index.forward);
    PrintedMeaning(p.index.forward, k);
    ValuesForAppend(extra, printed, k);
    ReadFieldsMeaning(EMPTY, extra + printed, k);
    assert [] + ValuesFor(extra + printed, k) == ValuesFor(extra + printed, k);
  }

  /**
   Printing a mapping and reading it again gives the same GUID; it gives the same type and the same
   key-to-list map exactly when the type reads back.
   */
  lemma ReadsBackIff(p: Parsed, deviceName: string)
    requires WellFormed(p, deviceName)
    ensures var q := Parse(PrintFull(p), deviceName);
            && q.Some? && q.value.guid == p.guid
            && (q.value.controllerType == p.controllerType && q.value.index.forward == p.index.forward
                <==> TypeReadsBack(p.controllerType))
  {
    ParseOfPrint(p, deviceName);
    ReparseType(p.controllerType, deviceName);
    var q := Reread(p, deviceName);
    if forall f :: f in ExtraFields(p.controllerType) ==> ':' !in f {
      forall k
        ensures Bindings(q.index.forward, k) == Bindings(p.index.forward, k)
        ensures k in q.index.forward <==> k in p.index.forward
      {
        RereadKey(p, deviceName, k);
        ColonlessGiveNothing(ExtraFields(p.controllerType), k);
      }
      SameBindings(q.index.forward, p.index.forward);
    } else {
      ColonBreaks(p, deviceName);
    }
  }

  /** Normal form: what was read from any text with at least two fields, printed and read again. */
  lemma RoundTrip(text: string, deviceName: string)
    requires Parse(text, deviceName).Some?
    ensures var p := Parse(text, deviceName).value;
            var q := Parse(PrintFull(p), deviceName);
            && q.Some? && q.value.guid == p.guid
            && (q.value.controllerType == p.controllerType && q.value.index.forward == p.index.forward
                <==> TypeReadsBack(p.controllerType))
  {
    ParsedIsClean(text, deviceName);
    ReadsBackIff(Parse(text, deviceName).value, deviceName);
  }

  /** A joystick whose name has a comma: the type of a text without one does not read back. */
  lemma CommaInNameBreaks()
    ensures var p := Parsed("g", "a,b", EMPTY);
            var q := Parse(PrintFull(p), "a,b");
            Parse("g,*", "a,b") == Some(p) && q.Some? && q.value.controllerType == "a"
  {
    SplitPair("g", "*");
    SplitPair("a", "b");
    var p := Parsed("g", "a,b", EMPTY);
    assert Parse("g,*", "a,b") == Some(p);
    ParseOfPrint(p, "a,b");
  }

  lemma SplitPair(a: string, b: string)
    requires ',' !in a && ',' !in b
    ensures Split(a + "," + b, ',') == [a, b]
  {
    SplitAt(a, b, ',');
    SplitWhole(a, ',');
    SplitWhole(b, ',');
    assert a + "," + b == a + [','] + b;
  }

  /** A comma in the type that is followed by a field with a colon changes the map. */
  lemma ColonBreaks(p: Parsed, deviceName: string)
    requires Clean(p.index.forward)
    requires exists f :: f in ExtraFields(p.controllerType) && ':' in f
    ensures Reread(p, deviceName).index.forward != p.index.forward
  {
    var extra := ExtraFields(p.controllerType);
    var i :| 0 <= i < |extra| && ':' in extra[i];
    ColonGivesSomething(extra, i);
    RereadKey(p, deviceName, Split(extra[i], ':')[0]);
  }

  lemma SameBindings(a: map<string, seq<string>>, b: map<string, seq<string>>)
    requires forall k :: Bindings(a, k) == Bindings(b, k)
    requires forall k :: k in a <==> k in b
    ensures a == b
  {
    forall k | k in a ensures a[k] == b[k] {
      assert Bindings(a, k) == Bindings(b, k);
    }
  }

  /** When the type field of a printed mapping is read as the same type. */
  lemma ReparseType(controllerType: string, deviceName: string)
    requires ',' in controllerType || controllerType == "*" ==> controllerType == Fallback(deviceName)
    ensures var first := Split(controllerType, ',')[0];
            (if first == "*" then Fallback(deviceName) else first) == controllerType
            <==> ',' !in controllerType || first == "*"
  {
    SplitHasNoSeparator(controllerType, ',');
    assert Split(controllerType, ',')[0] in Split(controllerType, ',');
    if ',' !in controllerType {
      SplitWhole(controllerType, ',');
    }
  }

  /**
   What a text means. The first two fields are the GUID and the type, where `*` stands for the name of the
   device, or for an unidentified one without a name; the others give their values to their keys.
   */
  lemma MeaningOfText(guid: string, written: string, fields: seq<string>, deviceName: string)
    requires ',' !in guid && ',' !in written && Without(fields, ',')
    ensures var parsed := Parse(guid + "," + written + Tail(fields), deviceName);
            && parsed.Some? && parsed.value.guid == guid
            && (written != "*" ==> parsed.value.controllerType == written)
            && (written == "*" && deviceName != "" ==> parsed.value.controllerType == deviceName)
            && (written == "*" && deviceName == "" ==> parsed.value.controllerType == "Unidentified Controller")
            && parsed.value.index == ReadFields(EMPTY, fields)
            && forall key :: Bindings(parsed.value.index.forward, key) == ValuesFor(fields, key)
  {
    SplitPair(guid, written);
    SplitTail(guid + "," + written, fields);
    assert ([guid, written] + fields)[2..] == fields;
    forall key ensures Bindings(ReadFields(EMPTY, fields).forward, key) == ValuesFor(fields, key) {
      BindingsAreValues(fields, key);
    }
  }

  // ---------------------------------------------------------------- the order of the printed text

  function FieldKey(field: string): string {
    Split(field, ':')[0]
  }

  ghost predicate Ascending(fields: seq<string>) {
    forall i, j :: 0 <= i < j < |fields| ==> LessEq(FieldKey(fields[i]), FieldKey(fields[j]))
  }

  lemma {:induction false} KeyFieldsKeys(key: string, inputs: seq<string>)
    requires ':' !in key && Without(inputs, ':')
    ensures forall f :: f in KeyFields(key, inputs) ==> FieldKey(f) == key
  {
    if inputs == [] {
    } else {
      assert inputs == [inputs[0]] + inputs[1..];
      FieldParts(key, inputs[0]);
      KeyFieldsKeys(key, inputs[1..]);
    }
  }

  lemma AscendingAppend(a: seq<string>, key: string, b: seq<string>)
    requires (forall f :: f in a ==> FieldKey(f) == key) && Ascending(b)
    requires forall f :: f in b ==> LessEq(key, FieldKey(f))
    ensures Ascending(a + b)
  {
    LessEqTotal(key, key);
    forall i, j | 0 <= i < j < |a + b| ensures LessEq(FieldKey((a + b)[i]), FieldKey((a + b)[j])) {
      if i < |a| {
        assert a[i] in a;
        assert (a + b)[j] in a || (a + b)[j] in b;
      }
    }
  }

  lemma {:induction false} AllFieldsAscending(forward: map<string, seq<string>>, keys: seq<string>)
    requires Clean(forward) && forall x :: x in keys ==> x in forward
    requires forall i, j :: 0 <= i < j < |keys| ==> Less(keys[i], keys[j])
    ensures Ascending(AllFields(forward, keys))
    ensures forall f :: f in AllFields(forward, keys) ==> FieldKey(f) in keys
  {
    if keys == [] {
    } else {
      var key, rest := keys[0], keys[1..];
      assert keys == [key] + rest;
      AllFieldsAscending(forward, rest);
      KeyFieldsKeys(key, forward[key]);
      forall f | f in AllFields(forward, rest) ensures LessEq(key, FieldKey(f)) {
        var j :| 0 <= j < |rest| && rest[j] == FieldKey(f);
        assert rest[j] == keys[j + 1];
      }
      AscendingAppend(KeyFields(key, forward[key]), key, AllFields(forward, rest));
    }
  }

  /** The printed fields come in ascending order of their keys. */
  lemma PrintedAscending(forward: map<string, seq<string>>)
    requires Clean(forward)
    ensures Ascending(Printed(forward))
  {
    AllFieldsAscending(forward, InOrder(forward.Keys));
  }

  /** The usual case: a type written in the text itself always reads back. */
  lemma RoundTripOfWrittenType(text: string, deviceName: string)
    requires |Split(text, ',')| >= 2 && Split(text, ',')[1] != "*"
    ensures var p := Parse(text, deviceName).value;
            var q := Parse(PrintFull(p), deviceName);
            q.Some? && q.value.guid == p.guid && q.value.controllerType == p.controllerType
            && q.value.index.forward == p.index.forward
  {
    SplitHasNoSeparator(text, ',');
    assert Split(text, ',')[1] in Split(text, ',');
    RoundTrip(text, deviceName);
  }
}
