/** What the JSON cleaner makes of each kind of value, in texts written out. */
module JsonResults {
  import opened Wrappers
  import opened Strings
  import opened JsonCleanup
  import opened JsonPaths

  // ---------------------------------------------------------------- dumped and content paths

  /** Position i is the first one at which the pattern occurs. */
  ghost predicate FirstAt(s: string, pattern: string, i: nat) {
    OccursAt(s, pattern, i) && forall k :: 0 <= k < i ==> !OccursAt(s, pattern, k)
  }

  ghost predicate Occurs(s: string, pattern: string) {
    exists i: nat :: OccursAt(s, pattern, i)
  }

  lemma FoundFirst(s: string, pattern: string)
    ensures Find(s, pattern, 0).Some? <==> Occurs(s, pattern)
    ensures Find(s, pattern, 0).Some? ==> FirstAt(s, pattern, Find(s, pattern, 0).value)
  {
    hide Find, OccursAt;
    if Find(s, pattern, 0).Some? {
      assert OccursAt(s, pattern, Find(s, pattern, 0).value);
    }
  }

  /** `text` is the dump without what follows the first dump marker, and nothing if that is a lone quote. */
  ghost predicate DumpText(c: Config, dump: string, text: string) {
    if !c.isPartial || c.healing.marker == "" then text == dump
    else if Occurs(dump, c.healing.dumpMarker) then
      exists i: nat :: FirstAt(dump, c.healing.dumpMarker, i) && text == if dump[..i] == "\"" then "" else dump[..i]
    else text == if dump == "\"" then "" else dump
  }

  /** At a dumped path stands the dump up to the marker, and it is reported healed iff it was cut there. */
  lemma DumpedAtPath(c: Config, j: Json, w: Walk)
    requires w.path in c.args
    ensures var o := CleanWalk(c, j, w);
            && o.result.Ok? && o.result.value.Str? && DumpText(c, c.dump(j), o.result.value.s)
            && o.walk.path == w.path
            && (o.walk.found <==>
                  w.found || (c.isPartial && c.healing.marker != "" && Occurs(c.dump(j), c.healing.dumpMarker)))
    ensures c.isPartial && c.healing.marker != "" && c.healing.dumpMarker != "" ==>
              !Occurs(CleanWalk(c, j, w).result.value.s, c.healing.dumpMarker)
  {
    hide Find, FirstAt;
    var dump := c.dump(j);
    FoundFirst(dump, c.healing.dumpMarker);
    FoundFirst(CleanWalk(c, j, w).result.value.s, c.healing.dumpMarker);
    var i := Find(dump, c.healing.dumpMarker, 0);
    if i.Some? && c.healing.dumpMarker != "" {
      CutHasNoMarker(dump, c.healing.dumpMarker);
    }
    if c.healing.dumpMarker != "" {
      LongerThanQuote("", c.healing.dumpMarker);
    }
    if i.Some? {
      assert FirstAt(dump, c.healing.dumpMarker, i.value);
    }
  }

  /** At a content path stands a string, up to the marker; anything else is an error. */
  lemma ContentAtPath(c: Config, j: Json, w: Walk)
    requires w.path in c.contents && w.path !in c.args
    ensures !j.Str? ==> CleanWalk(c, j, w).result == Err(ContentNotString)
    ensures j.Str? ==>
              var o := CleanWalk(c, j, w);
              && o.result.Ok? && o.result.value.Str? && o.walk.path == w.path
              && (o.walk.found <==> w.found || Occurs(j.s, c.healing.marker))
              && if Occurs(j.s, c.healing.marker)
                 then exists i: nat :: FirstAt(j.s, c.healing.marker, i) && o.result.value.s == j.s[..i]
                 else o.result.value == j
  {
    hide Find;
    if j.Str? {
      FoundFirst(j.s, c.healing.marker);
    }
  }

  // ---------------------------------------------------------------- values that come back

  lemma {:induction false} SetNewField(acc: seq<Field>, key: string, value: Json)
    requires forall i :: 0 <= i < |acc| ==> acc[i].key != key
    ensures SetField(acc, key, value) == acc + [Field(key, value)]
  {
    if acc != [] {
      SetNewField(acc[1..], key, value);
      assert acc == [acc[0]] + acc[1..];
    }
  }

  /** Without paths, a complete value whose keys are distinct comes back as it is. */
  lemma {:induction false} CompleteUnchanged(c: Config, j: Json, path: Path)
    requires MarkerFree(j, c.marker) && DistinctKeys(j) && c.args == [] && c.contents == []
    ensures CleanSpec(c, j, path) == Ok(Cleaned(j, false))
    decreases j
  {
    match j
    case Obj(fields) =>
      FieldsUnchanged(c, [], fields, path);
      assert [] + fields == fields;
    case Arr(items) =>
      ItemsUnchanged(c, [], items, path);
      assert [] + items == items;
    case _ =>
  }

  lemma {:induction false} FieldsUnchanged(c: Config, acc: seq<Field>, fields: seq<Field>, path: Path)
    requires forall i :: 0 <= i < |fields| ==> !Contains(fields[i].key, c.marker) && MarkerFree(fields[i].value, c.marker)
    requires DistinctFields(acc + fields) && c.args == [] && c.contents == []
    ensures FieldsSpec(c, fields, acc, path) == Ok(Cleaned(Obj(acc + fields), false))
    decreases fields
  {
    if fields == [] {
      assert acc + fields == acc;
    } else {
      var (key, value) := (fields[0].key, fields[0].value);
      var all := acc + fields;
      assert all[|acc|] == fields[0] && forall i :: 0 <= i < |acc| ==> all[i] == acc[i];
      SetNewField(acc, key, value);
      assert acc + [fields[0]] + fields[1..] == all && Field(key, value) == fields[0];
      if !value.Str? {
        CompleteUnchanged(c, value, path + [key]);
      }
      FieldsUnchanged(c, acc + [fields[0]], fields[1..], path);
    }
  }

  lemma {:induction false} ItemsUnchanged(c: Config, acc: seq<Json>, items: seq<Json>, path: Path)
    requires forall i :: 0 <= i < |items| ==> MarkerFree(items[i], c.marker) && DistinctKeys(items[i])
    requires c.args == [] && c.contents == []
    ensures ItemsSpec(c, items, acc, path) == Ok(Cleaned(Arr(acc + items), false))
    decreases items
  {
    if items == [] {
      assert acc + items == acc;
    } else {
      CompleteUnchanged(c, items[0], path);
      ItemsUnchanged(c, acc + [items[0]], items[1..], path);
      assert acc + [items[0]] + items[1..] == acc + items;
    }
  }

  // ---------------------------------------------------------------- healed keys and items

  /** The first healed key ends its object: its field and all behind it are dropped. */
  lemma {:induction false} TruncatedKey(c: Config, before: seq<Field>, last: Field, after: seq<Field>, acc: seq<Field>, w: Walk)
    requires NoneHealed(before, c.marker) && Contains(last.key, c.marker)
    ensures var (o, r) := (FieldsWalk(c, before, acc, w), FieldsWalk(c, before + [last] + after, acc, w));
            r == if o.result.Ok? then Outcome(o.result, Walk(o.walk.path, true)) else o
    decreases before
  {
    var fields := before + [last] + after;
    if before == [] {
      assert fields[0] == last;
    } else {
      var (key, value) := (before[0].key, before[0].value);
      assert fields[0] == before[0] && fields[1..] == before[1..] + [last] + after;
      if value.Str? {
        TruncatedKey(c, before[1..], last, after, SetField(acc, key, value), w);
      } else {
        var v := CleanWalk(c, value, Walk(w.path + [key], w.found));
        if v.result.Ok? {
          TruncatedKey(c, before[1..], last, after, SetField(acc, key, v.result.value), Walk(Pop(v.walk.path), v.walk.found));
        }
      }
    }
  }

  /** The first healed string ends its array: it and all behind it are dropped. */
  lemma {:induction false} TruncatedItem(c: Config, before: seq<Json>, last: Json, after: seq<Json>, acc: seq<Json>, w: Walk)
    requires (forall i :: 0 <= i < |before| ==> !Healed(before[i], c.marker)) && Healed(last, c.marker)
    ensures var (o, r) := (ItemsWalk(c, before, acc, w), ItemsWalk(c, before + [last] + after, acc, w));
            r == if o.result.Ok? then Outcome(o.result, Walk(o.walk.path, true)) else o
    decreases before
  {
    var items := before + [last] + after;
    if before == [] {
      assert items[0] == last;
    } else {
      assert items[0] == before[0] && items[1..] == before[1..] + [last] + after;
      var v := CleanWalk(c, before[0], w);
      if v.result.Ok? {
        TruncatedItem(c, before[1..], last, after, acc + [v.result.value], v.walk);
      }
    }
  }

  // ---------------------------------------------------------------- the whole operation

  /** A complete value with nothing to dump comes back as it is, and one dumped as a whole as its text. */
  lemma CompleteRoot(c: Config, json: Json)
    requires c.healing.marker == ""
    ensures c.args == [] ==> ConsumeWalk(c, json) == Ok(Consumed(json, false))
    ensures [] in c.args ==> ConsumeWalk(c, json) == Ok(Consumed(Str(c.dump(json)), false))
  {
  }

  /** The flag with which the dumped arguments are reported. */
  ghost predicate ArgumentsCut(c: Config, arguments: Json) {
    c.isPartial && c.healing.marker != "" && Occurs(c.dump(arguments), c.healing.dumpMarker)
  }

  /** A tool call below some path: the name stays and the arguments are dumped. */
  lemma CallCleaned(c: Config, name: string, arguments: Json, w: Walk) returns (text: string)
    requires w.path !in c.args && w.path !in c.contents && w.path + ["arguments"] in c.args && !arguments.Str?
    requires !Contains(name, c.marker) && !Contains("name", c.marker) && !Contains("arguments", c.marker)
    ensures DumpText(c, c.dump(arguments), text)
    ensures CleanWalk(c, Obj([Field("name", Str(name)), Field("arguments", arguments)]), w)
            == Outcome(Ok(Obj([Field("name", Str(name)), Field("arguments", Str(text))])),
                       Walk(w.path, w.found || ArgumentsCut(c, arguments)))
  {
    hide Find, DumpText, Occurs, DumpArguments;
    var fields := [Field("name", Str(name)), Field("arguments", arguments)];
    assert fields[0] == Field("name", Str(name)) && fields[1..] == [Field("arguments", arguments)];
    assert fields[1..][0] == Field("arguments", arguments) && fields[1..][1..] == [];
    var inner := Walk(w.path + ["arguments"], w.found);
    DumpedAtPath(c, arguments, inner);
    var o := CleanWalk(c, arguments, inner);
    text := o.result.value.s;
    assert Pop(inner.path) == w.path;
    var acc := SetField([], "name", Str(name));
    SetNewField(acc, "arguments", o.result.value);
    assert acc + [Field("arguments", o.result.value)] == [Field("name", Str(name)), Field("arguments", o.result.value)];
    assert FieldsWalk(c, fields, [], w) == FieldsWalk(c, fields[1..], acc, w);
    assert FieldsWalk(c, fields[1..], acc, w)
           == FieldsWalk(c, [], acc + [Field("arguments", o.result.value)], Walk(w.path, o.walk.found));
  }

  /**
    A tool call as it is streamed: the name is complete, the arguments are dumped up to where the
    text was healed, and the call is reported partial iff they were cut.
   */
  lemma StreamedArguments(c: Config, name: string, arguments: Json)
    requires c.args == [["arguments"]] && c.contents == [] && !arguments.Str?
    requires !Contains(name, c.marker) && !Contains("name", c.marker) && !Contains("arguments", c.marker)
    ensures var r := ConsumeWalk(c, Obj([Field("name", Str(name)), Field("arguments", arguments)]));
            exists text ::
              && DumpText(c, c.dump(arguments), text)
              && r == Ok(Consumed(Obj([Field("name", Str(name)), Field("arguments", Str(text))]), ArgumentsCut(c, arguments)))
  {
    hide Contains, DumpText, ArgumentsCut, DumpArguments;
    assert [] + ["arguments"] == ["arguments"] && [["arguments"]][0] == ["arguments"] && [] !in c.args;
    var text := CallCleaned(c, name, arguments, Walk([], false));
  }

  /** The same in a list of calls, whose items are cleaned under the path of the list. */
  lemma StreamedCalls(c: Config, name: string, arguments: Json)
    requires c.args == [["tool_call", "arguments"], ["tool_calls", "arguments"]] && c.contents == [["response"]] && !arguments.Str?
    requires !Contains(name, c.marker) && !Contains("name", c.marker) && !Contains("arguments", c.marker)
    requires !Contains("tool_calls", c.marker)
    ensures var call := Obj([Field("name", Str(name)), Field("arguments", arguments)]);
            var r := ConsumeWalk(c, Obj([Field("tool_calls", Arr([call]))]));
            exists text ::
              && DumpText(c, c.dump(arguments), text)
              && r == Ok(Consumed(Obj([Field("tool_calls", Arr([Obj([Field("name", Str(name)), Field("arguments", Str(text))])]))]),
                                  ArgumentsCut(c, arguments)))
  {
    hide Contains, DumpText, ArgumentsCut, DumpArguments;
    var call := Obj([Field("name", Str(name)), Field("arguments", arguments)]);
    var (list, root) := (Walk(["tool_calls"], false), Walk([], false));
    assert ["tool_calls"] + ["arguments"] == ["tool_calls", "arguments"] == c.args[1];
    assert |c.args[0]| == |c.args[1]| == 2 && ["tool_calls"] !in c.args && [] !in c.args && [] !in c.contents;
    assert c.contents[0][0] == "response" != "tool_calls" && ["tool_calls"] !in c.contents;
    var text := CallCleaned(c, name, arguments, list);
    var cleaned := Obj([Field("name", Str(name)), Field("arguments", Str(text))]);
    var behind := Walk(["tool_calls"], ArgumentsCut(c, arguments));
    assert [call][1..] == [] && [] + [cleaned] == [cleaned];
    assert ItemsWalk(c, [call], [], list) == ItemsWalk(c, [], [cleaned], behind) == Outcome(Ok(Arr([cleaned])), behind);
    var fields := [Field("tool_calls", Arr([call]))];
    assert fields[1..] == [] && [] + ["tool_calls"] == ["tool_calls"] && Pop(["tool_calls"]) == [];
    assert FieldsWalk(c, fields, [], root)
           == FieldsWalk(c, [], [Field("tool_calls", Arr([cleaned]))], Walk([], ArgumentsCut(c, arguments)));
  }

  // ---------------------------------------------------------------- what is reported

  /** A dumped text is cut, or a content string. */
  ghost predicate CutHere(c: Config, j: Json, path: Path) {
    if path in c.args then c.isPartial && c.healing.marker != "" && Occurs(c.dump(j), c.healing.dumpMarker)
    else path in c.contents && j.Str? && Occurs(j.s, c.healing.marker)
  }

  /** Somewhere in the value something is cut or dropped: at the value itself, or at or inside a child that is reached. */
  ghost predicate Touched(c: Config, j: Json, path: Path)
    decreases j, 0
  {
    if path in c.args || path in c.contents then CutHere(c, j, path)
    else
      match j
      case Obj(fields) => SomeFieldTouched(c, fields, path)
      case Arr(items) => SomeItemTouched(c, items, path)
      case _ => false
  }

  ghost predicate NoHealedItems(items: seq<Json>, marker: string) {
    forall i :: 0 <= i < |items| ==> !Healed(items[i], marker)
  }

  ghost predicate SomeFieldTouched(c: Config, fields: seq<Field>, path: Path)
    decreases fields
  {
    exists i :: FieldReached(c, fields, i) && TouchedField(c, fields[i], path)
  }

  ghost predicate SomeItemTouched(c: Config, items: seq<Json>, path: Path)
    decreases items
  {
    exists i :: ItemReached(c, items, i) && TouchedItem(c, items[i], path)
  }

  /** Nothing before field i stops the loop. */
  ghost predicate FieldReached(c: Config, fields: seq<Field>, i: int) {
    0 <= i < |fields| && NoneHealed(fields[..i], c.marker)
  }

  ghost predicate ItemReached(c: Config, items: seq<Json>, i: int) {
    0 <= i < |items| && NoHealedItems(items[..i], c.marker)
  }

  ghost predicate TouchedField(c: Config, field: Field, path: Path)
    decreases field
  {
    || Contains(field.key, c.marker) || Healed(field.value, c.marker)
    || (!field.value.Str? && Touched(c, field.value, path + [field.key]))
  }

  ghost predicate TouchedItem(c: Config, item: Json, path: Path)
    decreases item, 1
  {
    Healed(item, c.marker) || Touched(c, item, path)
  }

  /** A value is reported healed exactly when something in it is cut or dropped. */
  lemma {:induction false} ReportedIff(c: Config, j: Json, path: Path)
    requires CleanSpec(c, j, path).Ok?
    ensures CleanSpec(c, j, path).value.found <==> Touched(c, j, path)
    decreases j
  {
    hide Find;
    if path in c.args {
      FoundFirst(c.dump(j), c.healing.dumpMarker);
    } else if path in c.contents {
      FoundFirst(j.s, c.healing.marker);
    } else {
      match j
      case Obj(fields) => ReportedFields(c, fields, [], path);
      case Arr(items) => ReportedItems(c, items, [], path);
      case _ =>
    }
  }

  lemma {:induction false} ReportedFields(c: Config, fields: seq<Field>, acc: seq<Field>, path: Path)
    requires FieldsSpec(c, fields, acc, path).Ok?
    ensures FieldsSpec(c, fields, acc, path).value.found <==> SomeFieldTouched(c, fields, path)
    decreases fields
  {
    if fields != [] {
      var (key, value) := (fields[0].key, fields[0].value);
      if Contains(key, c.marker) || Healed(value, c.marker) {
        assert FieldReached(c, fields, 0);
      } else {
        if value.Str? {
          ReportedFields(c, fields[1..], SetField(acc, key, value), path);
        } else {
          var v := CleanSpec(c, value, path + [key]).value;
          ReportedIff(c, value, path + [key]);
          ReportedFields(c, fields[1..], SetField(acc, key, v.json), path);
        }
        FirstFieldOrLater(c, fields, path);
      }
    }
  }

  lemma FirstFieldOrLater(c: Config, fields: seq<Field>, path: Path)
    requires fields != [] && !Contains(fields[0].key, c.marker) && !Healed(fields[0].value, c.marker)
    ensures SomeFieldTouched(c, fields, path) <==> TouchedField(c, fields[0], path) || SomeFieldTouched(c, fields[1..], path)
  {
    hide TouchedField, NoneHealed;
    if TouchedField(c, fields[0], path) {
      FieldReachedLater(c, fields, 0);
      assert FieldReached(c, fields, 0);
    }
    if SomeFieldTouched(c, fields[1..], path) {
      var i :| FieldReached(c, fields[1..], i) && TouchedField(c, fields[1..][i], path);
      FieldReachedLater(c, fields, i + 1);
      assert FieldReached(c, fields, i + 1);
    }
    if SomeFieldTouched(c, fields, path) {
      var i :| FieldReached(c, fields, i) && TouchedField(c, fields[i], path);
      FieldReachedLater(c, fields, i);
      assert i != 0 ==> FieldReached(c, fields[1..], i - 1);
    }
  }

  /** The first is reached, and another one iff it is reached behind the first. */
  lemma FieldReachedLater(c: Config, fields: seq<Field>, i: int)
    requires fields != [] && !Contains(fields[0].key, c.marker) && !Healed(fields[0].value, c.marker)
    ensures FieldReached(c, fields, i) <==> i == 0 || FieldReached(c, fields[1..], i - 1)
    ensures FieldReached(c, fields, i) ==> 0 <= i < |fields| && (i > 0 ==> fields[1..][i - 1] == fields[i])
  {
    if 0 < i < |fields| {
      assert fields[..i] == [fields[0]] + fields[1..][..i - 1];
      assert fields[1..][..i - 1] == fields[..i][1..];
    }
  }

  lemma {:induction false} ReportedItems(c: Config, items: seq<Json>, acc: seq<Json>, path: Path)
    requires ItemsSpec(c, items, acc, path).Ok?
    ensures ItemsSpec(c, items, acc, path).value.found <==> SomeItemTouched(c, items, path)
    decreases items
  {
    if items != [] {
      if Healed(items[0], c.marker) {
        assert ItemReached(c, items, 0);
      } else {
        ReportedIff(c, items[0], path);
        ReportedItems(c, items[1..], acc + [CleanSpec(c, items[0], path).value.json], path);
        FirstItemOrLater(c, items, path);
      }
    }
  }

  lemma FirstItemOrLater(c: Config, items: seq<Json>, path: Path)
    requires items != [] && !Healed(items[0], c.marker)
    ensures SomeItemTouched(c, items, path) <==> TouchedItem(c, items[0], path) || SomeItemTouched(c, items[1..], path)
  {
    hide TouchedItem, NoHealedItems;
    if TouchedItem(c, items[0], path) {
      ItemReachedLater(c, items, 0);
      assert ItemReached(c, items, 0);
    }
    if SomeItemTouched(c, items[1..], path) {
      var i :| ItemReached(c, items[1..], i) && TouchedItem(c, items[1..][i], path);
      ItemReachedLater(c, items, i + 1);
      assert ItemReached(c, items, i + 1);
    }
    if SomeItemTouched(c, items, path) {
      var i :| ItemReached(c, items, i) && TouchedItem(c, items[i], path);
      ItemReachedLater(c, items, i);
      assert i != 0 ==> ItemReached(c, items[1..], i - 1);
    }
  }

  /** The first is reached, and another one iff it is reached behind the first. */
  lemma ItemReachedLater(c: Config, items: seq<Json>, i: int)
    requires items != [] && !Healed(items[0], c.marker)
    ensures ItemReached(c, items, i) <==> i == 0 || ItemReached(c, items[1..], i - 1)
    ensures ItemReached(c, items, i) ==> 0 <= i < |items| && (i > 0 ==> items[1..][i - 1] == items[i])
  {
    if 0 < i < |items| {
      assert items[..i] == [items[0]] + items[1..][..i - 1];
      assert items[1..][..i - 1] == items[..i][1..];
    }
  }

  /** With no paths at all, a value is reported healed exactly when a marker is in one of its keys or in a string below its root. */
  lemma {:induction false} ReportedWithoutPaths(c: Config, j: Json, path: Path)
    requires c.args == [] && c.contents == []
    ensures Touched(c, j, path) <==> !j.Str? && !MarkerFree(j, c.marker)
    decreases j
  {
    match j
    case Obj(fields) =>
      forall i | 0 <= i < |fields|
        ensures TouchedField(c, fields[i], path) <==> Contains(fields[i].key, c.marker) || !MarkerFree(fields[i].value, c.marker)
      {
        ReportedWithoutPaths(c, fields[i].value, path + [fields[i].key]);
      }
      FirstTouchedField(c, fields, path);
    case Arr(items) =>
      forall i | 0 <= i < |items|
        ensures TouchedItem(c, items[i], path) <==> !MarkerFree(items[i], c.marker)
      {
        ReportedWithoutPaths(c, items[i], path);
      }
      FirstTouchedItem(c, items, path);
    case _ =>
  }

  /** If some child is touched, the first one is reached: an earlier one that stops the loop is touched itself. */
  lemma {:induction false} FirstTouchedField(c: Config, fields: seq<Field>, path: Path)
    ensures SomeFieldTouched(c, fields, path) <==> exists i :: 0 <= i < |fields| && TouchedField(c, fields[i], path)
    decreases fields
  {
    if fields != [] {
      if TouchedField(c, fields[0], path) {
        assert FieldReached(c, fields, 0);
      } else {
        FirstTouchedField(c, fields[1..], path);
        FirstFieldOrLater(c, fields, path);
        hide TouchedField, SomeFieldTouched;
        assert forall i :: 1 <= i < |fields| ==> fields[1..][i - 1] == fields[i];
      }
    }
  }

  lemma {:induction false} FirstTouchedItem(c: Config, items: seq<Json>, path: Path)
    ensures SomeItemTouched(c, items, path) <==> exists i :: 0 <= i < |items| && TouchedItem(c, items[i], path)
    decreases items
  {
    if items != [] {
      if TouchedItem(c, items[0], path) {
        assert ItemReached(c, items, 0);
      } else {
        FirstTouchedItem(c, items[1..], path);
        FirstItemOrLater(c, items, path);
        hide TouchedItem, SomeItemTouched;
        assert forall i :: 1 <= i < |items| ==> items[1..][i - 1] == items[i];
      }
    }
  }
}
