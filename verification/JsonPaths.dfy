/**
  How exact the condition for the JSON cleaner's shared path is: where a leftover key is looked
  at in an object, some set of paths tells the walk from the specification.
 */
module JsonPaths {
  import opened Wrappers
  import opened Strings
  import opened JsonCleanup

  // ---------------------------------------------------------------- values the parser can hold

  /** No object has two fields of one key; the parser reuses the slot of a repeated key. */
  ghost predicate DistinctKeys(j: Json)
    decreases j
  {
    match j
    case Obj(fields) => DistinctFields(fields)
    case Arr(items) => forall i :: 0 <= i < |items| ==> DistinctKeys(items[i])
    case _ => true
  }

  ghost predicate DistinctFields(fields: seq<Field>)
    decreases fields
  {
    && (forall i :: 0 <= i < |fields| ==> DistinctKeys(fields[i].value))
    && (forall i, k :: 0 <= i < k < |fields| ==> fields[i].key != fields[k].key)
  }

  /** In arrays nothing that is still processed follows an item that leaves a key. */
  predicate ArraysAligned(j: Json, marker: string)
    decreases j
  {
    match j
    case Obj(fields) => ArraysOfFields(fields, marker)
    case Arr(items) => ArraysOfItems(items, marker)
    case _ => true
  }

  predicate ArraysOfFields(fields: seq<Field>, marker: string)
    decreases fields
  {
    || fields == [] || Contains(fields[0].key, marker) || Healed(fields[0].value, marker)
    || (ArraysAligned(fields[0].value, marker) && ArraysOfFields(fields[1..], marker))
  }

  predicate ArraysOfItems(items: seq<Json>, marker: string)
    decreases items
  {
    || ItemsOver(items, marker)
    || (&& ArraysAligned(items[0], marker) && ArraysOfItems(items[1..], marker)
        && (Leaves(items[0], marker) ==> ItemsOver(items[1..], marker)))
  }

  // ---------------------------------------------------------------- one special path

  /** The same configuration with other path sets. */
  function WithPaths(c: Config, args: seq<Path>, contents: seq<Path>): Config {
    c.(args := args, contents := contents)
  }

  /** A configuration in which one path is both dumped and content, so that nothing is an error. */
  ghost predicate OnePath(c: Config, p: Path) {
    c.args == [p] && c.contents == [p]
  }

  lemma {:induction false} NoErrors(c: Config, j: Json, w: Walk, path: Path)
    requires c.args == c.contents
    ensures CleanWalk(c, j, w).result.Ok? && CleanSpec(c, j, path).Ok?
    ensures !j.Str? && w.path !in c.args ==> !CleanWalk(c, j, w).result.value.Str?
    ensures w.path <= CleanWalk(c, j, w).walk.path
    decreases j
  {
    match j
    case Obj(fields) => NoErrorFields(c, fields, [], [], w, path);
    case Arr(items) => NoErrorItems(c, items, [], [], w, path);
    case _ =>
  }

  lemma {:induction false} NoErrorFields(c: Config, fields: seq<Field>, acc: seq<Field>, acc': seq<Field>, w: Walk, path: Path)
    requires c.args == c.contents
    ensures FieldsWalk(c, fields, acc, w).result.Ok? && FieldsWalk(c, fields, acc, w).result.value.Obj?
    ensures FieldsSpec(c, fields, acc', path).Ok? && FieldsSpec(c, fields, acc', path).value.json.Obj?
    ensures w.path <= FieldsWalk(c, fields, acc, w).walk.path
    decreases fields
  {
    if fields != [] && !Contains(fields[0].key, c.marker) {
      var key, value := fields[0].key, fields[0].value;
      var inner, found := w.path + [key], w.found || Healed(value, c.marker);
      NoErrors(c, value, Walk(inner, found), path + [key]);
      var o, v := CleanWalk(c, value, Walk(inner, found)), CleanSpec(c, value, path + [key]).value;
      assert w.path <= inner <= o.walk.path;
      if value.Str? && !Healed(value, c.marker) {
        NoErrorFields(c, fields[1..], SetField(acc, key, value), SetField(acc', key, value), w, path);
      } else if !value.Str? {
        var next := Walk(Pop(o.walk.path), o.walk.found);
        assert w.path <= next.path;
        NoErrorFields(c, fields[1..], SetField(acc, key, o.result.value), SetField(acc', key, v.json), next, path);
      }
    }
  }

  lemma {:induction false} NoErrorItems(c: Config, items: seq<Json>, acc: seq<Json>, acc': seq<Json>, w: Walk, path: Path)
    requires c.args == c.contents
    ensures var o, r := ItemsWalk(c, items, acc, w), ItemsSpec(c, items, acc', path);
            && o.result.Ok? && o.result.value.Arr? && acc <= o.result.value.items && w.path <= o.walk.path
            && r.Ok? && r.value.json.Arr? && acc' <= r.value.json.items
    decreases items
  {
    if !ItemsOver(items, c.marker) {
      NoErrors(c, items[0], w, path);
      var o, v := CleanWalk(c, items[0], w), CleanSpec(c, items[0], path).value;
      NoErrorItems(c, items[1..], acc + [o.result.value], acc' + [v.json], o.walk, path);
    }
  }

  /** A value that leaves a key still leaves one if the special path is not below it. */
  lemma {:induction false} StillLeaves(c: Config, j: Json, w: Walk, p: Path)
    requires OnePath(c, p) && !(w.path <= p) && Leaves(j, c.marker)
    ensures |w.path| < |CleanWalk(c, j, w).walk.path|
    decreases j
  {
    NoErrors(c, j, w, []);
    match j
    case Obj(fields) => FieldsStillLeave(c, fields, [], w, p);
    case Arr(items) => ItemsStillLeave(c, items, [], w, p);
    case _ =>
  }

  lemma {:induction false} FieldsStillLeave(c: Config, fields: seq<Field>, acc: seq<Field>, w: Walk, p: Path)
    requires OnePath(c, p) && !(w.path <= p) && FieldsLeave(fields, c.marker)
    ensures |w.path| < |FieldsWalk(c, fields, acc, w).walk.path|
    decreases fields
  {
    var key, value := fields[0].key, fields[0].value;
    var inner := w.path + [key];
    assert w.path <= inner;
    if !Healed(value, c.marker) {
      if value.Str? {
        FieldsStillLeave(c, fields[1..], SetField(acc, key, value), w, p);
      } else {
        NoErrors(c, value, Walk(inner, w.found), []);
        var o := CleanWalk(c, value, Walk(inner, w.found));
        var next := Walk(Pop(o.walk.path), o.walk.found);
        assert w.path <= next.path;
        if Leaves(value, c.marker) {
          StillLeaves(c, value, Walk(inner, w.found), p);
        } else {
          FieldsStillLeave(c, fields[1..], SetField(acc, key, o.result.value), next, p);
        }
      }
    }
  }

  lemma {:induction false} ItemsStillLeave(c: Config, items: seq<Json>, acc: seq<Json>, w: Walk, p: Path)
    requires OnePath(c, p) && !(w.path <= p) && ItemsLeave(items, c.marker)
    ensures |w.path| < |ItemsWalk(c, items, acc, w).walk.path|
    decreases items
  {
    NoErrors(c, items[0], w, []);
    var o := CleanWalk(c, items[0], w);
    if Leaves(items[0], c.marker) {
      StillLeaves(c, items[0], w, p);
    } else {
      ItemsStillLeave(c, items[1..], acc + [o.result.value], o.walk, p);
    }
  }

  // ---------------------------------------------------------------- fields by key

  function Lookup(fields: seq<Field>, key: string): Option<Json> {
    if fields == [] then None
    else if fields[0].key == key then Some(fields[0].value)
    else Lookup(fields[1..], key)
  }

  lemma {:induction false} LookupSet(fields: seq<Field>, key: string, value: Json, other: string)
    ensures Lookup(SetField(fields, key, value), other) == if other == key then Some(value) else Lookup(fields, other)
  {
    if fields == [] {
      assert [Field(key, value)][1..] == [];
    } else if fields[0].key == key {
      assert ([Field(key, value)] + fields[1..])[1..] == fields[1..];
    } else {
      LookupSet(fields[1..], key, value, other);
      assert ([fields[0]] + SetField(fields[1..], key, value))[1..] == SetField(fields[1..], key, value);
    }
  }

  ghost predicate HasKey(fields: seq<Field>, key: string) {
    exists i :: 0 <= i < |fields| && fields[i].key == key
  }

  /** Later fields of other keys leave a key's value alone, on the shared path and on exact ones. */
  lemma {:induction false} KeyIsKept(c: Config, fields: seq<Field>, acc: seq<Field>, acc': seq<Field>, w: Walk, path: Path, key: string)
    requires c.args == c.contents && !HasKey(fields, key)
    ensures var o, r := FieldsWalk(c, fields, acc, w), FieldsSpec(c, fields, acc', path);
            && o.result.Ok? && o.result.value.Obj? && Lookup(o.result.value.fields, key) == Lookup(acc, key)
            && r.Ok? && r.value.json.Obj? && Lookup(r.value.json.fields, key) == Lookup(acc', key)
    decreases fields
  {
    NoErrorFields(c, fields, acc, acc', w, path);
    if fields != [] && !Contains(fields[0].key, c.marker) {
      var k, value := fields[0].key, fields[0].value;
      var inner := Walk(w.path + [k], w.found || Healed(value, c.marker));
      NoErrors(c, value, inner, path + [k]);
      var o, v := CleanWalk(c, value, inner), CleanSpec(c, value, path + [k]).value;
      assert forall i :: 0 <= i < |fields| - 1 ==> fields[1..][i].key == fields[i + 1].key;
      LookupSet(acc, k, o.result.value, key);
      LookupSet(acc', k, v.json, key);
      LookupSet(acc, k, value, key);
      LookupSet(acc', k, value, key);
      if value.Str? && !Healed(value, c.marker) {
        KeyIsKept(c, fields[1..], SetField(acc, k, value), SetField(acc', k, value), w, path, key);
      } else if !value.Str? {
        var next := Walk(Pop(o.walk.path), o.walk.found);
        KeyIsKept(c, fields[1..], SetField(acc, k, o.result.value), SetField(acc', k, v.json), next, path, key);
      }
    }
  }

  // ---------------------------------------------------------------- what a leftover key changes

  /** The field after a leftover key that looks at the path first. */
  function FirstLooking(fields: seq<Field>, marker: string, mayKeep: bool): (i: nat)
    requires !FieldsBlind(fields, marker, mayKeep)
    ensures i < |fields|
    decreases fields
  {
    if fields[0].value.Str? && !Healed(fields[0].value, marker) then 1 + FirstLooking(fields[1..], marker, mayKeep) else 0
  }

  /**
    With the exact path of that field special, the specification dumps it; the walk, which is on a
    longer path, does not.
   */
  lemma {:induction false} LeftoverSeen(c: Config, fields: seq<Field>, acc: seq<Field>, w: Walk, path: Path)
    requires !FieldsBlind(fields, c.marker, MayKeep(c)) && |path| < |w.path|
    requires OnePath(c, path + [fields[FirstLooking(fields, c.marker, MayKeep(c))].key])
    requires forall i, k :: 0 <= i < k < |fields| ==> fields[i].key != fields[k].key
    requires forall i :: 0 <= i < |fields| ==> Lookup(acc, fields[i].key).None?
    ensures var o, r := FieldsWalk(c, fields, acc, w), FieldsSpec(c, fields, acc, path);
            && o.result.Ok? && o.result.value.Obj? && r.Ok? && r.value.json.Obj?
            && o.result.value != r.value.json
    decreases fields
  {
    var key, value := fields[0].key, fields[0].value;
    var p := path + [fields[FirstLooking(fields, c.marker, MayKeep(c))].key];
    NoErrorFields(c, fields, acc, acc, w, path);
    assert forall i :: 0 <= i < |fields| - 1 ==> fields[1..][i].key == fields[i + 1].key;
    if value.Str? && !Healed(value, c.marker) {
      forall i | 0 <= i < |fields| - 1
        ensures Lookup(SetField(acc, key, value), fields[1..][i].key).None?
      {
        LookupSet(acc, key, value, fields[i + 1].key);
      }
      LeftoverSeen(c, fields[1..], SetField(acc, key, value), w, path);
    } else {
      assert p == path + [key] && |w.path + [key]| > |p|;
      var dumped := Str(DumpArguments(c, value).0);
      LookupSet(acc, key, dumped, key);
      if !value.Str? {
        var inner := Walk(w.path + [key], w.found);
        NoErrors(c, value, inner, p);
        var o := CleanWalk(c, value, inner);
        LookupSet(acc, key, o.result.value, key);
        KeyIsKept(c, fields[1..], SetField(acc, key, o.result.value), SetField(acc, key, dumped),
                  Walk(Pop(o.walk.path), o.walk.found), path, key);
      }
    }
  }

  /**
    An object in which a leftover key is looked at, all arrays being in order, is cleaned
    differently from the specification under some path below the one it stands at.
   */
  lemma {:induction false} Misled(c: Config, j: Json, path: Path) returns (p: Path)
    requires DistinctKeys(j) && ArraysAligned(j, c.marker) && !Aligned(j, c.marker, MayKeep(c))
    ensures path < p
    ensures var d := WithPaths(c, [p], [p]);
            forall found :: Differ(CleanWalk(d, j, Walk(path, found)), CleanSpec(d, j, path))
    decreases j
  {
    match j
    case Obj(fields) =>
      p := MisledFields(c, fields, [], path);
    case Arr(items) =>
      p := MisledItems(c, items, [], path);
  }

  /** Both succeed, with different trees. */
  ghost predicate Differ(o: Outcome, r: Result<Cleaned, JsonError>) {
    o.result.Ok? && r.Ok? && o.result.value != r.value.json
  }

  lemma {:induction false} MisledItems(c: Config, items: seq<Json>, acc: seq<Json>, path: Path) returns (p: Path)
    requires (forall i :: 0 <= i < |items| ==> DistinctKeys(items[i]))
    requires ArraysOfItems(items, c.marker) && !ItemsAligned(items, c.marker, MayKeep(c))
    ensures path < p
    ensures var d := WithPaths(c, [p], [p]);
            forall found, acc :: Differ(ItemsWalk(d, items, acc, Walk(path, found)), ItemsSpec(d, items, acc, path))
    decreases items
  {
    if !Aligned(items[0], c.marker, MayKeep(c)) {
      p := Misled(c, items[0], path);
      var d := WithPaths(c, [p], [p]);
      forall found, acc
        ensures Differ(ItemsWalk(d, items, acc, Walk(path, found)), ItemsSpec(d, items, acc, path))
      {
        var w := Walk(path, found);
        NoErrors(d, items[0], w, path);
        var o, v := CleanWalk(d, items[0], w), CleanSpec(d, items[0], path).value;
        assert Differ(CleanWalk(d, items[0], Walk(path, found)), CleanSpec(d, items[0], path));
        NoErrorItems(d, items[1..], acc + [o.result.value], acc + [v.json], o.walk, path);
        assert (acc + [o.result.value])[|acc|] != (acc + [v.json])[|acc|];
      }
    } else {
      assert !Leaves(items[0], c.marker) by {
        if ItemsOver(items[1..], c.marker) {
          assert ItemsAligned(items[1..], c.marker, MayKeep(c));
        }
      }
      p := MisledItems(c, items[1..], acc, path);
      var d := WithPaths(c, [p], [p]);
      forall found, acc
        ensures Differ(ItemsWalk(d, items, acc, Walk(path, found)), ItemsSpec(d, items, acc, path))
      {
        var w := Walk(path, found);
        NoErrors(d, items[0], w, path);
        SharedPathRefinesSpec(d, items[0], w);
        var o := CleanWalk(d, items[0], w);
        var acc' := acc + [o.result.value];
        assert Differ(ItemsWalk(d, items[1..], acc', Walk(path, o.walk.found)), ItemsSpec(d, items[1..], acc', path));
      }
    }
  }

  ghost predicate NoneYet(acc: seq<Field>, fields: seq<Field>) {
    forall i :: 0 <= i < |fields| ==> Lookup(acc, fields[i].key).None?
  }

  lemma NoneYetRest(acc: seq<Field>, fields: seq<Field>, value: Json)
    requires fields != [] && NoneYet(acc, fields)
    requires forall i, k :: 0 <= i < k < |fields| ==> fields[i].key != fields[k].key
    ensures NoneYet(SetField(acc, fields[0].key, value), fields[1..])
  {
    forall i | 0 <= i < |fields| - 1
      ensures Lookup(SetField(acc, fields[0].key, value), fields[1..][i].key).None?
    {
      LookupSet(acc, fields[0].key, value, fields[i + 1].key);
    }
  }

  lemma {:induction false} MisledFields(c: Config, fields: seq<Field>, acc: seq<Field>, path: Path) returns (p: Path)
    requires DistinctFields(fields) && NoneYet(acc, fields)
    requires ArraysOfFields(fields, c.marker) && !FieldsAligned(fields, c.marker, MayKeep(c))
    ensures path < p
    ensures var d := WithPaths(c, [p], [p]);
            forall found, acc | NoneYet(acc, fields) ::
              Differ(FieldsWalk(d, fields, acc, Walk(path, found)), FieldsSpec(d, fields, acc, path))
    decreases fields
  {
    var key, value := fields[0].key, fields[0].value;
    var inner := path + [key];
    assert path < inner;
    assert forall i :: 0 <= i < |fields| - 1 ==> fields[1..][i] == fields[i + 1];
    if !Aligned(value, c.marker, MayKeep(c)) {
      p := Misled(c, value, inner);
      assert path < p;
      MisledInside(c, fields, path, p);
    } else if Leaves(value, c.marker) && !FieldsBlind(fields[1..], c.marker, MayKeep(c)) {
      var rest := fields[1..];
      p := path + [rest[FirstLooking(rest, c.marker, MayKeep(c))].key];
      assert path < p;
      MisledAfter(c, fields, path, p);
    } else {
      BlindIsAligned(fields[1..], c.marker, MayKeep(c));
      NoneYetRest(acc, fields, value);
      p := MisledFields(c, fields[1..], SetField(acc, key, value), path);
      MisledLater(c, fields, path, p);
    }
  }

  lemma {:induction false} BlindIsAligned(fields: seq<Field>, marker: string, mayKeep: bool)
    ensures FieldsBlind(fields, marker, mayKeep) ==> FieldsAligned(fields, marker, mayKeep)
    decreases fields
  {
    if fields != [] {
      BlindIsAligned(fields[1..], marker, mayKeep);
    }
  }

  /** The difference is inside the first field. */
  lemma MisledInside(c: Config, fields: seq<Field>, path: Path, p: Path)
    requires fields != [] && DistinctFields(fields) && !fields[0].value.Str?
    requires !Contains(fields[0].key, c.marker) && path + [fields[0].key] < p
    requires var d := WithPaths(c, [p], [p]);
             var inner := path + [fields[0].key];
             forall found :: Differ(CleanWalk(d, fields[0].value, Walk(inner, found)), CleanSpec(d, fields[0].value, inner))
    ensures var d := WithPaths(c, [p], [p]);
            forall found, acc :: Differ(FieldsWalk(d, fields, acc, Walk(path, found)), FieldsSpec(d, fields, acc, path))
  {
    var d := WithPaths(c, [p], [p]);
    var key, value := fields[0].key, fields[0].value;
    var inner := path + [key];
    forall found, acc
      ensures Differ(FieldsWalk(d, fields, acc, Walk(path, found)), FieldsSpec(d, fields, acc, path))
    {
      assert Differ(CleanWalk(d, value, Walk(inner, found)), CleanSpec(d, value, inner));
      var o, v := CleanWalk(d, value, Walk(inner, found)), CleanSpec(d, value, inner).value;
      LookupSet(acc, key, o.result.value, key);
      LookupSet(acc, key, v.json, key);
      KeyIsKept(d, fields[1..], SetField(acc, key, o.result.value), SetField(acc, key, v.json),
                Walk(Pop(o.walk.path), o.walk.found), path, key);
    }
  }

  /** The first field leaves a key, and a later one looks at the path. */
  lemma MisledAfter(c: Config, fields: seq<Field>, path: Path, p: Path)
    requires fields != [] && DistinctFields(fields) && !fields[0].value.Str? && !Contains(fields[0].key, c.marker)
    requires Aligned(fields[0].value, c.marker, MayKeep(c)) && Leaves(fields[0].value, c.marker)
    requires !FieldsBlind(fields[1..], c.marker, MayKeep(c))
    requires p == path + [fields[1..][FirstLooking(fields[1..], c.marker, MayKeep(c))].key]
    ensures var d := WithPaths(c, [p], [p]);
            forall found, acc | NoneYet(acc, fields) ::
              Differ(FieldsWalk(d, fields, acc, Walk(path, found)), FieldsSpec(d, fields, acc, path))
  {
    var d := WithPaths(c, [p], [p]);
    var key, value := fields[0].key, fields[0].value;
    var inner := path + [key];
    assert p[|path|] != key && inner[|path|] == key;
    assert !(inner <= p);
    assert forall i :: 0 <= i < |fields| - 1 ==> fields[1..][i] == fields[i + 1];
    forall found, acc | NoneYet(acc, fields)
      ensures Differ(FieldsWalk(d, fields, acc, Walk(path, found)), FieldsSpec(d, fields, acc, path))
    {
      var w := Walk(inner, found);
      NoErrors(d, value, w, inner);
      SharedPathRefinesSpec(d, value, w);
      StillLeaves(d, value, w, p);
      var o := CleanWalk(d, value, w);
      NoneYetRest(acc, fields, o.result.value);
      LeftoverSeen(d, fields[1..], SetField(acc, key, o.result.value), Walk(Pop(o.walk.path), o.walk.found), path);
    }
  }

  /** The first field is read alike, and the difference is in the rest. */
  lemma MisledLater(c: Config, fields: seq<Field>, path: Path, p: Path)
    requires fields != [] && DistinctFields(fields)
    requires !Contains(fields[0].key, c.marker) && !Healed(fields[0].value, c.marker)
    requires Aligned(fields[0].value, c.marker, MayKeep(c)) && !Leaves(fields[0].value, c.marker)
    requires var d := WithPaths(c, [p], [p]);
             forall found, acc | NoneYet(acc, fields[1..]) ::
               Differ(FieldsWalk(d, fields[1..], acc, Walk(path, found)), FieldsSpec(d, fields[1..], acc, path))
    ensures var d := WithPaths(c, [p], [p]);
            forall found, acc | NoneYet(acc, fields) ::
              Differ(FieldsWalk(d, fields, acc, Walk(path, found)), FieldsSpec(d, fields, acc, path))
  {
    var d := WithPaths(c, [p], [p]);
    var key, value := fields[0].key, fields[0].value;
    var inner := path + [key];
    forall found, acc | NoneYet(acc, fields)
      ensures Differ(FieldsWalk(d, fields, acc, Walk(path, found)), FieldsSpec(d, fields, acc, path))
    {
      if value.Str? {
        NoneYetRest(acc, fields, value);
        assert Differ(FieldsWalk(d, fields[1..], SetField(acc, key, value), Walk(path, found)),
                      FieldsSpec(d, fields[1..], SetField(acc, key, value), path));
      } else {
        var w := Walk(inner, found);
        NoErrors(d, value, w, inner);
        SharedPathRefinesSpec(d, value, w);
        var o := CleanWalk(d, value, w);
        assert Pop(inner) == path;
        NoneYetRest(acc, fields, o.result.value);
        var acc' := SetField(acc, key, o.result.value);
        assert Differ(FieldsWalk(d, fields[1..], acc', Walk(path, o.walk.found)), FieldsSpec(d, fields[1..], acc', path));
      }
    }
  }

  // ---------------------------------------------------------------- main results

  /** The walk from the root agrees with the specification. */
  ghost predicate AgreesAtRoot(c: Config, j: Json) {
    Agrees(CleanWalk(c, j, Walk([], false)), CleanSpec(c, j, []), Walk([], false))
  }

  /**
    For every value whose objects have distinct keys and whose arrays are in order: the shared path
    gives what exact paths give for every set of dumped and content paths if and only if no
    leftover key is looked at.
   */
  lemma SharedPathExact(c: Config, j: Json)
    requires DistinctKeys(j) && ArraysAligned(j, c.marker)
    ensures (forall args, contents :: AgreesAtRoot(WithPaths(c, args, contents), j)) <==> Aligned(j, c.marker, MayKeep(c))
  {
    if Aligned(j, c.marker, MayKeep(c)) {
      forall args, contents
        ensures AgreesAtRoot(WithPaths(c, args, contents), j)
      {
        SharedPathRefinesSpec(WithPaths(c, args, contents), j, Walk([], false));
      }
    } else {
      var p := Misled(c, j, []);
      var d := WithPaths(c, [p], [p]);
      assert Differ(CleanWalk(d, j, Walk([], false)), CleanSpec(d, j, []));
      assert !AgreesAtRoot(d, j);
    }
  }

  lemma OneLetter(a: string, marker: string)
    requires |a| == |marker| == 1 && a != marker
    ensures !Contains(a, marker)
  {
    assert a[0..1] == a;
  }

  // the healed value of the text {"a":0,"c":[],"a":{"b":"x , with the marker "M"
  const TRUNCATED := [Field("b", Str("xM"))]
  const REPEATED := [Field("a", Obj(TRUNCATED)), Field("c", Arr([]))]

  /** The parser sets fields in the order it meets their keys, and a repeated key takes the slot of its first use. */
  lemma RepeatedIsParsed()
    ensures SetField(SetField(SetField([], "a", Scalar("0")), "c", Arr([])), "a", Obj(TRUNCATED)) == REPEATED
  {
    assert SetField(SetField([], "a", Scalar("0")), "c", Arr([])) == [Field("a", Scalar("0")), Field("c", Arr([]))];
  }

  lemma Letters()
    ensures Contains("xM", "M") && !Contains("a", "M") && !Contains("b", "M") && !Contains("c", "M")
    ensures REPEATED[1..] == [Field("c", Arr([]))] && REPEATED[1..][1..] == []
  {
    assert OccursAt("xM", "M", 1);
    OneLetter("a", "M");
    OneLetter("b", "M");
    OneLetter("c", "M");
  }

  lemma RepeatedShape(mayKeep: bool)
    ensures DistinctKeys(Obj(REPEATED)) && ArraysAligned(Obj(REPEATED), "M")
    ensures !Aligned(Obj(REPEATED), "M", mayKeep) && !OnSpine(Obj(REPEATED), "M")
  {
    hide Contains;
    Letters();
    assert Healed(Str("xM"), "M");
    assert Leaves(Obj(TRUNCATED), "M") && !FieldsBlind(REPEATED[1..], "M", mayKeep);
    assert DistinctKeys(Obj(TRUNCATED)) && DistinctKeys(Arr([]));
    assert ArraysOfFields(TRUNCATED, "M") && ArraysAligned(Obj(TRUNCATED), "M");
    assert ArraysAligned(Arr([]), "M") && ArraysOfFields(REPEATED[1..], "M");
    assert ArraysOfFields(REPEATED, "M") && !FieldsAligned(REPEATED, "M", mayKeep);
    assert !MarkerFree(Obj(TRUNCATED), "M") by {
      assert !MarkerFree(TRUNCATED[0].value, "M");
    }
  }

  /** One field with a value that is no string. */
  lemma WalkStep(c: Config, fields: seq<Field>, acc: seq<Field>, w: Walk)
    requires fields != [] && !Contains(fields[0].key, c.marker) && !fields[0].value.Str?
    ensures var o := CleanWalk(c, fields[0].value, Walk(w.path + [fields[0].key], w.found));
            FieldsWalk(c, fields, acc, w)
            == if o.result.Err? then o
               else FieldsWalk(c, fields[1..], SetField(acc, fields[0].key, o.result.value), Walk(Pop(o.walk.path), o.walk.found))
  {
  }

  lemma WalkObject(c: Config, fields: seq<Field>, w: Walk)
    requires w.path !in c.args && w.path !in c.contents
    ensures CleanWalk(c, Obj(fields), w) == FieldsWalk(c, fields, [], w)
  {
  }

  /** The truncated object comes back empty and leaves its key. */
  lemma TruncatedWalk(c: Config)
    requires c.marker == "M" && c.args == [["c"]] && c.contents == []
    ensures CleanWalk(c, Obj(TRUNCATED), Walk(["a"], false)) == Outcome(Ok(Obj([])), Walk(["a", "b"], true))
  {
    hide Contains;
    Letters();
    assert ["a"] != ["c"] && ["a"] + ["b"] == ["a", "b"];
    assert FieldsWalk(c, TRUNCATED, [], Walk(["a"], false)) == Outcome(Ok(Obj([])), Walk(["a", "b"], true));
  }

  /** The complete field is then looked at under the leftover key. */
  lemma HiddenWalk(c: Config, acc: seq<Field>)
    requires c.marker == "M" && c.args == [["c"]] && c.contents == []
    ensures FieldsWalk(c, REPEATED[1..], acc, Walk(["a"], true)).result == Ok(Obj(SetField(acc, "c", Arr([]))))
  {
    hide Contains, SetField;
    Letters();
    assert ["a"] + ["c"] == ["a", "c"] && ["a", "c"] != ["c"];
    assert CleanWalk(c, Arr([]), Walk(["a", "c"], true)) == Outcome(Ok(Arr([])), Walk(["a", "c"], true));
  }

  lemma RepeatedWalk(c: Config)
    requires c.marker == "M" && c.args == [["c"]] && c.contents == []
    ensures CleanWalk(c, Obj(REPEATED), Walk([], false)).result == Ok(Obj([Field("a", Obj([])), Field("c", Arr([]))]))
  {
    var acc := [Field("a", Obj([]))];
    assert SetField([], "a", Obj([])) == acc && SetField(acc, "c", Arr([])) == [Field("a", Obj([])), Field("c", Arr([]))];
    hide Contains, SetField, CleanWalk, FieldsWalk;
    Letters();
    TruncatedWalk(c);
    HiddenWalk(c, acc);
    assert [] + ["a"] == ["a"] && Pop(["a", "b"]) == ["a"];
    WalkStep(c, REPEATED, [], Walk([], false));
    WalkObject(c, REPEATED, Walk([], false));
  }

  lemma RepeatedSpec(c: Config)
    requires c.marker == "M" && c.args == [["c"]] && c.contents == []
    ensures var text := Str(DumpArguments(c, Arr([])).0);
            && CleanSpec(c, Obj(REPEATED), []).Ok?
            && CleanSpec(c, Obj(REPEATED), []).value.json == Obj([Field("a", Obj([])), Field("c", text)])
  {
    hide Contains;
    Letters();
    assert [] + ["a"] == ["a"] && ["a"] != ["c"] && [] + ["c"] == ["c"];
    assert FieldsSpec(c, TRUNCATED, [], ["a"]) == Ok(Cleaned(Obj([]), true));
    assert CleanSpec(c, Obj(TRUNCATED), ["a"]) == Ok(Cleaned(Obj([]), true));
    var text, acc := Str(DumpArguments(c, Arr([])).0), [Field("a", Obj([]))];
    assert SetField([], "a", Obj([])) == acc && SetField(acc, "c", text) == acc + [Field("c", text)];
    assert CleanSpec(c, Arr([]), ["c"]).value.json == text;
    assert FieldsSpec(c, REPEATED[1..], acc, []).Ok?;
    assert FieldsSpec(c, REPEATED[1..], acc, []).value.json == Obj(acc + [Field("c", text)]);
    assert FieldsSpec(c, REPEATED, [], []).value.json == Obj(acc + [Field("c", text)]);
    assert CleanSpec(c, Obj(REPEATED), []) == FieldsSpec(c, REPEATED, [], []);
  }

  /**
    A text with a repeated key is healed with the truncated string in front of a complete field.
    The key left on the path then hides that field: the walk does not dump it.
   */
  lemma RepeatedKeyMisleads(dump: Json -> string)
    ensures var c := Config([["c"]], [], "M", Healing("M", "M"), true, dump);
            var j := Obj(SetField(SetField(SetField([], "a", Scalar("0")), "c", Arr([])), "a", Obj(TRUNCATED)));
            && DistinctKeys(j) && ArraysAligned(j, "M") && !Aligned(j, "M", MayKeep(c)) && !OnSpine(j, "M")
            && CleanWalk(c, j, Walk([], false)).result == Ok(Obj([Field("a", Obj([])), Field("c", Arr([]))]))
            && CleanSpec(c, j, []).Ok?
            && CleanSpec(c, j, []).value.json == Obj([Field("a", Obj([])), Field("c", Str(DumpArguments(c, Arr([])).0))])
  {
    hide SetField, CleanWalk, CleanSpec, Aligned, ArraysAligned, DistinctKeys, OnSpine;
    var c := Config([["c"]], [], "M", Healing("M", "M"), true, dump);
    RepeatedIsParsed();
    RepeatedShape(MayKeep(c));
    RepeatedWalk(c);
    RepeatedSpec(c);
  }

  // ---------------------------------------------------------------- why arrays have to be in order

  const LEFT := [Field("d", Str("M"))]
  const ITEM := [Field("c", Obj(LEFT))]
  const ITEMS := [Obj(ITEM), Scalar("7")]

  lemma ItemShape(mayKeep: bool)
    ensures Contains("M", "M") && !Contains("c", "M") && !Contains("d", "M")
    ensures ITEM[1..] == [] && ITEMS[1..] == [Scalar("7")] && ITEMS[1..][1..] == []
    ensures Aligned(Obj(ITEM), "M", mayKeep) && !Aligned(Arr(ITEMS), "M", mayKeep)
  {
    assert OccursAt("M", "M", 0);
    OneLetter("c", "M");
    OneLetter("d", "M");
    hide Contains;
    assert ITEM[1..] == [] && ITEMS[1..] == [Scalar("7")];
    assert Healed(Str("M"), "M") && FieldsLeave(LEFT, "M") && Leaves(Obj(LEFT), "M");
    assert FieldsAligned(LEFT, "M", mayKeep) && Aligned(Obj(LEFT), "M", mayKeep);
    assert FieldsBlind(ITEM[1..], "M", mayKeep) && FieldsAligned(ITEM[1..], "M", mayKeep);
    assert FieldsAligned(ITEM, "M", mayKeep) && Leaves(Obj(ITEM), "M");
    assert !ItemsOver(ITEMS[1..], "M") && !ItemsOver(ITEMS, "M");
  }

  lemma LeftWalk(c: Config)
    requires c.marker == "M"
    ensures var o := CleanWalk(c, Obj(LEFT), Walk(["c"], false));
            o.result.Ok? ==> o.walk.path == if ["c"] in c.args || ["c"] in c.contents then ["c"] else ["c", "d"]
  {
    ItemShape(MayKeep(c));
    hide Contains;
    assert ["c"] + ["d"] == ["c", "d"];
  }

  /** The item either leaves nothing, or leaves "c" when "c" is not a special path. */
  lemma ItemLeft(c: Config)
    requires c.marker == "M" && [] !in c.args && [] !in c.contents
    ensures var o := CleanWalk(c, Obj(ITEM), Walk([], false));
            o.result.Ok? ==> o.walk.path == [] || (o.walk.path == ["c"] && ["c"] !in c.args && ["c"] !in c.contents)
  {
    ItemShape(MayKeep(c));
    hide Contains, CleanWalk, SetField;
    LeftWalk(c);
    assert [] + ["c"] == ["c"] && Pop(["c"]) == [] && Pop(["c", "d"]) == ["c"];
    WalkStep(c, ITEM, [], Walk([], false));
    WalkObject(c, ITEM, Walk([], false));
  }

  /**
    Arrays must be in order for the "only if" of SharedPathExact: here a leftover key is on the path
    of a later item, but only the path that would make a difference there would also keep the key
    from being left. The walk agrees with the specification under every set of paths.
   */
  lemma ArrayLeftoverUnseen(c: Config)
    requires c.marker == "M"
    ensures !Aligned(Arr(ITEMS), "M", MayKeep(c)) && AgreesAtRoot(c, Arr(ITEMS))
  {
    hide Contains;
    var w := Walk([], false);
    ItemShape(MayKeep(c));
    if [] !in c.args && [] !in c.contents {
      SharedPathRefinesSpec(c, Obj(ITEM), w);
      ItemLeft(c);
      var o := CleanWalk(c, Obj(ITEM), w);
      if o.result.Ok? {
        var acc := [] + [o.result.value];
        assert CleanWalk(c, Scalar("7"), o.walk) == Outcome(Ok(Scalar("7")), o.walk);
        assert ItemsWalk(c, ITEMS[1..], acc, o.walk) == Outcome(Ok(Arr(acc + [Scalar("7")])), o.walk);
        assert CleanSpec(c, Scalar("7"), []) == Ok(Cleaned(Scalar("7"), false));
        assert ItemsSpec(c, ITEMS[1..], acc, []) == Ok(Cleaned(Arr(acc + [Scalar("7")]), false));
        assert ItemsWalk(c, ITEMS, [], w) == ItemsWalk(c, ITEMS[1..], acc, o.walk);
      } else {
        assert ItemsWalk(c, ITEMS, [], w) == o;
      }
      assert CleanWalk(c, Arr(ITEMS), w) == ItemsWalk(c, ITEMS, [], w);
      assert CleanSpec(c, Arr(ITEMS), []) == ItemsSpec(c, ITEMS, [], []);
    }
  }
}
