/**
  Cleaning a healed JSON value: truncated keys and strings are dropped, chosen subtrees are dumped
  to text and cut where the healing marker begins. The program walks the value with one shared
  path that it pushes and pops; the specification passes each child its own path.
 */
module JsonCleanup {
  import opened Wrappers
  import opened Strings

  datatype Json = Scalar(text: string) | Str(s: string) | Arr(items: seq<Json>) | Obj(fields: seq<Field>)
  datatype Field = Field(key: string, value: Json)

  type Path = seq<string>

  datatype Healing = Healing(marker: string, dumpMarker: string)

  /** What the cleaner reads; `dump` is the JSON printer. */
  datatype Config = Config(args: seq<Path>, contents: seq<Path>, marker: string, healing: Healing,
                           isPartial: bool, dump: Json -> string)

  datatype JsonError = ContentNotString

  predicate Contains(s: string, marker: string) {
    Find(s, marker, 0).Some?
  }

  /** `obj[key] = value`: replaces the field, or appends it. */
  function SetField(fields: seq<Field>, key: string, value: Json): seq<Field> {
    if fields == [] then [Field(key, value)]
    else if fields[0].key == key then [Field(key, value)] + fields[1..]
    else [fields[0]] + SetField(fields[1..], key, value)
  }

  /** The dumped subtree, cut where healing began; the flag says whether it was cut. */
  function DumpArguments(c: Config, j: Json): (string, bool) {
    var arguments := c.dump(j);
    if c.isPartial && c.healing.marker != "" then
      var idx := Find(arguments, c.healing.dumpMarker, 0);
      var kept := if idx.Some? then arguments[..idx.value] else arguments;
      (if kept == "\"" then "" else kept, idx.Some?)
    else (arguments, false)
  }

  /** A content string, cut before the marker. */
  function CutContent(c: Config, s: string): (string, bool) {
    var idx := Find(s, c.healing.marker, 0);
    if idx.Some? then (s[..idx.value], true) else (s, false)
  }

  // ---------------------------------------------------------------- specification: exact paths

  datatype Cleaned = Cleaned(json: Json, found: bool)

  function CleanSpec(c: Config, j: Json, path: Path): (r: Result<Cleaned, JsonError>)
    decreases j
  {
    if path in c.args then
      var (text, cut) := DumpArguments(c, j);
      Ok(Cleaned(Str(text), cut))
    else if path in c.contents then
      if !j.Str? then Err(ContentNotString)
      else
        var (text, cut) := CutContent(c, j.s);
        Ok(Cleaned(Str(text), cut))
    else
      match j
      case Obj(fields) => FieldsSpec(c, fields, [], path)
      case Arr(items) => ItemsSpec(c, items, [], path)
      case _ => Ok(Cleaned(j, false))
  }

  function FieldsSpec(c: Config, fields: seq<Field>, acc: seq<Field>, path: Path): (r: Result<Cleaned, JsonError>)
    decreases fields
  {
    if fields == [] then Ok(Cleaned(Obj(acc), false))
    else
      var key, value := fields[0].key, fields[0].value;
      if Contains(key, c.marker) then Ok(Cleaned(Obj(acc), true))
      else if value.Str? && Contains(value.s, c.marker) then
        if path + [key] in c.contents && c.healing.marker == c.healing.dumpMarker then
          var v :- CleanSpec(c, value, path + [key]);
          Ok(Cleaned(Obj(SetField(acc, key, v.json)), true))
        else Ok(Cleaned(Obj(acc), true))
      else if value.Str? then FieldsSpec(c, fields[1..], SetField(acc, key, value), path)
      else
        var v :- CleanSpec(c, value, path + [key]);
        var rest :- FieldsSpec(c, fields[1..], SetField(acc, key, v.json), path);
        Ok(Cleaned(rest.json, v.found || rest.found))
  }

  function ItemsSpec(c: Config, items: seq<Json>, acc: seq<Json>, path: Path): (r: Result<Cleaned, JsonError>)
    decreases items
  {
    if items == [] then Ok(Cleaned(Arr(acc), false))
    else if items[0].Str? && Contains(items[0].s, c.marker) then Ok(Cleaned(Arr(acc), true))
    else
      var v :- CleanSpec(c, items[0], path);
      var rest :- ItemsSpec(c, items[1..], acc + [v.json], path);
      Ok(Cleaned(rest.json, v.found || rest.found))
  }

  // ---------------------------------------------------------------- the shared path, step by step

  /** The walk's variables, and what a call returns or throws. */
  datatype Walk = Walk(path: Path, found: bool)
  datatype Outcome = Outcome(result: Result<Json, JsonError>, walk: Walk)

  function Pop(path: Path): Path {
    if path == [] then [] else path[..|path| - 1]
  }

  function CleanWalk(c: Config, j: Json, w: Walk): (o: Outcome)
    ensures |w.path| <= |o.walk.path|
    decreases j
  {
    if w.path in c.args then
      var (text, cut) := DumpArguments(c, j);
      Outcome(Ok(Str(text)), Walk(w.path, w.found || cut))
    else if w.path in c.contents then
      if !j.Str? then Outcome(Err(ContentNotString), w)
      else
        var (text, cut) := CutContent(c, j.s);
        Outcome(Ok(Str(text)), Walk(w.path, w.found || cut))
    else
      match j
      case Obj(fields) => FieldsWalk(c, fields, [], w)
      case Arr(items) => ItemsWalk(c, items, [], w)
      case _ => Outcome(Ok(j), w)
  }

  function FieldsWalk(c: Config, fields: seq<Field>, acc: seq<Field>, w: Walk): (o: Outcome)
    ensures |w.path| <= |o.walk.path|
    decreases fields
  {
    if fields == [] then Outcome(Ok(Obj(acc)), w)
    else
      var key, value := fields[0].key, fields[0].value;
      if Contains(key, c.marker) then Outcome(Ok(Obj(acc)), Walk(w.path, true))
      else
        var inner := w.path + [key];
        if value.Str? && Contains(value.s, c.marker) then
          // the loop is left with the key still pushed
          if inner in c.contents && c.healing.marker == c.healing.dumpMarker then
            var o := CleanWalk(c, value, Walk(inner, true));
            if o.result.Err? then o else Outcome(Ok(Obj(SetField(acc, key, o.result.value))), o.walk)
          else Outcome(Ok(Obj(acc)), Walk(inner, true))
        else if value.Str? then FieldsWalk(c, fields[1..], SetField(acc, key, value), w)
        else
          var o := CleanWalk(c, value, Walk(inner, w.found));
          if o.result.Err? then o
          else FieldsWalk(c, fields[1..], SetField(acc, key, o.result.value), Walk(Pop(o.walk.path), o.walk.found))
  }

  function ItemsWalk(c: Config, items: seq<Json>, acc: seq<Json>, w: Walk): (o: Outcome)
    ensures |w.path| <= |o.walk.path|
    decreases items
  {
    if items == [] then Outcome(Ok(Arr(acc)), w)
    else if items[0].Str? && Contains(items[0].s, c.marker) then Outcome(Ok(Arr(acc)), Walk(w.path, true))
    else
      var o := CleanWalk(c, items[0], w);
      if o.result.Err? then o else ItemsWalk(c, items[1..], acc + [o.result.value], o.walk)
  }

  class Cleaner {
    const c: Config
    var path: Path
    var found: bool

    constructor (c: Config)
      ensures this.c == c && path == [] && !found
    {
      this.c, path, found := c, [], false;
    }

    /** The recursive cleaner; path and found are shared by all the calls. */
    method Clean(j: Json) returns (r: Result<Json, JsonError>)
      modifies this
      ensures CleanWalk(c, j, old(Walk(path, found))) == Outcome(r, Walk(path, found))
      decreases j, 1
    {
      if path in c.args {
        var (text, cut) := DumpArguments(c, j);
        found := found || cut;
        return Ok(Str(text));
      }
      if path in c.contents {
        if !j.Str? {
          return Err(ContentNotString);
        }
        var idx := Find(j.s, c.healing.marker, 0);
        if idx.Some? {
          found := true;
          return Ok(Str(j.s[..idx.value]));
        }
        return Ok(j);
      }
      match j {
        case Obj(fields) => r := CleanObject(j);
        case Arr(items) => r := CleanArray(j);
        case _ => r := Ok(j);
      }
    }

    method CleanObject(j: Json) returns (r: Result<Json, JsonError>)
      requires j.Obj?
      modifies this
      ensures FieldsWalk(c, j.fields, [], old(Walk(path, found))) == Outcome(r, Walk(path, found))
      decreases j, 0
    {
      var obj: seq<Field> := [];
      ghost var whole := FieldsWalk(c, j.fields, [], Walk(path, found));
      var i := 0;
      while i < |j.fields|
        invariant i <= |j.fields|
        invariant FieldsWalk(c, j.fields[i..], obj, Walk(path, found)) == whole
      {
        var key, value := j.fields[i].key, j.fields[i].value;
        assert j.fields[i..][1..] == j.fields[i + 1..];
        if Contains(key, c.marker) {
          found := true;
          break;
        }
        path := path + [key];
        if value.Str? {
          if Contains(value.s, c.marker) {
            found := true;
            if path in c.contents && c.healing.marker == c.healing.dumpMarker {
              var v := Clean(value);
              if v.Err? {
                return v;
              }
              obj := SetField(obj, key, v.value);
            }
            break;
          }
          obj := SetField(obj, key, value);
        } else {
          var v := Clean(value);
          if v.Err? {
            return v;
          }
          obj := SetField(obj, key, v.value);
        }
        path := path[..|path| - 1];
        i := i + 1;
      }
      return Ok(Obj(obj));
    }

    method CleanArray(j: Json) returns (r: Result<Json, JsonError>)
      requires j.Arr?
      modifies this
      ensures ItemsWalk(c, j.items, [], old(Walk(path, found))) == Outcome(r, Walk(path, found))
      decreases j, 0
    {
      var arr: seq<Json> := [];
      ghost var whole := ItemsWalk(c, j.items, [], Walk(path, found));
      var i := 0;
      while i < |j.items|
        invariant i <= |j.items|
        invariant ItemsWalk(c, j.items[i..], arr, Walk(path, found)) == whole
      {
        var value := j.items[i];
        assert j.items[i..][1..] == j.items[i + 1..];
        if value.Str? && Contains(value.s, c.marker) {
          found := true;
          break;
        }
        var v := Clean(value);
        if v.Err? {
          return v;
        }
        arr := arr + [v.value];
        i := i + 1;
      }
      return Ok(Arr(arr));
    }
  }

  // ---------------------------------------------------------------- when the shared path is exact

  /** A string at which both loops stop. */
  predicate Healed(j: Json, marker: string) {
    j.Str? && Contains(j.s, marker)
  }

  /** Cleaning the value key by key ends with a key still pushed: some loop in it stopped at a healed string field. */
  predicate Leaves(j: Json, marker: string)
    decreases j
  {
    match j
    case Obj(fields) => FieldsLeave(fields, marker)
    case Arr(items) => ItemsLeave(items, marker)
    case _ => false
  }

  predicate FieldsLeave(fields: seq<Field>, marker: string)
    decreases fields
  {
    && fields != [] && !Contains(fields[0].key, marker)
    && (Healed(fields[0].value, marker) || Leaves(fields[0].value, marker) || FieldsLeave(fields[1..], marker))
  }

  predicate ItemsLeave(items: seq<Json>, marker: string)
    decreases items
  {
    && items != [] && !Healed(items[0], marker)
    && (Leaves(items[0], marker) || ItemsLeave(items[1..], marker))
  }

  /** A healed string is kept on a content path only if nothing but the string was healed. */
  predicate MayKeep(c: Config) {
    c.healing.marker == c.healing.dumpMarker
  }

  /** What is still processed of an object does not look at the path: complete strings, or a stop that keeps nothing. */
  predicate FieldsBlind(fields: seq<Field>, marker: string, mayKeep: bool)
    decreases fields
  {
    || fields == [] || Contains(fields[0].key, marker)
    || (fields[0].value.Str?
        && if Healed(fields[0].value, marker) then !mayKeep else FieldsBlind(fields[1..], marker, mayKeep))
  }

  /** Nothing is still processed of an array. */
  predicate ItemsOver(items: seq<Json>, marker: string) {
    items == [] || Healed(items[0], marker)
  }

  /** No child that leaves a key pushed is followed by a sibling that is still processed and looks at the path. */
  predicate Aligned(j: Json, marker: string, mayKeep: bool)
    decreases j
  {
    match j
    case Obj(fields) => FieldsAligned(fields, marker, mayKeep)
    case Arr(items) => ItemsAligned(items, marker, mayKeep)
    case _ => true
  }

  predicate FieldsAligned(fields: seq<Field>, marker: string, mayKeep: bool)
    decreases fields
  {
    || fields == [] || Contains(fields[0].key, marker) || Healed(fields[0].value, marker)
    || (&& FieldsAligned(fields[1..], marker, mayKeep)
        && Aligned(fields[0].value, marker, mayKeep)
        && (Leaves(fields[0].value, marker) ==> FieldsBlind(fields[1..], marker, mayKeep)))
  }

  predicate ItemsAligned(items: seq<Json>, marker: string, mayKeep: bool)
    decreases items
  {
    || ItemsOver(items, marker)
    || (&& ItemsAligned(items[1..], marker, mayKeep)
        && Aligned(items[0], marker, mayKeep)
        && (Leaves(items[0], marker) ==> ItemsOver(items[1..], marker)))
  }

  /** The walk returned what the specification returns, ignoring where it left the path. */
  ghost predicate Agrees(o: Outcome, r: Result<Cleaned, JsonError>, w: Walk) {
    match r
    case Ok(v) => o.result == Ok(v.json) && o.walk.found == (w.found || v.found)
    case Err(e) => o.result == Err(e)
  }

  /**
    Where no leftover key is looked at, the walk with one shared path returns the tree, the flag
    and the errors of the recursion that gives each child its own path, for every set of paths;
    and a value that leaves no key leaves the path as it found it.
   */
  lemma {:induction false} SharedPathRefinesSpec(c: Config, j: Json, w: Walk)
    requires Aligned(j, c.marker, MayKeep(c))
    ensures Agrees(CleanWalk(c, j, w), CleanSpec(c, j, w.path), w)
    ensures CleanWalk(c, j, w).result.Ok? && !Leaves(j, c.marker) ==> CleanWalk(c, j, w).walk.path == w.path
    decreases j
  {
    if w.path !in c.args && w.path !in c.contents {
      match j
      case Obj(fields) => AlignedFields(c, fields, [], w);
      case Arr(items) => AlignedItems(c, items, [], w);
      case _ =>
    }
  }

  lemma {:induction false} AlignedFields(c: Config, fields: seq<Field>, acc: seq<Field>, w: Walk)
    requires FieldsAligned(fields, c.marker, MayKeep(c))
    ensures Agrees(FieldsWalk(c, fields, acc, w), FieldsSpec(c, fields, acc, w.path), w)
    ensures FieldsWalk(c, fields, acc, w).result.Ok? && !FieldsLeave(fields, c.marker) ==>
              FieldsWalk(c, fields, acc, w).walk.path == w.path
    decreases fields
  {
    if fields != [] && !Contains(fields[0].key, c.marker) && !Healed(fields[0].value, c.marker) {
      var key, value := fields[0].key, fields[0].value;
      if value.Str? {
        AlignedFields(c, fields[1..], SetField(acc, key, value), w);
      } else {
        var inner := Walk(w.path + [key], w.found);
        SharedPathRefinesSpec(c, value, inner);
        var o := CleanWalk(c, value, inner);
        if o.result.Ok? {
          var next := Walk(Pop(o.walk.path), o.walk.found);
          if Leaves(value, c.marker) {
            BlindFields(c, fields[1..], SetField(acc, key, o.result.value), next, w.path);
          } else {
            assert next.path == w.path;
            AlignedFields(c, fields[1..], SetField(acc, key, o.result.value), next);
          }
        }
      }
    }
  }

  /** Fields that do not look at the path read the same under any. */
  lemma {:induction false} BlindFields(c: Config, fields: seq<Field>, acc: seq<Field>, w: Walk, path: Path)
    requires FieldsBlind(fields, c.marker, MayKeep(c))
    ensures Agrees(FieldsWalk(c, fields, acc, w), FieldsSpec(c, fields, acc, path), w)
    decreases fields
  {
    if fields != [] && !Contains(fields[0].key, c.marker) && !Healed(fields[0].value, c.marker) {
      BlindFields(c, fields[1..], SetField(acc, fields[0].key, fields[0].value), w, path);
    }
  }

  lemma {:induction false} AlignedItems(c: Config, items: seq<Json>, acc: seq<Json>, w: Walk)
    requires ItemsAligned(items, c.marker, MayKeep(c))
    ensures Agrees(ItemsWalk(c, items, acc, w), ItemsSpec(c, items, acc, w.path), w)
    ensures ItemsWalk(c, items, acc, w).result.Ok? && !ItemsLeave(items, c.marker) ==>
              ItemsWalk(c, items, acc, w).walk.path == w.path
    decreases items
  {
    if !ItemsOver(items, c.marker) {
      SharedPathRefinesSpec(c, items[0], w);
      var o := CleanWalk(c, items[0], w);
      if o.result.Ok? {
        if Leaves(items[0], c.marker) {
          var acc' := acc + [o.result.value];
          assert items[1..] == [] || Healed(items[1..][0], c.marker);
          assert ItemsWalk(c, items[1..], acc', o.walk).result == Ok(Arr(acc'));
          assert ItemsSpec(c, items[1..], acc', w.path).Ok?;
        } else {
          AlignedItems(c, items[1..], acc + [o.result.value], o.walk);
        }
      }
    }
  }

  // ---------------------------------------------------------------- the rightmost spine

  /** No key and no string of the value contains the marker. */
  ghost predicate MarkerFree(j: Json, marker: string) {
    match j
    case Scalar(_) => true
    case Str(s) => !Contains(s, marker)
    case Arr(items) => forall i :: 0 <= i < |items| ==> MarkerFree(items[i], marker)
    case Obj(fields) => forall i :: 0 <= i < |fields| ==>
                          !Contains(fields[i].key, marker) && MarkerFree(fields[i].value, marker)
  }

  /** The marker occurs, if at all, only along the last child at every level. */
  ghost predicate OnSpine(j: Json, marker: string) {
    match j
    case Arr(items) => ItemsOnSpine(items, marker)
    case Obj(fields) => FieldsOnSpine(fields, marker)
    case _ => true
  }

  ghost predicate ItemsOnSpine(items: seq<Json>, marker: string) {
    items != [] ==>
      if |items| == 1 then OnSpine(items[0], marker)
      else MarkerFree(items[0], marker) && ItemsOnSpine(items[1..], marker)
  }

  ghost predicate FieldsOnSpine(fields: seq<Field>, marker: string) {
    fields != [] ==>
      if |fields| == 1 then OnSpine(fields[0].value, marker)
      else !Contains(fields[0].key, marker) && MarkerFree(fields[0].value, marker) && FieldsOnSpine(fields[1..], marker)
  }

  lemma {:induction false} FreeIsAligned(j: Json, marker: string, mayKeep: bool)
    requires MarkerFree(j, marker)
    ensures Aligned(j, marker, mayKeep) && !Leaves(j, marker)
    decreases j
  {
    match j
    case Obj(fields) => FreeFieldsAligned(fields, marker, mayKeep);
    case Arr(items) => FreeItemsAligned(items, marker, mayKeep);
    case _ =>
  }

  lemma {:induction false} FreeFieldsAligned(fields: seq<Field>, marker: string, mayKeep: bool)
    requires forall i :: 0 <= i < |fields| ==> !Contains(fields[i].key, marker) && MarkerFree(fields[i].value, marker)
    ensures FieldsAligned(fields, marker, mayKeep) && !FieldsLeave(fields, marker)
    decreases fields
  {
    if fields != [] {
      FreeIsAligned(fields[0].value, marker, mayKeep);
      FreeFieldsAligned(fields[1..], marker, mayKeep);
    }
  }

  lemma {:induction false} FreeItemsAligned(items: seq<Json>, marker: string, mayKeep: bool)
    requires forall i :: 0 <= i < |items| ==> MarkerFree(items[i], marker)
    ensures ItemsAligned(items, marker, mayKeep) && !ItemsLeave(items, marker)
    decreases items
  {
    if items != [] {
      FreeIsAligned(items[0], marker, mayKeep);
      FreeItemsAligned(items[1..], marker, mayKeep);
    }
  }

  /** On the rightmost spine nothing follows what leaves a key. */
  lemma {:induction false} SpineIsAligned(j: Json, marker: string, mayKeep: bool)
    requires OnSpine(j, marker)
    ensures Aligned(j, marker, mayKeep)
    decreases j
  {
    match j
    case Obj(fields) => SpineFieldsAligned(fields, marker, mayKeep);
    case Arr(items) => SpineItemsAligned(items, marker, mayKeep);
    case _ =>
  }

  lemma {:induction false} SpineFieldsAligned(fields: seq<Field>, marker: string, mayKeep: bool)
    requires FieldsOnSpine(fields, marker)
    ensures FieldsAligned(fields, marker, mayKeep)
    decreases fields
  {
    if fields != [] {
      if |fields| == 1 {
        SpineIsAligned(fields[0].value, marker, mayKeep);
        assert FieldsAligned(fields[1..], marker, mayKeep) && FieldsBlind(fields[1..], marker, mayKeep);
      } else {
        FreeIsAligned(fields[0].value, marker, mayKeep);
        SpineFieldsAligned(fields[1..], marker, mayKeep);
      }
    }
  }

  lemma {:induction false} SpineItemsAligned(items: seq<Json>, marker: string, mayKeep: bool)
    requires ItemsOnSpine(items, marker)
    ensures ItemsAligned(items, marker, mayKeep)
    decreases items
  {
    if items != [] {
      if |items| == 1 {
        SpineIsAligned(items[0], marker, mayKeep);
        assert ItemsOver(items[1..], marker);
      } else {
        FreeIsAligned(items[0], marker, mayKeep);
        SpineItemsAligned(items[1..], marker, mayKeep);
      }
    }
  }

  // ---------------------------------------------------------------- the marker is gone

  /** Outside dumped subtrees, no key and no string contains the marker; content paths hold strings. */
  ghost predicate Purged(c: Config, j: Json, path: Path)
    decreases j
  {
    if path in c.args then j.Str? && DumpPurged(c, j.s)
    else
      match j
      case Scalar(_) => path !in c.contents
      case Str(s) => !Contains(s, c.marker)
      case Arr(items) => path !in c.contents && forall i :: 0 <= i < |items| ==> Purged(c, items[i], path)
      case Obj(fields) => path !in c.contents && PurgedFields(c, fields, path)
  }

  /** In a partial read, a dumped text does not contain the marker as it is dumped, which the marker is part of. */
  predicate DumpPurged(c: Config, s: string) {
    c.isPartial && Contains(c.healing.dumpMarker, c.marker) ==> !Contains(s, c.healing.dumpMarker)
  }

  ghost predicate PurgedFields(c: Config, fields: seq<Field>, path: Path)
    decreases fields
  {
    forall i :: 0 <= i < |fields| ==> !Contains(fields[i].key, c.marker) && PurgedValue(c, fields[i], path)
  }

  /** A field's own value; a complete string is kept wherever it stands. */
  ghost predicate PurgedValue(c: Config, f: Field, path: Path)
    decreases f
  {
    Purged(c, f.value, path + [f.key])
  }

  lemma CutHasNoMarker(s: string, marker: string)
    requires marker != "" && Find(s, marker, 0).Some?
    ensures !Contains(s[..Find(s, marker, 0).value], marker)
  {
    var e := Find(s, marker, 0).value;
    var cut := Find(s[..e], marker, 0);
    if cut.Some? {
      OccursInLonger(s[..e], s, marker, cut.value);
    }
  }

  lemma DumpIsPurged(c: Config, j: Json)
    requires c.marker != "" && c.healing.marker == c.marker
    ensures DumpPurged(c, DumpArguments(c, j).0)
  {
    hide Find;
    if c.isPartial && Contains(c.healing.dumpMarker, c.marker) {
      NotEmpty(c.healing.dumpMarker, c.marker);
      LongerThanQuote("", c.healing.dumpMarker);
      if Find(c.dump(j), c.healing.dumpMarker, 0).Some? {
        CutHasNoMarker(c.dump(j), c.healing.dumpMarker);
      }
    }
  }

  lemma NotEmpty(s: string, marker: string)
    requires marker != "" && Contains(s, marker)
    ensures s != ""
  {
  }

  lemma LongerThanQuote(s: string, marker: string)
    requires s == "" && marker != ""
    ensures !Contains(s, marker)
  {
  }

  /** A string without the marker has nothing that contains it either. */
  lemma KeptIsPurged(c: Config, s: string)
    requires !Contains(s, c.marker)
    ensures DumpPurged(c, s)
  {
    hide Find;
    if Contains(c.healing.dumpMarker, c.marker) && Contains(s, c.healing.dumpMarker) {
      var i, k := Find(s, c.healing.dumpMarker, 0).value, Find(c.healing.dumpMarker, c.marker, 0).value;
      OccursShift(s, i, i + |c.healing.dumpMarker|, c.marker, k);
    }
  }

  lemma {:induction false} SetFieldPurged(c: Config, acc: seq<Field>, key: string, value: Json, path: Path)
    requires PurgedFields(c, acc, path) && !Contains(key, c.marker) && PurgedValue(c, Field(key, value), path)
    ensures PurgedFields(c, SetField(acc, key, value), path)
  {
    if acc != [] && acc[0].key != key {
      SetFieldPurged(c, acc[1..], key, value, path);
    }
  }

  /** A value that the loops do not filter out beforehand. */
  ghost predicate Reachable(c: Config, j: Json, path: Path) {
    j.Str? && Contains(j.s, c.marker) ==> path in c.args || path in c.contents
  }

  /**
    With a non-empty marker, nothing in a cleaned value contains it outside the dumped texts, and
    these do not contain it as it is dumped: in particular for every object or array at the root.
   */
  lemma {:induction false} CleanedIsPurged(c: Config, j: Json, path: Path)
    requires c.marker != "" && c.healing.marker == c.marker && Reachable(c, j, path)
    requires CleanSpec(c, j, path).Ok?
    ensures Purged(c, CleanSpec(c, j, path).value.json, path)
    decreases j
  {
    if path in c.args {
      DumpIsPurged(c, j);
    } else {
      if path in c.contents {
        if Find(j.s, c.marker, 0).Some? {
          CutHasNoMarker(j.s, c.marker);
        }
      } else {
        match j
        case Obj(fields) => CleanedFields(c, fields, [], path);
        case Arr(items) => CleanedItems(c, items, [], path);
        case _ =>
      }
    }
  }

  lemma {:induction false} CleanedFields(c: Config, fields: seq<Field>, acc: seq<Field>, path: Path)
    requires c.marker != "" && c.healing.marker == c.marker && path !in c.args && path !in c.contents
    requires PurgedFields(c, acc, path) && FieldsSpec(c, fields, acc, path).Ok?
    ensures Purged(c, FieldsSpec(c, fields, acc, path).value.json, path)
    decreases fields
  {
    if fields != [] && !Contains(fields[0].key, c.marker) {
      var key, value := fields[0].key, fields[0].value;
      var inner := path + [key];
      if value.Str? && Contains(value.s, c.marker) {
        if inner in c.contents && c.healing.marker == c.healing.dumpMarker {
          CleanedIsPurged(c, value, inner);
          SetFieldPurged(c, acc, key, CleanSpec(c, value, inner).value.json, path);
        }
      } else if value.Str? {
        KeptIsPurged(c, value.s);
        SetFieldPurged(c, acc, key, value, path);
        CleanedFields(c, fields[1..], SetField(acc, key, value), path);
      } else {
        CleanedIsPurged(c, value, inner);
        var v := CleanSpec(c, value, inner).value.json;
        SetFieldPurged(c, acc, key, v, path);
        CleanedFields(c, fields[1..], SetField(acc, key, v), path);
      }
    }
  }

  lemma {:induction false} CleanedItems(c: Config, items: seq<Json>, acc: seq<Json>, path: Path)
    requires c.marker != "" && c.healing.marker == c.marker && path !in c.args && path !in c.contents
    requires (forall i :: 0 <= i < |acc| ==> Purged(c, acc[i], path)) && ItemsSpec(c, items, acc, path).Ok?
    ensures Purged(c, ItemsSpec(c, items, acc, path).value.json, path)
    decreases items
  {
    if items != [] && !(items[0].Str? && Contains(items[0].s, c.marker)) {
      CleanedIsPurged(c, items[0], path);
      CleanedItems(c, items[1..], acc + [CleanSpec(c, items[0], path).value.json], path);
    }
  }

  // ---------------------------------------------------------------- what happens to a healed string

  /** Fields at which the loop over an object does not stop. */
  ghost predicate NoneHealed(fields: seq<Field>, marker: string) {
    forall i :: 0 <= i < |fields| ==> !Contains(fields[i].key, marker) && !Healed(fields[i].value, marker)
  }

  /**
    What remains of a healed string field: on a content path it is cut exactly before the marker,
    or dumped and the dump cut if the path is also a dumped one; on any other path it is dropped.
   */
  function CutField(c: Config, kept: seq<Field>, last: Field, path: Path): seq<Field>
    requires Healed(last.value, c.marker)
  {
    var inner := path + [last.key];
    if inner !in c.contents || !MayKeep(c) then kept
    else if inner in c.args then SetField(kept, last.key, Str(DumpArguments(c, last.value).0))
    else SetField(kept, last.key, Str(last.value.s[..Find(last.value.s, c.marker, 0).value]))
  }

  /**
    The first healed string value ends its object: at a content path it is kept as CutField says;
    elsewhere, dumped paths included, or when more than the string was healed, it is dropped with
    its key. The fields before it may be anything, and are what they are on their own.
   */
  lemma {:induction false} TruncatedField(c: Config, before: seq<Field>, last: Field, after: seq<Field>,
                                          acc: seq<Field>, path: Path)
    requires NoneHealed(before, c.marker) && !Contains(last.key, c.marker) && Healed(last.value, c.marker)
    requires c.healing.marker == c.marker
    ensures match FieldsSpec(c, before, acc, path)
            case Err(e) => FieldsSpec(c, before + [last] + after, acc, path) == Err(e)
            case Ok(v) =>
              && v.json.Obj?
              && FieldsSpec(c, before + [last] + after, acc, path)
                 == Ok(Cleaned(Obj(CutField(c, v.json.fields, last, path)), true))
    decreases before
  {
    var fields := before + [last] + after;
    if before == [] {
      assert fields[0] == last;
    } else {
      var key, value := before[0].key, before[0].value;
      assert fields[0] == before[0] && fields[1..] == before[1..] + [last] + after;
      if value.Str? {
        TruncatedField(c, before[1..], last, after, SetField(acc, key, value), path);
      } else {
        var v := CleanSpec(c, value, path + [key]);
        if v.Ok? {
          TruncatedField(c, before[1..], last, after, SetField(acc, key, v.value.json), path);
        }
      }
    }
  }

  /** The same of the loop with the shared path, whatever path the fields before it have left. */
  lemma {:induction false} TruncatedFieldWalk(c: Config, before: seq<Field>, last: Field, after: seq<Field>,
                                              acc: seq<Field>, w: Walk)
    requires NoneHealed(before, c.marker) && !Contains(last.key, c.marker) && Healed(last.value, c.marker)
    requires c.healing.marker == c.marker
    ensures var o := FieldsWalk(c, before, acc, w);
            var r := FieldsWalk(c, before + [last] + after, acc, w);
            && (o.result.Err? ==> r == o)
            && (o.result.Ok? ==>
                  && o.result.value.Obj?
                  && r == Outcome(Ok(Obj(CutField(c, o.result.value.fields, last, o.walk.path))),
                                  Walk(o.walk.path + [last.key], true)))
    decreases before
  {
    var fields := before + [last] + after;
    if before == [] {
      assert fields[0] == last;
    } else {
      var key, value := before[0].key, before[0].value;
      assert fields[0] == before[0] && fields[1..] == before[1..] + [last] + after;
      if value.Str? {
        TruncatedFieldWalk(c, before[1..], last, after, SetField(acc, key, value), w);
      } else {
        var v := CleanWalk(c, value, Walk(w.path + [key], w.found));
        if v.result.Ok? {
          TruncatedFieldWalk(c, before[1..], last, after, SetField(acc, key, v.result.value),
                             Walk(Pop(v.walk.path), v.walk.found));
        }
      }
    }
  }

  // ---------------------------------------------------------------- the whole operation

  datatype Consumed = Consumed(value: Json, isPartial: bool)

  /** try_consume_json_with_dumped_args, from the parsed value on; an empty marker means it was complete. */
  function ConsumeSpec(c: Config, json: Json): Result<Consumed, JsonError> {
    if c.healing.marker == "" && c.args == [] then Ok(Consumed(json, false))
    else if c.healing.marker == "" && [] in c.args then Ok(Consumed(Str(c.dump(json)), false))
    else
      var v :- CleanSpec(c, json, []);
      Ok(Consumed(v.json, v.found))
  }

  /** The same with the shared path. */
  function ConsumeWalk(c: Config, json: Json): Result<Consumed, JsonError> {
    if c.healing.marker == "" && c.args == [] then Ok(Consumed(json, false))
    else if c.healing.marker == "" && [] in c.args then Ok(Consumed(Str(c.dump(json)), false))
    else
      var o := CleanWalk(c, json, Walk([], false));
      match o.result
      case Err(e) => Err(e)
      case Ok(v) => Ok(Consumed(v, o.walk.found))
  }

  method TryConsumeJsonWithDumpedArgs(c: Config, json: Json) returns (r: Result<Consumed, JsonError>)
    ensures r == ConsumeWalk(c, json)
    ensures Aligned(json, c.marker, MayKeep(c)) ==> r == ConsumeSpec(c, json)
  {
    if Aligned(json, c.marker, MayKeep(c)) {
      SharedPathRefinesSpec(c, json, Walk([], false));
    }
    if c.healing.marker == "" {
      if c.args == [] {
        return Ok(Consumed(json, false));
      }
      if [] in c.args {
        return Ok(Consumed(Str(c.dump(json)), false));
      }
    }
    var cleaner := new Cleaner(c);
    var cleaned := cleaner.Clean(json);
    match cleaned
    case Err(e) => r := Err(e);
    case Ok(v) => r := Ok(Consumed(v, cleaner.found));
  }

  // ---------------------------------------------------------------- what a caller gets

  /** Nothing in what is returned contains the marker outside the dumped texts, and these not as it is dumped. */
  lemma ConsumedIsPurged(c: Config, json: Json)
    requires Aligned(json, c.marker, MayKeep(c)) && Reachable(c, json, [])
    requires c.marker != "" && c.healing.marker == c.marker && ConsumeWalk(c, json).Ok?
    ensures Purged(c, ConsumeWalk(c, json).value.value, [])
  {
    SharedPathRefinesSpec(c, json, Walk([], false));
    CleanedIsPurged(c, json, []);
  }

  /** The root string of a complete value is looked at as content, and the empty marker found at its start. */
  predicate RootEmptied(c: Config) {
    c.args != [] && [] !in c.args && [] in c.contents
  }

  /**
    A complete value, healed nowhere and so with an empty marker, is reported partial exactly when
    some path but not the root is to be dumped and the root is a content path; then the root is a
    string and comes back empty.
   */
  lemma CompleteReportedPartialIff(c: Config, json: Json)
    requires MarkerFree(json, c.marker) && c.healing.marker == "" && ConsumeWalk(c, json).Ok?
    ensures ConsumeSpec(c, json) == ConsumeWalk(c, json)
    ensures ConsumeWalk(c, json).value.isPartial <==> RootEmptied(c)
    ensures RootEmptied(c) ==> json.Str? && ConsumeWalk(c, json).value.value == Str("")
  {
    FreeIsAligned(json, c.marker, MayKeep(c));
    SharedPathRefinesSpec(c, json, Walk([], false));
    if c.args != [] && [] !in c.args {
      if [] in c.contents {
        assert OccursAt(json.s, "", 0);
      } else {
        CompleteNotFound(c, json, []);
      }
    }
  }

  /** Below the root, a complete value is never found to be healed. */
  lemma {:induction false} CompleteNotFound(c: Config, j: Json, path: Path)
    requires MarkerFree(j, c.marker) && c.healing.marker == "" && path !in c.contents
    requires CleanSpec(c, j, path).Ok?
    ensures !CleanSpec(c, j, path).value.found
    decreases j
  {
    if path !in c.args {
      match j
      case Obj(fields) => CompleteFields(c, fields, [], path);
      case Arr(items) => CompleteItems(c, items, [], path);
      case _ =>
    }
  }

  lemma {:induction false} CompleteFields(c: Config, fields: seq<Field>, acc: seq<Field>, path: Path)
    requires forall i :: 0 <= i < |fields| ==> !Contains(fields[i].key, c.marker) && MarkerFree(fields[i].value, c.marker)
    requires c.healing.marker == "" && FieldsSpec(c, fields, acc, path).Ok?
    ensures !FieldsSpec(c, fields, acc, path).value.found
    decreases fields
  {
    if fields != [] {
      var key, value := fields[0].key, fields[0].value;
      if value.Str? {
        CompleteFields(c, fields[1..], SetField(acc, key, value), path);
      } else {
        var v := CleanSpec(c, value, path + [key]).value;
        if path + [key] !in c.args {
          CompleteNotFound(c, value, path + [key]);
        }
        CompleteFields(c, fields[1..], SetField(acc, key, v.json), path);
      }
    }
  }

  lemma {:induction false} CompleteItems(c: Config, items: seq<Json>, acc: seq<Json>, path: Path)
    requires forall i :: 0 <= i < |items| ==> MarkerFree(items[i], c.marker)
    requires c.healing.marker == "" && path !in c.contents && ItemsSpec(c, items, acc, path).Ok?
    ensures !ItemsSpec(c, items, acc, path).value.found
    decreases items
  {
    if items != [] {
      CompleteNotFound(c, items[0], path);
      CompleteItems(c, items[1..], acc + [CleanSpec(c, items[0], path).value.json], path);
    }
  }
}
