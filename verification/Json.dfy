/** A decoded JSON value: a tree. An object keeps its fields in order, as a dict does. */
module JsonTrees {

  datatype Json =
    | Null
    | Bool(b: bool)
    | Int(n: int)
    | Float(x: real)
    | Str(s: string)
    | Arr(items: seq<Json>)
    | Obj(fields: Fields)

  datatype Field = Field(key: string, value: Json)

  type Fields = seq<Field>

  /** `obj.get(key)`: Null and absent are told apart with `Has`. */
  function Get(fields: Fields, key: string): Json {
    if fields == [] then Null
    else if fields[|fields| - 1].key == key then fields[|fields| - 1].value
    else Get(fields[..|fields| - 1], key)
  }

  predicate LastNamed(fields: Fields, key: string, i: int) {
    0 <= i < |fields| && fields[i].key == key && forall j :: i < j < |fields| ==> fields[j].key != key
  }

  /** The last field of the name gives the value, as in the dict it is decoded to. */
  lemma {:induction false} GetIsLast(fields: Fields, key: string, i: int)
    ensures LastNamed(fields, key, i) ==> Get(fields, key) == fields[i].value
    ensures !Has(fields, key) ==> Get(fields, key) == Null
    decreases |fields|
  {
    if fields != [] {
      var before := fields[..|fields| - 1];
      GetIsLast(before, key, i);
      assert i < |before| && LastNamed(fields, key, i) ==> LastNamed(before, key, i);
      assert Has(before, key) ==> Has(fields, key);
    }
  }

  predicate Has(fields: Fields, key: string) {
    exists i :: 0 <= i < |fields| && fields[i].key == key
  }

  /** `bool(j)` */
  predicate Truthy(j: Json) {
    match j
    case Null => false
    case Bool(b) => b
    case Int(n) => n != 0
    case Float(x) => x != 0.0
    case Str(s) => s != ""
    case Arr(items) => items != []
    case Obj(fields) => fields != []
  }

  /** Nothing else is falsy. */
  lemma TruthyWhen(j: Json)
    ensures !Truthy(j)
       <==> || j == Null || j == Bool(false) || j == Int(0) || j == Float(0.0)
            || j == Str("") || j == Arr([]) || j == Obj([])
  {
  }

  /** `list(obj.values())` */
  function Values(fields: Fields): (vs: seq<Json>)
    ensures |vs| == |fields|
  {
    if fields == [] then [] else Values(fields[..|fields| - 1]) + [fields[|fields| - 1].value]
  }

  // ---- where things stand in a tree ----------------------------------------

  function Children(j: Json): seq<Json> {
    match j
    case Arr(items) => items
    case Obj(fields) => Values(fields)
    case _ => []
  }

  /** Going down from `j` by these positions one comes to `o`, past nothing that stops the way. */
  predicate Leads(j: Json, path: seq<nat>, o: Json, stops: Json -> bool)
    decreases |path|
  {
    if path == [] then o == j
    else !stops(j) && path[0] < |Children(j)| && Leads(Children(j)[path[0]], path[1..], o, stops)
  }

  lemma {:induction false} ValuesAre(fields: Fields, i: nat)
    requires i < |fields|
    ensures Values(fields)[i] == fields[i].value
  {
    if i < |fields| - 1 {
      ValuesAre(fields[..|fields| - 1], i);
    }
  }

  /** A child of a tree is smaller. */
  lemma ChildIsSmaller(j: Json, i: nat)
    requires i < |Children(j)|
    ensures Children(j)[i] < j
  {
    if j.Obj? {
      ValuesAre(j.fields, i);
      assert j.fields[i].value < j.fields[i];
    }
  }

  lemma LeadsFurther(j: Json, i: nat, path: seq<nat>, o: Json, stops: Json -> bool)
    requires !stops(j) && i < |Children(j)| && Leads(Children(j)[i], path, o, stops)
    ensures Leads(j, [i] + path, o, stops)
  {
    assert ([i] + path)[1..] == path;
  }

  // ---- size, for worklists --------------------------------------------------

  function Size(j: Json): nat
    decreases j, 1
  {
    1 + match j
        case Arr(items) => SizeAll(items)
        case Obj(fields) => SizeFields(fields)
        case _ => 0
  }

  function SizeAll(js: seq<Json>): nat
    decreases js, 0
  {
    if js == [] then 0 else SizeAll(js[..|js| - 1]) + Size(js[|js| - 1])
  }

  /** A field counts its key as well as its value. */
  function SizeFields(fields: Fields): nat
    decreases fields, 0
  {
    if fields == [] then 0 else
      match fields[|fields| - 1]
      case Field(_, v) => SizeFields(fields[..|fields| - 1]) + 1 + Size(v)
  }

  lemma {:induction false} SizeAllConcat(a: seq<Json>, b: seq<Json>)
    ensures SizeAll(a + b) == SizeAll(a) + SizeAll(b)
    decreases |b|
  {
    if b == [] {
      assert a + b == a;
    } else {
      assert (a + b)[..|a + b| - 1] == a + b[..|b| - 1];
      SizeAllConcat(a, b[..|b| - 1]);
    }
  }

  lemma {:induction false} SizeValues(fields: Fields)
    ensures SizeAll(Values(fields)) <= SizeFields(fields)
    decreases |fields|
  {
    if fields != [] {
      var vs := Values(fields[..|fields| - 1]);
      assert (vs + [fields[|fields| - 1].value])[..|vs|] == vs;
      SizeValues(fields[..|fields| - 1]);
    }
  }
}
