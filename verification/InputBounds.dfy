/** eval/crazeeval/pricing.py: what a request's body says about its cost -- the largest
    output limit it names, and whether its size bounds the input it is billed for. */
module InputBounds {
  import opened Common
  import opened JsonTrees

  // ---- the output limit ----------------------------------------------------

  const OUTPUT_LIMIT_FIELDS: seq<string> := ["max_tokens", "max_completion_tokens", "max_output_tokens"]

  datatype Limit = Limit(tokens: nat) | BadLimit(name: string)

  /** The field names a limit that is not a positive integer. */
  predicate Unusable(j: Json) {
    !j.Null? && !(j.Int? && j.n > 0)
  }

  /** `request_max_tokens`: the largest limit any field names, else the model's maximum; a
      limit that is present but unusable is refused. */
  method RequestMaxTokens(body: Fields, default: nat) returns (r: Limit)
    ensures r.BadLimit? <==>
            exists name :: name in ["max_tokens", "max_completion_tokens", "max_output_tokens"]
                           && Get(body, name) != Null && (!Get(body, name).Int? || Get(body, name).n <= 0)
    ensures r.BadLimit? ==> r.name in OUTPUT_LIMIT_FIELDS && Unusable(Get(body, r.name))
    ensures r.Limit? ==> forall i :: 0 <= i < |OUTPUT_LIMIT_FIELDS| ==>
              (var v := Get(body, OUTPUT_LIMIT_FIELDS[i]); v.Int? ==> v.n <= r.tokens)
    ensures r.Limit? ==>
              || (exists i :: 0 <= i < |OUTPUT_LIMIT_FIELDS| && Get(body, OUTPUT_LIMIT_FIELDS[i]) == Int(r.tokens))
              || (r.tokens == default
                  && forall i :: 0 <= i < |OUTPUT_LIMIT_FIELDS| ==> Get(body, OUTPUT_LIMIT_FIELDS[i]).Null?)
  {
    var largest: nat := 0;
    var i := 0;
    while i < |OUTPUT_LIMIT_FIELDS|
      invariant 0 <= i <= |OUTPUT_LIMIT_FIELDS|
      invariant forall j :: 0 <= j < i ==> !Unusable(Get(body, OUTPUT_LIMIT_FIELDS[j]))
      invariant forall j :: 0 <= j < i ==>
                  (var v := Get(body, OUTPUT_LIMIT_FIELDS[j]); v.Int? ==> v.n <= largest)
      invariant largest == 0 ==> forall j :: 0 <= j < i ==> Get(body, OUTPUT_LIMIT_FIELDS[j]).Null?
      invariant largest > 0 ==> exists j :: 0 <= j < i && Get(body, OUTPUT_LIMIT_FIELDS[j]) == Int(largest)
    {
      var v := Get(body, OUTPUT_LIMIT_FIELDS[i]);
      if !v.Null? {
        if !v.Int? || v.n <= 0 {
          return BadLimit(OUTPUT_LIMIT_FIELDS[i]);
        }
        if largest < v.n {
          largest := v.n;
        }
      }
      i := i + 1;
    }
    assert forall name :: name in ["max_tokens", "max_completion_tokens", "max_output_tokens"] ==>
        name in OUTPUT_LIMIT_FIELDS;
    return Limit(if largest > 0 then largest else default);
  }

  // ---- input no byte count bounds ------------------------------------------

  datatype Reason =
    | HostedSearch          // mcp_servers or web_search_options
    | HostedTool            // a tool that fetches
    | BlockByReference      // a source of type url or file, or holding a file_id
    | Base64Document
    | FileReference
    | ImageByUrl
    | Unhashable            // a block's type is a list or object: the set lookup raises
    | NotIterable           // tools is a number or true: the loop over it raises

  const CALL_TYPES: set<string> := {"tool_use", "server_tool_use", "function_call", "custom_tool_call"}

  predicate IsCall(fields: Fields) {
    var t := Get(fields, "type");
    t.Str? && t.s in CALL_TYPES
  }

  predicate IsStr(j: Json, s: string) { j == Str(s) }

  predicate StartsWith(s: string, p: string) { |p| <= |s| && s[..|p|] == p }

  const FETCH_TOOL_PREFIXES: set<string> := {"web_search", "web_fetch", "file_search", "mcp"}

  predicate FetchTool(t: Json) {
    t.Obj? && Get(t.fields, "type").Str? &&
    exists p :: p in FETCH_TOOL_PREFIXES && StartsWith(Get(t.fields, "type").s, p)
  }

  /** Why one object that is no call block makes the input unbounded, if it does. */
  function ObjectReason(o: Fields): Option<Reason> {
    var t := Get(o, "type");
    var src := Get(o, "source");
    if t.Arr? || t.Obj? then Some(Unhashable)
    else if src.Obj? && (IsStr(Get(src.fields, "type"), "url") || IsStr(Get(src.fields, "type"), "file")
                         || Has(src.fields, "file_id")) then Some(BlockByReference)
    else if src.Obj? && IsStr(t, "document") && IsStr(Get(src.fields, "type"), "base64") then Some(Base64Document)
    else if IsStr(t, "file") || IsStr(t, "input_file") || IsStr(t, "container_upload") || Has(o, "file_id") then
      Some(FileReference)
    else if IsStr(t, "image_url") || IsStr(t, "input_image") then
      var named := Get(o, "image_url");
      var url := if named.Obj? then Get(named.fields, "url") else named;
      if url.Str? && StartsWith(url.s, "data:") then None else Some(ImageByUrl)
    else None
  }

  // ---- specification: every reachable object's reason ----------------------

  /** The reasons in a tree, not looking inside call blocks or flagged objects. */
  function Reasons(j: Json): set<Reason>
    decreases j, 1
  {
    match j
    case Arr(items) => ReasonsAll(items)
    case Obj(fields) =>
      if IsCall(fields) then {}
      else if ObjectReason(fields).Some? then {ObjectReason(fields).value}
      else ReasonsFields(fields)
    case _ => {}
  }

  function ReasonsAll(js: seq<Json>): set<Reason>
    decreases js, 0
  {
    if js == [] then {} else ReasonsAll(js[..|js| - 1]) + Reasons(js[|js| - 1])
  }

  function ReasonsFields(fields: Fields): set<Reason>
    decreases fields, 0
  {
    if fields == [] then {} else
      match fields[|fields| - 1]
      case Field(_, v) => ReasonsFields(fields[..|fields| - 1]) + Reasons(v)
  }

  predicate HostedSearchNamed(body: Fields) {
    Truthy(Get(body, "mcp_servers")) || !Get(body, "web_search_options").Null?
  }

  predicate ToolsRaise(tools: Json) {
    Truthy(tools) && (tools.Bool? || tools.Int? || tools.Float?)
  }

  predicate FetchToolNamed(tools: Json) {
    tools.Arr? && exists i :: 0 <= i < |tools.items| && FetchTool(tools.items[i])
  }

  function Roots(body: Fields): seq<Json> {
    [Get(body, "messages"), Get(body, "input"), Get(body, "system")]
  }

  lemma {:induction false} ReasonsAllConcat(a: seq<Json>, b: seq<Json>)
    ensures ReasonsAll(a + b) == ReasonsAll(a) + ReasonsAll(b)
    decreases |b|
  {
    if b == [] {
      assert a + b == a;
    } else {
      assert (a + b)[..|a + b| - 1] == a + b[..|b| - 1];
      ReasonsAllConcat(a, b[..|b| - 1]);
    }
  }

  lemma {:induction false} ReasonsValues(fields: Fields)
    ensures ReasonsAll(Values(fields)) == ReasonsFields(fields)
    decreases |fields|
  {
    if fields != [] {
      var vs := Values(fields[..|fields| - 1]);
      assert (vs + [fields[|fields| - 1].value])[..|vs|] == vs;
      ReasonsValues(fields[..|fields| - 1]);
    }
  }

  // ---- which objects are flagged, and where --------------------------------

  function Named(o: Fields, key: string, names: set<string>): bool {
    Get(o, key).Str? && Get(o, key).s in names
  }

  /** The URL an image block names: the string itself, or the `url` of an object. */
  predicate DataUrl(o: Fields) {
    var url := if Get(o, "image_url").Obj? then Get(Get(o, "image_url").fields, "url") else Get(o, "image_url");
    url.Str? && |url.s| >= 5 && url.s[..5] == "data:"
  }

  /** What a reason says of an object. */
  predicate Explains(o: Fields, r: Reason) {
    var src := if Get(o, "source").Obj? then Get(o, "source").fields else [];
    match r
    case Unhashable => Get(o, "type").Arr? || Get(o, "type").Obj?
    case BlockByReference => Named(src, "type", {"url", "file"}) || Has(src, "file_id")
    case Base64Document => Named(o, "type", {"document"}) && Named(src, "type", {"base64"})
    case FileReference => Named(o, "type", {"file", "input_file", "container_upload"}) || Has(o, "file_id")
    case ImageByUrl => Named(o, "type", {"image_url", "input_image"}) && !DataUrl(o)
    case _ => false
  }

  /** An object is flagged exactly when one of the reasons holds of it, and for such a one. */
  lemma FlaggedWhen(o: Fields)
    ensures ObjectReason(o).Some? <==> exists r :: Explains(o, r)
    ensures ObjectReason(o).Some? ==> Explains(o, ObjectReason(o).value)
  {
    var src := if Get(o, "source").Obj? then Get(o, "source").fields else [];
    NamedOne(o, "type", "document");
    NamedOne(src, "type", "base64");
    if ObjectReason(o).Some? {
      assert Explains(o, ObjectReason(o).value);
    }
    if r :| Explains(o, r) {
      match r
      case Unhashable =>
      case BlockByReference =>
      case Base64Document =>
      case FileReference =>
      case ImageByUrl =>
    }
  }

  lemma NamedOne(o: Fields, key: string, name: string)
    ensures Named(o, key, {name}) <==> IsStr(Get(o, key), name)
  {
  }

  /** The blocks whose fields are the model's arguments are not walked. */
  function CallBlock(): Json -> bool {
    (j: Json) => j.Obj? && Named(j.fields, "type", {"tool_use", "server_tool_use", "function_call", "custom_tool_call"})
  }

  ghost predicate Flagged(j: Json) { j.Obj? && !CallBlock()(j) && exists r :: Explains(j.fields, r) }

  /** Nothing that can be reached outside call blocks is flagged. */
  ghost predicate Clean(j: Json) { forall path, o :: Leads(j, path, o, CallBlock()) ==> !Flagged(o) }

  lemma {:induction false} ReasonsAllEmpty(js: seq<Json>)
    ensures ReasonsAll(js) == {} <==> forall i :: 0 <= i < |js| ==> Reasons(js[i]) == {}
  {
    if js != [] {
      ReasonsAllEmpty(js[..|js| - 1]);
    }
  }

  lemma ReasonsHere(j: Json)
    ensures Reasons(j) == {} <==> !Flagged(j) && (CallBlock()(j) || ReasonsAll(Children(j)) == {})
  {
    match j
    case Obj(fields) =>
      FlaggedWhen(fields);
      ReasonsValues(fields);
      assert IsCall(fields) <==> CallBlock()(j);
    case _ =>
  }

  lemma CleanHere(j: Json)
    ensures Clean(j)
       <==> !Flagged(j) && (CallBlock()(j) || forall i :: 0 <= i < |Children(j)| ==> Clean(Children(j)[i]))
  {
    if Clean(j) {
      assert Leads(j, [], j, CallBlock());
      forall i, path, o | !CallBlock()(j) && 0 <= i < |Children(j)| && Leads(Children(j)[i], path, o, CallBlock())
        ensures !Flagged(o)
      {
        LeadsFurther(j, i, path, o, CallBlock());
      }
    } else if path, o :| Leads(j, path, o, CallBlock()) && Flagged(o) {
      if path != [] {
        assert Leads(Children(j)[path[0]], path[1..], o, CallBlock());
        assert !Clean(Children(j)[path[0]]);
      }
    }
  }

  /** The reasons in a tree are those of the flagged objects reachable in it. */
  lemma {:induction false} NoReasonIffClean(j: Json)
    ensures Reasons(j) == {} <==> Clean(j)
    decreases j
  {
    ReasonsHere(j);
    CleanHere(j);
    ReasonsAllEmpty(Children(j));
    forall i | 0 <= i < |Children(j)| ensures Reasons(Children(j)[i]) == {} <==> Clean(Children(j)[i]) {
      ChildIsSmaller(j, i);
      NoReasonIffClean(Children(j)[i]);
    }
  }

  lemma RootsClean(body: Fields)
    ensures ReasonsAll(Roots(body)) == {}
       <==> Clean(Get(body, "messages")) && Clean(Get(body, "input")) && Clean(Get(body, "system"))
  {
    var roots := Roots(body);
    ReasonsAllEmpty(roots);
    NoReasonIffClean(roots[0]);
    NoReasonIffClean(roots[1]);
    NoReasonIffClean(roots[2]);
  }

  /** `unbounded_input`: the stack of values still to look at. None exactly when nothing in
      the body makes its input unbounded -- no flagged object can be reached in its messages,
      input or system -- and otherwise a reason that is there. */
  method UnboundedInput(body: Fields) returns (why: Option<Reason>)
    ensures why.None? <==>
            && !Truthy(Get(body, "mcp_servers")) && Get(body, "web_search_options").Null?
            && (var tools := Get(body, "tools");
                && (tools.Bool? || tools.Int? || tools.Float? ==> !Truthy(tools))
                && (tools.Arr? ==> forall i :: 0 <= i < |tools.items| ==> !FetchTool(tools.items[i])))
            && Clean(Get(body, "messages")) && Clean(Get(body, "input")) && Clean(Get(body, "system"))
    ensures why == Some(HostedSearch) <==> HostedSearchNamed(body)
    ensures why.Some? && why.value !in {HostedSearch, HostedTool, NotIterable} ==> why.value in ReasonsAll(Roots(body))
  {
    RootsClean(body);
    if HostedSearchNamed(body) {
      return Some(HostedSearch);
    }
    var tools := Get(body, "tools");
    if ToolsRaise(tools) {
      return Some(NotIterable);
    }
    if tools.Arr? {
      for i := 0 to |tools.items|
        invariant forall j :: 0 <= j < i ==> !FetchTool(tools.items[j])
      {
        if FetchTool(tools.items[i]) {
          return Some(HostedTool);
        }
      }
    }
    var stack := Roots(body);
    while stack != []
      invariant ReasonsAll(stack) == ReasonsAll(Roots(body))
      decreases SizeAll(stack)
    {
      var o := stack[|stack| - 1];
      assert SizeAll(stack) == SizeAll(stack[..|stack| - 1]) + Size(o);
      stack := stack[..|stack| - 1];
      match o
      case Arr(items) =>
        ReasonsAllConcat(stack, items);
        SizeAllConcat(stack, items);
        stack := stack + items;
      case Obj(fields) =>
        if IsCall(fields) {
          continue;
        }
        var reason := ObjectReason(fields);
        if reason.Some? {
          assert reason.value in Reasons(o);
          return reason;
        }
        ReasonsAllConcat(stack, Values(fields));
        SizeAllConcat(stack, Values(fields));
        ReasonsValues(fields);
        SizeValues(fields);
        stack := stack + Values(fields);
      case _ =>
    }
    return None;
  }
}

/** eval/crazeeval/keys.py: a key in any decoded string, however it was escaped. */
module JsonKeys {
  import opened JsonTrees
  import opened ByteStrings
  import opened KeyScan

  /** Some key or value string of the tree holds a key. */
  ghost predicate TreeHoldsKey(forms: seq<string>, j: Json)
    decreases j, 1
  {
    match j
    case Str(s) => HoldsKey(forms, s)
    case Arr(items) => AnyHoldsKey(forms, items)
    case Obj(fields) => FieldsHoldKey(forms, fields)
    case _ => false
  }

  ghost predicate AnyHoldsKey(forms: seq<string>, js: seq<Json>)
    decreases js, 0
  {
    js != [] && (AnyHoldsKey(forms, js[..|js| - 1]) || TreeHoldsKey(forms, js[|js| - 1]))
  }

  ghost predicate FieldsHoldKey(forms: seq<string>, fields: Fields)
    decreases fields, 0
  {
    fields != [] &&
    match fields[|fields| - 1]
    case Field(k, v) => FieldsHoldKey(forms, fields[..|fields| - 1]) || HoldsKey(forms, k) || TreeHoldsKey(forms, v)
  }

  function Nothing(): Json -> bool { (j: Json) => false }

  /** A string of its own, or a key of its own, holds a key. */
  ghost predicate HoldsKeyItself(forms: seq<string>, j: Json) {
    || (j.Str? && HoldsKey(forms, j.s))
    || (j.Obj? && exists i :: 0 <= i < |j.fields| && HoldsKey(forms, j.fields[i].key))
  }

  lemma {:induction false} AnyHoldsKeyIs(forms: seq<string>, js: seq<Json>)
    ensures AnyHoldsKey(forms, js) <==> exists i :: 0 <= i < |js| && TreeHoldsKey(forms, js[i])
  {
    if js != [] {
      AnyHoldsKeyIs(forms, js[..|js| - 1]);
    }
  }

  lemma {:induction false} FieldsHoldKeyIs(forms: seq<string>, fields: Fields)
    ensures FieldsHoldKey(forms, fields)
       <==> (exists i :: 0 <= i < |fields| && HoldsKey(forms, fields[i].key)) || AnyHoldsKey(forms, Values(fields))
  {
    if fields != [] {
      var vs := Values(fields[..|fields| - 1]);
      assert (vs + [fields[|fields| - 1].value])[..|vs|] == vs;
      FieldsHoldKeyIs(forms, fields[..|fields| - 1]);
    }
  }

  lemma HoldsKeyHere(forms: seq<string>, j: Json)
    ensures TreeHoldsKey(forms, j) <==> HoldsKeyItself(forms, j) || AnyHoldsKey(forms, Children(j))
  {
    match j
    case Obj(fields) => FieldsHoldKeyIs(forms, fields);
    case _ =>
  }

  /** Something in the tree, however deep, holds a key itself. */
  ghost predicate Somewhere(forms: seq<string>, j: Json) {
    exists path, o :: Leads(j, path, o, Nothing()) && HoldsKeyItself(forms, o)
  }

  lemma SomewhereHere(forms: seq<string>, j: Json)
    ensures Somewhere(forms, j)
       <==> HoldsKeyItself(forms, j) || exists i :: 0 <= i < |Children(j)| && Somewhere(forms, Children(j)[i])
  {
    if HoldsKeyItself(forms, j) {
      assert Leads(j, [], j, Nothing());
    } else if i :| 0 <= i < |Children(j)| && Somewhere(forms, Children(j)[i]) {
      var path, o :| Leads(Children(j)[i], path, o, Nothing()) && HoldsKeyItself(forms, o);
      LeadsFurther(j, i, path, o, Nothing());
    } else if path, o :| Leads(j, path, o, Nothing()) && HoldsKeyItself(forms, o) {
      assert Leads(Children(j)[path[0]], path[1..], o, Nothing());
      assert Somewhere(forms, Children(j)[path[0]]);
    }
  }

  lemma {:induction false} HoldsKeySomewhere(forms: seq<string>, j: Json)
    ensures TreeHoldsKey(forms, j) <==> Somewhere(forms, j)
    decreases j
  {
    HoldsKeyHere(forms, j);
    AnyHoldsKeyIs(forms, Children(j));
    SomewhereHere(forms, j);
    forall i | 0 <= i < |Children(j)|
      ensures TreeHoldsKey(forms, Children(j)[i]) <==> Somewhere(forms, Children(j)[i])
    {
      ChildIsSmaller(j, i);
      HoldsKeySomewhere(forms, Children(j)[i]);
    }
  }

  lemma {:induction false} AnyHoldsKeyConcat(forms: seq<string>, a: seq<Json>, b: seq<Json>)
    ensures AnyHoldsKey(forms, a + b) <==> AnyHoldsKey(forms, a) || AnyHoldsKey(forms, b)
    decreases |b|
  {
    if b == [] {
      assert a + b == a;
    } else {
      assert (a + b)[..|a + b| - 1] == a + b[..|b| - 1];
      AnyHoldsKeyConcat(forms, a, b[..|b| - 1]);
    }
  }

  /** What the loop pushes for an object: each key, then its value. */
  function Pushed(fields: Fields): seq<Json> {
    if fields == [] then []
    else Pushed(fields[..|fields| - 1]) + [Str(fields[|fields| - 1].key), fields[|fields| - 1].value]
  }

  lemma {:induction false} PushedMeaning(forms: seq<string>, fields: Fields)
    ensures AnyHoldsKey(forms, Pushed(fields)) <==> FieldsHoldKey(forms, fields)
    decreases |fields|
  {
    if fields != [] {
      var (before, last) := (fields[..|fields| - 1], fields[|fields| - 1]);
      PushedMeaning(forms, before);
      AnyHoldsKeyConcat(forms, Pushed(before), [Str(last.key), last.value]);
      PairHoldsKey(forms, Str(last.key), last.value);
    }
  }

  lemma PairHoldsKey(forms: seq<string>, k: Json, v: Json)
    ensures AnyHoldsKey(forms, [k, v]) <==> TreeHoldsKey(forms, k) || TreeHoldsKey(forms, v)
  {
    assert [k, v][..1] == [k] && [k][..0] == [];
    assert AnyHoldsKey(forms, [k]) <==> AnyHoldsKey(forms, []) || TreeHoldsKey(forms, k);
  }

  lemma {:induction false} PushedSize(fields: Fields)
    ensures SizeAll(Pushed(fields)) == SizeFields(fields)
    decreases |fields|
  {
    if fields != [] {
      var (before, last) := (fields[..|fields| - 1], fields[|fields| - 1]);
      PushedSize(before);
      SizeAllConcat(Pushed(before), [Str(last.key), last.value]);
      PairSize(Str(last.key), last.value);
    }
  }

  lemma PairSize(k: Json, v: Json)
    ensures SizeAll([k, v]) == Size(k) + Size(v)
  {
    assert [k, v][..1] == [k] && [k][..0] == [];
    assert SizeAll([k]) == SizeAll([]) + Size(k);
  }

  /** `json_contains_key`: the stack finds a key exactly when some string of the tree, a value or
      a field's name, however deep, holds one. */
  method JsonContainsKey(forms: seq<string>, obj: Json) returns (found: bool)
    ensures found <==> Somewhere(forms, obj)
  {
    HoldsKeySomewhere(forms, obj);
    var stack := [obj];
    assert stack[..0] == [];
    while stack != []
      invariant AnyHoldsKey(forms, stack) <==> TreeHoldsKey(forms, obj)
      decreases SizeAll(stack)
    {
      var o := stack[|stack| - 1];
      assert SizeAll(stack) == SizeAll(stack[..|stack| - 1]) + Size(o);
      stack := stack[..|stack| - 1];
      match o
      case Str(s) =>
        var here := ContainsKey(forms, s);
        if here {
          return true;
        }
      case Obj(fields) =>
        AnyHoldsKeyConcat(forms, stack, Pushed(fields));
        SizeAllConcat(stack, Pushed(fields));
        PushedMeaning(forms, fields);
        PushedSize(fields);
        stack := stack + Pushed(fields);
      case Arr(items) =>
        AnyHoldsKeyConcat(forms, stack, items);
        SizeAllConcat(stack, items);
        stack := stack + items;
      case _ =>
    }
    return false;
  }
}
