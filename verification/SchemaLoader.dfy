/**
 The schema loader of the protocol generator: a depth-first parse of named
 definitions that remembers what it has parsed and what it is parsing. Raw
 schemas are finite trees; a `$ref` arrives already split into the name and the
 file it resolves to.
 */
module SchemaLoader {
  import opened Wrappers

  datatype Kind = KindRef | KindObject | KindString | KindInteger | KindNumber | KindBoolean | KindArray

  /** A `$ref` that is no string, one whose file or pointer does not resolve, or the definition it names. */
  datatype RawRef = NotAString | Unresolvable | Target(name: string, file: string)

  datatype RawType = NoType | NotAType | TypeName(name: string) | TypeNames(names: seq<string>)

  datatype Metadata = Metadata(
    enum: Option<seq<string>>,
    constant: Option<string>,
    format: string,
    goType: string,
    minimum: Option<real>,
    maximum: Option<real>)

  /** A keyword of the wrong JSON type appears as `None`, `NotAnObject`, `NotAType` or `NotASchema`. */
  datatype Raw = Raw(
    ref: Option<RawRef>,
    unsupported: bool,
    types: RawType,
    metadata: Option<Metadata>,
    properties: RawProperties,
    required: Option<seq<string>>,
    items: RawItems)

  datatype RawProperties = NoProperties | NotAnObject | Properties(list: seq<RawProperty>)

  datatype RawProperty = RawProperty(name: string, schema: Option<Raw>)

  datatype RawItems = NoItems | NotASchema | Items(raw: Raw)

  datatype RawDefinition = RawDefinition(file: string, raw: Raw)

  datatype Schema = Schema(
    kind: Kind,
    nullable: bool,
    enum: seq<string>,
    constant: string,
    format: string,
    goType: string,
    minimum: Option<real>,
    properties: seq<Property>,
    items: Option<Schema>,
    refName: string)

  datatype Property = Property(name: string, schema: Schema, required: bool)

  /** A cycle of references, or a definition that is malformed or refers to nothing. */
  datatype LoadError = Circular | Broken

  // ---- one schema at a time ---------------------------------------------------------

  function KindByName(name: string): Option<Kind> {
    if name == "object" then Some(KindObject)
    else if name == "string" then Some(KindString)
    else if name == "integer" then Some(KindInteger)
    else if name == "number" then Some(KindNumber)
    else if name == "boolean" then Some(KindBoolean)
    else if name == "array" then Some(KindArray)
    else None
  }

  datatype Typed = Typed(kind: Kind, nullable: bool)

  /** A list of types: any number of nulls and exactly one other type. */
  function KindFromList(names: seq<string>, kind: Option<Kind>, nullable: bool): Option<Typed> {
    if names == [] then
      if kind.Some? then Some(Typed(kind.value, nullable)) else None
    else if names[0] == "null" then KindFromList(names[1..], kind, true)
    else if kind.Some? then None
    else
      match KindByName(names[0])
      case None => None
      case Some(k) => KindFromList(names[1..], Some(k), nullable)
  }

  function SchemaKind(raw: Raw): Option<Typed> {
    match raw.types
    case NotAType => None
    case NoType =>
      if raw.metadata.Some? && (raw.metadata.value.enum.Some? || raw.metadata.value.constant.Some?)
      then Some(Typed(KindString, false)) else None
    case TypeName(name) =>
      (match KindByName(name) case None => None case Some(k) => Some(Typed(k, false)))
    case TypeNames(names) => KindFromList(names, None, false)
  }

  ghost predicate EnumOk(kind: Kind, values: seq<string>) {
    kind == KindString && values != [] && Distinct(values)
  }

  predicate NumbersOk(kind: Kind, m: Metadata) {
    m.maximum.None? && (m.minimum.Some? ==> kind == KindInteger && m.goType == "uint64" && m.minimum.value == 0.0)
  }

  ghost predicate MetadataOk(kind: Kind, m: Metadata) {
    && (m.enum.Some? ==> EnumOk(kind, m.enum.value))
    && (m.constant.Some? ==> kind == KindString)
    && NumbersOk(kind, m)
  }

  /** Everything about a schema that can be judged without its children. */
  ghost predicate NodeOk(raw: Raw) {
    && !raw.unsupported
    && SchemaKind(raw).Some?
    && raw.metadata.Some?
    && MetadataOk(SchemaKind(raw).value.kind, raw.metadata.value)
  }

  predicate IsKind(raw: Raw, kind: Kind) {
    raw.ref.None? && SchemaKind(raw).Some? && SchemaKind(raw).value.kind == kind
  }

  predicate RequiredOk(required: Option<seq<string>>, list: seq<RawProperty>) {
    required.Some? && forall name :: name in required.value ==> exists p :: p in list && p.name == name
  }

  type Definitions = map<string, RawDefinition>

  predicate RefOk(defs: Definitions, ref: RawRef) {
    ref.Target? && ref.name in defs && ref.file == defs[ref.name].file
  }

  /** A raw schema the loader accepts, apart from cycles. */
  ghost predicate RawOk(defs: Definitions, raw: Raw)
    decreases raw
  {
    if raw.ref.Some? then RefOk(defs, raw.ref.value)
    else
      && NodeOk(raw)
      && (IsKind(raw, KindObject) ==>
            match raw.properties
            case NoProperties => true
            case NotAnObject => false
            case Properties(list) =>
              && RequiredOk(raw.required, list)
              && forall i :: 0 <= i < |list| ==> list[i].schema.Some? && RawOk(defs, list[i].schema.value))
      && (IsKind(raw, KindArray) ==> raw.items.Items? && RawOk(defs, raw.items.raw))
  }

  /** The definitions a raw schema refers to, as far as the loader looks. */
  ghost function Refs(raw: Raw): set<string>
    decreases raw
  {
    if raw.ref.Some? then
      if raw.ref.value.Target? then {raw.ref.value.name} else {}
    else if IsKind(raw, KindObject) && raw.properties.Properties? then RefsOfList(raw.properties.list)
    else if IsKind(raw, KindArray) && raw.items.Items? then Refs(raw.items.raw)
    else {}
  }

  ghost function RefsOfList(list: seq<RawProperty>): set<string>
    decreases list
  {
    if list == [] then {}
    else (if list[0].schema.Some? then Refs(list[0].schema.value) else {}) + RefsOfList(list[1..])
  }

  /** The schema a raw schema stands for. */
  function Translate(raw: Raw): Schema
    decreases raw
  {
    if raw.ref.Some? then
      RefSchema(if raw.ref.value.Target? then raw.ref.value.name else "")
    else if SchemaKind(raw).Some? && raw.metadata.Some? then
      var node := NodeSchema(SchemaKind(raw).value, raw.metadata.value);
      if IsKind(raw, KindObject) && raw.properties.Properties? then
        node.(properties := TranslateList(raw.properties.list, if raw.required.Some? then raw.required.value else []))
      else if IsKind(raw, KindArray) && raw.items.Items? then node.(items := Some(Translate(raw.items.raw)))
      else node
    else RefSchema("")
  }

  function TranslateList(list: seq<RawProperty>, required: seq<string>): seq<Property>
    decreases list
  {
    if list == [] then []
    else
      (if list[0].schema.Some?
          then [Property(list[0].name, Translate(list[0].schema.value), list[0].name in required)] else [])
      + TranslateList(list[1..], required)
  }

  function RefSchema(name: string): Schema {
    Schema(KindRef, false, [], "", "", "", None, [], None, name)
  }

  function NodeSchema(typed: Typed, m: Metadata): Schema {
    Schema(typed.kind, typed.nullable, if m.enum.Some? then m.enum.value else [],
           if m.constant.Some? then m.constant.value else "", m.format, m.goType, m.minimum, [], None, "")
  }

  // ---- the reference graph -------------------------------------------------------------

  /** Every definition is acceptable by itself and refers only to definitions. */
  ghost predicate Sound(defs: Definitions) {
    forall name :: name in defs ==> RawOk(defs, defs[name].raw)
  }

  ghost predicate Edge(defs: Definitions, a: string, b: string) {
    a in defs && b in Refs(defs[a].raw)
  }

  ghost predicate IsPath(defs: Definitions, path: seq<string>) {
    forall i :: 0 <= i < |path| - 1 ==> Edge(defs, path[i], path[i + 1])
  }

  ghost predicate IsCycle(defs: Definitions, path: seq<string>) {
    |path| >= 2 && IsPath(defs, path) && path[0] == path[|path| - 1]
  }

  ghost predicate HasCycle(defs: Definitions) {
    exists path :: IsCycle(defs, path)
  }

  /** Every definition comes after the ones it refers to. */
  ghost predicate Topological(defs: Definitions, order: seq<string>) {
    forall i :: 0 <= i < |order| ==>
                  order[i] in defs && forall name :: name in Refs(defs[order[i]].raw) ==> name in order[..i]
  }

  lemma EdgesGoBack(defs: Definitions, order: seq<string>, a: string, b: string)
    requires Topological(defs, order) && Distinct(order) && a in order && Edge(defs, a, b)
    ensures b in order && IndexOf(order, b).value < IndexOf(order, a).value
  {
    var i := IndexOf(order, a).value;
    assert b in order[..i];
    var j :| 0 <= j < i && order[..i][j] == b;
    assert order[j] == b;
    DistinctIndex(order, j);
  }

  lemma {:induction false} PathsGoBack(defs: Definitions, order: seq<string>, path: seq<string>, i: nat)
    requires Topological(defs, order) && Distinct(order) && IsPath(defs, path)
    requires 0 < i < |path| && path[0] in order
    ensures path[i] in order && IndexOf(order, path[i]).value < IndexOf(order, path[0]).value
  {
    if i > 1 { PathsGoBack(defs, order, path, i - 1); }
    EdgesGoBack(defs, order, path[i - 1], path[i]);
  }

  /** Definitions that can all be ordered have no cycle of references. */
  lemma TopologicalMeansAcyclic(defs: Definitions, order: seq<string>)
    requires Topological(defs, order) && Distinct(order)
    requires forall name :: name in defs ==> name in order
    ensures !HasCycle(defs)
  {
    forall path | IsCycle(defs, path)
      ensures false
    {
      assert Edge(defs, path[0], path[1]);
      PathsGoBack(defs, order, path, |path| - 1);
    }
  }

  // ---- properties and lists ----------------------------------------------------------------

  lemma {:induction false} RefsOfPrefix(list: seq<RawProperty>, i: nat)
    requires i < |list| && list[i].schema.Some?
    ensures RefsOfList(list[..i + 1]) == RefsOfList(list[..i]) + Refs(list[i].schema.value)
  {
    hide Refs;
    if i == 0 {
      assert list[..1][1..] == [] && list[..0] == [];
    } else {
      RefsOfPrefix(list[1..], i - 1);
      assert list[..i + 1][1..] == list[1..][..i] && list[..i][1..] == list[1..][..i - 1];
    }
  }

  lemma {:induction false} RefsOfPart(list: seq<RawProperty>, i: nat)
    requires i < |list| && list[i].schema.Some?
    ensures Refs(list[i].schema.value) <= RefsOfList(list)
  {
    hide Refs;
    if i > 0 { RefsOfPart(list[1..], i - 1); }
  }

  lemma {:induction false} TranslatePrefix(list: seq<RawProperty>, required: seq<string>, i: nat)
    requires i < |list| && list[i].schema.Some?
    ensures TranslateList(list[..i + 1], required)
         == TranslateList(list[..i], required) + [Property(list[i].name, Translate(list[i].schema.value),
             list[i].name in required)]
  {
    hide Translate;
    if i == 0 {
      assert list[..1][1..] == [] && list[..0] == [];
    } else {
      TranslatePrefix(list[1..], required, i - 1);
      assert list[..i + 1][1..] == list[1..][..i] && list[..i][1..] == list[1..][..i - 1];
    }
  }

  // ---- the loader -----------------------------------------------------------------------------

  class SchemaLoader {
    const defs: Definitions
    var parsed: map<string, Schema>
    var parsing: set<string>
    /** The definitions being parsed, outermost first, and those parsed, in order of completion. */
    ghost var stack: seq<string>
    ghost var order: seq<string>

    ghost predicate ParsedOk()
      reads this
    {
      && (forall name :: name in parsed <==> name in order)
      && Distinct(order)
      && Topological(defs, order)
      && forall name :: name in parsed ==>
           name in defs && RawOk(defs, defs[name].raw) && parsed[name] == Translate(defs[name].raw)
    }

    ghost predicate ParsingOk()
      reads this
    {
      && (forall name :: name in parsing <==> name in stack)
      && (forall name :: name in parsing ==> name in defs && name !in parsed)
      && Distinct(stack)
      && IsPath(defs, stack)
    }

    ghost predicate Valid()
      reads this
    {
      ParsedOk() && ParsingOk()
    }

    /** Whoever asks for a definition is the caller itself or the definition on top of the stack. */
    ghost predicate MayParse(name: string)
      reads this
    {
      stack != [] ==> Edge(defs, stack[|stack| - 1], name)
    }

    ghost predicate MayParseAll(names: set<string>)
      reads this
    {
      forall name :: name in names ==> MayParse(name)
    }

    constructor (defs: Definitions)
      ensures Valid() && this.defs == defs && parsed == map[] && parsing == {} && stack == []
    {
      this.defs := defs;
      parsed, parsing, stack, order := map[], {}, [], [];
    }

    ghost predicate Explains(e: LoadError) {
      (e == Circular ==> HasCycle(defs)) && (e == Broken ==> !Sound(defs))
    }

    /** What a parse leaves as it was: what is being parsed, and everything already parsed. */
    twostate predicate Grows()
      reads this
    {
      && parsing == old(parsing) && stack == old(stack)
      && forall name :: name in old(parsed) ==> name in parsed
    }

    lemma CycleFound(name: string)
      requires Valid() && MayParse(name) && name in parsing
      ensures HasCycle(defs)
    {
      var i :| 0 <= i < |stack| && stack[i] == name;
      assert IsCycle(defs, stack[i..] + [name]);
    }

    method Enter(name: string)
      requires Valid() && MayParse(name) && name in defs && name !in parsed && name !in parsing
      modifies this`parsing, this`stack
      ensures Valid() && parsing == old(parsing) + {name} && stack == old(stack) + [name]
    {
      parsing, stack := parsing + {name}, stack + [name];
    }

    method Leave(name: string)
      requires Valid() && stack != [] && stack[|stack| - 1] == name
      modifies this`parsing, this`stack
      ensures Valid() && parsing == old(parsing) - {name} && stack == old(stack[..|stack| - 1])
    {
      parsing, stack := parsing - {name}, stack[..|stack| - 1];
      assert forall n :: n in old(stack) <==> n in stack || n == name;
    }

    method Remember(name: string, schema: Schema)
      requires Valid() && name in defs && name !in parsing && name !in parsed
      requires RawOk(defs, defs[name].raw) && schema == Translate(defs[name].raw)
      requires Refs(defs[name].raw) <= parsed.Keys
      modifies this`parsed, this`order
      ensures Valid() && parsed == old(parsed)[name := schema]
    {
      hide RawOk, Refs, Translate, IsPath;
      parsed, order := parsed[name := schema], order + [name];
      assert forall i :: 0 <= i < |old(order)| ==> order[..i] == old(order)[..i];
      assert order[..|order| - 1] == old(order);
    }

    method ParseDefinition(name: string) returns (r: Result<Schema, LoadError>)
      requires Valid() && MayParse(name)
      modifies this
      ensures Valid() && Grows()
      ensures name !in defs ==> r == Err(Broken)
      ensures r.Ok? ==> name in parsed && r.value == Translate(defs[name].raw)
      ensures r.Err? && name in defs ==> Explains(r.error)
      decreases defs.Keys - parsing, 0
    {
      hide RawOk, Refs, Translate, IsPath, Topological, Distinct;
      if name in parsed {
        return Ok(parsed[name]);
      }
      if name !in defs {
        return Err(Broken);
      }
      if name in parsing {
        CycleFound(name);
        return Err(Circular);
      }
      Enter(name);
      r := ParseSchema(defs[name].raw);
      Leave(name);
      assert stack == old(stack);
      if r.Ok? {
        Remember(name, r.value);
      }
    }

    method ParseSchema(raw: Raw) returns (r: Result<Schema, LoadError>)
      requires Valid() && MayParseAll(Refs(raw))
      modifies this
      ensures Valid() && Grows()
      ensures r.Ok? ==> RawOk(defs, raw) && Refs(raw) <= parsed.Keys && r.value == Translate(raw)
      ensures r.Err? ==> Explains(r.error) || (r.error == Broken && !RawOk(defs, raw))
      decreases defs.Keys - parsing, 2, raw, 1
    {
      hide Valid, NodeOk, SchemaKind, RefsOfList, TranslateList, IsPath, Sound;
      if raw.ref.Some? {
        r := ParseRefSchema(raw.ref.value);
        return;
      }
      var node := ParseNode(raw);
      StillValid();
      if node.None? {
        return Err(Broken);
      }
      if IsKind(raw, KindObject) {
        var properties := ParseObjectProperties(raw);
        r := if properties.Err? then Err(properties.error) else Ok(node.value.(properties := properties.value));
      } else if IsKind(raw, KindArray) {
        var items := ParseArrayItems(raw);
        r := if items.Err? then Err(items.error) else Ok(node.value.(items := Some(items.value)));
      } else {
        r := Ok(node.value);
      }
    }

    twostate lemma StillValid()
      requires old(Valid()) && parsed == old(parsed) && parsing == old(parsing) && stack == old(stack)
          && order == old(order)
      ensures Valid()
    {
    }

    method ParseRefSchema(ref: RawRef) returns (r: Result<Schema, LoadError>)
      requires Valid() && (ref.Target? ==> MayParse(ref.name))
      modifies this
      ensures Valid() && Grows()
      ensures r.Ok? ==> RefOk(defs, ref) && ref.name in parsed && r.value == RefSchema(ref.name)
      ensures r.Err? ==> Explains(r.error) || (r.error == Broken && !RefOk(defs, ref))
      decreases defs.Keys - parsing, 1
    {
      hide Valid, Sound;
      if !ref.Target? || ref.name !in defs || ref.file != defs[ref.name].file {
        return Err(Broken);
      }
      var target := ParseDefinition(ref.name);
      r := if target.Err? then Err(target.error) else Ok(RefSchema(ref.name));
    }

    method ParseObjectProperties(raw: Raw) returns (r: Result<seq<Property>, LoadError>)
      requires Valid() && MayParseAll(Refs(raw)) && IsKind(raw, KindObject)
      modifies this
      ensures Valid() && Grows()
      ensures r.Ok? ==> !raw.properties.NotAnObject?
      ensures r.Ok? && raw.properties.NoProperties? ==> r.value == []
      ensures r.Ok? && raw.properties.Properties? ==>
                && RequiredOk(raw.required, raw.properties.list)
                && (forall i :: 0 <= i < |raw.properties.list| ==>
                                  raw.properties.list[i].schema.Some?
                                      && RawOk(defs, raw.properties.list[i].schema.value))
                && RefsOfList(raw.properties.list) <= parsed.Keys
                && r.value == TranslateList(raw.properties.list, raw.required.value)
      ensures r.Err? ==> Explains(r.error) || (r.error == Broken && !RawOk(defs, raw))
      decreases defs.Keys - parsing, 2, raw, 0
    {
      hide Valid, NodeOk, SchemaKind, RefsOfList, TranslateList, IsPath, Sound;
      if !raw.properties.Properties? {
        return if raw.properties.NoProperties? then Ok([]) else Err(Broken);
      }
      var list := raw.properties.list;
      if !RequiredOk(raw.required, list) {
        return Err(Broken);
      }
      var required := raw.required.value;
      var properties := [];
      assert list[..0] == [] && RefsOfList([]) == {}
          && TranslateList([], required) == [] by { NothingListed(required); }
      for i := 0 to |list|
        invariant Valid() && Grows()
        invariant properties == TranslateList(list[..i], required)
        invariant RefsOfList(list[..i]) <= parsed.Keys
        invariant forall j :: 0 <= j < i ==> list[j].schema.Some? && RawOk(defs, list[j].schema.value)
      {
        if list[i].schema.None? {
          return Err(Broken);
        }
        var child := list[i].schema.value;
        RefsOfPart(list, i);
        RefsOfPrefix(list, i);
        TranslatePrefix(list, required, i);
        var schema := ParseSchema(child);
        if schema.Err? {
          return Err(schema.error);
        }
        properties := properties + [Property(list[i].name, schema.value, list[i].name in required)];
      }
      assert list[..|list|] == list;
      r := Ok(properties);
    }

    method ParseArrayItems(raw: Raw) returns (r: Result<Schema, LoadError>)
      requires Valid() && MayParseAll(Refs(raw)) && IsKind(raw, KindArray)
      modifies this
      ensures Valid() && Grows()
      ensures r.Ok? ==> raw.items.Items? && RawOk(defs, raw.items.raw) && Refs(raw.items.raw) <= parsed.Keys
                        && r.value == Translate(raw.items.raw)
      ensures r.Err? ==> Explains(r.error) || (r.error == Broken && !RawOk(defs, raw))
      decreases defs.Keys - parsing, 2, raw, 0
    {
      hide Valid, NodeOk, SchemaKind, IsPath, Sound, RefsOfList, TranslateList;
      if !raw.items.Items? {
        return Err(Broken);
      }
      r := ParseSchema(raw.items.raw);
    }

    /** Every definition in turn; the order in which the names are taken does not matter. */
    method ParseDefinitions() returns (error: Option<LoadError>)
      requires Valid() && stack == []
      modifies this
      ensures Valid()
      ensures error.None? <==> Sound(defs) && !HasCycle(defs)
      ensures error == Some(Circular) ==> HasCycle(defs)
      ensures error == Some(Broken) ==> !Sound(defs)
      ensures error.None? ==> parsed.Keys == defs.Keys
      ensures error.None? ==> forall name :: name in defs ==> parsed[name] == Translate(defs[name].raw)
      ensures error.None? ==> Topological(defs, order) && Distinct(order)
      ensures error.None? ==> forall name :: name in order <==> name in parsed
    {
      hide RawOk, Refs, Translate, IsPath, Topological, Distinct, HasCycle;
      var todo := defs.Keys;
      while todo != {}
        invariant Valid() && stack == []
        invariant forall name :: name in defs && name !in todo ==> name in parsed
        invariant todo <= defs.Keys
        decreases |todo|
      {
        var name :| name in todo;
        var schema := ParseDefinition(name);
        if schema.Err? {
          return Some(schema.error);
        }
        todo := todo - {name};
      }
      TopologicalMeansAcyclic(defs, order);
      error := None;
    }
  }

  // ---- single nodes ------------------------------------------------------------------------------

  method CheckEnum(kind: Kind, values: seq<string>) returns (ok: bool)
    ensures ok <==> EnumOk(kind, values)
  {
    if kind != KindString {
      return false;
    }
    var seen: set<string> := {};
    for i := 0 to |values|
      invariant forall v :: v in seen <==> v in values[..i]
      invariant Distinct(values[..i])
    {
      assert values[..i + 1] == values[..i] + [values[i]];
      if values[i] in seen {
        var j :| 0 <= j < i && values[..i][j] == values[i];
        assert values[j] == values[i];
        return false;
      }
      seen := seen + {values[i]};
    }
    assert values[..|values|] == values;
    ok := values != [];
  }

  /** A schema without its children, when everything that can be checked on it is right. */
  method ParseNode(raw: Raw) returns (r: Option<Schema>)
    ensures r.Some? <==> NodeOk(raw)
    ensures r.Some? ==> SchemaKind(raw).Some? && raw.metadata.Some?
    ensures r.Some? ==> r.value == NodeSchema(SchemaKind(raw).value, raw.metadata.value)
  {
    hide EnumOk, SchemaKind;
    if raw.unsupported || SchemaKind(raw).None? || raw.metadata.None? {
      return None;
    }
    var typed, m := SchemaKind(raw).value, raw.metadata.value;
    if m.enum.Some? {
      var ok := CheckEnum(typed.kind, m.enum.value);
      if !ok {
        return None;
      }
    }
    if (m.constant.Some? && typed.kind != KindString) || !NumbersOk(typed.kind, m) {
      return None;
    }
    r := Some(NodeSchema(typed, m));
  }

  lemma NothingListed(required: seq<string>)
    ensures RefsOfList([]) == {} && TranslateList([], required) == []
  {
  }
}
