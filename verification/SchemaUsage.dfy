/**
 The emitters' questions about a loaded spec: does it use timestamps, UUIDs or
 integers. One emitter follows every reference without remembering where it has
 been, the other keeps a visited set.
 */
module SchemaUsage {
  import opened Wrappers
  import opened SchemaLoader

  datatype Definition = Definition(name: string, schema: Schema)

  datatype Spec = Spec(definitions: seq<Definition>, byName: map<string, Schema>)

  /** The definitions are those of the map, each once. */
  ghost predicate Indexed(spec: Spec) {
    && (forall i, j :: 0 <= i < j < |spec.definitions| ==> spec.definitions[i].name != spec.definitions[j].name)
    && (forall d :: d in spec.definitions ==> d.name in spec.byName && spec.byName[d.name] == d.schema)
    && (forall name :: name in spec.byName ==> Definition(name, spec.byName[name]) in spec.definitions)
  }

  method NewSpec(definitions: seq<Definition>) returns (spec: Option<Spec>)
    ensures spec.Some? ==> Indexed(spec.value) && spec.value.definitions == definitions
    ensures spec.None? ==> exists i, j :: 0 <= i < j < |definitions| && definitions[i].name == definitions[j].name
  {
    var byName: map<string, Schema> := map[];
    for i := 0 to |definitions|
      invariant Indexed(Spec(definitions[..i], byName))
    {
      var d := definitions[i];
      if d.name in byName {
        var other := Definition(d.name, byName[d.name]);
        assert other in definitions[..i];
        var j :| 0 <= j < i && definitions[j] == other;
        return None;
      }
      assert definitions[..i + 1] == definitions[..i] + [d];
      byName := byName[d.name := d.schema];
    }
    assert definitions[..|definitions|] == definitions;
    spec := Some(Spec(definitions, byName));
  }

  // ---- what a schema contains ---------------------------------------------------------

  datatype Feature = Timestamp | Uuid | Integer

  predicate IsFeature(schema: Schema, f: Feature) {
    match f
    case Timestamp => schema.kind == KindString && schema.format == "date-time"
    case Uuid => schema.kind == KindString && schema.format == "uuid"
    case Integer => schema.kind == KindInteger
  }

  /** The feature occurs in the schema itself, references not followed. */
  ghost predicate Contains(schema: Schema, f: Feature)
    decreases schema
  {
    || IsFeature(schema, f)
    || (schema.kind == KindObject
        && exists i :: 0 <= i < |schema.properties| && Contains(schema.properties[i].schema, f))
    || (schema.kind == KindArray && schema.items.Some? && Contains(schema.items.value, f))
  }

  /** The names the schema refers to. */
  ghost predicate RefersTo(schema: Schema, name: string)
    decreases schema
  {
    || (schema.kind == KindRef && schema.refName == name)
    || (schema.kind == KindObject
        && exists i :: 0 <= i < |schema.properties| && RefersTo(schema.properties[i].schema, name))
    || (schema.kind == KindArray && schema.items.Some? && RefersTo(schema.items.value, name))
  }

  ghost predicate SomeDefinitionContains(spec: Spec, f: Feature) {
    exists name :: name in spec.byName && Contains(spec.byName[name], f)
  }

  /** Following the references named by `path` from the schema leads to the feature. */
  ghost predicate Leads(spec: Spec, schema: Schema, path: seq<string>, f: Feature)
    decreases path
  {
    if path == [] then Contains(schema, f)
    else RefersTo(schema, path[0]) && path[0] in spec.byName && Leads(spec, spec.byName[path[0]], path[1..], f)
  }

  // ---- references without a visited set ------------------------------------------------

  type Rank = map<string, nat>

  ghost predicate Below(spec: Spec, rank: Rank, schema: Schema, bound: nat) {
    forall name :: name in spec.byName && RefersTo(schema, name) ==> name in rank && rank[name] < bound
  }

  /** Every definition ranks above the definitions it refers to. */
  ghost predicate Ranked(spec: Spec, rank: Rank) {
    forall name :: name in spec.byName ==> name in rank && Below(spec, rank, spec.byName[name], rank[name])
  }

  /** Terminates because every reference goes down in rank. */
  function SchemaUsesTime(spec: Spec, schema: Schema, ghost rank: Rank, ghost bound: nat): bool
    requires Ranked(spec, rank) && Below(spec, rank, schema, bound)
    decreases bound, schema, 0
  {
    match schema.kind
    case KindObject => PropertiesUseTime(spec, schema, 0, rank, bound)
    case KindString => schema.format == "date-time"
    case KindArray => schema.items.Some? && SchemaUsesTime(spec, schema.items.value, rank, bound)
    case KindRef =>
      schema.refName in spec.byName &&
      SchemaUsesTime(spec, spec.byName[schema.refName], rank, rank[schema.refName])
    case _ => false
  }

  /** The properties from index `i` on. */
  function PropertiesUseTime(spec: Spec, schema: Schema, i: nat, ghost rank: Rank, ghost bound: nat): bool
    requires Ranked(spec, rank) && Below(spec, rank, schema, bound) && schema.kind == KindObject
        && i <= |schema.properties|
    decreases bound, schema, 0, |schema.properties| - i
  {
    i < |schema.properties| &&
    (SchemaUsesTime(spec, schema.properties[i].schema, rank, bound)
        || PropertiesUseTime(spec, schema, i + 1, rank, bound))
  }

  /** `specUsesTime`, from definition `i` on. */
  function SpecUsesTime(spec: Spec, i: nat, ghost rank: Rank): bool
    requires Ranked(spec, rank) && Indexed(spec) && i <= |spec.definitions|
    decreases |spec.definitions| - i
  {
    i < |spec.definitions| &&
    var d := spec.definitions[i];
    assert d in spec.definitions;
    (SchemaUsesTime(spec, d.schema, rank, rank[d.name]) || SpecUsesTime(spec, i + 1, rank))
  }

  lemma {:induction false} PropertyUsed(spec: Spec, schema: Schema, i: nat, rank: Rank, bound: nat)
    requires Ranked(spec, rank) && Below(spec, rank, schema, bound) && schema.kind == KindObject
        && i <= |schema.properties|
    ensures PropertiesUseTime(spec, schema, i, rank, bound)
       <==> exists j :: i <= j < |schema.properties| && SchemaUsesTime(spec, schema.properties[j].schema, rank, bound)
    decreases |schema.properties| - i
  {
    hide SchemaUsesTime;
    if i < |schema.properties| { PropertyUsed(spec, schema, i + 1, rank, bound); }
  }

  /** A use found by following references has a path that leads to it. */
  lemma {:induction false} FollowedUse(spec: Spec, schema: Schema, rank: Rank, bound: nat) returns (path: seq<string>)
    requires Ranked(spec, rank) && Below(spec, rank, schema, bound) && SchemaUsesTime(spec, schema, rank, bound)
    ensures Leads(spec, schema, path, Timestamp)
    decreases bound, schema
  {
    match schema.kind {
      case KindObject =>
        PropertyUsed(spec, schema, 0, rank, bound);
        var j :| 0 <= j < |schema.properties| && SchemaUsesTime(spec, schema.properties[j].schema, rank, bound);
        path := FollowedUse(spec, schema.properties[j].schema, rank, bound);
      case KindArray =>
        path := FollowedUse(spec, schema.items.value, rank, bound);
      case KindRef =>
        var rest := FollowedUse(spec, spec.byName[schema.refName], rank, rank[schema.refName]);
        path := [schema.refName] + rest;
        assert path[1..] == rest;
      case _ =>
        path := [];
    }
  }

  lemma {:induction false} UseIsFollowed(spec: Spec, schema: Schema, path: seq<string>, rank: Rank, bound: nat)
    requires Ranked(spec, rank) && Below(spec, rank, schema, bound) && Leads(spec, schema, path, Timestamp)
    ensures SchemaUsesTime(spec, schema, rank, bound)
    decreases path, schema
  {
    match schema.kind {
      case KindObject =>
        var j :| 0 <= j < |schema.properties| && Leads(spec, schema.properties[j].schema, path, Timestamp);
        UseIsFollowed(spec, schema.properties[j].schema, path, rank, bound);
        PropertyUsed(spec, schema, 0, rank, bound);
      case KindArray =>
        UseIsFollowed(spec, schema.items.value, path, rank, bound);
      case KindRef =>
        UseIsFollowed(spec, spec.byName[schema.refName], path[1..], rank, rank[schema.refName]);
      case _ =>
    }
  }

  /** Main result: `schemaUsesTime` holds exactly when some chain of references leads to a date-time string. */
  lemma SchemaUsesTimeIsReachability(spec: Spec, schema: Schema, rank: Rank, bound: nat)
    requires Ranked(spec, rank) && Below(spec, rank, schema, bound)
    ensures SchemaUsesTime(spec, schema, rank, bound) <==> exists path :: Leads(spec, schema, path, Timestamp)
  {
    if SchemaUsesTime(spec, schema, rank, bound) {
      var path := FollowedUse(spec, schema, rank, bound);
      assert Leads(spec, schema, path, Timestamp);
    }
    assert SchemaUsesTime(spec, schema, rank, bound) ==> exists path :: Leads(spec, schema, path, Timestamp);
    forall path | Leads(spec, schema, path, Timestamp)
      ensures SchemaUsesTime(spec, schema, rank, bound)
    {
      UseIsFollowed(spec, schema, path, rank, bound);
    }
    assert (exists path :: Leads(spec, schema, path, Timestamp)) ==> SchemaUsesTime(spec, schema, rank, bound);
  }

  lemma {:induction false} LeadsIntoDefinition(spec: Spec, schema: Schema, path: seq<string>, f: Feature)
    requires Leads(spec, schema, path, f)
    ensures Contains(schema, f) || SomeDefinitionContains(spec, f)
    decreases path
  {
    if path != [] {
      LeadsIntoDefinition(spec, spec.byName[path[0]], path[1..], f);
    }
  }

  lemma SchemaUseIsDefined(spec: Spec, schema: Schema, rank: Rank, bound: nat)
    requires Ranked(spec, rank) && Below(spec, rank, schema, bound)
    ensures SchemaUsesTime(spec, schema, rank, bound) ==>
              Contains(schema, Timestamp) || SomeDefinitionContains(spec, Timestamp)
    ensures Contains(schema, Timestamp) ==> SchemaUsesTime(spec, schema, rank, bound)
  {
    hide SchemaUsesTime, Contains, SomeDefinitionContains;
    if SchemaUsesTime(spec, schema, rank, bound) {
      var path := FollowedUse(spec, schema, rank, bound);
      LeadsIntoDefinition(spec, schema, path, Timestamp);
    }
    if Contains(schema, Timestamp) {
      UseIsFollowed(spec, schema, [], rank, bound);
    }
  }

  lemma {:induction false} SpecUsesTimeFrom(spec: Spec, i: nat, rank: Rank)
    requires Ranked(spec, rank) && Indexed(spec) && i <= |spec.definitions|
    ensures SpecUsesTime(spec, i, rank) ==> SomeDefinitionContains(spec, Timestamp)
    ensures (exists j :: i <= j < |spec.definitions| && Contains(spec.definitions[j].schema, Timestamp)) ==>
              SpecUsesTime(spec, i, rank)
    decreases |spec.definitions| - i
  {
    hide SchemaUsesTime, Contains;
    if i < |spec.definitions| {
      var d := spec.definitions[i];
      assert d in spec.definitions;
      SpecUsesTimeFrom(spec, i + 1, rank);
      SchemaUseIsDefined(spec, d.schema, rank, rank[d.name]);
    }
  }

  /** `specUsesTime` asks whether any definition contains a date-time string. */
  lemma SpecUsesTimeIsExact(spec: Spec, rank: Rank)
    requires Ranked(spec, rank) && Indexed(spec)
    ensures SpecUsesTime(spec, 0, rank) <==> SomeDefinitionContains(spec, Timestamp)
  {
    SpecUsesTimeFrom(spec, 0, rank);
    if name :| name in spec.byName && Contains(spec.byName[name], Timestamp) {
      var d := Definition(name, spec.byName[name]);
      var j :| 0 <= j < |spec.definitions| && spec.definitions[j] == d;
    }
  }

  ghost function NamesIn(schema: Schema): set<string>
    decreases schema
  {
    match schema.kind
    case KindRef => {schema.refName}
    case KindObject => set i, r | 0 <= i < |schema.properties| && r in NamesIn(schema.properties[i].schema) :: r
    case KindArray => if schema.items.Some? then NamesIn(schema.items.value) else {}
    case _ => {}
  }

  lemma {:induction false} NamesAreReferred(schema: Schema, r: string)
    ensures r in NamesIn(schema) <==> RefersTo(schema, r)
    decreases schema
  {
    match schema.kind {
      case KindObject =>
        forall i | 0 <= i < |schema.properties|
          ensures r in NamesIn(schema.properties[i].schema) <==> RefersTo(schema.properties[i].schema, r)
        {
          NamesAreReferred(schema.properties[i].schema, r);
        }
      case KindArray => if schema.items.Some? { NamesAreReferred(schema.items.value, r); }
      case _ =>
    }
  }

  // ---- references with a visited set -----------------------------------------------------

  datatype Usage = Usage(integer: bool, timestamp: bool, uuid: bool)

  predicate Flag(usage: Usage, f: Feature) {
    match f
    case Timestamp => usage.timestamp
    case Uuid => usage.uuid
    case Integer => usage.integer
  }

  class UsageScan {
    const spec: Spec
    var usage: Usage
    var visited: set<string>
    /** Every name a definition refers to, defined or not. */
    ghost const names: set<string>

    ghost predicate Valid()
      reads this
    {
      forall name, r :: name in spec.byName && RefersTo(spec.byName[name], r) ==> r in names
    }

    constructor (spec: Spec)
      ensures Valid() && this.spec == spec && usage == Usage(false, false, false) && visited == {}
      ensures forall name :: name in spec.byName ==> Named(spec.byName[name])
    {
      this.spec, usage, visited := spec, Usage(false, false, false), {};
      names := set name, r | name in spec.byName && r in NamesIn(spec.byName[name]) :: r;
      new;
      forall name, r | name in spec.byName && RefersTo(spec.byName[name], r)
        ensures r in names
      {
        NamesAreReferred(spec.byName[name], r);
      }
    }

    ghost predicate Named(schema: Schema) {
      forall r :: RefersTo(schema, r) ==> r in names
    }

    /** The features seen so far all occur somewhere, and the schema's own are among them. */
    twostate predicate Scanned(schema: Schema)
      reads this
    {
      forall f :: (Flag(old(usage), f) || Contains(schema, f) ==> Flag(usage, f))
               && (Flag(usage, f) ==> Flag(old(usage), f) || Contains(schema, f) || SomeDefinitionContains(spec, f))
    }

    method Scan(schema: Schema)
      requires Valid() && Named(schema)
      modifies this
      ensures Valid() && old(visited) <= visited && Scanned(schema)
      decreases names - visited, schema
    {
      match schema.kind {
        case KindObject =>
          for i := 0 to |schema.properties|
            invariant Valid() && old(visited) <= visited
            invariant forall f :: Flag(old(usage), f) ==> Flag(usage, f)
            invariant forall f, j :: 0 <= j < i && Contains(schema.properties[j].schema, f) ==> Flag(usage, f)
            invariant forall f :: Flag(usage, f) ==>
                                    Flag(old(usage), f) || Contains(schema, f) || SomeDefinitionContains(spec, f)
          {
            Scan(schema.properties[i].schema);
          }
        case KindString =>
          if schema.format == "date-time" {
            usage := usage.(timestamp := true);
          } else if schema.format == "uuid" {
            usage := usage.(uuid := true);
          }
        case KindInteger =>
          usage := usage.(integer := true);
        case KindArray =>
          if schema.items.Some? {
            Scan(schema.items.value);
          }
        case KindRef =>
          if schema.refName in visited {
            return;
          }
          visited := visited + {schema.refName};
          if schema.refName in spec.byName {
            Scan(spec.byName[schema.refName]);
          }
        case _ =>
      }
    }
  }

  /** Main result: the scan with a visited set sets exactly the flags of what the definitions contain. */
  method CollectUsage(spec: Spec) returns (usage: Usage)
    requires Indexed(spec)
    ensures forall f :: Flag(usage, f) <==> SomeDefinitionContains(spec, f)
    ensures forall rank :: Ranked(spec, rank) ==> usage.timestamp == SpecUsesTime(spec, 0, rank)
  {
    var scan := new UsageScan(spec);
    for i := 0 to |spec.definitions|
      invariant scan.Valid() && fresh(scan)
      invariant forall f :: Flag(scan.usage, f) ==> SomeDefinitionContains(spec, f)
      invariant forall f, j :: 0 <= j < i && Contains(spec.definitions[j].schema, f) ==> Flag(scan.usage, f)
    {
      var d := spec.definitions[i];
      assert d in spec.definitions;
      scan.Scan(d.schema);
    }
    usage := scan.usage;
    forall f | SomeDefinitionContains(spec, f)
      ensures Flag(usage, f)
    {
      var name :| name in spec.byName && Contains(spec.byName[name], f);
      var d := Definition(name, spec.byName[name]);
      var j :| 0 <= j < |spec.definitions| && spec.definitions[j] == d;
    }
    forall rank | Ranked(spec, rank)
      ensures usage.timestamp == SpecUsesTime(spec, 0, rank)
    {
      SpecUsesTimeIsExact(spec, rank);
      assert Flag(usage, Timestamp) == usage.timestamp;
    }
  }

  // ---- from the loader to the emitters ----------------------------------------------------

  lemma {:induction false} ListsNameNoRefKind(names: seq<string>, kind: Option<Kind>, nullable: bool)
    requires kind != Some(KindRef)
    ensures KindFromList(names, kind, nullable).Some? ==> KindFromList(names, kind, nullable).value.kind != KindRef
  {
    if names != [] {
      if names[0] == "null" {
        ListsNameNoRefKind(names[1..], kind, true);
      } else if kind.None? && KindByName(names[0]).Some? {
        ListsNameNoRefKind(names[1..], KindByName(names[0]), nullable);
      }
    }
  }

  ghost predicate AnyRefers(properties: seq<Property>, r: string) {
    exists i :: 0 <= i < |properties| && RefersTo(properties[i].schema, r)
  }

  lemma AnyRefersCons(p: Property, rest: seq<Property>, r: string)
    ensures AnyRefers([p] + rest, r) <==> RefersTo(p.schema, r) || AnyRefers(rest, r)
  {
    hide RefersTo;
    var properties := [p] + rest;
    if RefersTo(p.schema, r) {
      assert RefersTo(properties[0].schema, r);
    }
    if i :| 0 <= i < |rest| && RefersTo(rest[i].schema, r) {
      assert RefersTo(properties[i + 1].schema, r);
    }
  }

  lemma {:induction false} TranslateKeepsRefs(defs: Definitions, raw: Raw, r: string)
    requires RawOk(defs, raw)
    ensures RefersTo(Translate(raw), r) <==> r in Refs(raw)
    decreases raw
  {
    hide KindFromList, KindByName, MetadataOk, TranslateList, RefsOfList;
    var t := Translate(raw);
    if raw.ref.None? {
      if raw.types.TypeNames? { ListsNameNoRefKind(raw.types.names, None, false); }
      KindByNameIsNoRef(raw.types);
      if IsKind(raw, KindObject) {
        assert RefersTo(t, r) == AnyRefers(t.properties, r);
        if raw.properties.Properties? {
          ListKeepsRefs(defs, raw.properties.list, raw.required.value, r);
        }
      } else if IsKind(raw, KindArray) {
        TranslateKeepsRefs(defs, raw.items.raw, r);
      }
    }
  }

  lemma KindByNameIsNoRef(types: RawType)
    ensures types.TypeName? ==> KindByName(types.name) != Some(KindRef)
  {
  }

  lemma {:induction false} ListKeepsRefs(defs: Definitions, list: seq<RawProperty>, required: seq<string>, r: string)
    requires forall i :: 0 <= i < |list| ==> list[i].schema.Some? && RawOk(defs, list[i].schema.value)
    ensures AnyRefers(TranslateList(list, required), r) <==> r in RefsOfList(list)
    decreases list
  {
    hide RawOk, Translate, Refs, RefersTo;
    if list != [] {
      TranslateKeepsRefs(defs, list[0].schema.value, r);
      ListKeepsRefs(defs, list[1..], required, r);
      hide AnyRefers;
      AnyRefersCons(Property(list[0].name, Translate(list[0].schema.value), list[0].name in required),
                    TranslateList(list[1..], required), r);
    }
  }

  ghost function RankIn(order: seq<string>): Rank {
    map name | name in order :: IndexOf(order, name).value
  }

  lemma RefDrops(defs: Definitions, order: seq<string>, name: string, r: string)
    requires Topological(defs, order) && Distinct(order)
    requires name in order && name in defs && RawOk(defs, defs[name].raw) && RefersTo(Translate(defs[name].raw), r)
    ensures r in order && RankIn(order)[r] < RankIn(order)[name]
  {
    hide RawOk, Translate, Topological, Distinct, RefersTo, Refs;
    TranslateKeepsRefs(defs, defs[name].raw, r);
    EdgesGoBack(defs, order, name, r);
  }

  /** A spec the loader accepts is closed, and ranked by the order in which its definitions were completed. */
  lemma LoadedIsRanked(defs: Definitions, order: seq<string>, spec: Spec)
    requires Sound(defs) && Topological(defs, order) && Distinct(order)
    requires forall name :: name in order <==> name in defs
    requires spec.byName.Keys == defs.Keys
    requires forall name :: name in defs ==> spec.byName[name] == Translate(defs[name].raw)
    ensures Ranked(spec, RankIn(order))
    ensures forall name, r :: name in spec.byName && RefersTo(spec.byName[name], r) ==> r in spec.byName
  {
    hide RawOk, Translate, Topological, Distinct, RefersTo, IndexOf;
    forall name, r | name in spec.byName && RefersTo(spec.byName[name], r)
      ensures r in spec.byName && RankIn(order)[r] < RankIn(order)[name]
    {
      RefDrops(defs, order, name, r);
    }
  }

  method BuildDefinitions(parsed: map<string, Schema>) returns (definitions: seq<Definition>)
    ensures forall i, j :: 0 <= i < j < |definitions| ==> definitions[i].name != definitions[j].name
    ensures forall d :: d in definitions <==> d.name in parsed && parsed[d.name] == d.schema
  {
    definitions := [];
    var todo := parsed.Keys;
    while todo != {}
      invariant todo <= parsed.Keys
      invariant forall i, j :: 0 <= i < j < |definitions| ==> definitions[i].name != definitions[j].name
      invariant forall d :: d in definitions <==> d.name in parsed && d.name !in todo && parsed[d.name] == d.schema
      decreases |todo|
    {
      var name :| name in todo;
      assert forall i :: 0 <= i < |definitions| ==> definitions[i] in definitions;
      definitions, todo := definitions + [Definition(name, parsed[name])], todo - {name};
    }
  }

  /** Main result: loading succeeds exactly on sound, acyclic definitions, and the spec it gives is safe to follow. */
  method LoadSpec(defs: Definitions) returns (spec: Option<Spec>, ghost rank: Rank)
    ensures spec.Some? <==> Sound(defs) && !HasCycle(defs)
    ensures spec.Some? ==> Indexed(spec.value) && Ranked(spec.value, rank) && spec.value.byName.Keys == defs.Keys
    ensures spec.Some? ==> forall name :: name in defs ==> spec.value.byName[name] == Translate(defs[name].raw)
  {
    hide Translate, Sound, HasCycle;
    rank := map[];
    var loader := new SchemaLoader(defs);
    var error := loader.ParseDefinitions();
    if error.Some? {
      return None, rank;
    }
    var definitions := BuildDefinitions(loader.parsed);
    spec := NewSpec(definitions);
    assert spec.Some?;
    SameDefinitions(spec.value, loader.parsed);
    rank := RankIn(loader.order);
    LoadedIsRanked(defs, loader.order, spec.value);
  }

  lemma SameDefinitions(spec: Spec, parsed: map<string, Schema>)
    requires Indexed(spec)
    requires forall d :: d in spec.definitions <==> d.name in parsed && parsed[d.name] == d.schema
    ensures spec.byName == parsed
  {
    forall name | name in spec.byName ensures name in parsed && parsed[name] == spec.byName[name] {
      assert Definition(name, spec.byName[name]) in spec.definitions;
    }
    forall name | name in parsed ensures name in spec.byName {
      assert Definition(name, parsed[name]) in spec.definitions;
    }
  }
}
