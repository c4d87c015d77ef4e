/**
 What a loaded schema says about the raw keywords it was read from, which raw schemas are accepted, and what it means
 for a feature to occur in a schema; all told without the loader's own functions.
 */
module SchemaMeaning {
  import opened Wrappers
  import opened SchemaLoader
  import opened SchemaUsage

  // ---- types -------------------------------------------------------------------------

  /** The six type names and the kinds they stand for. */
  predicate Spells(kind: Kind, name: string) {
    match kind
    case KindObject => name == "object"
    case KindString => name == "string"
    case KindInteger => name == "integer"
    case KindNumber => name == "number"
    case KindBoolean => name == "boolean"
    case KindArray => name == "array"
    case KindRef => false
  }

  ghost predicate IsTypeName(name: string) {
    exists kind :: Spells(kind, name)
  }

  /** The only entry of a type list that is not `null`. */
  ghost predicate OnlyType(names: seq<string>, i: nat) {
    i < |names| && names[i] != "null" && forall j :: 0 <= j < |names| && j != i ==> names[j] == "null"
  }

  /** The keywords give the node this kind. */
  ghost predicate HasKind(raw: Raw, kind: Kind, nullable: bool) {
    match raw.types
    case TypeName(name) => Spells(kind, name) && !nullable
    case TypeNames(names) =>
      (exists i: nat :: OnlyType(names, i) && Spells(kind, names[i])) && (nullable <==> "null" in names)
    case NoType =>
      && kind == KindString && !nullable
      && raw.metadata.Some? && (raw.metadata.value.enum.Some? || raw.metadata.value.constant.Some?)
    case NotAType => false
  }

  lemma NameSpells(name: string)
    ensures KindByName(name).Some? <==> IsTypeName(name)
    ensures KindByName(name).Some? ==> Spells(KindByName(name).value, name)
    ensures forall kind :: Spells(kind, name) ==> KindByName(name) == Some(kind)
  {
    assert Spells(KindObject, "object") && Spells(KindString, "string") && Spells(KindInteger, "integer");
    assert Spells(KindNumber, "number") && Spells(KindBoolean, "boolean") && Spells(KindArray, "array");
  }

  ghost predicate AllNull(names: seq<string>) {
    forall i :: 0 <= i < |names| ==> names[i] == "null"
  }

  lemma OnlyTypeOfTail(names: seq<string>, i: nat)
    requires names != []
    ensures names[0] == "null" ==> (OnlyType(names, i + 1) <==> OnlyType(names[1..], i)) && !OnlyType(names, 0)
    ensures names[0] != "null" ==> (OnlyType(names, 0) <==> AllNull(names[1..])) && !OnlyType(names, i + 1)
    ensures AllNull(names) <==> names[0] == "null" && AllNull(names[1..])
  {
    assert forall j :: 0 <= j < |names| - 1 ==> names[1..][j] == names[j + 1];
    assert forall j :: 0 < j < |names| ==> names[j] == names[1..][j - 1];
  }

  /** What the scan of a type list finds, with or without a type found before. */
  lemma {:induction false} ListKind(names: seq<string>, kind: Option<Kind>, nullable: bool)
    ensures var r := KindFromList(names, kind, nullable);
            && (r.Some? ==> r.value.nullable == (nullable || "null" in names))
            && (kind.Some? ==> (r.Some? <==> AllNull(names)) && (r.Some? ==> r.value.kind == kind.value))
            && (kind.None? ==> (r.Some? <==> exists i: nat :: OnlyType(names, i) && IsTypeName(names[i])))
            && (kind.None? && r.Some? ==> forall i: nat :: OnlyType(names, i) ==> Spells(r.value.kind, names[i]))
  {
    if names != [] {
      var rest := names[1..];
      NameSpells(names[0]);
      ListKind(rest, kind, true);
      ListKind(rest, KindByName(names[0]), nullable);
      hide KindByName, IsTypeName, Spells;
      assert names == [names[0]] + rest;
      forall i: nat
        ensures names[0] == "null" ==> (OnlyType(names, i + 1) <==> OnlyType(rest, i)) && !OnlyType(names, 0)
        ensures names[0] != "null" ==> (OnlyType(names, 0) <==> AllNull(rest)) && !OnlyType(names, i + 1)
      {
        OnlyTypeOfTail(names, i);
      }
      OnlyTypeOfTail(names, 0);
      hide AllNull, OnlyType;
      OnlyTypeMoves(names);
    }
  }

  /** The only type of a list starting with a null is that of its tail; otherwise it is the first entry. */
  lemma OnlyTypeMoves(names: seq<string>)
    requires names != []
    ensures names[0] == "null" ==>
              ((exists i: nat :: OnlyType(names, i) && IsTypeName(names[i]))
                 <==> exists i: nat :: OnlyType(names[1..], i) && IsTypeName(names[1..][i]))
    ensures names[0] == "null" ==> forall i: nat :: OnlyType(names, i) ==> i > 0 && OnlyType(names[1..], i - 1)
    ensures names[0] != "null" ==> forall i: nat :: OnlyType(names, i) ==> i == 0 && AllNull(names[1..])
    ensures names[0] != "null" && AllNull(names[1..]) ==> OnlyType(names, 0)
  {
    hide IsTypeName;
    forall i: nat | OnlyType(names, i)
      ensures names[0] == "null" ==> i > 0 && OnlyType(names[1..], i - 1)
      ensures names[0] != "null" ==> i == 0 && AllNull(names[1..])
    {
      OnlyTypeOfTail(names, if i > 0 then i - 1 else 0);
    }
    forall i: nat | OnlyType(names[1..], i)
      ensures names[0] == "null" ==> OnlyType(names, i + 1)
    {
      OnlyTypeOfTail(names, i);
    }
    OnlyTypeOfTail(names, 0);
  }

  /** A node has a kind exactly if its keywords give it one, and it is that one. */
  lemma KindIsSpelled(raw: Raw)
    ensures SchemaKind(raw).Some? ==> HasKind(raw, SchemaKind(raw).value.kind, SchemaKind(raw).value.nullable)
    ensures forall kind, nullable :: HasKind(raw, kind, nullable) ==> SchemaKind(raw) == Some(Typed(kind, nullable))
  {
    match raw.types {
      case TypeName(name) => NameSpells(name);
      case TypeNames(names) =>
        ListKind(names, None, false);
        forall i: nat | OnlyType(names, i) ensures IsTypeName(names[i]) <==> KindByName(names[i]).Some? {
          NameSpells(names[i]);
        }
        forall i: nat, kind | OnlyType(names, i) && Spells(kind, names[i])
          ensures IsTypeName(names[i]) && forall k :: Spells(k, names[i]) ==> k == kind
        {
          NameSpells(names[i]);
        }
      case _ =>
    }
  }

  // ---- loaded schemas -------------------------------------------------------------------

  function OrElse<T>(o: Option<T>, default: T): T {
    if o.Some? then o.value else default
  }

  /**
   Main result: what an accepted node becomes. Its kind is the one its type spells, its other keywords are kept as
   they are, and only objects have properties and only arrays items.
   */
  lemma NodeIsKept(defs: Definitions, raw: Raw)
    requires RawOk(defs, raw) && raw.ref.None?
    ensures var s, m := Translate(raw), raw.metadata.value;
            && HasKind(raw, s.kind, s.nullable)
            && s.enum == OrElse(m.enum, []) && s.constant == OrElse(m.constant, "")
            && s.format == m.format && s.goType == m.goType && s.minimum == m.minimum
            && (s.kind != KindObject || raw.properties.NoProperties? ==> s.properties == [])
            && (s.kind != KindArray ==> s.items == None) && s.refName == ""
  {
    KindIsSpelled(raw);
    hide HasKind, SchemaKind, TranslateList;
  }

  /** A reference becomes the name of its target and nothing else. */
  lemma ReferenceIsKept(defs: Definitions, raw: Raw)
    requires RawOk(defs, raw) && raw.ref.Some?
    ensures raw.ref.value.Target?
    ensures Translate(raw) == Schema(KindRef, false, [], "", "", "", None, [], None, raw.ref.value.name)
  {
  }

  /** The properties of an object in order, each with its own schema, required exactly if it is listed as such. */
  lemma {:induction false} PropertiesAreKept(list: seq<RawProperty>, required: seq<string>)
    requires forall i :: 0 <= i < |list| ==> list[i].schema.Some?
    ensures var properties := TranslateList(list, required);
            && |properties| == |list|
            && forall i :: 0 <= i < |list| ==>
                 && properties[i].name == list[i].name && properties[i].schema == Translate(list[i].schema.value)
                 && (properties[i].required <==> list[i].name in required)
  {
    hide Translate;
    if list != [] {
      PropertiesAreKept(list[1..], required);
      var head := Property(list[0].name, Translate(list[0].schema.value), list[0].name in required);
      assert TranslateList(list, required) == [head] + TranslateList(list[1..], required);
    }
  }

  lemma ChildrenAreKept(defs: Definitions, raw: Raw)
    requires RawOk(defs, raw) && raw.ref.None?
    ensures Translate(raw).kind == KindArray ==>
              raw.items.Items? && Translate(raw).items == Some(Translate(raw.items.raw))
    ensures Translate(raw).kind == KindObject && raw.properties.Properties? ==>
              && raw.required.Some? && |Translate(raw).properties| == |raw.properties.list|
              && forall i :: 0 <= i < |raw.properties.list| ==>
                   var p, kept := raw.properties.list[i], Translate(raw).properties[i];
                   && p.schema.Some? && kept.name == p.name && kept.schema == Translate(p.schema.value)
                   && (kept.required <==> p.name in raw.required.value)
  {
    hide SchemaKind, TranslateList, MetadataOk;
    if Translate(raw).kind == KindObject && raw.properties.Properties? {
      PropertiesAreKept(raw.properties.list, raw.required.value);
    }
  }

  // ---- what is accepted ------------------------------------------------------------------

  /** Enums and constants are for strings, and the only bound is the zero of an unsigned integer. */
  ghost predicate KeywordsFit(kind: Kind, m: Metadata) {
    && (m.enum.Some? ==>
          && kind == KindString && |m.enum.value| > 0
          && forall i, j :: 0 <= i < j < |m.enum.value| ==> m.enum.value[i] != m.enum.value[j])
    && (m.constant.Some? ==> kind == KindString)
    && m.maximum == None
    && (m.minimum.Some? ==> m.minimum == Some(0.0) && kind == KindInteger && m.goType == "uint64")
  }

  ghost predicate ObjectFits(defs: Definitions, raw: Raw) {
    match raw.properties
    case NoProperties => true
    case NotAnObject => false
    case Properties(list) =>
      && raw.required.Some?
      && (forall name :: name in raw.required.value ==> exists p :: p in list && p.name == name)
      && forall i :: 0 <= i < |list| ==> list[i].schema.Some? && RawOk(defs, list[i].schema.value)
  }

  /** Main result: exactly these raw schemas are accepted, references to missing or misplaced definitions apart. */
  lemma WhatIsAccepted(defs: Definitions, raw: Raw)
    ensures raw.ref.Some? ==>
              (RawOk(defs, raw) <==>
                 raw.ref.value.Target? && raw.ref.value.name in defs
                 && defs[raw.ref.value.name].file == raw.ref.value.file)
    ensures raw.ref.None? ==>
              (RawOk(defs, raw) <==>
                 && !raw.unsupported && raw.metadata.Some?
                 && exists kind, nullable ::
                      && HasKind(raw, kind, nullable) && KeywordsFit(kind, raw.metadata.value)
                      && (kind == KindObject ==> ObjectFits(defs, raw))
                      && (kind == KindArray ==> raw.items.Items? && RawOk(defs, raw.items.raw)))
  {
    KindIsSpelled(raw);
    hide HasKind, SchemaKind;
    if raw.ref.None? && SchemaKind(raw).Some? && raw.metadata.Some? {
      MetadataFits(SchemaKind(raw).value.kind, raw.metadata.value);
      hide MetadataOk, KeywordsFit;
    }
  }

  lemma MetadataFits(kind: Kind, m: Metadata)
    ensures MetadataOk(kind, m) <==> KeywordsFit(kind, m)
  {
  }

  // ---- where a feature occurs -----------------------------------------------------------------

  /** The part of a schema reached through properties, by number, and items, by 0. */
  function PartAt(schema: Schema, path: seq<nat>): Option<Schema>
    decreases path
  {
    if path == [] then Some(schema)
    else if schema.kind == KindObject && path[0] < |schema.properties| then
      PartAt(schema.properties[path[0]].schema, path[1..])
    else if schema.kind == KindArray && schema.items.Some? && path[0] == 0 then PartAt(schema.items.value, path[1..])
    else None
  }

  predicate Shows(part: Option<Schema>, f: Feature) {
    && part.Some?
    && match f
       case Timestamp => part.value.kind == KindString && part.value.format == "date-time"
       case Uuid => part.value.kind == KindString && part.value.format == "uuid"
       case Integer => part.value.kind == KindInteger
  }

  /** A schema contains a feature exactly if one of its parts shows it. */
  lemma ContainsMeansPart(schema: Schema, f: Feature)
    ensures Contains(schema, f) <==> HasPart(schema, f)
  {
    hide Contains;
    if Contains(schema, f) {
      var path := PathTo(schema, f);
    }
    if HasPart(schema, f) {
      var path: seq<nat> :| Shows(PartAt(schema, path), f);
      PartIsContained(schema, path, f);
    }
  }

  ghost predicate HasPart(schema: Schema, f: Feature) {
    exists path: seq<nat> :: Shows(PartAt(schema, path), f)
  }

  lemma {:induction false} PathTo(schema: Schema, f: Feature) returns (path: seq<nat>)
    requires Contains(schema, f)
    ensures Shows(PartAt(schema, path), f)
    decreases schema
  {
    if IsFeature(schema, f) {
      path := [];
    } else if schema.kind == KindObject {
      var i: nat :| i < |schema.properties| && Contains(schema.properties[i].schema, f);
      var rest := PathTo(schema.properties[i].schema, f);
      path := [i] + rest;
      assert path[1..] == rest;
    } else {
      var rest := PathTo(schema.items.value, f);
      path := [0] + rest;
      assert path[1..] == rest;
    }
  }

  lemma {:induction false} PartIsContained(schema: Schema, path: seq<nat>, f: Feature)
    requires Shows(PartAt(schema, path), f)
    ensures Contains(schema, f)
    decreases path
  {
    if path != [] {
      if schema.kind == KindObject {
        PartIsContained(schema.properties[path[0]].schema, path[1..], f);
      } else {
        PartIsContained(schema.items.value, path[1..], f);
      }
    }
  }

  predicate IsRefTo(part: Option<Schema>, name: string) {
    part.Some? && part.value.kind == KindRef && part.value.refName == name
  }

  /** A schema refers to a name exactly if one of its parts is a reference to it. */
  lemma RefersMeansPart(schema: Schema, name: string)
    ensures RefersTo(schema, name) <==> HasReference(schema, name)
  {
    hide RefersTo;
    if RefersTo(schema, name) {
      var path := PathToRef(schema, name);
    }
    if HasReference(schema, name) {
      var path: seq<nat> :| IsRefTo(PartAt(schema, path), name);
      PartRefers(schema, path, name);
    }
  }

  ghost predicate HasReference(schema: Schema, name: string) {
    exists path: seq<nat> :: IsRefTo(PartAt(schema, path), name)
  }

  lemma {:induction false} PathToRef(schema: Schema, name: string) returns (path: seq<nat>)
    requires RefersTo(schema, name)
    ensures IsRefTo(PartAt(schema, path), name)
    decreases schema
  {
    if schema.kind == KindRef {
      path := [];
    } else if schema.kind == KindObject {
      var i: nat :| i < |schema.properties| && RefersTo(schema.properties[i].schema, name);
      var rest := PathToRef(schema.properties[i].schema, name);
      path := [i] + rest;
      assert path[1..] == rest;
    } else {
      var rest := PathToRef(schema.items.value, name);
      path := [0] + rest;
      assert path[1..] == rest;
    }
  }

  lemma {:induction false} PartRefers(schema: Schema, path: seq<nat>, name: string)
    requires IsRefTo(PartAt(schema, path), name)
    ensures RefersTo(schema, name)
    decreases path
  {
    if path != [] {
      if schema.kind == KindObject {
        PartRefers(schema.properties[path[0]].schema, path[1..], name);
      } else {
        PartRefers(schema.items.value, path[1..], name);
      }
    }
  }
}
