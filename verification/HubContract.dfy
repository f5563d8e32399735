/**
 The hub payload validator of frontend/app/hub-contract.ts: a recursive interpreter
 for a subset of OpenAPI Schema Objects with a cycle guard, `resolving`.

 A thrown HubContractError is `Rejected(path, expected)`. The path is kept relative to
 the value being validated; the callers prepend their own step, which yields the same
 absolute path as threading the prefix downwards does.
*/
module HubContract {
  import opened Basics

  // ----- Values and schemas -----

  /** What `response.json()` can produce; `NonFinite` is an overflowing number literal. */
  datatype Value =
    | Null
    | Bool(b: bool)
    | Num(n: real)
    | NonFinite(positive: bool)
    | Str(s: string)
    | Arr(items: seq<Value>)
    | Obj(fields: seq<Field>)

  datatype Field = Field(name: string, value: Value)

  datatype TypeSpec = Untyped | One(name: string) | Many(names: seq<string>)

  datatype Candidates = NoOneOf | OneOf(list: seq<Schema>)

  datatype Items = AnyItem | ItemSchema(schema: Schema)

  datatype Property = Property(name: string, schema: Schema)

  /**
   One Schema Object. `ref == ""` is an absent `$ref` (both are falsy in the source);
   absent `required` and `properties` behave as empty ones; `closed` says that
   `additionalProperties` is the literal `false`, the only value the source tests for.
  */
  datatype Schema = Schema(
    ref: string,
    typ: TypeSpec,
    nullable: bool,
    enumeration: Option<seq<Value>>,
    oneOf: Candidates,
    required: seq<string>,
    properties: seq<Property>,
    items: Items,
    closed: bool)

  type Schemas = map<string, Schema>

  datatype Step = Member(name: string) | Index(position: nat)

  datatype Expected =
    | DeclaredWireTypes
    | EnumMember(choices: seq<Value>)
    | WireType(name: string)
    | PresentField
    | DeclaredField
    | KnownSchema   // the TypeError raised by reading a property of an undefined schema

  datatype Outcome = Accepted | Rejected(path: seq<Step>, expected: Expected)

  function At(step: Step, r: Outcome): Outcome {
    match r
    case Accepted => Accepted
    case Rejected(path, expected) => Rejected([step] + path, expected)
  }

  /** The text after the last slash of a reference. */
  function RefName(ref: string): string {
    if ref == "" then ""
    else if ref[|ref| - 1] == '/' then ""
    else RefName(ref[..|ref| - 1]) + [ref[|ref| - 1]]
  }

  predicate HasOwn(fields: seq<Field>, name: string) {
    exists i | 0 <= i < |fields| :: fields[i].name == name
  }

  function Get(fields: seq<Field>, name: string): Value
    requires HasOwn(fields, name)
  {
    if fields[0].name == name then fields[0].value else Get(fields[1..], name)
  }

  predicate Declares(properties: seq<Property>, name: string) {
    exists i | 0 <= i < |properties| :: properties[i].name == name
  }

  /** `Array.includes`: compound values compare by identity, so only primitives match. */
  predicate Includes(choices: seq<Value>, value: Value) {
    !value.Arr? && !value.Obj? && value in choices
  }

  /** The scalar part of each `case` of the source's switch on the type name. */
  predicate HasShape(typeName: string, value: Value) {
    match typeName
    case "null" => value.Null?
    case "string" => value.Str?
    case "boolean" => value.Bool?
    case "number" => value.Num?
    case "integer" => value.Num? && value.n.Floor as real == value.n
    case "array" => value.Arr?
    case "object" => value.Obj?
    case _ => false
  }

  // ----- The validator -----

  /** hub-contract.ts `validate`: terminates on every schema set, cyclic ones included. */
  function Validate(schemas: Schemas, schema: Schema, value: Value, resolving: set<string>): (r: Outcome)
    decreases schemas.Keys - resolving, schema, 4
  {
    ValidateAs(schemas, schema, schema.typ, value, resolving)
  }

  /** `validate({ ...schema, type }, ...)`: the schema with its `type` replaced by `typ`. */
  function ValidateAs(
    schemas: Schemas, schema: Schema, typ: TypeSpec, value: Value, resolving: set<string>): (r: Outcome)
    decreases schemas.Keys - resolving, schema, if typ.Many? then 3 else 1
  {
    if value.Null? && schema.nullable then Accepted
    else if typ.Many? then
      if SomeType(schemas, schema, typ.names, value, resolving) then Accepted else Rejected([], DeclaredWireTypes)
    else if schema.oneOf.OneOf? then
      if SomeCandidate(schemas, schema.oneOf.list, value, resolving) then Accepted else Rejected([], DeclaredWireTypes)
    else if schema.ref != "" then
      var name := RefName(schema.ref);
      if name in resolving then Accepted
      else if name !in schemas then Rejected([], KnownSchema)
      else Validate(schemas, schemas[name], value, resolving + {name})
    else if schema.enumeration.Some? && !Includes(schema.enumeration.value, value) then
      Rejected([], EnumMember(schema.enumeration.value))
    else if typ.Untyped? then Accepted
    else if !HasShape(typ.name, value) then Rejected([], WireType(typ.name))
    else if value.Arr? then
      match schema.items
      case AnyItem => Accepted   // the empty schema accepts every item
      case ItemSchema(items) => ValidateItems(schemas, items, value.items, 0, resolving)
    else if value.Obj? then ValidateObject(schemas, schema, value.fields, resolving)
    else Accepted
  }

  /** The object case: required members, then declared ones, then undeclared ones. */
  function ValidateObject(schemas: Schemas, schema: Schema, fields: seq<Field>, resolving: set<string>): Outcome
    decreases schemas.Keys - resolving, schema, 0
  {
    var missing := FirstMissing(schema.required, fields);
    if missing.Some? then Rejected([Member(missing.value)], PresentField)
    else
      var members := ValidateProperties(schemas, schema.properties, fields, resolving);
      if members.Rejected? then members
      else if schema.closed then RejectUndeclared(schema.properties, fields)
      else Accepted
  }

  predicate SomeType(schemas: Schemas, schema: Schema, names: seq<string>, value: Value, resolving: set<string>)
    decreases schemas.Keys - resolving, schema, 2, |names|
  {
    names != [] &&
    (ValidateAs(schemas, schema, One(names[0]), value, resolving).Accepted?
     || SomeType(schemas, schema, names[1..], value, resolving))
  }

  predicate SomeCandidate(schemas: Schemas, list: seq<Schema>, value: Value, resolving: set<string>)
    decreases schemas.Keys - resolving, list
  {
    list != [] &&
    (Validate(schemas, list[0], value, resolving).Accepted?
     || SomeCandidate(schemas, list[1..], value, resolving))
  }

  function ValidateItems(
    schemas: Schemas, items: Schema, values: seq<Value>, from: nat, resolving: set<string>): Outcome
    requires from <= |values|
    decreases schemas.Keys - resolving, items, 5, |values| - from
  {
    if from == |values| then Accepted
    else
      var head := At(Index(from), Validate(schemas, items, values[from], resolving));
      if head.Rejected? then head else ValidateItems(schemas, items, values, from + 1, resolving)
  }

  function ValidateProperties(
    schemas: Schemas, properties: seq<Property>, fields: seq<Field>, resolving: set<string>): Outcome
    decreases schemas.Keys - resolving, properties
  {
    if properties == [] then Accepted
    else
      var p := properties[0];
      var head := if HasOwn(fields, p.name)
                  then At(Member(p.name), Validate(schemas, p.schema, Get(fields, p.name), resolving))
                  else Accepted;
      if head.Rejected? then head else ValidateProperties(schemas, properties[1..], fields, resolving)
  }

  function FirstMissing(required: seq<string>, fields: seq<Field>): Option<string> {
    if required == [] then None
    else if HasOwn(fields, required[0]) then FirstMissing(required[1..], fields)
    else Some(required[0])
  }

  function RejectUndeclared(properties: seq<Property>, fields: seq<Field>): Outcome {
    if fields == [] then Accepted
    else if Declares(properties, fields[0].name) then RejectUndeclared(properties, fields[1..])
    else Rejected([Member(fields[0].name)], DeclaredField)
  }

  /** hub-contract.ts `decodeHubPayload`: the payload itself, or the error that was thrown. */
  function DecodeHubPayload(schemas: Schemas, schemaName: string, value: Value): Result<Value, Outcome> {
    if schemaName !in schemas then Err(Rejected([], KnownSchema))
    else
      var r := Validate(schemas, schemas[schemaName], value, {});
      if r.Accepted? then Ok(value) else Err(r)
  }

  // ----- Declarative conformance -----

  /**
   Conformance stated without a `resolving` set, as the largest relation closed under
   the Schema Object rules. `oneOf` asks for at least one accepting candidate, as the
   code does.
  */
  greatest predicate Conforms[nat](schemas: Schemas, schema: Schema, typ: TypeSpec, value: Value) {
    (value.Null? && schema.nullable) ||
    if typ.Many? then
      exists i | 0 <= i < |typ.names| :: Conforms(schemas, schema, One(typ.names[i]), value)
    else if schema.oneOf.OneOf? then
      exists i | 0 <= i < |schema.oneOf.list| ::
        Conforms(schemas, schema.oneOf.list[i], schema.oneOf.list[i].typ, value)
    else if schema.ref != "" then
      RefName(schema.ref) in schemas &&
      Conforms(schemas, schemas[RefName(schema.ref)], schemas[RefName(schema.ref)].typ, value)
    else
      && (schema.enumeration.Some? ==> Includes(schema.enumeration.value, value))
      && (typ.One? ==>
            && HasShape(typ.name, value)
            && (value.Arr? && schema.items.ItemSchema? ==>
                  forall i | 0 <= i < |value.items| ::
                    Conforms(schemas, schema.items.schema, schema.items.schema.typ, value.items[i]))
            && (value.Obj? ==>
                  && (forall i | 0 <= i < |schema.required| :: HasOwn(value.fields, schema.required[i]))
                  && (forall i | 0 <= i < |schema.properties| ::
                        HasOwn(value.fields, schema.properties[i].name) ==>
                        Conforms(schemas, schema.properties[i].schema, schema.properties[i].schema.typ,
                                 Get(value.fields, schema.properties[i].name)))
                  && (schema.closed ==>
                        forall i | 0 <= i < |value.fields| ::
                          Declares(schema.properties, value.fields[i].name))))
  }

  // ----- The list helpers, as quantifiers -----

  predicate Accepts(schemas: Schemas, schema: Schema, value: Value, resolving: set<string>) {
    Validate(schemas, schema, value, resolving).Accepted?
  }

  lemma {:induction false} SomeTypeIsExists(
    schemas: Schemas, schema: Schema, names: seq<string>, value: Value, resolving: set<string>)
    ensures SomeType(schemas, schema, names, value, resolving) <==>
            exists i | 0 <= i < |names| :: ValidateAs(schemas, schema, One(names[i]), value, resolving).Accepted?
    decreases |names|
  {
    if names != [] {
      SomeTypeIsExists(schemas, schema, names[1..], value, resolving);
      assert forall i | 1 <= i < |names| :: names[i] == names[1..][i - 1];
    }
  }

  lemma {:induction false} SomeCandidateIsExists(
    schemas: Schemas, list: seq<Schema>, value: Value, resolving: set<string>)
    ensures SomeCandidate(schemas, list, value, resolving) <==>
            exists i | 0 <= i < |list| :: Accepts(schemas, list[i], value, resolving)
    decreases |list|
  {
    if list != [] {
      SomeCandidateIsExists(schemas, list[1..], value, resolving);
      assert forall i | 1 <= i < |list| :: list[i] == list[1..][i - 1];
      assert SomeCandidate(schemas, list, value, resolving) <==>
             Accepts(schemas, list[0], value, resolving) || SomeCandidate(schemas, list[1..], value, resolving);
    }
  }

  lemma {:induction false} ItemsAreForall(
    schemas: Schemas, items: Schema, values: seq<Value>, from: nat, resolving: set<string>)
    requires from <= |values|
    ensures ValidateItems(schemas, items, values, from, resolving).Accepted? <==>
            forall i | from <= i < |values| :: Accepts(schemas, items, values[i], resolving)
    decreases |values| - from
  {
    if from < |values| {
      ItemsAreForall(schemas, items, values, from + 1, resolving);
    }
  }

  predicate PropertyAccepts(schemas: Schemas, p: Property, fields: seq<Field>, resolving: set<string>) {
    HasOwn(fields, p.name) ==> Accepts(schemas, p.schema, Get(fields, p.name), resolving)
  }

  lemma {:induction false} PropertiesAreForall(
    schemas: Schemas, properties: seq<Property>, fields: seq<Field>, resolving: set<string>)
    ensures ValidateProperties(schemas, properties, fields, resolving).Accepted? <==>
            forall i | 0 <= i < |properties| :: PropertyAccepts(schemas, properties[i], fields, resolving)
    decreases |properties|
  {
    if properties != [] {
      PropertiesAreForall(schemas, properties[1..], fields, resolving);
      assert forall i | 1 <= i < |properties| :: properties[i] == properties[1..][i - 1];
      assert PropertyAccepts(schemas, properties[0], fields, resolving) ==>
             (ValidateProperties(schemas, properties, fields, resolving)
              == ValidateProperties(schemas, properties[1..], fields, resolving));
    }
  }

  lemma {:induction false} RequiredIsForall(required: seq<string>, fields: seq<Field>)
    ensures FirstMissing(required, fields).None? <==>
            forall i | 0 <= i < |required| :: HasOwn(fields, required[i])
  {
    if required != [] {
      RequiredIsForall(required[1..], fields);
      assert forall i | 1 <= i < |required| :: required[i] == required[1..][i - 1];
    }
  }

  lemma {:induction false} DeclaredIsForall(properties: seq<Property>, fields: seq<Field>)
    ensures RejectUndeclared(properties, fields).Accepted? <==>
            forall i | 0 <= i < |fields| :: Declares(properties, fields[i].name)
  {
    if fields != [] {
      DeclaredIsForall(properties, fields[1..]);
      assert forall i | 1 <= i < |fields| :: fields[i] == fields[1..][i - 1];
    }
  }

  /** What acceptance by a schema without `oneOf`, `$ref` and type list means. */
  ghost predicate PlainAccepts(schemas: Schemas, schema: Schema, typ: TypeSpec, value: Value, resolving: set<string>) {
    && (schema.enumeration.Some? ==> Includes(schema.enumeration.value, value))
    && (typ.One? ==>
          && HasShape(typ.name, value)
          && (value.Arr? && schema.items.ItemSchema? ==>
                forall i | 0 <= i < |value.items| :: Accepts(schemas, schema.items.schema, value.items[i], resolving))
          && (value.Obj? ==>
                && (forall i | 0 <= i < |schema.required| :: HasOwn(value.fields, schema.required[i]))
                && (forall i | 0 <= i < |schema.properties| ::
                      PropertyAccepts(schemas, schema.properties[i], value.fields, resolving))
                && (schema.closed ==>
                      forall i | 0 <= i < |value.fields| :: Declares(schema.properties, value.fields[i].name))))
  }

  lemma PlainAcceptsIsValidate(schemas: Schemas, schema: Schema, typ: TypeSpec, value: Value, resolving: set<string>)
    requires !(value.Null? && schema.nullable)
    requires !typ.Many? && schema.oneOf.NoOneOf? && schema.ref == ""
    ensures ValidateAs(schemas, schema, typ, value, resolving).Accepted? <==>
            PlainAccepts(schemas, schema, typ, value, resolving)
  {
    if value.Arr? && schema.items.ItemSchema? {
      ItemsAreForall(schemas, schema.items.schema, value.items, 0, resolving);
    } else if value.Obj? {
      RequiredIsForall(schema.required, value.fields);
      PropertiesAreForall(schemas, schema.properties, value.fields, resolving);
      DeclaredIsForall(schema.properties, value.fields);
    }
  }

  // ----- Enlarging `resolving` -----

  /** A larger guard set can only accept more values, through `oneOf` and type lists too. */
  lemma {:induction false} LargerGuardAcceptsMore(
    schemas: Schemas, schema: Schema, typ: TypeSpec, value: Value, small: set<string>, large: set<string>)
    requires small <= large
    requires ValidateAs(schemas, schema, typ, value, small).Accepted?
    ensures ValidateAs(schemas, schema, typ, value, large).Accepted?
    decreases schemas.Keys - small, schema, if typ.Many? then 1 else 0
  {
    if value.Null? && schema.nullable {
    } else if typ.Many? {
      SomeTypeIsExists(schemas, schema, typ.names, value, small);
      SomeTypeIsExists(schemas, schema, typ.names, value, large);
      var i :| 0 <= i < |typ.names| && ValidateAs(schemas, schema, One(typ.names[i]), value, small).Accepted?;
      LargerGuardAcceptsMore(schemas, schema, One(typ.names[i]), value, small, large);
    } else if schema.oneOf.OneOf? {
      SomeCandidateIsExists(schemas, schema.oneOf.list, value, small);
      SomeCandidateIsExists(schemas, schema.oneOf.list, value, large);
      var i :| 0 <= i < |schema.oneOf.list| && Accepts(schemas, schema.oneOf.list[i], value, small);
      var candidate := schema.oneOf.list[i];
      LargerGuardAcceptsMore(schemas, candidate, candidate.typ, value, small, large);
      assert Accepts(schemas, candidate, value, large);
    } else if schema.ref != "" {
      var name := RefName(schema.ref);
      if name !in large {
        LargerGuardAcceptsMore(schemas, schemas[name], schemas[name].typ, value, small + {name}, large + {name});
      }
    } else {
      PlainAcceptsIsValidate(schemas, schema, typ, value, small);
      PlainAcceptsIsValidate(schemas, schema, typ, value, large);
      if typ.One? && value.Arr? && schema.items.ItemSchema? {
        forall i | 0 <= i < |value.items|
          ensures Accepts(schemas, schema.items.schema, value.items[i], large)
        {
          assert Accepts(schemas, schema.items.schema, value.items[i], small);
          LargerGuardAcceptsMore(schemas, schema.items.schema, schema.items.schema.typ, value.items[i], small, large);
        }
      } else if typ.One? && value.Obj? {
        forall i | 0 <= i < |schema.properties|
          ensures PropertyAccepts(schemas, schema.properties[i], value.fields, large)
        {
          var p := schema.properties[i];
          assert PropertyAccepts(schemas, p, value.fields, small);
          if HasOwn(value.fields, p.name) {
            LargerGuardAcceptsMore(schemas, p.schema, p.schema.typ, Get(value.fields, p.name), small, large);
          }
        }
      }
    }
  }

  // ----- No conforming value is ever rejected -----

  /** On every schema set, cyclic ones included, a conforming value is accepted under every guard. */
  lemma {:induction false} ConformingIsAccepted(
    schemas: Schemas, schema: Schema, typ: TypeSpec, value: Value, resolving: set<string>)
    requires Conforms(schemas, schema, typ, value)
    ensures ValidateAs(schemas, schema, typ, value, resolving).Accepted?
    decreases schemas.Keys - resolving, schema, if typ.Many? then 1 else 0
  {
    if value.Null? && schema.nullable {
    } else if typ.Many? {
      SomeTypeIsExists(schemas, schema, typ.names, value, resolving);
      var i :| 0 <= i < |typ.names| && Conforms(schemas, schema, One(typ.names[i]), value);
      ConformingIsAccepted(schemas, schema, One(typ.names[i]), value, resolving);
    } else if schema.oneOf.OneOf? {
      SomeCandidateIsExists(schemas, schema.oneOf.list, value, resolving);
      var i :| 0 <= i < |schema.oneOf.list|
               && Conforms(schemas, schema.oneOf.list[i], schema.oneOf.list[i].typ, value);
      ConformingIsAccepted(schemas, schema.oneOf.list[i], schema.oneOf.list[i].typ, value, resolving);
      assert Accepts(schemas, schema.oneOf.list[i], value, resolving);
    } else if schema.ref != "" {
      var name := RefName(schema.ref);
      if name !in resolving {
        ConformingIsAccepted(schemas, schemas[name], schemas[name].typ, value, resolving + {name});
      }
    } else {
      PlainAcceptsIsValidate(schemas, schema, typ, value, resolving);
      if typ.One? && value.Arr? && schema.items.ItemSchema? {
        forall i | 0 <= i < |value.items|
          ensures Accepts(schemas, schema.items.schema, value.items[i], resolving)
        {
          ConformingIsAccepted(schemas, schema.items.schema, schema.items.schema.typ, value.items[i], resolving);
        }
      } else if typ.One? && value.Obj? {
        forall i | 0 <= i < |schema.properties|
          ensures PropertyAccepts(schemas, schema.properties[i], value.fields, resolving)
        {
          var p := schema.properties[i];
          if HasOwn(value.fields, p.name) {
            ConformingIsAccepted(schemas, p.schema, p.schema.typ, Get(value.fields, p.name), resolving);
          }
        }
      }
    }
  }

  // ----- Acyclic reference graphs -----

  /** Every reference occurring anywhere in `schema` has a rank below `bound`. */
  ghost predicate RefsBelow(schema: Schema, rank: map<string, nat>, bound: nat) {
    && (schema.ref != "" ==> RefName(schema.ref) in rank && rank[RefName(schema.ref)] < bound)
    && (schema.oneOf.OneOf? ==>
          forall i | 0 <= i < |schema.oneOf.list| :: RefsBelow(schema.oneOf.list[i], rank, bound))
    && (forall i | 0 <= i < |schema.properties| :: RefsBelow(schema.properties[i].schema, rank, bound))
    && (schema.items.ItemSchema? ==> RefsBelow(schema.items.schema, rank, bound))
  }

  /**
   `rank` witnesses that the references reachable from its names form no cycle: each
   ranked schema refers only to names of smaller rank.
  */
  ghost predicate Ranks(schemas: Schemas, rank: map<string, nat>) {
    forall name | name in rank && name in schemas :: RefsBelow(schemas[name], rank, rank[name])
  }

  /** The guard holds only names at or above `bound`, so no reference below `bound` meets it. */
  ghost predicate GuardAbove(resolving: set<string>, rank: map<string, nat>, bound: nat) {
    forall name | name in resolving :: name in rank && rank[name] >= bound
  }

  // ----- When the guard does no harm -----

  /**
   The value is accepted on the strength of guard hits that are themselves right: wherever
   a name repeats, the value at hand conforms to the named schema.
  */
  ghost predicate Backed(schemas: Schemas, schema: Schema, typ: TypeSpec, value: Value, resolving: set<string>)
    decreases schemas.Keys - resolving, schema, if typ.Many? then 1 else 0
  {
    (value.Null? && schema.nullable) ||
    if typ.Many? then
      exists i | 0 <= i < |typ.names| ::
        && ValidateAs(schemas, schema, One(typ.names[i]), value, resolving).Accepted?
        && Backed(schemas, schema, One(typ.names[i]), value, resolving)
    else if schema.oneOf.OneOf? then
      exists i | 0 <= i < |schema.oneOf.list| ::
        && Accepts(schemas, schema.oneOf.list[i], value, resolving)
        && Backed(schemas, schema.oneOf.list[i], schema.oneOf.list[i].typ, value, resolving)
    else if schema.ref != "" then
      var name := RefName(schema.ref);
      name in schemas &&
      if name in resolving then Conforms(schemas, schemas[name], schemas[name].typ, value)
      else Backed(schemas, schemas[name], schemas[name].typ, value, resolving + {name})
    else
      typ.One? ==>
        && (value.Arr? && schema.items.ItemSchema? ==>
              forall i | 0 <= i < |value.items| ::
                Backed(schemas, schema.items.schema, schema.items.schema.typ, value.items[i], resolving))
        && (value.Obj? ==>
              forall i | 0 <= i < |schema.properties| ::
                HasOwn(value.fields, schema.properties[i].name) ==>
                Backed(schemas, schema.properties[i].schema, schema.properties[i].schema.typ,
                       Get(value.fields, schema.properties[i].name), resolving))
  }

  lemma {:induction false} BackedConforms(
    schemas: Schemas, schema: Schema, typ: TypeSpec, value: Value, resolving: set<string>)
    requires ValidateAs(schemas, schema, typ, value, resolving).Accepted?
    requires Backed(schemas, schema, typ, value, resolving)
    ensures Conforms(schemas, schema, typ, value)
    decreases schemas.Keys - resolving, schema, if typ.Many? then 1 else 0
  {
    if value.Null? && schema.nullable {
    } else if typ.Many? {
      var i :| 0 <= i < |typ.names|
               && ValidateAs(schemas, schema, One(typ.names[i]), value, resolving).Accepted?
               && Backed(schemas, schema, One(typ.names[i]), value, resolving);
      BackedConforms(schemas, schema, One(typ.names[i]), value, resolving);
    } else if schema.oneOf.OneOf? {
      var i :| 0 <= i < |schema.oneOf.list| && Accepts(schemas, schema.oneOf.list[i], value, resolving)
               && Backed(schemas, schema.oneOf.list[i], schema.oneOf.list[i].typ, value, resolving);
      BackedConforms(schemas, schema.oneOf.list[i], schema.oneOf.list[i].typ, value, resolving);
    } else if schema.ref != "" {
      var name := RefName(schema.ref);
      if name !in resolving {
        BackedConforms(schemas, schemas[name], schemas[name].typ, value, resolving + {name});
      }
    } else {
      PlainAcceptsIsValidate(schemas, schema, typ, value, resolving);
      if typ.One? && value.Arr? && schema.items.ItemSchema? {
        forall i | 0 <= i < |value.items|
          ensures Conforms(schemas, schema.items.schema, schema.items.schema.typ, value.items[i])
        {
          assert Accepts(schemas, schema.items.schema, value.items[i], resolving);
          BackedConforms(schemas, schema.items.schema, schema.items.schema.typ, value.items[i], resolving);
        }
      } else if typ.One? && value.Obj? {
        forall i | 0 <= i < |schema.properties| && HasOwn(value.fields, schema.properties[i].name)
          ensures Conforms(schemas, schema.properties[i].schema, schema.properties[i].schema.typ,
                           Get(value.fields, schema.properties[i].name))
        {
          var p := schema.properties[i];
          assert PropertyAccepts(schemas, p, value.fields, resolving);
          BackedConforms(schemas, p.schema, p.schema.typ, Get(value.fields, p.name), resolving);
        }
      }
    }
  }

  lemma {:induction false} ConformingIsBacked(
    schemas: Schemas, schema: Schema, typ: TypeSpec, value: Value, resolving: set<string>)
    requires Conforms(schemas, schema, typ, value)
    ensures Backed(schemas, schema, typ, value, resolving)
    decreases schemas.Keys - resolving, schema, if typ.Many? then 1 else 0
  {
    if value.Null? && schema.nullable {
    } else if typ.Many? {
      var i :| 0 <= i < |typ.names| && Conforms(schemas, schema, One(typ.names[i]), value);
      ConformingIsAccepted(schemas, schema, One(typ.names[i]), value, resolving);
      ConformingIsBacked(schemas, schema, One(typ.names[i]), value, resolving);
    } else if schema.oneOf.OneOf? {
      var i :| 0 <= i < |schema.oneOf.list|
               && Conforms(schemas, schema.oneOf.list[i], schema.oneOf.list[i].typ, value);
      ConformingIsAccepted(schemas, schema.oneOf.list[i], schema.oneOf.list[i].typ, value, resolving);
      ConformingIsBacked(schemas, schema.oneOf.list[i], schema.oneOf.list[i].typ, value, resolving);
      assert Accepts(schemas, schema.oneOf.list[i], value, resolving);
    } else if schema.ref != "" {
      var name := RefName(schema.ref);
      if name !in resolving {
        ConformingIsBacked(schemas, schemas[name], schemas[name].typ, value, resolving + {name});
      }
    } else if typ.One? && value.Arr? && schema.items.ItemSchema? {
      forall i | 0 <= i < |value.items|
        ensures Backed(schemas, schema.items.schema, schema.items.schema.typ, value.items[i], resolving)
      {
        ConformingIsBacked(schemas, schema.items.schema, schema.items.schema.typ, value.items[i], resolving);
      }
    } else if typ.One? && value.Obj? {
      forall i | 0 <= i < |schema.properties| && HasOwn(value.fields, schema.properties[i].name)
        ensures Backed(schemas, schema.properties[i].schema, schema.properties[i].schema.typ,
                       Get(value.fields, schema.properties[i].name), resolving)
      {
        var p := schema.properties[i];
        ConformingIsBacked(schemas, p.schema, p.schema.typ, Get(value.fields, p.name), resolving);
      }
    }
  }

  /**
   On every schema set, cyclic ones included: an accepted value conforms exactly when the
   guard hits its acceptance rests on do.
  */
  lemma AcceptedConformsExactly(
    schemas: Schemas, schema: Schema, typ: TypeSpec, value: Value, resolving: set<string>)
    requires ValidateAs(schemas, schema, typ, value, resolving).Accepted?
    ensures Conforms(schemas, schema, typ, value) <==> Backed(schemas, schema, typ, value, resolving)
  {
    if Conforms(schemas, schema, typ, value) {
      ConformingIsBacked(schemas, schema, typ, value, resolving);
    }
    if Backed(schemas, schema, typ, value, resolving) {
      BackedConforms(schemas, schema, typ, value, resolving);
    }
  }

  /** No name repeats on any path the validator can take through this value. */
  ghost predicate NeverRepeats(schemas: Schemas, schema: Schema, typ: TypeSpec, value: Value, resolving: set<string>)
    decreases schemas.Keys - resolving, schema, if typ.Many? then 1 else 0
  {
    (value.Null? && schema.nullable) ||
    if typ.Many? then
      forall i | 0 <= i < |typ.names| :: NeverRepeats(schemas, schema, One(typ.names[i]), value, resolving)
    else if schema.oneOf.OneOf? then
      forall i | 0 <= i < |schema.oneOf.list| ::
        NeverRepeats(schemas, schema.oneOf.list[i], schema.oneOf.list[i].typ, value, resolving)
    else if schema.ref != "" then
      var name := RefName(schema.ref);
      name !in resolving &&
      (name in schemas ==> NeverRepeats(schemas, schemas[name], schemas[name].typ, value, resolving + {name}))
    else
      typ.One? ==>
        && (value.Arr? && schema.items.ItemSchema? ==>
              forall i | 0 <= i < |value.items| ::
                NeverRepeats(schemas, schema.items.schema, schema.items.schema.typ, value.items[i], resolving))
        && (value.Obj? ==>
              forall i | 0 <= i < |schema.properties| ::
                HasOwn(value.fields, schema.properties[i].name) ==>
                NeverRepeats(schemas, schema.properties[i].schema, schema.properties[i].schema.typ,
                             Get(value.fields, schema.properties[i].name), resolving))
  }

  /** Where no name repeats an accepted value needs no backing: cyclic sets included, it conforms. */
  lemma {:induction false} UnrepeatedIsBacked(
    schemas: Schemas, schema: Schema, typ: TypeSpec, value: Value, resolving: set<string>)
    requires ValidateAs(schemas, schema, typ, value, resolving).Accepted?
    requires NeverRepeats(schemas, schema, typ, value, resolving)
    ensures Backed(schemas, schema, typ, value, resolving)
    decreases schemas.Keys - resolving, schema, if typ.Many? then 1 else 0
  {
    if value.Null? && schema.nullable {
    } else if typ.Many? {
      SomeTypeIsExists(schemas, schema, typ.names, value, resolving);
      var i :| 0 <= i < |typ.names| && ValidateAs(schemas, schema, One(typ.names[i]), value, resolving).Accepted?;
      UnrepeatedIsBacked(schemas, schema, One(typ.names[i]), value, resolving);
    } else if schema.oneOf.OneOf? {
      SomeCandidateIsExists(schemas, schema.oneOf.list, value, resolving);
      var i :| 0 <= i < |schema.oneOf.list| && Accepts(schemas, schema.oneOf.list[i], value, resolving);
      UnrepeatedIsBacked(schemas, schema.oneOf.list[i], schema.oneOf.list[i].typ, value, resolving);
    } else if schema.ref != "" {
      var name := RefName(schema.ref);
      UnrepeatedIsBacked(schemas, schemas[name], schemas[name].typ, value, resolving + {name});
    } else {
      PlainAcceptsIsValidate(schemas, schema, typ, value, resolving);
      if typ.One? && value.Arr? && schema.items.ItemSchema? {
        forall i | 0 <= i < |value.items|
          ensures Backed(schemas, schema.items.schema, schema.items.schema.typ, value.items[i], resolving)
        {
          assert Accepts(schemas, schema.items.schema, value.items[i], resolving);
          UnrepeatedIsBacked(schemas, schema.items.schema, schema.items.schema.typ, value.items[i], resolving);
        }
      } else if typ.One? && value.Obj? {
        forall i | 0 <= i < |schema.properties| && HasOwn(value.fields, schema.properties[i].name)
          ensures Backed(schemas, schema.properties[i].schema, schema.properties[i].schema.typ,
                         Get(value.fields, schema.properties[i].name), resolving)
        {
          var p := schema.properties[i];
          assert PropertyAccepts(schemas, p, value.fields, resolving);
          UnrepeatedIsBacked(schemas, p.schema, p.schema.typ, Get(value.fields, p.name), resolving);
        }
      }
    }
  }

  /** References that strictly descend in rank never repeat, whatever the value. */
  lemma {:induction false} RankedNeverRepeats(
    schemas: Schemas, rank: map<string, nat>, bound: nat,
    schema: Schema, typ: TypeSpec, value: Value, resolving: set<string>)
    requires Ranks(schemas, rank) && RefsBelow(schema, rank, bound) && GuardAbove(resolving, rank, bound)
    ensures NeverRepeats(schemas, schema, typ, value, resolving)
    decreases schemas.Keys - resolving, schema, if typ.Many? then 1 else 0
  {
    if value.Null? && schema.nullable {
    } else if typ.Many? {
      forall i | 0 <= i < |typ.names|
        ensures NeverRepeats(schemas, schema, One(typ.names[i]), value, resolving)
      {
        RankedNeverRepeats(schemas, rank, bound, schema, One(typ.names[i]), value, resolving);
      }
    } else if schema.oneOf.OneOf? {
      forall i | 0 <= i < |schema.oneOf.list|
        ensures NeverRepeats(schemas, schema.oneOf.list[i], schema.oneOf.list[i].typ, value, resolving)
      {
        RankedNeverRepeats(schemas, rank, bound, schema.oneOf.list[i], schema.oneOf.list[i].typ, value, resolving);
      }
    } else if schema.ref != "" {
      var name := RefName(schema.ref);
      if name in schemas {
        RankedNeverRepeats(schemas, rank, rank[name], schemas[name], schemas[name].typ, value, resolving + {name});
      }
    } else if typ.One? && value.Arr? && schema.items.ItemSchema? {
      forall i | 0 <= i < |value.items|
        ensures NeverRepeats(schemas, schema.items.schema, schema.items.schema.typ, value.items[i], resolving)
      {
        var items := schema.items.schema;
        RankedNeverRepeats(schemas, rank, bound, items, items.typ, value.items[i], resolving);
      }
    } else if typ.One? && value.Obj? {
      forall i | 0 <= i < |schema.properties| && HasOwn(value.fields, schema.properties[i].name)
        ensures NeverRepeats(schemas, schema.properties[i].schema, schema.properties[i].schema.typ,
                             Get(value.fields, schema.properties[i].name), resolving)
      {
        var p := schema.properties[i];
        RankedNeverRepeats(schemas, rank, bound, p.schema, p.schema.typ, Get(value.fields, p.name), resolving);
      }
    }
  }

  /** Acceptance implies conformance wherever no name repeats, on every schema set. */
  lemma UnrepeatedConforms(
    schemas: Schemas, schema: Schema, typ: TypeSpec, value: Value, resolving: set<string>)
    requires NeverRepeats(schemas, schema, typ, value, resolving)
    ensures ValidateAs(schemas, schema, typ, value, resolving).Accepted? <==> Conforms(schemas, schema, typ, value)
  {
    if ValidateAs(schemas, schema, typ, value, resolving).Accepted? {
      UnrepeatedIsBacked(schemas, schema, typ, value, resolving);
      BackedConforms(schemas, schema, typ, value, resolving);
    }
    if Conforms(schemas, schema, typ, value) {
      ConformingIsAccepted(schemas, schema, typ, value, resolving);
    }
  }

  /** Acceptance implies conformance wherever references strictly descend in rank. */
  lemma AcceptedConforms(
    schemas: Schemas, rank: map<string, nat>, bound: nat,
    schema: Schema, typ: TypeSpec, value: Value, resolving: set<string>)
    requires Ranks(schemas, rank) && RefsBelow(schema, rank, bound) && GuardAbove(resolving, rank, bound)
    requires ValidateAs(schemas, schema, typ, value, resolving).Accepted?
    ensures Conforms(schemas, schema, typ, value)
  {
    RankedNeverRepeats(schemas, rank, bound, schema, typ, value, resolving);
    UnrepeatedConforms(schemas, schema, typ, value, resolving);
  }

  /**
   The validator decides conformance: for every entry schema whose reachable references
   are acyclic and every value, a payload decodes exactly when it conforms, and decodes
   to itself.
  */
  lemma DecodeIsConformance(schemas: Schemas, rank: map<string, nat>, schemaName: string, value: Value)
    requires Ranks(schemas, rank) && schemaName in rank && schemaName in schemas
    ensures DecodeHubPayload(schemas, schemaName, value).Ok? <==>
            Conforms(schemas, schemas[schemaName], schemas[schemaName].typ, value)
    ensures DecodeHubPayload(schemas, schemaName, value).Ok? ==>
            DecodeHubPayload(schemas, schemaName, value).value == value
  {
    var schema := schemas[schemaName];
    if Validate(schemas, schema, value, {}).Accepted? {
      AcceptedConforms(schemas, rank, rank[schemaName], schema, schema.typ, value, {});
    }
    if Conforms(schemas, schema, schema.typ, value) {
      ConformingIsAccepted(schemas, schema, schema.typ, value, {});
    }
  }

  // ----- A cyclic schema set accepts more -----

  function Bare(): Schema {
    Schema("", Untyped, false, None, NoOneOf, [], [], AnyItem, false)
  }

  /** A tree schema whose `child` refers back to the tree. */
  function TreeSchemas(): Schemas {
    map["Tree" := Bare().(typ := One("object"),
                          properties := [Property("child", Bare().(ref := "#/Tree"))])]
  }

  /** An object nested `depth` times around a number, which is not an object. */
  function Nested(depth: nat): Value {
    if depth == 0 then Num(0.0) else Obj([Field("child", Nested(depth - 1))])
  }

  lemma TreeRefName()
    ensures RefName("#/Tree") == "Tree"
  {
    assert "#/Tree"[..5] == "#/Tre" && "#/Tre"[..4] == "#/Tr" && "#/Tr"[..3] == "#/T" && "#/T"[..2] == "#/";
    assert RefName("#/") == "";
    assert RefName("#/T") == "T";
    assert RefName("#/Tr") == "Tr";
    assert RefName("#/Tre") == "Tre";
  }

  /**
   The guard is not reset on the way down, so on a cyclic set everything below the
   first repetition goes unchecked: every chain nested at least twice decodes, although
   none of them conforms.
  */
  lemma {:induction false} CyclicSetAcceptsNonconforming(depth: nat)
    ensures depth >= 2 ==> DecodeHubPayload(TreeSchemas(), "Tree", Nested(depth)).Ok?
    ensures !Conforms(TreeSchemas(), TreeSchemas()["Tree"], TreeSchemas()["Tree"].typ, Nested(depth))
  {
    TreeRefName();
    var schemas := TreeSchemas();
    var tree := schemas["Tree"];
    if depth > 0 {
      CyclicSetAcceptsNonconforming(depth - 1);
      var value := Nested(depth);
      assert value.fields[0].name == "child" && HasOwn(value.fields, "child");
      assert Get(value.fields, "child") == Nested(depth - 1);
      assert tree.properties[0].name == "child";
      assert !Conforms(schemas, tree.properties[0].schema, tree.properties[0].schema.typ, Nested(depth - 1));
      if depth >= 2 {
        var inner := Nested(depth - 1);
        assert inner.fields[0].name == "child" && HasOwn(inner.fields, "child");
        assert Accepts(schemas, tree.properties[0].schema, Get(inner.fields, "child"), {"Tree"});
        PropertiesAreForall(schemas, tree.properties, inner.fields, {"Tree"});
        PlainAcceptsIsValidate(schemas, tree, tree.typ, inner, {"Tree"});
        assert {} + {"Tree"} == {"Tree"};
        assert Accepts(schemas, tree.properties[0].schema, inner, {});
        PropertiesAreForall(schemas, tree.properties, value.fields, {});
        PlainAcceptsIsValidate(schemas, tree, tree.typ, value, {});
      }
    }
  }

  function LoopSchemas(): Schemas {
    map["A" := Bare().(ref := "#/A")]
  }

  greatest lemma LoopConforms[nat](value: Value)
    ensures Conforms(LoopSchemas(), LoopSchemas()["A"], LoopSchemas()["A"].typ, value)
  {
    assert "#/A"[..2] == "#/";
    assert RefName("#/") == "" && RefName("#/A") == "A";
    LoopConforms(value);
  }

  /** A cycle alone does no harm: a schema that only refers to itself accepts and admits every value. */
  lemma SelfReferenceAgrees(value: Value)
    ensures DecodeHubPayload(LoopSchemas(), "A", value).Ok?
    ensures Conforms(LoopSchemas(), LoopSchemas()["A"], LoopSchemas()["A"].typ, value)
  {
    LoopConforms(value);
    ConformingIsAccepted(LoopSchemas(), LoopSchemas()["A"], LoopSchemas()["A"].typ, value, {});
  }

  // ----- What each keyword asks of a value -----

  /** A number without a fraction. */
  function Whole(k: int): Value {
    Num(k as real)
  }

  /** The values of a wire type, type by type; any other name has none. */
  ghost predicate HasWireType(name: string, value: Value) {
    || (name == "null" && value == Null)
    || (name == "string" && exists text :: value == Str(text))
    || (name == "boolean" && (value == Bool(true) || value == Bool(false)))
    || (name == "number" && exists x: real :: value == Num(x))
    || (name == "integer" && exists k: int :: value == Whole(k))
    || (name == "array" && exists items :: value == Arr(items))
    || (name == "object" && exists fields :: value == Obj(fields))
  }

  /** `type`: exactly the values of that type; a number is finite, an integer has no fraction. */
  lemma TypeAccepts(schemas: Schemas, name: string, value: Value, resolving: set<string>)
    ensures Accepts(schemas, Bare().(typ := One(name)), value, resolving) <==> HasWireType(name, value)
  {
    PlainAcceptsIsValidate(schemas, Bare().(typ := One(name)), One(name), value, resolving);
    if value.Num? && name == "integer" {
      IntegersHaveNoFraction(value.n);
    }
  }

  lemma IntegersHaveNoFraction(x: real)
    ensures x.Floor as real == x <==> exists k: int :: Num(x) == Whole(k)
  {
    if x.Floor as real == x {
      assert Num(x) == Whole(x.Floor);
    }
  }

  /** `enum`: exactly the listed primitive values; compound values compare by identity. */
  lemma EnumAccepts(schemas: Schemas, choices: seq<Value>, value: Value, resolving: set<string>)
    ensures Accepts(schemas, Bare().(enumeration := Some(choices)), value, resolving) <==>
            && (exists i | 0 <= i < |choices| :: choices[i] == value)
            && (forall items :: value != Arr(items)) && (forall fields :: value != Obj(fields))
  {
    PlainAcceptsIsValidate(schemas, Bare().(enumeration := Some(choices)), Untyped, value, resolving);
    if value.Arr? {
      assert value == Arr(value.items);
    } else if value.Obj? {
      assert value == Obj(value.fields);
    }
  }

  lemma {:induction false} RefNameOfPath(prefix: string, name: string)
    requires '/' !in name
    ensures RefName(prefix + "/" + name) == name
    decreases |name|
  {
    var ref := prefix + "/" + name;
    if name != "" {
      var front := name[..|name| - 1];
      assert ref[..|ref| - 1] == prefix + "/" + front;
      assert ref[|ref| - 1] == name[|name| - 1] && name[|name| - 1] in name;
      RefNameOfPath(prefix, front);
      assert front + [name[|name| - 1]] == name;
    }
  }

  lemma {:induction false} RefNameOfName(name: string)
    requires '/' !in name
    ensures RefName(name) == name
  {
    if name != "" {
      assert name[|name| - 1] in name;
      RefNameOfName(name[..|name| - 1]);
    }
  }

  /** `$ref`: what the schema named behind the last slash asks, unless that name is being resolved. */
  lemma RefAccepts(schemas: Schemas, prefix: string, name: string, value: Value, resolving: set<string>)
    requires '/' !in name
    ensures Accepts(schemas, Bare().(ref := prefix + "/" + name), value, resolving) <==>
            name in resolving || (name in schemas && Accepts(schemas, schemas[name], value, resolving + {name}))
  {
    RefNameOfPath(prefix, name);
    var schema := Bare().(ref := prefix + "/" + name);
    assert |schema.ref| > 0;
    assert Accepts(schemas, schema, value, resolving) <==>
           ValidateAs(schemas, schema, Untyped, value, resolving).Accepted?;
  }

  /** `items`: every item, whatever its position. */
  lemma ItemsAccept(schemas: Schemas, items: Schema, values: seq<Value>, resolving: set<string>)
    ensures Accepts(schemas, Bare().(typ := One("array"), items := ItemSchema(items)), Arr(values), resolving) <==>
            forall i | 0 <= i < |values| :: Accepts(schemas, items, values[i], resolving)
  {
    var schema := Bare().(typ := One("array"), items := ItemSchema(items));
    PlainAcceptsIsValidate(schemas, schema, schema.typ, Arr(values), resolving);
  }

  /** Position `i` is the first field of that name, the only one in parsed JSON. */
  ghost predicate IsField(fields: seq<Field>, i: nat, name: string) {
    i < |fields| && fields[i].name == name && forall j | 0 <= j < i :: fields[j].name != name
  }

  ghost predicate HasField(fields: seq<Field>, name: string) {
    exists i: nat :: IsField(fields, i, name)
  }

  lemma {:induction false} FieldFound(fields: seq<Field>, name: string) returns (i: nat)
    requires HasOwn(fields, name)
    ensures IsField(fields, i, name) && Get(fields, name) == fields[i].value
  {
    if fields[0].name == name {
      i := 0;
    } else {
      var rest := fields[1..];
      assert fields == [fields[0]] + rest;
      i := FieldFound(rest, name);
      assert forall j | 0 < j <= i :: fields[j] == rest[j - 1];
      i := i + 1;
    }
  }

  lemma OwnFieldIsFirst(fields: seq<Field>, name: string)
    ensures HasOwn(fields, name) <==> HasField(fields, name)
    ensures forall i: nat | IsField(fields, i, name) :: HasOwn(fields, name) && Get(fields, name) == fields[i].value
  {
    if HasOwn(fields, name) {
      var i := FieldFound(fields, name);
    }
  }

  /** `required`, `properties` and `additionalProperties: false`, on the fields themselves. */
  lemma ObjectAccepts(
    schemas: Schemas, required: seq<string>, properties: seq<Property>, closed: bool,
    fields: seq<Field>, resolving: set<string>)
    ensures var schema :=
              Bare().(typ := One("object"), required := required, properties := properties, closed := closed);
            Accepts(schemas, schema, Obj(fields), resolving) <==>
            && (forall r | 0 <= r < |required| :: HasField(fields, required[r]))
            && (forall p, i: nat | 0 <= p < |properties| && IsField(fields, i, properties[p].name) ::
                  Accepts(schemas, properties[p].schema, fields[i].value, resolving))
            && (closed ==> forall i | 0 <= i < |fields| ::
                  exists p | 0 <= p < |properties| :: properties[p].name == fields[i].name)
  {
    var schema := Bare().(typ := One("object"), required := required, properties := properties, closed := closed);
    PlainAcceptsIsValidate(schemas, schema, schema.typ, Obj(fields), resolving);
    assert Accepts(schemas, schema, Obj(fields), resolving) <==>
           PlainAccepts(schemas, schema, schema.typ, Obj(fields), resolving);
    forall r | 0 <= r < |required|
      ensures HasOwn(fields, required[r]) <==> HasField(fields, required[r])
    {
      OwnFieldIsFirst(fields, required[r]);
    }
    forall p | 0 <= p < |properties|
      ensures PropertyAccepts(schemas, properties[p], fields, resolving) <==>
              forall i: nat | IsField(fields, i, properties[p].name) ::
                Accepts(schemas, properties[p].schema, fields[i].value, resolving)
    {
      OwnFieldIsFirst(fields, properties[p].name);
    }
  }

  // ----- The reported path -----

  /** The value at hand itself fails `expected`, by the schema that applies to it. */
  ghost predicate FaultHere(
    schemas: Schemas, schema: Schema, typ: TypeSpec, value: Value, resolving: set<string>, expected: Expected)
  {
    match expected
    case DeclaredWireTypes =>
      if typ.Many? then
        forall i | 0 <= i < |typ.names| ::
          ValidateAs(schemas, schema, One(typ.names[i]), value, resolving).Rejected?
      else
        schema.oneOf.OneOf? &&
        forall i | 0 <= i < |schema.oneOf.list| :: !Accepts(schemas, schema.oneOf.list[i], value, resolving)
    case KnownSchema =>
      !typ.Many? && schema.oneOf.NoOneOf? && schema.ref != ""
      && RefName(schema.ref) !in resolving && RefName(schema.ref) !in schemas
    case EnumMember(choices) =>
      IsPlain(schema, typ) && schema.enumeration == Some(choices) && !Includes(choices, value)
    case WireType(name) =>
      IsPlain(schema, typ) && typ == One(name) && !HasShape(name, value)
    case PresentField => false
    case DeclaredField => false
  }

  predicate IsPlain(schema: Schema, typ: TypeSpec) {
    !typ.Many? && schema.oneOf.NoOneOf? && schema.ref == ""
  }

  predicate IsTyped(schema: Schema, typ: TypeSpec, name: string) {
    IsPlain(schema, typ) && typ == One(name)
  }

  /**
   `path` leads from `value`, through the schemas that apply on the way, to a fault of the
   stated kind: a required member that is missing, an own member that a closed object does
   not declare, or a value that fails the schema in force there.
  */
  ghost predicate Explains(
    schemas: Schemas, schema: Schema, typ: TypeSpec, value: Value, resolving: set<string>,
    path: seq<Step>, expected: Expected)
    decreases schemas.Keys - resolving, schema
  {
    && !(value.Null? && schema.nullable)
    && (|| (path == [] && FaultHere(schemas, schema, typ, value, resolving, expected))
        || (!typ.Many? && schema.oneOf.NoOneOf? && schema.ref != ""
            && RefName(schema.ref) in schemas && RefName(schema.ref) !in resolving
            && Explains(schemas, schemas[RefName(schema.ref)], schemas[RefName(schema.ref)].typ, value,
                        resolving + {RefName(schema.ref)}, path, expected))
        || (path != [] && path[0].Index? && IsTyped(schema, typ, "array")
            && value.Arr? && path[0].position < |value.items| && schema.items.ItemSchema?
            && Explains(schemas, schema.items.schema, schema.items.schema.typ, value.items[path[0].position],
                        resolving, path[1..], expected))
        || (path != [] && path[0].Member? && IsTyped(schema, typ, "object") && value.Obj?
            && MemberFault(schemas, schema, value.fields, resolving, path[0].name, path[1..], expected)))
  }

  ghost predicate MemberFault(
    schemas: Schemas, schema: Schema, fields: seq<Field>, resolving: set<string>,
    name: string, rest: seq<Step>, expected: Expected)
    decreases schemas.Keys - resolving, schema, 0
  {
    || (rest == [] && expected.PresentField? && name in schema.required && !HasOwn(fields, name))
    || (rest == [] && expected.DeclaredField? && HasOwn(fields, name)
        && schema.closed && !Declares(schema.properties, name))
    || (HasOwn(fields, name) && exists i | 0 <= i < |schema.properties| ::
          && schema.properties[i].name == name
          && Explains(schemas, schema.properties[i].schema, schema.properties[i].schema.typ,
                      Get(fields, name), resolving, rest, expected))
  }

  lemma {:induction false} FirstRejectedItem(
    schemas: Schemas, items: Schema, values: seq<Value>, from: nat, resolving: set<string>) returns (i: nat)
    requires from <= |values| && ValidateItems(schemas, items, values, from, resolving).Rejected?
    ensures from <= i < |values| && Validate(schemas, items, values[i], resolving).Rejected?
    ensures ValidateItems(schemas, items, values, from, resolving)
            == At(Index(i), Validate(schemas, items, values[i], resolving))
    decreases |values| - from
  {
    if Validate(schemas, items, values[from], resolving).Rejected? {
      i := from;
    } else {
      i := FirstRejectedItem(schemas, items, values, from + 1, resolving);
    }
  }

  lemma {:induction false} FirstRejectedProperty(
    schemas: Schemas, properties: seq<Property>, fields: seq<Field>, resolving: set<string>) returns (i: nat)
    requires ValidateProperties(schemas, properties, fields, resolving).Rejected?
    ensures i < |properties| && HasOwn(fields, properties[i].name)
    ensures var sub := Validate(schemas, properties[i].schema, Get(fields, properties[i].name), resolving);
            sub.Rejected? &&
            ValidateProperties(schemas, properties, fields, resolving) == At(Member(properties[i].name), sub)
    decreases |properties|
  {
    var p := properties[0];
    if HasOwn(fields, p.name) && Validate(schemas, p.schema, Get(fields, p.name), resolving).Rejected? {
      i := 0;
    } else {
      var j := FirstRejectedProperty(schemas, properties[1..], fields, resolving);
      i := j + 1;
    }
  }

  lemma {:induction false} FirstMissingIsMissing(required: seq<string>, fields: seq<Field>)
    ensures FirstMissing(required, fields).Some? ==>
              FirstMissing(required, fields).value in required && !HasOwn(fields, FirstMissing(required, fields).value)
  {
    if required != [] {
      FirstMissingIsMissing(required[1..], fields);
    }
  }

  lemma {:induction false} UndeclaredIsOwn(properties: seq<Property>, fields: seq<Field>)
    ensures RejectUndeclared(properties, fields).Rejected? ==>
              exists i | 0 <= i < |fields| ::
                && RejectUndeclared(properties, fields) == Rejected([Member(fields[i].name)], DeclaredField)
                && !Declares(properties, fields[i].name)
  {
    if fields != [] {
      UndeclaredIsOwn(properties, fields[1..]);
      assert forall i | 1 <= i < |fields| :: fields[i] == fields[1..][i - 1];
    }
  }

  /** Every rejection points at a fault of the kind it names, inside the rejected payload. */
  lemma {:induction false} RejectionIsExplained(
    schemas: Schemas, schema: Schema, typ: TypeSpec, value: Value, resolving: set<string>)
    ensures var r := ValidateAs(schemas, schema, typ, value, resolving);
            r.Rejected? ==> Explains(schemas, schema, typ, value, resolving, r.path, r.expected)
    decreases schemas.Keys - resolving, schema
  {
    var r := ValidateAs(schemas, schema, typ, value, resolving);
    if r.Accepted? {
    } else if typ.Many? {
      SomeTypeIsExists(schemas, schema, typ.names, value, resolving);
    } else if schema.oneOf.OneOf? {
      SomeCandidateIsExists(schemas, schema.oneOf.list, value, resolving);
    } else if schema.ref != "" {
      var name := RefName(schema.ref);
      if name in schemas {
        RejectionIsExplained(schemas, schemas[name], schemas[name].typ, value, resolving + {name});
      }
    } else if schema.enumeration.Some? && !Includes(schema.enumeration.value, value) {
    } else if !HasShape(typ.name, value) {
    } else if value.Arr? {
      var items := schema.items.schema;
      var i := FirstRejectedItem(schemas, items, value.items, 0, resolving);
      RejectionIsExplained(schemas, items, items.typ, value.items[i], resolving);
      var sub := Validate(schemas, items, value.items[i], resolving);
      assert r.path[0] == Index(i) && r.path[1..] == sub.path;
    } else {
      ObjectRejectionIsExplained(schemas, schema, value.fields, resolving);
    }
  }

  lemma {:induction false} ObjectRejectionIsExplained(
    schemas: Schemas, schema: Schema, fields: seq<Field>, resolving: set<string>)
    requires ValidateObject(schemas, schema, fields, resolving).Rejected?
    ensures var r := ValidateObject(schemas, schema, fields, resolving);
            && r.path != [] && r.path[0].Member?
            && MemberFault(schemas, schema, fields, resolving, r.path[0].name, r.path[1..], r.expected)
    decreases schemas.Keys - resolving, schema, 0
  {
    var r := ValidateObject(schemas, schema, fields, resolving);
    FirstMissingIsMissing(schema.required, fields);
    if FirstMissing(schema.required, fields).None? {
      if ValidateProperties(schemas, schema.properties, fields, resolving).Rejected? {
        var i := FirstRejectedProperty(schemas, schema.properties, fields, resolving);
        var p := schema.properties[i];
        RejectionIsExplained(schemas, p.schema, p.schema.typ, Get(fields, p.name), resolving);
        var sub := Validate(schemas, p.schema, Get(fields, p.name), resolving);
        assert r.path[0] == Member(p.name) && r.path[1..] == sub.path;
      } else {
        UndeclaredIsOwn(schema.properties, fields);
      }
    }
  }

  /** And nothing else is an explanation: whatever can be explained is rejected. */
  lemma {:induction false} ExplainedIsRejected(
    schemas: Schemas, schema: Schema, typ: TypeSpec, value: Value, resolving: set<string>,
    path: seq<Step>, expected: Expected)
    requires Explains(schemas, schema, typ, value, resolving, path, expected)
    ensures ValidateAs(schemas, schema, typ, value, resolving).Rejected?
    decreases schemas.Keys - resolving, schema
  {
    if typ.Many? {
      SomeTypeIsExists(schemas, schema, typ.names, value, resolving);
    } else if schema.oneOf.OneOf? {
      SomeCandidateIsExists(schemas, schema.oneOf.list, value, resolving);
    } else if schema.ref != "" {
      var name := RefName(schema.ref);
      if name in schemas {
        ExplainedIsRejected(schemas, schemas[name], schemas[name].typ, value, resolving + {name}, path, expected);
      }
    } else {
      PlainAcceptsIsValidate(schemas, schema, typ, value, resolving);
      if path != [] && value.Arr? {
        var i := path[0].position;
        var items := schema.items.schema;
        ExplainedIsRejected(schemas, items, items.typ, value.items[i], resolving, path[1..], expected);
        assert !Accepts(schemas, items, value.items[i], resolving);
      } else if path != [] {
        MemberFaultIsRejected(schemas, schema, value.fields, resolving, path[0].name, path[1..], expected);
      }
    }
  }

  lemma {:induction false} MemberFaultIsRejected(
    schemas: Schemas, schema: Schema, fields: seq<Field>, resolving: set<string>,
    name: string, rest: seq<Step>, expected: Expected)
    requires MemberFault(schemas, schema, fields, resolving, name, rest, expected)
    ensures || (exists i | 0 <= i < |schema.required| :: !HasOwn(fields, schema.required[i]))
            || (exists i | 0 <= i < |schema.properties| ::
                  !PropertyAccepts(schemas, schema.properties[i], fields, resolving))
            || (schema.closed && exists i | 0 <= i < |fields| :: !Declares(schema.properties, fields[i].name))
    decreases schemas.Keys - resolving, schema, 0
  {
    if HasOwn(fields, name) {
      if !(rest == [] && expected.DeclaredField? && schema.closed && !Declares(schema.properties, name)) {
        var i :| 0 <= i < |schema.properties| && schema.properties[i].name == name
                 && Explains(schemas, schema.properties[i].schema, schema.properties[i].schema.typ,
                             Get(fields, name), resolving, rest, expected);
        var p := schema.properties[i];
        ExplainedIsRejected(schemas, p.schema, p.schema.typ, Get(fields, name), resolving, rest, expected);
        assert !PropertyAccepts(schemas, p, fields, resolving);
      }
    }
  }
}
