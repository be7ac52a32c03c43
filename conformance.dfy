/** A declarative statement of when a raw tree conforms to a property table,
    independent of the order in which the engine checks things, and the
    proofs that the engine accepts exactly the conforming trees and stores
    every present property's validated value under its name. */
module Conformance {
  import opened Results
  import opened RawTree
  import opened Model
  import opened Schema
  import opened Engine

  ghost predicate ValueConforms(kind: Kind, raw: Raw)
    decreases Size(raw), 0
  {
    match kind
    case StringType => raw.Str?
    case IntegerType => raw.Int?
    case BooleanType => raw.Bool?
    case ScalarType => raw.Str? || raw.Int? || raw.Bool?
    case EnumType(choices) => raw.Str? && raw.s in choices
    case EnumListType(choices) => raw.List? && forall x :: x in raw.items ==> x.Str? && x.s in choices
    case MapOf(entity) => raw.Mapping? && MembersConform(entity, raw.entries)
  }

  /** Every entry of a collection conforms. */
  ghost predicate MembersConform(entity: EntityKind, es: seq<Entry>)
    decreases EntriesSize(es), 1
  {
    forall i :: 0 <= i < |es| ==> (EntryValueSmaller(es, i); EntryConforms(entity, es[i]))
  }

  /** One collection entry: a well-formed key and a mapping value that
      conforms to the table of `entity`. */
  ghost predicate EntryConforms(entity: EntityKind, e: Entry)
    decreases Size(e.value), 3
  {
    && KeyOf(entity, e.key).Some?
    && e.value.Mapping?
    && FieldsConform(SchemaOf(entity), e.value.entries)
  }

  /** No unknown key, and every property of the table is satisfied. */
  ghost predicate FieldsConform(schema: seq<Property>, es: seq<Entry>)
    decreases EntriesSize(es), 2
  {
    && (forall i :: 0 <= i < |es| ==> Known(schema, es[i].key))
    && (forall j :: 0 <= j < |schema| ==> PropertyConforms(schema[j], es))
  }

  /** A required property is present, and a present value has its kind. */
  ghost predicate PropertyConforms(p: Property, es: seq<Entry>)
    decreases EntriesSize(es), 1
  {
    match Lookup(es, p.name)
    case None => !p.required
    case Some(raw) => ValueConforms(p.kind, raw)
  }

  lemma {:induction false} ValueAccepted(kind: Kind, raw: Raw, owner: string)
    decreases Size(raw), 0
    ensures ValidateValue(kind, raw, owner).Ok? <==> ValueConforms(kind, raw)
  {
    if kind.MapOf? && raw.Mapping? {
      MembersAccepted(kind.entity, raw.entries, owner);
    }
  }

  lemma {:induction false} MembersAccepted(entity: EntityKind, es: seq<Entry>, owner: string)
    decreases EntriesSize(es), 1
    ensures ValidateMembers(entity, es, owner).Ok? <==> MembersConform(entity, es)
  {
    if es != [] {
      assert EntriesSize(es) == Size(es[0].key) + Size(es[0].value) + EntriesSize(es[1..]);
      MembersAccepted(entity, es[1..], owner);
      if KeyOf(entity, es[0].key).Some? && es[0].value.Mapping? {
        assert Size(es[0].value) == 1 + EntriesSize(es[0].value.entries);
        FieldsAccepted(SchemaOf(entity), es[0].value.entries, owner);
      }
      MembersConformCons(entity, es);
      MembersOkCons(entity, es, owner);
    }
  }

  /** One step of the engine over a collection: it succeeds exactly when the
      first entry is a well-formed node and the rest succeed. */
  lemma MembersOkCons(entity: EntityKind, es: seq<Entry>, owner: string)
    requires es != []
    ensures ValidateMembers(entity, es, owner).Ok? <==>
      && KeyOf(entity, es[0].key).Some?
      && es[0].value.Mapping?
      && ValidateFields(SchemaOf(entity), es[0].value.entries, owner).Ok?
      && ValidateMembers(entity, es[1..], owner).Ok?
  {
  }

  /** One step of the engine over a collection whose first entry is a
      well-formed node: a failure of the rest is the collection's failure. */
  lemma MembersErrCons(entity: EntityKind, es: seq<Entry>, owner: string)
    requires es != []
    requires KeyOf(entity, es[0].key).Some? && es[0].value.Mapping?
    requires ValidateFields(SchemaOf(entity), es[0].value.entries, owner).Ok?
    ensures ValidateMembers(entity, es[1..], owner).Err? ==>
      ValidateMembers(entity, es, owner) == ValidateMembers(entity, es[1..], owner)
  {
  }

  lemma MembersConformCons(entity: EntityKind, es: seq<Entry>)
    requires es != []
    ensures MembersConform(entity, es) <==> EntryConforms(entity, es[0]) && MembersConform(entity, es[1..])
  {
    assert forall i :: 1 <= i < |es| ==> es[i] == es[1..][i - 1];
  }

  lemma {:induction false} FieldsAccepted(schema: seq<Property>, es: seq<Entry>, owner: string)
    decreases EntriesSize(es), 3
    ensures ValidateFields(schema, es, owner).Ok? <==> FieldsConform(schema, es)
  {
    CollectAccepted(schema, es);
  }

  lemma {:induction false} CollectAccepted(ps: seq<Property>, es: seq<Entry>)
    decreases EntriesSize(es), 2, |ps|
    ensures CollectFields(ps, es).Ok? <==> forall j :: 0 <= j < |ps| ==> PropertyConforms(ps[j], es)
  {
    if ps != [] {
      var p := ps[0];
      CollectAccepted(ps[1..], es);
      assert forall j :: 1 <= j < |ps| ==> ps[j] == ps[1..][j - 1];
      match Lookup(es, p.name)
      case Some(raw) =>
        ValueAccepted(p.kind, raw, p.name);
      case None =>
    }
  }

  /** Round trip: after a successful check of a table with distinct names,
      a present property holds the validated form of its raw value, and an
      absent one is stored exactly when it has a default, as that default. */
  lemma {:induction false} CollectStores(ps: seq<Property>, es: seq<Entry>, j: nat)
    requires CollectFields(ps, es).Ok?
    requires DistinctNames(ps)
    requires j < |ps|
    ensures var f := CollectFields(ps, es).value;
      match Lookup(es, ps[j].name)
      case Some(raw) =>
        ps[j].name in f && ValidateValue(ps[j].kind, raw, ps[j].name) == Ok(f[ps[j].name])
      case None =>
        && (ps[j].name in f <==> ps[j].default.Some?)
        && (ps[j].name in f ==> f[ps[j].name] == ps[j].default.value)
    decreases |ps|
  {
    CollectHead(ps, es);
    var rest := CollectFields(ps[1..], es).value;
    assert forall k :: 1 <= k < |ps| ==> ps[k] == ps[1..][k - 1];
    if j > 0 {
      CollectStores(ps[1..], es, j - 1);
      assert ps[0].name != ps[j].name;
    } else {
      assert ps[0].name !in rest.Keys;
    }
  }

  /** One step of the property walk: what the first property adds to the
      properties validated after it. */
  lemma CollectHead(ps: seq<Property>, es: seq<Entry>)
    requires ps != [] && CollectFields(ps, es).Ok?
    ensures CollectFields(ps[1..], es).Ok?
    ensures var f := CollectFields(ps, es).value;
      var rest := CollectFields(ps[1..], es).value;
      match Lookup(es, ps[0].name)
      case Some(raw) =>
        ValidateValue(ps[0].kind, raw, ps[0].name).Ok? &&
        f == rest[ps[0].name := ValidateValue(ps[0].kind, raw, ps[0].name).value]
      case None =>
        f == if ps[0].default.Some? then rest[ps[0].name := ps[0].default.value] else rest
  {
  }

  /** Round trip for a validated node: property `p`, listed once in the
      table, holds the validated form of its raw value when present, and its
      default, if any, when absent. */
  lemma FieldStored(schema: seq<Property>, es: seq<Entry>, owner: string, j: nat, p: Property)
    requires ValidateFields(schema, es, owner).Ok?
    requires DistinctNames(schema)
    requires j < |schema| && schema[j] == p
    ensures var f := ValidateFields(schema, es, owner).value;
      match Lookup(es, p.name)
      case Some(raw) => p.name in f && ValidateValue(p.kind, raw, p.name) == Ok(f[p.name])
      case None =>
        && (p.name in f <==> p.default.Some?)
        && (p.name in f ==> f[p.name] == p.default.value)
  {
    CollectStores(schema, es, j);
  }

  /** A collection value validates to the nodes built from its entries. */
  lemma MapOfValue(entity: EntityKind, raw: Raw, owner: string)
    requires ValidateValue(MapOf(entity), raw, owner).Ok?
    ensures raw.Mapping?
    ensures ValidateMembers(entity, raw.entries, owner).Ok?
    ensures ValidateValue(MapOf(entity), raw, owner).value == Members(ValidateMembers(entity, raw.entries, owner).value)
  {
  }

  /** Parameter nodes are named by their raw keys exactly as written. */
  lemma MembersNamed(entity: EntityKind, es: seq<Entry>, owner: string)
    requires entity != ResponseNode
    requires ValidateMembers(entity, es, owner).Ok?
    ensures var ms := ValidateMembers(entity, es, owner).value;
      && |ms| == |es|
      && forall i :: 0 <= i < |ms| ==>
           ms[i].kind == entity && ms[i].key.Named? && es[i].key == Str(ms[i].key.name)
  {
    var ms := ValidateMembers(entity, es, owner).value;
    forall i | 0 <= i < |ms|
      ensures ms[i].kind == entity && ms[i].key.Named? && es[i].key == Str(ms[i].key.name)
    {
      assert KeyOf(entity, es[i].key) == Some(ms[i].key);
    }
  }

  /** A collection is reported against its own name at the first entry with
      a malformed key or a non-mapping value, once every entry before it is
      a conforming node. */
  lemma {:induction false} MembersShapeError(entity: EntityKind, es: seq<Entry>, owner: string, i: nat)
    requires i < |es|
    requires KeyOf(entity, es[i].key).None? || !es[i].value.Mapping?
    requires forall j :: 0 <= j < i ==> EntryConforms(entity, es[j])
    ensures ValidateMembers(entity, es, owner) == Err(InvalidProperty(owner))
    decreases i
  {
    if i > 0 {
      assert EntryConforms(entity, es[0]);
      FieldsAccepted(SchemaOf(entity), es[0].value.entries, owner);
      assert forall j :: 1 <= j < |es| ==> es[j] == es[1..][j - 1];
      MembersShapeError(entity, es[1..], owner, i - 1);
    }
  }

  /** A failure inside a collection's node is the collection's failure,
      unchanged, once every entry before it is a conforming node. */
  lemma {:induction false} MembersNodeError(entity: EntityKind, es: seq<Entry>, owner: string, i: nat, err: Error)
    requires i < |es|
    requires KeyOf(entity, es[i].key).Some? && es[i].value.Mapping?
    requires ValidateFields(SchemaOf(entity), es[i].value.entries, owner) == Err(err)
    requires forall j :: 0 <= j < i ==> EntryConforms(entity, es[j])
    ensures ValidateMembers(entity, es, owner) == Err(err)
    decreases i
  {
    if i == 0 {
      assert ValidateFields(SchemaOf(entity), es[0].value.entries, owner) == Err(err);
    } else {
      assert EntryConforms(entity, es[0]);
      FieldsAccepted(SchemaOf(entity), es[0].value.entries, owner);
      assert es[1..][i - 1] == es[i];
      assert forall j :: 0 <= j < i - 1 ==> es[1..][j] == es[j + 1];
      MembersNodeError(entity, es[1..], owner, i - 1, err);
      MembersErrCons(entity, es, owner);
    }
  }

  /** Optional properties without defaults that are all absent contribute
      nothing. */
  lemma {:induction false} CollectAbsent(ps: seq<Property>, es: seq<Entry>)
    requires forall k :: 0 <= k < |ps| ==>
      Lookup(es, ps[k].name).None? && !ps[k].required && ps[k].default.None?
    ensures CollectFields(ps, es) == Ok(map[])
    decreases |ps|
  {
    if ps != [] {
      assert forall k :: 1 <= k < |ps| ==> ps[k] == ps[1..][k - 1];
      CollectAbsent(ps[1..], es);
    }
  }

  /** A mapping holding one property `n` of a table of optional properties
      without defaults validates to exactly that property's validated value,
      or fails with that value's own error. */
  lemma {:induction false} CollectSingle(ps: seq<Property>, n: string, raw: Raw, j: nat)
    requires DistinctNames(ps)
    requires j < |ps| && ps[j].name == n
    requires forall k :: 0 <= k < |ps| ==> !ps[k].required && ps[k].default.None?
    ensures CollectFields(ps, [Entry(Str(n), raw)]) ==
      match ValidateValue(ps[j].kind, raw, n)
      case Err(e) => Err(e)
      case Ok(v) => Ok(map[n := v])
    decreases |ps|
  {
    var es := [Entry(Str(n), raw)];
    assert forall k :: 1 <= k < |ps| ==> ps[k] == ps[1..][k - 1];
    if j == 0 {
      LookupFirst(es, n, 0);
      forall k | 0 <= k < |ps[1..]|
        ensures Lookup(es, ps[1..][k].name).None?
      {
        LookupMissing(es, ps[1..][k].name);
      }
      CollectAbsent(ps[1..], es);
    } else {
      LookupMissing(es, ps[0].name);
      CollectSingle(ps[1..], n, raw, j - 1);
    }
  }
}
