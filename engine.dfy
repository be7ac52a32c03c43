/** The generic property validation engine: one traversal, driven by an
    entity kind's property table, that turns a raw mapping into validated
    typed properties, recursing into nested nodes through the same tables,
    and stops at the first violation with an `InvalidProperty` error. */
module Engine {
  import opened Results
  import opened RawTree
  import opened Model
  import opened Schema

  /** The key an owned node is declared under: a non-empty string names a
      header or query parameter; a response is keyed by an integer status
      code. Any other key is malformed. */
  function KeyOf(entity: EntityKind, key: Raw): (k: Option<Key>)
    ensures entity != ResponseNode ==> (k.Some? <==> key.Str? && key.s != "")
    ensures entity != ResponseNode && k.Some? ==> k.value == Named(key.s)
    ensures entity == ResponseNode ==> (k.Some? <==> key.Int?)
    ensures entity == ResponseNode && k.Some? ==> k.value == Code(key.i)
  {
    if entity == ResponseNode then
      if key.Int? then Some(Code(key.i)) else None
    else if key.Str? && key.s != "" then Some(Named(key.s))
    else None
  }

  /** A raw key is one of the schema's property names. */
  predicate Known(schema: seq<Property>, key: Raw) {
    key.Str? && key.s in Names(schema)
  }

  /** The first key of `es` the schema does not recognize, named by the key
      itself when it is a string and by `owner` otherwise. */
  function UnknownKey(schema: seq<Property>, es: seq<Entry>, owner: string): (r: Option<string>)
    ensures r.None? <==> forall i :: 0 <= i < |es| ==> Known(schema, es[i].key)
    ensures r.Some? ==> exists i :: 0 <= i < |es| && !Known(schema, es[i].key) &&
                          r.value == (if es[i].key.Str? then es[i].key.s else owner)
  {
    if es == [] then None
    else if !Known(schema, es[0].key) then
      Some(if es[0].key.Str? then es[0].key.s else owner)
    else
      var r := UnknownKey(schema, es[1..], owner);
      assert forall i :: 1 <= i < |es| ==> es[i] == es[1..][i - 1];
      r
  }

  /** The strings of a list whose items are all strings. */
  function Strings(items: seq<Raw>): (r: seq<string>)
    requires forall x :: x in items ==> x.Str?
    ensures |r| == |items|
    ensures forall i :: 0 <= i < |items| ==> items[i] == Str(r[i])
  {
    if items == [] then [] else [items[0].s] + Strings(items[1..])
  }

  /** Checks one raw value against the kind its property declares; `owner`
      is the property name an error reports. */
  function ValidateValue(kind: Kind, raw: Raw, owner: string): (r: Result<Value>)
    decreases Size(raw), 0
    ensures r.Err? ==> r.error.InvalidProperty?
    ensures r.Err? && !(kind.MapOf? && raw.Mapping?) ==> r.error == InvalidProperty(owner)
    ensures kind.MapOf? && raw.Mapping? && r.Err? ==>
      exists i :: 0 <= i < |raw.entries| &&
        (EntryValueSmaller(raw.entries, i); MemberFails(kind.entity, raw.entries[i], owner, r.error))
    ensures kind == StringType ==> (r.Ok? <==> raw.Str?) && (r.Ok? ==> r.value == Text(raw.s))
    ensures kind == IntegerType ==> (r.Ok? <==> raw.Int?) && (r.Ok? ==> r.value == Integer(raw.i))
    ensures kind == BooleanType ==> (r.Ok? <==> raw.Bool?) && (r.Ok? ==> r.value == Boolean(raw.b))
    ensures kind == ScalarType ==> (r.Ok? <==> raw.Str? || raw.Int? || raw.Bool?)
    ensures kind == ScalarType && raw.Str? ==> r == Ok(Text(raw.s))
    ensures kind == ScalarType && raw.Int? ==> r == Ok(Integer(raw.i))
    ensures kind == ScalarType && raw.Bool? ==> r == Ok(Boolean(raw.b))
    ensures kind.EnumType? ==> (r.Ok? <==> raw.Str? && raw.s in kind.choices)
    ensures kind.EnumType? && r.Ok? ==> r.value == Text(raw.s)
    ensures kind.EnumListType? ==>
      (r.Ok? <==> raw.List? && forall x :: x in raw.items ==> x.Str? && x.s in kind.choices)
    ensures kind.EnumListType? && r.Ok? ==>
      && r.value.Texts?
      && |r.value.items| == |raw.items|
      && forall i :: 0 <= i < |raw.items| ==> raw.items[i] == Str(r.value.items[i])
    ensures kind.MapOf? && r.Ok? ==> raw.Mapping? && r.value.Members?
  {
    match kind
    case StringType =>
      if raw.Str? then Ok(Text(raw.s)) else Err(InvalidProperty(owner))
    case IntegerType =>
      if raw.Int? then Ok(Integer(raw.i)) else Err(InvalidProperty(owner))
    case BooleanType =>
      if raw.Bool? then Ok(Boolean(raw.b)) else Err(InvalidProperty(owner))
    case ScalarType =>
      (match raw
       case Str(s) => Ok(Text(s))
       case Int(i) => Ok(Integer(i))
       case Bool(b) => Ok(Boolean(b))
       case _ => Err(InvalidProperty(owner)))
    case EnumType(choices) =>
      if raw.Str? && raw.s in choices then Ok(Text(raw.s)) else Err(InvalidProperty(owner))
    case EnumListType(choices) =>
      if raw.List? && forall x :: x in raw.items ==> x.Str? && x.s in choices
      then Ok(Texts(Strings(raw.items)))
      else Err(InvalidProperty(owner))
    case MapOf(entity) =>
      if raw.Mapping? then
        var members :- ValidateMembers(entity, raw.entries, owner);
        Ok(Members(members))
      else Err(InvalidProperty(owner))
  }

  /** The error `err` is how entry `e` of a collection of `entity` nodes
      fails: a malformed key or a non-mapping value, reported against the
      collection's own name `owner`, or the failure of its own mapping,
      unchanged. */
  predicate MemberFails(entity: EntityKind, e: Entry, owner: string, err: Error)
    decreases Size(e.value), 4
  {
    if KeyOf(entity, e.key).None? || !e.value.Mapping? then err == InvalidProperty(owner)
    else ValidateFields(SchemaOf(entity), e.value.entries, owner) == Err(err)
  }

  /** Builds one node of kind `entity` per entry of a collection mapping.
      A malformed key or a value that is not a mapping is reported against
      the collection's own name `owner`; a failure inside a node propagates
      unchanged. */
  function ValidateMembers(entity: EntityKind, es: seq<Entry>, owner: string): (r: Result<seq<Entity>>)
    decreases EntriesSize(es), 1
    ensures r.Err? ==> r.error.InvalidProperty?
    ensures r.Err? ==> exists i :: 0 <= i < |es| && (EntryValueSmaller(es, i); MemberFails(entity, es[i], owner, r.error))
    ensures r.Ok? ==> |r.value| == |es|
    ensures r.Ok? ==> forall i :: 0 <= i < |es| ==>
                        r.value[i].kind == entity && KeyOf(entity, es[i].key) == Some(r.value[i].key)
    ensures r.Ok? ==> forall i :: 0 <= i < |es| ==>
                        && es[i].value.Mapping?
                        && (EntryValueSmaller(es, i);
                            ValidateFields(SchemaOf(entity), es[i].value.entries, owner) == Ok(r.value[i].fields))
  {
    if es == [] then Ok([])
    else
      var key := KeyOf(entity, es[0].key);
      if key.None? || !es[0].value.Mapping? then Err(InvalidProperty(owner))
      else
        assert EntriesSize(es) == Size(es[0].key) + Size(es[0].value) + EntriesSize(es[1..]);
        assert Size(es[0].value) == 1 + EntriesSize(es[0].value.entries);
        var fields :- ValidateFields(SchemaOf(entity), es[0].value.entries, owner);
        var rest := ValidateMembers(entity, es[1..], owner);
        assert forall i :: 1 <= i < |es| ==> es[i] == es[1..][i - 1];
        if rest.Err? then Err(rest.error)
        else Ok([Entity(entity, key.value, fields)] + rest.value)
  }

  /** The error `err` names an unrecognised key of `es`: the key itself when
      it is a string, `owner` otherwise. */
  predicate KeyRejected(schema: seq<Property>, es: seq<Entry>, owner: string, err: Error) {
    exists i :: 0 <= i < |es| && !Known(schema, es[i].key) &&
      err == InvalidProperty(if es[i].key.Str? then es[i].key.s else owner)
  }

  /** The error `err` is how property `p` fails on `es`: missing although
      required, or present with a value whose check fails with `err`. */
  predicate PropertyFails(p: Property, es: seq<Entry>, err: Error)
    decreases EntriesSize(es), 1
  {
    match Lookup(es, p.name)
    case None => p.required && err == InvalidProperty(p.name)
    case Some(raw) => ValidateValue(p.kind, raw, p.name) == Err(err)
  }

  /** Validates a node's raw mapping against its property table: every key
      must be a recognized property name, then every property is checked in
      table order. */
  function ValidateFields(schema: seq<Property>, es: seq<Entry>, owner: string): (r: Result<map<string, Value>>)
    decreases EntriesSize(es), 3
    ensures r.Err? ==> r.error.InvalidProperty?
    ensures r.Ok? ==> forall i :: 0 <= i < |es| ==> Known(schema, es[i].key)
    ensures (exists i :: 0 <= i < |es| && !Known(schema, es[i].key)) ==>
      r.Err? && KeyRejected(schema, es, owner, r.error)
    ensures r.Err? ==>
      KeyRejected(schema, es, owner, r.error) || exists j :: 0 <= j < |schema| && PropertyFails(schema[j], es, r.error)
  {
    match UnknownKey(schema, es, owner)
    case Some(name) => Err(InvalidProperty(name))
    case None => CollectFields(schema, es)
  }

  /** Checks the properties `ps` in order: a present value must have its
      declared kind, an absent required property is an error, an absent
      optional property takes its default when it has one. A failure names
      the property that failed, or comes unchanged from its value's check. */
  function CollectFields(ps: seq<Property>, es: seq<Entry>): (r: Result<map<string, Value>>)
    decreases EntriesSize(es), 2, |ps|
    ensures r.Err? ==> r.error.InvalidProperty?
    ensures r.Err? ==> exists j :: 0 <= j < |ps| && PropertyFails(ps[j], es, r.error)
    ensures r.Ok? ==> r.value.Keys <= set j | 0 <= j < |ps| :: ps[j].name
  {
    if ps == [] then Ok(map[])
    else
      var p := ps[0];
      assert forall k :: 1 <= k < |ps| ==> ps[k] == ps[1..][k - 1];
      match Lookup(es, p.name)
      case Some(raw) =>
        var value :- ValidateValue(p.kind, raw, p.name);
        var rest := CollectFields(ps[1..], es);
        if rest.Err? then Err(rest.error) else Ok(rest.value[p.name := value])
      case None =>
        if p.required then Err(InvalidProperty(p.name))
        else
          var rest := CollectFields(ps[1..], es);
          if rest.Err? then Err(rest.error)
          else Ok(if p.default.Some? then rest.value[p.name := p.default.value] else rest.value)
  }
}
