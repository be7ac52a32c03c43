/** `Raml::Method`: a RAML method node built from an HTTP verb and the raw
    mapping under it. The verb must be one of the supported set; the mapping
    is validated against the method's property table by the generic engine.
    Construction is all or nothing: a Method or exactly one error. */
module RamlMethod {
  import opened Results
  import opened RawTree
  import opened Model
  import opened Schema
  import opened Engine
  import opened Conformance

  /** The verbs of RFC 2616 and RFC 5789 a method node may be named by. */
  const SupportedVerbs: seq<string> :=
    ["options", "get", "head", "post", "put", "delete", "trace", "connect", "patch"]

  /** The verb check applied before any property is looked at. */
  function CheckName(name: string): (r: Result<string>)
    ensures r.Ok? <==> name in SupportedVerbs
    ensures r.Ok? ==> r.value == name
    ensures r.Err? ==> r.error == InvalidMethod(name)
  {
    if name in SupportedVerbs then Ok(name) else Err(InvalidMethod(name))
  }

  /** A validated method: its verb and its validated properties. */
  datatype Method = Method(name: string, fields: map<string, Value>)

  /** The property entries under a method: an absent body (`get:` with
      nothing under it) has none; anything but a mapping is malformed. */
  function Properties(data: Raw): (r: Option<seq<Entry>>)
    ensures r.Some? <==> data.Null? || data.Mapping?
    ensures data.Mapping? ==> r == Some(data.entries)
    ensures data.Null? ==> r == Some([])
  {
    match data
    case Null => Some([])
    case Mapping(es) => Some(es)
    case _ => None
  }

  /** `Raml::Method.new(name, data)`. */
  function Construct(name: string, data: Raw): (r: Result<Method>)
    ensures r.Err? && r.error.InvalidMethod? <==> name !in SupportedVerbs
    ensures r.Err? && r.error.InvalidMethod? ==> r.error.name == name
    ensures r.Ok? ==> r.value.name == name
  {
    var verb :- CheckName(name);
    match Properties(data)
    case None => Err(InvalidProperty(name))
    case Some(es) =>
      var fields :- ValidateFields(SchemaOf(MethodNode), es, name);
      Ok(Method(verb, fields))
  }

  /** The stored description, when one was given. */
  function Description(m: Method): (d: Option<string>)
    ensures d.Some? <==> "description" in m.fields && m.fields["description"].Text?
    ensures d.Some? ==> m.fields["description"] == Text(d.value)
  {
    if "description" in m.fields && m.fields["description"].Text?
    then Some(m.fields["description"].s)
    else None
  }

  /** The nodes stored under a collection property, empty when absent. */
  function MembersOf(m: Method, property: string): seq<Entity> {
    if property in m.fields && m.fields[property].Members?
    then m.fields[property].entities
    else []
  }

  /** `#headers`: the header nodes stored under `headers`, none when it is
      unset. */
  function Headers(m: Method): (hs: seq<Entity>)
    ensures "headers" in m.fields && m.fields["headers"].Members? ==> hs == m.fields["headers"].entities
    ensures !("headers" in m.fields && m.fields["headers"].Members?) ==> hs == []
  {
    MembersOf(m, "headers")
  }

  function QueryParameters(m: Method): seq<Entity> {
    MembersOf(m, "queryParameters")
  }

  function Responses(m: Method): seq<Entity> {
    MembersOf(m, "responses")
  }

  function ProtocolList(m: Method): seq<string> {
    if "protocols" in m.fields && m.fields["protocols"].Texts?
    then m.fields["protocols"].items
    else []
  }

  /** The name a parameter node was declared under; a response is keyed by
      its status code instead and has no name. */
  function KeyText(k: Key): string {
    match k
    case Named(name) => name
    case Code(_) => ""
  }

  /** `headers.map(&:name)`. */
  function HeaderNames(m: Method): (names: seq<string>)
    ensures |names| == |Headers(m)|
    ensures forall i :: 0 <= i < |names| ==> names[i] == KeyText(Headers(m)[i].key)
  {
    var hs := Headers(m);
    seq(|hs|, i requires 0 <= i < |hs| => KeyText(hs[i].key))
  }

  /** `#document`: the verb, then the description when there is one, then
      one line per header name. Only its inclusion of the description is
      relied on. */
  function Document(m: Method): (doc: string)
    ensures |doc| >= |m.name|
    ensures doc[..|m.name|] == m.name
  {
    m.name
    + (match Description(m) case Some(d) => "\n" + d case None => "")
    + Lines(HeaderNames(m))
  }

  function Lines(items: seq<string>): string {
    if items == [] then "" else "\n" + items[0] + Lines(items[1..])
  }

  /** `t` occurs in `s` as a contiguous substring. */
  predicate Contains(s: string, t: string) {
    exists i :: 0 <= i <= |s| && t <= s[i..]
  }

  /** The raw mapping is an acceptable method body. */
  ghost predicate BodyConforms(data: Raw) {
    match Properties(data)
    case None => false
    case Some(es) => FieldsConform(SchemaOf(MethodNode), es)
  }

  /** Construction succeeds exactly when the verb is supported and the body
      conforms to the method's property table. */
  lemma ConstructSucceedsIff(name: string, data: Raw)
    ensures Construct(name, data).Ok? <==> name in SupportedVerbs && BodyConforms(data)
  {
    if name in SupportedVerbs && Properties(data).Some? {
      FieldsAccepted(SchemaOf(MethodNode), Properties(data).value, name);
    }
  }

  /** Every failure that is not a bad verb names a property. */
  lemma ConstructErrors(name: string, data: Raw)
    requires Construct(name, data).Err?
    ensures name in SupportedVerbs ==> Construct(name, data).error.InvalidProperty?
    ensures name !in SupportedVerbs ==> Construct(name, data) == Err(InvalidMethod(name))
  {
  }

  /** Every `InvalidProperty` names what is wrong with the body: the body
      itself, named by the verb, when it is not a mapping; otherwise an
      unrecognised key, or a property of the method's table whose value
      fails, with that value's own error, which for a collection is the
      error of the offending node or of the collection itself. */
  lemma ConstructErrorNamed(name: string, data: Raw)
    requires name in SupportedVerbs
    requires Construct(name, data).Err?
    ensures Properties(data).None? ==> Construct(name, data).error == InvalidProperty(name)
    ensures Properties(data).Some? ==>
      var sc := SchemaOf(MethodNode);
      var err := Construct(name, data).error;
      || KeyRejected(sc, Properties(data).value, name, err)
      || exists j :: 0 <= j < |sc| && PropertyFails(sc[j], Properties(data).value, err)
  {
  }

  /** A built method's documentation is never empty: it starts with the
      verb, and every supported verb is a non-empty word. */
  lemma DocumentNonEmpty(name: string, data: Raw)
    requires Construct(name, data).Ok?
    ensures |Document(Construct(name, data).value)| > 0
  {
    assert name in SupportedVerbs;
    assert |name| > 0;
  }

  /** Whether construction succeeds does not depend on which supported verb
      names the method. */
  lemma VerbIrrelevantToBody(v1: string, v2: string, data: Raw)
    requires v1 in SupportedVerbs && v2 in SupportedVerbs
    ensures Construct(v1, data).Ok? == Construct(v2, data).Ok?
  {
    ConstructSucceedsIff(v1, data);
    ConstructSucceedsIff(v2, data);
  }

  /** A built method holds the verb and the validated body. */
  lemma ConstructedFields(name: string, data: Raw)
    requires Construct(name, data).Ok?
    ensures Properties(data).Some?
    ensures ValidateFields(SchemaOf(MethodNode), Properties(data).value, name).Ok?
    ensures Construct(name, data).value ==
      Method(name, ValidateFields(SchemaOf(MethodNode), Properties(data).value, name).value)
  {
  }

  /** The description round trip: a built method's description is exactly
      the string given under `description`, and it is unset when none was
      given. */
  lemma DescriptionStored(name: string, data: Raw)
    requires Construct(name, data).Ok?
    ensures var es := Properties(data).value;
      match Lookup(es, "description")
      case None => Description(Construct(name, data).value) == None
      case Some(raw) => raw.Str? && Description(Construct(name, data).value) == Some(raw.s)
  {
    var es := Properties(data).value;
    var m := Construct(name, data).value;
    ConstructedFields(name, data);
    FieldStored(SchemaOf(MethodNode), es, name, 0, DescriptionProperty);
  }

  /** The headers of a built method are Header nodes, one per entry of the
      raw `headers` mapping, in order, each named by its key exactly as
      written. */
  lemma HeadersStored(name: string, data: Raw)
    requires Construct(name, data).Ok?
    ensures var hs := Headers(Construct(name, data).value);
      && (forall i :: 0 <= i < |hs| ==> hs[i].kind == HeaderNode && hs[i].key.Named?)
      && match Lookup(Properties(data).value, "headers")
         case None => hs == []
         case Some(raw) =>
           && raw.Mapping?
           && |hs| == |raw.entries|
           && (forall i :: 0 <= i < |hs| ==> raw.entries[i].key == Str(hs[i].key.name))
           && forall i :: 0 <= i < |hs| ==>
                raw.entries[i].value.Mapping? &&
                ValidateFields(SchemaOf(HeaderNode), raw.entries[i].value.entries, "headers") == Ok(hs[i].fields)
  {
    CollectionStored(name, data, 1);
    var raw := Lookup(Properties(data).value, "headers");
    if raw.Some? {
      MembersNamed(HeaderNode, raw.value.entries, "headers");
    }
  }

  /** Headers declared under distinct keys have distinct names. */
  lemma HeaderNamesDistinct(name: string, data: Raw)
    requires Construct(name, data).Ok?
    ensures var names := HeaderNames(Construct(name, data).value);
      match Lookup(Properties(data).value, "headers")
      case None => names == []
      case Some(raw) =>
        && raw.Mapping?
        && ((forall i, j :: 0 <= i < j < |raw.entries| ==> raw.entries[i].key != raw.entries[j].key) ==>
            forall i, j :: 0 <= i < j < |names| ==> names[i] != names[j])
  {
    HeadersStored(name, data);
  }

  /** The round trip one level down: property `j` of header `i` holds the
      validated form of the raw value that header declares for it, or its
      default when the header leaves it out. */
  lemma HeaderPropertyStored(name: string, data: Raw, i: nat, j: nat)
    requires Construct(name, data).Ok?
    requires Lookup(Properties(data).value, "headers").Some?
    requires i < |Headers(Construct(name, data).value)|
    requires j < |SchemaOf(HeaderNode)|
    ensures var raw := Lookup(Properties(data).value, "headers").value;
      var h := Headers(Construct(name, data).value)[i];
      var p := SchemaOf(HeaderNode)[j];
      && raw.Mapping? && i < |raw.entries| && raw.entries[i].value.Mapping?
      && match Lookup(raw.entries[i].value.entries, p.name)
         case Some(v) => p.name in h.fields && ValidateValue(p.kind, v, p.name) == Ok(h.fields[p.name])
         case None =>
           && (p.name in h.fields <==> p.default.Some?)
           && (p.name in h.fields ==> h.fields[p.name] == p.default.value)
  {
    HeadersStored(name, data);
    var raw := Lookup(Properties(data).value, "headers").value;
    var sc := SchemaOf(HeaderNode);
    FieldStored(sc, raw.entries[i].value.entries, "headers", j, sc[j]);
  }

  /** A collection property of a built method holds exactly the nodes the
      engine builds from the raw mapping given for it, and none when it is
      not given. */
  lemma CollectionStored(name: string, data: Raw, j: nat)
    requires Construct(name, data).Ok?
    requires j < |SchemaOf(MethodNode)| && SchemaOf(MethodNode)[j].kind.MapOf?
    ensures var p := SchemaOf(MethodNode)[j];
      var ms := MembersOf(Construct(name, data).value, p.name);
      match Lookup(Properties(data).value, p.name)
      case None => ms == []
      case Some(raw) => raw.Mapping? && ValidateMembers(p.kind.entity, raw.entries, p.name) == Ok(ms)
  {
    var sc := SchemaOf(MethodNode);
    ConstructedFields(name, data);
    FieldStored(sc, Properties(data).value, name, j, sc[j]);
    if Lookup(Properties(data).value, sc[j].name).Some? {
      MapOfValue(sc[j].kind.entity, Lookup(Properties(data).value, sc[j].name).value, sc[j].name);
    }
  }

  /** The query parameters of a built method are QueryParameter nodes, one
      per entry of the raw `queryParameters` mapping, in order, each named by
      its key and holding the validated form of its own mapping. */
  lemma QueryParametersStored(name: string, data: Raw)
    requires Construct(name, data).Ok?
    ensures var qs := QueryParameters(Construct(name, data).value);
      match Lookup(Properties(data).value, "queryParameters")
      case None => qs == []
      case Some(raw) =>
        && raw.Mapping?
        && |qs| == |raw.entries|
        && forall i :: 0 <= i < |qs| ==>
             && qs[i].kind == QueryParameterNode
             && qs[i].key.Named? && raw.entries[i].key == Str(qs[i].key.name)
             && raw.entries[i].value.Mapping?
             && ValidateFields(SchemaOf(QueryParameterNode), raw.entries[i].value.entries, "queryParameters") == Ok(qs[i].fields)
  {
    CollectionStored(name, data, 2);
    var raw := Lookup(Properties(data).value, "queryParameters");
    if raw.Some? {
      MembersNamed(QueryParameterNode, raw.value.entries, "queryParameters");
    }
  }

  /** The responses of a built method are Response nodes, one per entry of
      the raw `responses` mapping, in order, each keyed by its integer status
      code and holding the validated form of its own mapping. */
  lemma ResponsesStored(name: string, data: Raw)
    requires Construct(name, data).Ok?
    ensures var rs := Responses(Construct(name, data).value);
      match Lookup(Properties(data).value, "responses")
      case None => rs == []
      case Some(raw) =>
        && raw.Mapping?
        && |rs| == |raw.entries|
        && forall i :: 0 <= i < |rs| ==>
             && rs[i].kind == ResponseNode
             && raw.entries[i].key.Int? && rs[i].key == Code(raw.entries[i].key.i)
             && raw.entries[i].value.Mapping?
             && ValidateFields(SchemaOf(ResponseNode), raw.entries[i].value.entries, "responses") == Ok(rs[i].fields)
  {
    CollectionStored(name, data, 4);
  }

  /** The protocols of a built method are the strings of the raw
      `protocols` list, in order, each one of HTTP and HTTPS. */
  lemma ProtocolsStored(name: string, data: Raw)
    requires Construct(name, data).Ok?
    ensures var ps := ProtocolList(Construct(name, data).value);
      match Lookup(Properties(data).value, "protocols")
      case None => ps == []
      case Some(raw) =>
        && raw.List?
        && |ps| == |raw.items|
        && forall i :: 0 <= i < |ps| ==> raw.items[i] == Str(ps[i]) && ps[i] in Protocols
  {
    var sc := SchemaOf(MethodNode);
    ConstructedFields(name, data);
    FieldStored(sc, Properties(data).value, name, 3, ProtocolsProperty);
    var raw := Lookup(Properties(data).value, "protocols");
    if raw.Some? {
      assert raw.value.List?;
      assert forall i :: 0 <= i < |raw.value.items| ==> raw.value.items[i] in raw.value.items;
    }
  }

  /** The documentation includes the stored description verbatim. */
  lemma DocumentIncludesDescription(m: Method)
    requires Description(m).Some?
    ensures Contains(Document(m), Description(m).value)
  {
    var d := Description(m).value;
    var doc := Document(m);
    var i := |m.name| + 1;
    assert doc == m.name + "\n" + d + Lines(HeaderNames(m));
    assert doc[i..] == d + Lines(HeaderNames(m));
  }

  /** A body holding a single property of the method's table builds exactly
      a method holding that property's validated value, or fails with that
      value's own error. */
  lemma SinglePropertyBody(name: string, j: nat, raw: Raw)
    requires name in SupportedVerbs
    requires j < |SchemaOf(MethodNode)|
    ensures var p := SchemaOf(MethodNode)[j];
      Construct(name, Mapping([Entry(Str(p.name), raw)])) ==
        match ValidateValue(p.kind, raw, p.name)
        case Err(e) => Err(e)
        case Ok(v) => Ok(Method(name, map[p.name := v]))
  {
    var sc := SchemaOf(MethodNode);
    var p := sc[j];
    var es := [Entry(Str(p.name), raw)];
    assert UnknownKey(sc, es, name).None? by {
      assert Names(sc)[j] == p.name;
    }
    assert Construct(name, Mapping(es)) ==
      match CollectFields(sc, es)
      case Err(e) => Err(e)
      case Ok(f) => Ok(Method(name, f));
    assert forall k :: 0 <= k < |sc| ==> sc[k].default.None?;
    CollectSingle(sc, p.name, raw, j);
  }

  /** A `description` that is not a string is reported as `description`. */
  lemma DescriptionNotStringRejected(name: string, raw: Raw)
    requires name in SupportedVerbs
    requires !raw.Str?
    ensures Construct(name, Mapping([Entry(Str("description"), raw)])) == Err(InvalidProperty("description"))
  {
    SinglePropertyBody(name, 0, raw);
  }

  /** A `headers` property that is not a mapping is reported as `headers`. */
  lemma HeadersNotMappingRejected(name: string, raw: Raw)
    requires name in SupportedVerbs
    requires !raw.Mapping?
    ensures Construct(name, Mapping([Entry(Str("headers"), raw)])) == Err(InvalidProperty("headers"))
  {
    SinglePropertyBody(name, 1, raw);
  }

  /** A collection property (`headers`, `queryParameters`, `responses`)
      whose value is not a mapping is reported under its own name. */
  lemma CollectionNotMappingRejected(name: string, j: nat, raw: Raw)
    requires name in SupportedVerbs
    requires j < |SchemaOf(MethodNode)| && SchemaOf(MethodNode)[j].kind.MapOf?
    requires !raw.Mapping?
    ensures var p := SchemaOf(MethodNode)[j];
      Construct(name, Mapping([Entry(Str(p.name), raw)])) == Err(InvalidProperty(p.name))
  {
    SinglePropertyBody(name, j, raw);
  }

  /** A node of a collection property that fails reports its own error,
      unchanged, whatever entries follow it (every node before it being
      well formed). */
  lemma CollectionNodeErrorRejected(name: string, j: nat, es: seq<Entry>, i: nat, err: Error)
    requires name in SupportedVerbs
    requires j < |SchemaOf(MethodNode)| && SchemaOf(MethodNode)[j].kind.MapOf?
    requires i < |es|
    requires var entity := SchemaOf(MethodNode)[j].kind.entity;
      && KeyOf(entity, es[i].key).Some? && es[i].value.Mapping?
      && ValidateFields(SchemaOf(entity), es[i].value.entries, SchemaOf(MethodNode)[j].name) == Err(err)
      && forall k :: 0 <= k < i ==> EntryConforms(entity, es[k])
    ensures var p := SchemaOf(MethodNode)[j];
      Construct(name, Mapping([Entry(Str(p.name), Mapping(es))])) == Err(err)
  {
    var p := SchemaOf(MethodNode)[j];
    MembersNodeError(p.kind.entity, es, p.name, i, err);
    SinglePropertyBody(name, j, Mapping(es));
  }

  /** A `headers` mapping whose entry `i` has a key that is not a non-empty
      string, or a value that is not a mapping, is reported as `headers`
      (every header declared before it being well formed). */
  lemma HeaderEntryMalformedRejected(name: string, es: seq<Entry>, i: nat)
    requires name in SupportedVerbs
    requires i < |es|
    requires !(es[i].key.Str? && es[i].key.s != "") || !es[i].value.Mapping?
    requires forall j :: 0 <= j < i ==> EntryConforms(HeaderNode, es[j])
    ensures Construct(name, Mapping([Entry(Str("headers"), Mapping(es))])) == Err(InvalidProperty("headers"))
  {
    MembersShapeError(HeaderNode, es, "headers", i);
    SinglePropertyBody(name, 1, Mapping(es));
  }
}
