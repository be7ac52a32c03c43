/** The static property table of every entity kind: which property names a
    node may carry, whether each is required, the type its value must have,
    and the default filled in when it is absent. */
module Schema {
  import opened Results
  import opened Model

  /** What a property's raw value must be. */
  datatype Kind =
    | StringType                      // a string scalar
    | IntegerType                     // an integer scalar
    | BooleanType                     // a boolean scalar
    | ScalarType                      // a string, integer or boolean scalar
    | EnumType(choices: seq<string>)  // a string scalar among `choices`
    | EnumListType(choices: seq<string>) // a sequence of strings among `choices`
    | MapOf(entity: EntityKind)       // a mapping of keys to nodes of `entity`

  datatype Property = Property(name: string, required: bool, kind: Kind, default: Option<Value>)

  const ParameterTypes: seq<string> := ["string", "number", "integer", "date", "boolean", "file"]
  const Protocols: seq<string> := ["HTTP", "HTTPS"]

  const DescriptionProperty := Property("description", false, StringType, None)
  const HeadersProperty := Property("headers", false, MapOf(HeaderNode), None)
  const QueryParametersProperty := Property("queryParameters", false, MapOf(QueryParameterNode), None)
  const ProtocolsProperty := Property("protocols", false, EnumListType(Protocols), None)
  const ResponsesProperty := Property("responses", false, MapOf(ResponseNode), None)
  const DisplayNameProperty := Property("displayName", false, StringType, None)
  const TypeProperty := Property("type", false, EnumType(ParameterTypes), None)
  const RequiredProperty := Property("required", false, BooleanType, Some(Boolean(false)))
  const ExampleProperty := Property("example", false, ScalarType, None)
  const DefaultProperty := Property("default", false, ScalarType, None)
  const MinimumProperty := Property("minimum", false, IntegerType, None)
  const MaximumProperty := Property("maximum", false, IntegerType, None)

  /** The property table of a node kind. Each table lists a name once, and
      every property is optional, so an empty mapping is an acceptable node. */
  function SchemaOf(kind: EntityKind): (schema: seq<Property>)
    ensures DistinctNames(schema)
    ensures forall k :: 0 <= k < |schema| ==> !schema[k].required
  {
    match kind
    case MethodNode => [DescriptionProperty, HeadersProperty, QueryParametersProperty, ProtocolsProperty, ResponsesProperty]
    case HeaderNode => [DisplayNameProperty, DescriptionProperty, TypeProperty, RequiredProperty, ExampleProperty, DefaultProperty]
    case QueryParameterNode => [DescriptionProperty, TypeProperty, RequiredProperty, ExampleProperty, DefaultProperty, MinimumProperty, MaximumProperty]
    case ResponseNode => [DescriptionProperty, HeadersProperty]
  }

  /** The property names a schema recognizes. */
  function Names(schema: seq<Property>): (names: seq<string>)
    ensures |names| == |schema|
    ensures forall j :: 0 <= j < |schema| ==> names[j] == schema[j].name
  {
    if schema == [] then [] else [schema[0].name] + Names(schema[1..])
  }

  /** No property name is listed twice. */
  predicate DistinctNames(schema: seq<Property>) {
    forall j, k :: 0 <= j < k < |schema| ==> schema[j].name != schema[k].name
  }
}
