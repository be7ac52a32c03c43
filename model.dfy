/** The typed, validated entities a RAML method document is built into.
    A node keeps its validated properties in a map from the RAML property
    name to its typed value; nested collections (headers, query parameters,
    responses) hold typed entities of their own kind. */
module Model {

  /** The entity kinds of the method grammar: the method itself and the
      nodes it owns. */
  datatype EntityKind = MethodNode | HeaderNode | QueryParameterNode | ResponseNode

  /** The key an owned entity was declared under: a parameter name (kept
      literally, templated `{*}` names included) or a response status code. */
  datatype Key = Named(name: string) | Code(code: int)

  datatype Value =
    | Text(s: string)
    | Integer(i: int)
    | Boolean(b: bool)
    | Texts(items: seq<string>)
    | Members(entities: seq<Entity>)

  /** One validated node: what kind it is, the key it was declared under,
      and its validated properties. */
  datatype Entity = Entity(kind: EntityKind, key: Key, fields: map<string, Value>)
}
