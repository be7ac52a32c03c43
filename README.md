# Raml::Method, modelled in Dafny

A model of `Raml::Method.new(name, data)` and `Raml::Method#document` from
the `raml_ruby` library, as the behaviour is fixed by its RSpec suite
`test/raml/method_spec.rb`.

A RAML method node is built from two inputs:

- an HTTP verb;
- the already-parsed YAML tree found under that verb.

Construction is all or nothing. It gives either a `Method` or exactly one
error:

- `InvalidMethod` carries the verb that was refused;
- `InvalidProperty` carries the name of the offending property.

The model is pure. Its parts:

- `RawTree` holds the parsed YAML value: null, booleans, integers, strings,
  sequences, and mappings kept as ordered entries with arbitrary keys. It
  also holds the first-occurrence lookup `Lookup`.
- `Model` holds the validated values: text, integer, boolean, a string
  list, or nested nodes. It also holds the node kinds: method, header,
  query parameter and response.
- `Schema` has one property table per node kind. Each entry gives a name,
  whether the property is required, the kind of value it holds, and a
  default.
- `Engine` walks a raw mapping against a table.
  - It first refuses an unrecognised key, then checks each property in table order.
  - Collections (`headers`, `queryParameters`, `responses`) become one node per entry, each named by its raw key.
  - A malformed key or a non-mapping value is reported against the collection's own name.
- `Conformance` is a declarative statement of an acceptable tree, written
  independently of the engine's traversal. It is proved equivalent to the
  engine. It also proves that each present property, at every level of
  nesting, is stored as the validated form of its raw value.
- `RamlMethod` covers the verb whitelist, `Construct`, the accessors
  (`Description`, `Headers`, …), `Document`, and the constructor's
  guarantees.
- `MethodCases` has one lemma per example of the suite. Each is stated
  over the example's document, written out as a raw tree. The sample's
  description texts are parameters.

## Model

| member | source | states |
|---|---|---|
| RamlMethod.CheckName | test/raml/method_spec.rb:36-51 | the verb passes exactly when it is one of options, get, head, post, put, delete, trace, connect, patch; otherwise the error is `InvalidMethod` carrying that verb |
| RamlMethod.Construct | test/raml/method_spec.rb:29 | an `InvalidMethod` error occurs exactly when the verb is unsupported and names the verb; a built method keeps the verb it was given |
| RamlMethod.ConstructSucceedsIff | test/raml/method_spec.rb:29-56 | construction succeeds if and only if the verb is supported and the body conforms to the method's property table (declarative definition) |
| RamlMethod.ConstructErrors | test/raml/method_spec.rb:44-61 | with a supported verb every failure is an `InvalidProperty`; with an unsupported one the result is exactly `InvalidMethod(verb)` whatever the body |
| RamlMethod.ConstructErrorNamed | test/raml/method_spec.rb:58-102 | with a supported verb, an error names the verb when the body is not a mapping, and otherwise an unrecognised key of the body or a method property whose value fails, with that value's own error (for a collection: a malformed entry reported under the collection's name, or a node's own failure unchanged) |
| RamlMethod.VerbIrrelevantToBody | test/raml/method_spec.rb:36-43 | any two supported verbs accept exactly the same bodies |
| RamlMethod.Properties | test/raml/method_spec.rb:53-56 | a mapping body yields its entries, an absent (null) body yields none, any other body is refused |
| RamlMethod.Description | test/raml/method_spec.rb:66 | `#description` is present exactly when a text is stored under `description`, and is that text |
| RamlMethod.DescriptionStored | test/raml/method_spec.rb:62-67 | a built method's description is exactly the string given under `description`, and unset when none was given |
| RamlMethod.Document | test/raml/method_spec.rb:107-111 | the documentation is defined for every built method and starts with its verb |
| RamlMethod.DocumentNonEmpty | test/raml/method_spec.rb:107-111 | every built method's documentation is non-empty |
| RamlMethod.DocumentIncludesDescription | test/raml/method_spec.rb:68-70 | the documentation contains the stored description as a contiguous substring |
| RamlMethod.HeadersStored | test/raml/method_spec.rb:86-88 | every stored header is a Header node; there is one per entry of the raw `headers` mapping, in order, named exactly by its key and holding the validated form of that entry's mapping; no headers when none were given |
| RamlMethod.HeaderPropertyStored | test/raml/method_spec.rb:79-82 | each property of a stored header holds the validated form of the raw value that header declares for it, or its default when it leaves the property out |
| RamlMethod.CollectionStored | test/raml/method_spec.rb:86-87 | a collection property (`headers`, `queryParameters`, `responses`) holds exactly the nodes built from its raw mapping, and none when not given |
| RamlMethod.QueryParametersStored | test/raml/method_spec.rb:8-20 | query parameters are QueryParameter nodes, one per raw entry in order, named by their keys, each holding the validated form of its own mapping |
| RamlMethod.ResponsesStored | test/raml/method_spec.rb:22-25 | responses are Response nodes, one per raw entry in order, keyed by the integer status code, each holding the validated form of its own mapping |
| RamlMethod.ProtocolsStored | test/raml/method_spec.rb:21 | the stored protocols are the strings of the raw list, in order, each HTTP or HTTPS; none when not given |
| RamlMethod.SinglePropertyBody | test/raml/method_spec.rb:58-102 | a body holding a single property of the method table (as in every `description` and `headers` example) builds exactly a method holding that property's validated value, or fails with that value's own error |
| RamlMethod.DescriptionNotStringRejected | test/raml/method_spec.rb:58-61 | for every supported verb and every non-string value, a body holding only `description` fails with `InvalidProperty("description")` |
| RamlMethod.HeadersNotMappingRejected | test/raml/method_spec.rb:91-94 | in a body whose only key is `headers`, a `headers` value that is not a mapping fails with `InvalidProperty("headers")`, for every such value and every supported verb |
| RamlMethod.HeaderEntryMalformedRejected | test/raml/method_spec.rb:95-102 | in a body whose only key is `headers`, an entry whose key is not a non-empty string, or whose value is not a mapping, fails with `InvalidProperty("headers")`, provided every entry before it is a well-formed header |
| RamlMethod.CollectionNotMappingRejected | test/raml/method_spec.rb:91-94 | for every collection property of the method (`headers`, `queryParameters`, `responses`), every supported verb and every non-mapping value, a body holding only that property fails under the property's own name |
| RamlMethod.CollectionNodeErrorRejected | test/raml/method_spec.rb:74-102 | in a body holding only a collection property, a well-formed node whose own mapping fails, after well-formed nodes, makes construction fail with that node's error, unchanged, whatever nodes follow |
| RamlMethod.HeaderNames | test/raml/method_spec.rb:88 | the listed names are, one for one and in order, the names of the stored headers |
| RamlMethod.HeaderNamesDistinct | test/raml/method_spec.rb:86-88 | headers declared under distinct raw keys have distinct names; no names when no headers were given |
| RamlMethod.Headers | test/raml/method_spec.rb:87-88 | `#headers` is the list of nodes stored under `headers`, and empty when that is unset |
| Engine.KeyOf | test/raml/method_spec.rb:95-98 | a header or query parameter is keyed by a non-empty string and a response by an integer status code, in both directions; other keys are malformed |
| Engine.UnknownKey | test/raml/method_spec.rb:5-34 | no unknown key is reported if and only if every key is a recognised property name; a reported key is one that is not recognised |
| Engine.ValidateValue | test/raml/method_spec.rb:58-102 | a failure is an `InvalidProperty` error, named by the property itself unless the property is a collection given as a mapping; a collection's failure is that of one of its entries, either a malformed entry reported under the collection's name or the entry's own failure unchanged; for each kind it accepts exactly the raw values of that kind, and an accepted string, integer, boolean, enumerated string or protocol list is stored as that same value |
| Engine.ValidateMembers | test/raml/method_spec.rb:86-102 | a validated collection has one node per entry, each of the collection's kind, keyed by its raw key, and holding exactly the validated properties of the entry's mapping; a failure comes from some entry: a malformed key or non-mapping value reported under the collection's name, or that entry's own failure passed on unchanged |
| Engine.ValidateFields | test/raml/method_spec.rb:53-61 | a validated node contains only recognised keys; a node with an unrecognised key fails naming such a key; every failure names an unrecognised key or is the failure of one property of the table |
| Engine.CollectFields | test/raml/method_spec.rb:53-61 | the properties stored are among the table's names; every failure is that of one property: missing although required and named by it, or its value's own check failing |
| Engine.Strings | test/raml/method_spec.rb:21 | a list of strings becomes the same strings, one for one |
| Conformance.ValueAccepted | test/raml/method_spec.rb:5-34 | a value passes the engine check if and only if it conforms to its kind |
| Conformance.MembersAccepted | test/raml/method_spec.rb:74-102 | a collection validates if and only if every entry has a well-formed key and a conforming mapping value |
| Conformance.FieldsAccepted | test/raml/method_spec.rb:5-34 | a node's mapping validates if and only if it has no unknown key and satisfies every property of its table |
| Conformance.CollectAccepted | test/raml/method_spec.rb:5-34 | the in-order property walk succeeds if and only if every property it visits conforms |
| Conformance.CollectStores | test/raml/method_spec.rb:65-67 | after a successful walk a present property holds the validated form of its raw value, and an absent one is stored exactly when it has a default, as that default |
| Conformance.FieldStored | test/raml/method_spec.rb:65-67 | the same round trip for one property of a validated node |
| Conformance.MembersNamed | test/raml/method_spec.rb:88 | header and query-parameter nodes carry names, and each name is its raw key exactly, so `{*}` is kept literally |
| Conformance.MembersShapeError | test/raml/method_spec.rb:95-102 | the first entry with a malformed key or a non-mapping value makes the collection fail under the collection's own name |
| Conformance.MembersNodeError | test/raml/method_spec.rb:74-102 | when every entry before it is a conforming node, a well-formed entry whose own mapping fails makes the collection fail with exactly that error, whatever entries follow |
| Conformance.CollectAbsent | test/raml/method_spec.rb:53-56 | absent optional properties without defaults contribute nothing |
| Conformance.MembersConformCons | test/raml/method_spec.rb:74-89 | a collection conforms exactly when its first entry and the rest conform |
| Conformance.CollectSingle | test/raml/method_spec.rb:58-102 | a mapping holding one property of a table of optional properties without defaults validates to exactly that property's value, or fails with its error |
| Schema.Names | test/raml/method_spec.rb:5-34 | a table's recognised names, one per property, in order |
| Schema.SchemaOf | test/raml/method_spec.rb:5-34 | every node kind's property table lists each name once, and every property is optional |
| RawTree.Lookup | test/raml/method_spec.rb:66 | `hash[key]` by first occurrence, whose meaning LookupMissing and LookupFirst state; its own contract is only the size bound that lets the validation recursion into a found value terminate |
| RawTree.LookupMissing | test/raml/method_spec.rb:66 | a key is not found if and only if no entry has it |
| RawTree.LookupFirst | test/raml/method_spec.rb:66 | lookup returns the value of the first entry with the key |
| MethodCases.PageConforms | test/raml/method_spec.rb:9-13 | the sample's `page` parameter conforms to the query-parameter table |
| MethodCases.PerPageConforms | test/raml/method_spec.rb:14-20 | the sample's `per_page` parameter conforms to the query-parameter table |
| MethodCases.QueryParametersConform | test/raml/method_spec.rb:8-20 | the sample's `queryParameters` conforms as a collection of query parameters |
| MethodCases.ResponsesConform | test/raml/method_spec.rb:22-25 | the sample's `responses`, keyed by the integer 200, conforms as a collection of responses |
| MethodCases.SampleConforms | test/raml/method_spec.rb:5-27 | the sample body conforms to the method table, for every choice of its description texts |
| MethodCases.SampleAcceptable | test/raml/method_spec.rb:5-34 | the sample body is an acceptable method body |
| MethodCases.SupportedVerbsAccepted | test/raml/method_spec.rb:37-41 | each of the nine verbs builds the sample without error |
| MethodCases.UnsupportedVerbsRejected | test/raml/method_spec.rb:44-50 | each of propfind, proppatch, mkcol, copy, move, lock, unlock fails with `InvalidMethod` naming it, whatever the body |
| MethodCases.EmptyBodyAccepted | test/raml/method_spec.rb:53-56 | an empty body builds, for every supported verb, a method with no description and no headers |
| MethodCases.DescriptionNotString | test/raml/method_spec.rb:58-61 | a description of 1 fails with `InvalidProperty("description")` |
| MethodCases.DescriptionStringStored | test/raml/method_spec.rb:62-71 | a string description builds, for every supported verb and every text, is stored unchanged and appears in the documentation |
| MethodCases.WellFormedHeadersStored | test/raml/method_spec.rb:75-89 | the two example headers build; all are Header nodes and their names are exactly `Zencoder-Api-Key` and `x-Zencoder-job-metadata-{*}` as a multiset |
| MethodCases.ZencoderAccepted | test/raml/method_spec.rb:85 | the headers example builds under every supported verb |
| MethodCases.ZencoderDisplayNamesStored | test/raml/method_spec.rb:78-82 | the two example headers keep the display names they declare, in order |
| MethodCases.HeadersNotAMap | test/raml/method_spec.rb:91-94 | `headers: 1` fails with `InvalidProperty("headers")` |
| MethodCases.HeadersNonStringKey | test/raml/method_spec.rb:95-98 | a header keyed by the integer 1 fails with `InvalidProperty("headers")` |
| MethodCases.HeadersNonMappingValue | test/raml/method_spec.rb:99-102 | a header whose value is the string `x` fails with `InvalidProperty("headers")` |
| MethodCases.HeaderDisplayNameNotString | test/raml/method_spec.rb:74-102 | a header whose `displayName` is 1 fails under that property's own name, `InvalidProperty("displayName")`, not under `headers` |
| MethodCases.FirstOfTwoHeadersRejected | test/raml/method_spec.rb:74-102 | with a second, well-formed header after it, a header whose `displayName` is 1 still fails as `InvalidProperty("displayName")` |
| MethodCases.CollectionsNotAMap | test/raml/method_spec.rb:91-94 | `queryParameters: 1` fails as `InvalidProperty("queryParameters")` and `responses: 1` as `InvalidProperty("responses")`, as `headers: 1` does for `headers` |
| MethodCases.SampleDocumented | test/raml/method_spec.rb:107-111 | the sample builds under `get` and its documentation is non-empty |

## Left out

- The implementation of `Raml::Method` and its node classes is not part of this model. The model follows the behaviour the suite fixes. Where the suite says nothing, it follows the RAML 0.8 method design.
- YAML parsing is left out. Every input is the raw tree YAML would produce, so the response code `200` is an integer key. Floats, dates and other YAML scalars are not modelled.
- The text and layout of `#document` are left out. The model's `Document` only concatenates the verb, the description and the header names. Only the inclusion of the description is relied on.
- The property tables are a reduced RAML 0.8 set, and any other key is refused as unknown:
  - method: `description`, `headers`, `queryParameters`, `protocols`, `responses`;
  - header: `displayName`, `description`, `type`, `required`, `example`, `default`;
  - query parameter: `description`, `type`, `required`, `example`, `default`, `minimum`, `maximum` (no `displayName`);
  - response: `description`, `headers` (a response `body` is refused).
- Not modelled, and therefore refused: the RAML method keys `body`, `securedBy`, `baseUriParameters` and `is`; the parameter keys `pattern`, `enum`, `minLength`, `maxLength` and `repeat`; `minimum` and `maximum` on a header; `displayName` on a query parameter.
- Engine.ValidateValue does not check that `minimum` is at most `maximum`, and does not check `example` or `default` against the declared `type`. The suite does not constrain these checks.
- Templated header names such as `x-Zencoder-job-metadata-{*}` are stored literally. Matching a request header against the template is not modelled.
- A property key that appears twice in one node's mapping is read by its first occurrence; the later one is not checked. A collection keeps every entry, so two headers declared under the same key become two Header nodes with that name; header names are distinct whenever the raw keys are. YAML loaders differ on duplicate keys.
- A response is keyed by its status code and has no name: `KeyText` gives it the empty string. The model lists names only for headers, which always have one.
- The exact wording of error messages is left out. An error records only its kind and the verb or property name, which is what the suite matches on.
