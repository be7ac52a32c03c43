/** The behaviour fixed by the `Raml::Method` examples, one lemma per case,
    over the same documents written out as raw trees. The sample body is
    written with its description texts as parameters, so each acceptance
    lemma holds for every choice of those texts. */
module MethodCases {
  import opened Results
  import opened RawTree
  import opened Model
  import opened Schema
  import opened Engine
  import opened Conformance
  import opened RamlMethod

  function Pair(key: string, value: Raw): Entry {
    Entry(Str(key), value)
  }

  /** The `page` query parameter of the sample. */
  function PageFields(d: string): seq<Entry> {
    [ Pair("description", Str(d)),
      Pair("type", Str("integer")),
      Pair("required", Bool(true)),
      Pair("example", Int(1)) ]
  }

  /** The `per_page` query parameter of the sample. */
  function PerPageFields(d: string): seq<Entry> {
    [ Pair("description", Str(d)),
      Pair("type", Str("integer")),
      Pair("minimum", Int(10)),
      Pair("maximum", Int(200)),
      Pair("default", Int(30)),
      Pair("example", Int(50)) ]
  }

  function QueryParameterEntries(d1: string, d2: string): seq<Entry> {
    [ Pair("page", Mapping(PageFields(d1))),
      Pair("per_page", Mapping(PerPageFields(d2))) ]
  }

  /** The `200` response of the sample: YAML reads its key as an integer. */
  function ResponseEntries(d: string): seq<Entry> {
    [ Entry(Int(200), Mapping([Pair("description", Str(d))])) ]
  }

  function SampleFields(d0: string, d1: string, d2: string, d3: string): seq<Entry> {
    [ Pair("description", Str(d0)),
      Pair("queryParameters", Mapping(QueryParameterEntries(d1, d2))),
      Pair("protocols", List([Str("HTTP"), Str("HTTPS")])),
      Pair("responses", Mapping(ResponseEntries(d3))) ]
  }

  /** The method body every example starts from. */
  function SampleData(): Raw {
    Mapping(SampleFields(
      "Get a list of users",
      "Specify the page that you want to retrieve",
      "Specify the amount of items that will be retrieved per page",
      "The list of popular media.\n"))
  }

  lemma PagePresent(d: string)
    ensures Lookup(PageFields(d), "description") == Some(Str(d))
    ensures Lookup(PageFields(d), "type") == Some(Str("integer"))
    ensures Lookup(PageFields(d), "required") == Some(Bool(true))
    ensures Lookup(PageFields(d), "example") == Some(Int(1))
  {
    var es := PageFields(d);
    LookupFirst(es, "description", 0);
    LookupFirst(es, "type", 1);
    LookupFirst(es, "required", 2);
    LookupFirst(es, "example", 3);
  }

  lemma PageAbsent(d: string)
    ensures Lookup(PageFields(d), "default") == None
    ensures Lookup(PageFields(d), "minimum") == None
    ensures Lookup(PageFields(d), "maximum") == None
  {
    var es := PageFields(d);
    LookupMissing(es, "default");
    LookupMissing(es, "minimum");
    LookupMissing(es, "maximum");
  }

  lemma PageKnown(d: string)
    ensures forall i :: 0 <= i < |PageFields(d)| ==> Known(SchemaOf(QueryParameterNode), PageFields(d)[i].key)
  {
  }

  lemma PageProperties(d: string)
    ensures forall j :: 0 <= j < |SchemaOf(QueryParameterNode)| ==>
      PropertyConforms(SchemaOf(QueryParameterNode)[j], PageFields(d))
  {
    PagePresent(d);
    PageAbsent(d);
  }

  lemma PageConforms(d: string)
    ensures FieldsConform(SchemaOf(QueryParameterNode), PageFields(d))
  {
    PageProperties(d);
    PageKnown(d);
  }

  lemma PerPageFirst(d: string)
    ensures Lookup(PerPageFields(d), "description") == Some(Str(d))
    ensures Lookup(PerPageFields(d), "type") == Some(Str("integer"))
    ensures Lookup(PerPageFields(d), "minimum") == Some(Int(10))
    ensures Lookup(PerPageFields(d), "required") == None
  {
    var es := PerPageFields(d);
    LookupFirst(es, "description", 0);
    LookupFirst(es, "type", 1);
    LookupFirst(es, "minimum", 2);
    LookupMissing(es, "required");
  }

  lemma PerPageSecond(d: string)
    ensures Lookup(PerPageFields(d), "maximum") == Some(Int(200))
    ensures Lookup(PerPageFields(d), "default") == Some(Int(30))
    ensures Lookup(PerPageFields(d), "example") == Some(Int(50))
  {
    var es := PerPageFields(d);
    LookupFirst(es, "maximum", 3);
    LookupFirst(es, "default", 4);
    LookupFirst(es, "example", 5);
  }

  lemma PerPageKnown(d: string)
    ensures forall i :: 0 <= i < |PerPageFields(d)| ==> Known(SchemaOf(QueryParameterNode), PerPageFields(d)[i].key)
  {
  }

  lemma PerPageProperties(d: string)
    ensures forall j :: 0 <= j < |SchemaOf(QueryParameterNode)| ==>
      PropertyConforms(SchemaOf(QueryParameterNode)[j], PerPageFields(d))
  {
    PerPageFirst(d);
    PerPageSecond(d);
  }

  lemma PerPageConforms(d: string)
    ensures FieldsConform(SchemaOf(QueryParameterNode), PerPageFields(d))
  {
    PerPageProperties(d);
    PerPageKnown(d);
  }

  lemma QueryParametersConform(d1: string, d2: string)
    ensures MembersConform(QueryParameterNode, QueryParameterEntries(d1, d2))
  {
    PageConforms(d1);
    PerPageConforms(d2);
    var es := QueryParameterEntries(d1, d2);
    assert EntryConforms(QueryParameterNode, es[0]);
    assert EntryConforms(QueryParameterNode, es[1]);
  }

  lemma ResponsesConform(d: string)
    ensures MembersConform(ResponseNode, ResponseEntries(d))
  {
    var fs: seq<Entry> := [Pair("description", Str(d))];
    LookupFirst(fs, "description", 0);
    LookupMissing(fs, "headers");
    assert FieldsConform(SchemaOf(ResponseNode), fs);
    assert EntryConforms(ResponseNode, ResponseEntries(d)[0]);
  }

  lemma SampleConforms(d0: string, d1: string, d2: string, d3: string)
    ensures FieldsConform(SchemaOf(MethodNode), SampleFields(d0, d1, d2, d3))
  {
    SampleProperties(d0, d1, d2, d3);
    SampleKnown(d0, d1, d2, d3);
  }

  lemma SampleKnown(d0: string, d1: string, d2: string, d3: string)
    ensures forall i :: 0 <= i < |SampleFields(d0, d1, d2, d3)| ==>
      Known(SchemaOf(MethodNode), SampleFields(d0, d1, d2, d3)[i].key)
  {
  }

  lemma SampleLookups(d0: string, d1: string, d2: string, d3: string)
    ensures Lookup(SampleFields(d0, d1, d2, d3), "description") == Some(Str(d0))
    ensures Lookup(SampleFields(d0, d1, d2, d3), "headers") == None
    ensures Lookup(SampleFields(d0, d1, d2, d3), "queryParameters") == Some(Mapping(QueryParameterEntries(d1, d2)))
    ensures Lookup(SampleFields(d0, d1, d2, d3), "protocols") == Some(List([Str("HTTP"), Str("HTTPS")]))
    ensures Lookup(SampleFields(d0, d1, d2, d3), "responses") == Some(Mapping(ResponseEntries(d3)))
  {
    var es := SampleFields(d0, d1, d2, d3);
    LookupFirst(es, "description", 0);
    LookupMissing(es, "headers");
    LookupFirst(es, "queryParameters", 1);
    LookupFirst(es, "protocols", 2);
    LookupFirst(es, "responses", 3);
  }

  lemma SampleProperties(d0: string, d1: string, d2: string, d3: string)
    ensures forall j :: 0 <= j < |SchemaOf(MethodNode)| ==>
      PropertyConforms(SchemaOf(MethodNode)[j], SampleFields(d0, d1, d2, d3))
  {
    SampleLookups(d0, d1, d2, d3);
    QueryParametersConform(d1, d2);
    ResponsesConform(d3);
  }

  lemma SampleAcceptable()
    ensures BodyConforms(SampleData())
  {
    SampleConforms(
      "Get a list of users",
      "Specify the page that you want to retrieve",
      "Specify the amount of items that will be retrieved per page",
      "The list of popular media.\n");
  }

  /** Every verb of RFC 2616 and RFC 5789 builds the sample document. */
  lemma SupportedVerbsAccepted()
    ensures forall v :: v in ["options", "get", "head", "post", "put", "delete", "trace", "connect", "patch"] ==>
      Construct(v, SampleData()).Ok?
  {
    SampleAcceptable();
    forall v | v in SupportedVerbs {
      ConstructSucceedsIff(v, SampleData());
    }
  }

  /** The WebDAV verbs are refused whatever the body. */
  lemma UnsupportedVerbsRejected(data: Raw)
    ensures forall v :: v in ["propfind", "proppatch", "mkcol", "copy", "move", "lock", "unlock"] ==>
      Construct(v, data) == Err(InvalidMethod(v))
  {
    forall v | v in ["propfind", "proppatch", "mkcol", "copy", "move", "lock", "unlock"]
      ensures Construct(v, data) == Err(InvalidMethod(v))
    {
      assert v !in SupportedVerbs;
    }
  }

  /** An empty body builds a method with no description and no headers. */
  lemma EmptyBodyAccepted(name: string)
    requires name in SupportedVerbs
    ensures Construct(name, Mapping([])).Ok?
    ensures Description(Construct(name, Mapping([])).value) == None
    ensures Headers(Construct(name, Mapping([])).value) == []
  {
    ConstructSucceedsIff(name, Mapping([]));
    var sc := SchemaOf(MethodNode);
    assert forall j :: 0 <= j < |sc| ==> PropertyConforms(sc[j], []);
    DescriptionStored(name, Mapping([]));
    HeadersStored(name, Mapping([]));
  }

  lemma DescriptionNotString()
    ensures Construct("get", Mapping([Pair("description", Int(1))])) == Err(InvalidProperty("description"))
  {
    DescriptionNotStringRejected("get", Int(1));
  }

  /** A body holding only a description. */
  function DescriptionOnly(d: string): seq<Entry> {
    [Pair("description", Str(d))]
  }

  lemma DescriptionOnlyLookups(d: string)
    ensures Lookup(DescriptionOnly(d), "description") == Some(Str(d))
    ensures Lookup(DescriptionOnly(d), "headers") == None
    ensures Lookup(DescriptionOnly(d), "queryParameters") == None
    ensures Lookup(DescriptionOnly(d), "protocols") == None
    ensures Lookup(DescriptionOnly(d), "responses") == None
  {
    var es := DescriptionOnly(d);
    LookupFirst(es, "description", 0);
    LookupMissing(es, "headers");
    LookupMissing(es, "queryParameters");
    LookupMissing(es, "protocols");
    LookupMissing(es, "responses");
  }

  lemma DescriptionOnlyConforms(d: string)
    ensures FieldsConform(SchemaOf(MethodNode), DescriptionOnly(d))
  {
    var sc := SchemaOf(MethodNode);
    assert forall j :: 0 <= j < |sc| ==> PropertyConforms(sc[j], DescriptionOnly(d)) by {
      DescriptionOnlyLookups(d);
    }
  }

  /** A string description is stored unchanged and shows in the document. */
  lemma DescriptionStringStored(name: string, d: string)
    requires name in SupportedVerbs
    ensures Construct(name, Mapping(DescriptionOnly(d))).Ok?
    ensures Description(Construct(name, Mapping(DescriptionOnly(d))).value) == Some(d)
    ensures Contains(Document(Construct(name, Mapping(DescriptionOnly(d))).value), d)
  {
    var data := Mapping(DescriptionOnly(d));
    DescriptionOnlyConforms(d);
    ConstructSucceedsIff(name, data);
    DescriptionStored(name, data);
    DescriptionOnlyLookups(d);
    DocumentIncludesDescription(Construct(name, data).value);
  }

  /** A header node carrying only a display name. */
  function DisplayNameOnly(n: string): Raw {
    Mapping([Pair("displayName", Str(n))])
  }

  lemma DisplayNameOnlyConforms(n: string)
    ensures FieldsConform(SchemaOf(HeaderNode), DisplayNameOnly(n).entries)
  {
    var sc := SchemaOf(HeaderNode);
    assert forall j :: 0 <= j < |sc| ==> PropertyConforms(sc[j], DisplayNameOnly(n).entries) by {
      DisplayNameOnlyLookups(n);
    }
  }

  lemma DisplayNameOnlyLookups(n: string)
    ensures Lookup(DisplayNameOnly(n).entries, "displayName") == Some(Str(n))
    ensures Lookup(DisplayNameOnly(n).entries, "description") == None
    ensures Lookup(DisplayNameOnly(n).entries, "type") == None
    ensures Lookup(DisplayNameOnly(n).entries, "required") == None
    ensures Lookup(DisplayNameOnly(n).entries, "example") == None
    ensures Lookup(DisplayNameOnly(n).entries, "default") == None
  {
    var es := DisplayNameOnly(n).entries;
    LookupFirst(es, "displayName", 0);
    LookupMissing(es, "description");
    LookupMissing(es, "type");
    LookupMissing(es, "required");
    LookupMissing(es, "example");
    LookupMissing(es, "default");
  }

  /** The two headers of the example, one with a templated name. */
  function ZencoderHeaders(n1: string, n2: string): seq<Entry> {
    [ Pair("Zencoder-Api-Key", DisplayNameOnly(n1)),
      Pair("x-Zencoder-job-metadata-{*}", DisplayNameOnly(n2)) ]
  }

  /** The headers example as a method body. */
  function ZencoderBody(n1: string, n2: string): Raw {
    Mapping([Pair("headers", Mapping(ZencoderHeaders(n1, n2)))])
  }

  lemma ZencoderAccepted(name: string, n1: string, n2: string)
    requires name in SupportedVerbs
    ensures Construct(name, ZencoderBody(n1, n2)).Ok?
  {
    var hs := ZencoderHeaders(n1, n2);
    DisplayNameOnlyConforms(n1);
    DisplayNameOnlyConforms(n2);
    assert EntryConforms(HeaderNode, hs[0]);
    assert EntryConforms(HeaderNode, hs[1]);
    assert MembersConform(HeaderNode, hs);
    ValueAccepted(MapOf(HeaderNode), Mapping(hs), "headers");
    SinglePropertyBody(name, 1, Mapping(hs));
  }

  /** Well-formed headers build, all as Header nodes, named exactly by their
      keys, the templated `{*}` name kept literally. */
  lemma WellFormedHeadersStored(name: string, n1: string, n2: string)
    requires name in SupportedVerbs
    ensures Construct(name, ZencoderBody(n1, n2)).Ok?
    ensures var m := Construct(name, ZencoderBody(n1, n2)).value;
      && (forall h :: h in Headers(m) ==> h.kind == HeaderNode)
      && multiset(HeaderNames(m)) == multiset{"Zencoder-Api-Key", "x-Zencoder-job-metadata-{*}"}
  {
    var data := ZencoderBody(n1, n2);
    ZencoderAccepted(name, n1, n2);
    HeadersStored(name, data);
    var m := Construct(name, data).value;
    LookupFirst(data.entries, "headers", 0);
    assert HeaderNames(m) == ["Zencoder-Api-Key", "x-Zencoder-job-metadata-{*}"];
  }

  /** Each example header keeps the display name it declares. */
  lemma ZencoderDisplayNamesStored(name: string, n1: string, n2: string)
    requires name in SupportedVerbs
    ensures Construct(name, ZencoderBody(n1, n2)).Ok?
    ensures var hs := Headers(Construct(name, ZencoderBody(n1, n2)).value);
      && |hs| == 2
      && "displayName" in hs[0].fields && hs[0].fields["displayName"] == Text(n1)
      && "displayName" in hs[1].fields && hs[1].fields["displayName"] == Text(n2)
  {
    var data := ZencoderBody(n1, n2);
    ZencoderAccepted(name, n1, n2);
    LookupFirst(data.entries, "headers", 0);
    HeadersStored(name, data);
    DisplayNameOnlyLookups(n1);
    DisplayNameOnlyLookups(n2);
    HeaderPropertyStored(name, data, 0, 0);
    HeaderPropertyStored(name, data, 1, 0);
  }

  lemma HeadersNotAMap()
    ensures Construct("get", Mapping([Pair("headers", Int(1))])) == Err(InvalidProperty("headers"))
  {
    HeadersNotMappingRejected("get", Int(1));
  }

  lemma HeadersNonStringKey()
    ensures Construct("get", Mapping([Pair("headers", Mapping([Entry(Int(1), Mapping([]))]))]))
         == Err(InvalidProperty("headers"))
  {
    HeaderEntryMalformedRejected("get", [Entry(Int(1), Mapping([]))], 0);
  }

  lemma HeadersNonMappingValue()
    ensures Construct("get", Mapping([Pair("headers", Mapping([Pair("1", Str("x"))]))]))
         == Err(InvalidProperty("headers"))
  {
    HeaderEntryMalformedRejected("get", [Pair("1", Str("x"))], 0);
  }

  /** A failure inside a header is reported under the header's own property
      name, not under `headers`: a display name of 1 fails as `displayName`. */
  lemma HeaderDisplayNameNotString()
    ensures Construct("get", Mapping([Pair("headers", Mapping([Pair("A", Mapping([Pair("displayName", Int(1))]))]))]))
         == Err(InvalidProperty("displayName"))
  {
    var fs := [Pair("displayName", Int(1))];
    HeaderAIntRejected();
    SinglePropertyBody("get", 1, Mapping([Pair("A", Mapping(fs))]));
  }

  lemma HeaderAIntRejected()
    ensures ValidateMembers(HeaderNode, [Pair("A", Mapping([Pair("displayName", Int(1))]))], "headers")
         == Err(InvalidProperty("displayName"))
  {
    var es := [Pair("A", Mapping([Pair("displayName", Int(1))]))];
    assert KeyOf(HeaderNode, es[0].key) == Some(Named("A"));
    assert es[0].value.entries == [Pair("displayName", Int(1))];
    DisplayNameIntRejected();
  }

  lemma DisplayNameIntRejected()
    ensures ValidateFields(SchemaOf(HeaderNode), [Pair("displayName", Int(1))], "headers")
         == Err(InvalidProperty("displayName"))
  {
    var fs := [Pair("displayName", Int(1))];
    var sc := SchemaOf(HeaderNode);
    LookupFirst(fs, "displayName", 0);
    assert UnknownKey(sc, fs, "headers").None?;
    assert CollectFields(sc, fs) == Err(InvalidProperty("displayName"));
  }

  /** The failure of the first header is reported as its own, even with a
      second, well-formed header after it. */
  lemma FirstOfTwoHeadersRejected()
    ensures Construct("get", Mapping([Pair("headers", Mapping([
              Pair("A", Mapping([Pair("displayName", Int(1))])),
              Pair("B", Mapping([]))]))]))
         == Err(InvalidProperty("displayName"))
  {
    var es := [Pair("A", Mapping([Pair("displayName", Int(1))])), Pair("B", Mapping([]))];
    assert KeyOf(HeaderNode, es[0].key) == Some(Named("A"));
    assert es[0].value.entries == [Pair("displayName", Int(1))];
    DisplayNameIntRejected();
    CollectionNodeErrorRejected("get", 1, es, 0, InvalidProperty("displayName"));
  }

  /** `queryParameters: 1` and `responses: 1` are reported under their own
      names. */
  lemma CollectionsNotAMap()
    ensures Construct("get", Mapping([Pair("queryParameters", Int(1))])) == Err(InvalidProperty("queryParameters"))
    ensures Construct("get", Mapping([Pair("responses", Int(1))])) == Err(InvalidProperty("responses"))
  {
    CollectionNotMappingRejected("get", 2, Int(1));
    CollectionNotMappingRejected("get", 4, Int(1));
  }

  /** The sample's documentation renders, starting with the verb. */
  lemma SampleDocumented()
    ensures Construct("get", SampleData()).Ok?
    ensures |Document(Construct("get", SampleData()).value)| > 0
  {
    SupportedVerbsAccepted();
  }
}
