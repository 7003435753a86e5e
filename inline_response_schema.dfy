/**
 * The `inline-response-schema` rule: every JSON response schema under a
 * Responses Object should be a `$ref` to a named schema, a primitive type,
 * or an array whose items are one of those two.
 *
 * The violations the rule returns are specified by `Violations`, a fold over
 * the walk's visits, then over the responses of a visited Responses Object,
 * then over the media types of each response. `InlineResponseSchema` is the
 * rule as the source runs it: a visitor pushing onto a local error list.
 */
module InlineResponseSchema {
  import opened Json
  import opened Traversal
  import opened ResponseObject
  import opened Seqs

  const ErrorMessage: string := "Response schemas should be defined as a $ref to a named schema."

  datatype Violation = Violation(message: string, path: Path)

  /**
   * `isPrimitiveType` and `isJsonMimeType`, two utilities the rule consults
   * whose definitions are not part of this model: any pair of predicates may
   * stand for them. The media-type predicate receives the key exactly as
   * lodash `each` passes it (a property name, or an index when `content` is
   * array-like).
   */
  datatype SchemaPredicates = SchemaPredicates(isPrimitiveType: Json -> bool, isJsonMimeType: Step -> bool)

  /** `!!obj.$ref` */
  predicate IsRef(j: Json)
  {
    Present(Get(j, "$ref"))
  }

  /** `schema` is an array whose `items` schema is a `$ref` or a primitive type. */
  predicate ArrayItemsAreRefOrPrimitive(schema: Json, preds: SchemaPredicates)
  {
    && Truthy(schema)
    && Get(schema, "type") == Some(JStr("array"))
    && Present(Get(schema, "items"))
    && (IsRef(Get(schema, "items").value) || preds.isPrimitiveType(Get(schema, "items").value))
  }

  /** The only schemas the rule accepts in a JSON response body. */
  predicate Compliant(schema: Json, preds: SchemaPredicates)
  {
    IsRef(schema) || preds.isPrimitiveType(schema) || ArrayItemsAreRefOrPrimitive(schema, preds)
  }

  /** The media types of a response: what `each(response.content, ...)` iterates. */
  function ContentEntries(response: Json): seq<(Step, Json)>
  {
    match Get(response, "content")
    case Some(content) => EachEntries(content)
    case None => []
  }

  /** The media type `mediaTypeKey` of a response is JSON and carries a schema the rule does not accept. */
  predicate Flagged(mediaTypeKey: Step, mediaType: Json, preds: SchemaPredicates)
  {
    var schema := Get(mediaType, "schema");
    Present(schema) && preds.isJsonMimeType(mediaTypeKey) && !Compliant(schema.value, preds)
  }

  /** The violation reported for the media type `mediaTypeKey` of the response at `responsePath`. */
  function SchemaViolation(responsePath: Path, mediaTypeKey: Step): Violation
  {
    Violation(ErrorMessage, responsePath + [Key("content"), mediaTypeKey, Key("schema")])
  }

  /** The violations of one media type: at most one. */
  function MediaTypeViolations(mediaTypeKey: Step, mediaType: Json, responsePath: Path, preds: SchemaPredicates): (r: seq<Violation>)
    ensures |r| <= 1
    ensures r != [] ==> preds.isJsonMimeType(mediaTypeKey) && Present(Get(mediaType, "schema"))
  {
    if Flagged(mediaTypeKey, mediaType, preds) then [SchemaViolation(responsePath, mediaTypeKey)] else []
  }

  /** The violations of the given media types of the response at `responsePath`, in media-type order. */
  function MediaTypesViolations(mediaTypes: seq<(Step, Json)>, responsePath: Path, preds: SchemaPredicates): seq<Violation>
  {
    FlatMap(mediaTypes, MediaTypeCallback(responsePath, preds))
  }

  /** The callback of `each(response.content, ...)` for the response at `responsePath`. */
  function MediaTypeCallback(responsePath: Path, preds: SchemaPredicates): ((Step, Json)) -> seq<Violation>
  {
    (m: (Step, Json)) => MediaTypeViolations(m.0, m.1, responsePath, preds)
  }

  /** The violations of one response (`responseKey`, `response`) of the Responses Object at `path`. */
  function ResponseViolations(response: (Step, Json), path: Path, preds: SchemaPredicates): seq<Violation>
  {
    MediaTypesViolations(ContentEntries(response.1), path + [response.0], preds)
  }

  /** The violations of the given responses of the Responses Object at `path`, in response order. */
  function ResponsesViolations(responses: seq<(Step, Json)>, path: Path, preds: SchemaPredicates): seq<Violation>
  {
    FlatMap(responses, ResponseCallback(path, preds))
  }

  /** The callback of `each(obj, ...)` for the Responses Object at `path`. */
  function ResponseCallback(path: Path, preds: SchemaPredicates): ((Step, Json)) -> seq<Violation>
  {
    (r: (Step, Json)) => ResponseViolations(r, path, preds)
  }

  /** What the visitor reports for one visit: only a Responses Object that is not a `$ref` is inspected. */
  function NodeViolations(node: Json, path: Path, preds: SchemaPredicates): seq<Violation>
  {
    if IsResponseObject(path) && !IsRef(node) then ResponsesViolations(EachEntries(node), path, preds) else []
  }

  /** What the visitor reports over a list of visits, in visit order. */
  function VisitsViolations(visits: seq<(Json, Path)>, preds: SchemaPredicates): seq<Violation>
  {
    FlatMap(visits, Visitor(preds))
  }

  /** The visitor handed to `walk`. */
  function Visitor(preds: SchemaPredicates): ((Json, Path)) -> seq<Violation>
  {
    (x: (Json, Path)) => NodeViolations(x.0, x.1, preds)
  }

  /** The violations of the rule over the whole API definition. */
  function Violations(apidef: Json, preds: SchemaPredicates): seq<Violation>
  {
    VisitsViolations(Walk(apidef, []), preds)
  }

  /** The rule as the source runs it: walk the document, letting the visitor push each violation as it is found. */
  method InlineResponseSchema(apidef: Json, preds: SchemaPredicates) returns (errors: seq<Violation>)
    ensures errors == Violations(apidef, preds)
  {
    errors := [];
    var visits := Walk(apidef, []);
    for v := 0 to |visits|
      invariant errors == VisitsViolations(visits[..v], preds)
    {
      FlatMapStep(visits, v, Visitor(preds));
      errors := Visit(errors, visits[v].0, visits[v].1, preds);
    }
    assert visits[..|visits|] == visits;
  }

  /** The visitor: at a Responses Object that is not a `$ref`, push a violation for each flagged media type of each response. */
  method Visit(errors: seq<Violation>, obj: Json, path: Path, preds: SchemaPredicates) returns (errors': seq<Violation>)
    ensures errors' == errors + NodeViolations(obj, path, preds)
  {
    errors' := errors;
    var isRef := IsRef(obj);
    if IsResponseObject(path) && !isRef {
      errors' := CheckResponses(errors, EachEntries(obj), path, preds);
    }
  }

  /** The callback of `each(obj, ...)`: for each response, in order, check its media types. */
  method CheckResponses(errors: seq<Violation>, responses: seq<(Step, Json)>, path: Path, preds: SchemaPredicates)
    returns (errors': seq<Violation>)
    ensures errors' == errors + ResponsesViolations(responses, path, preds)
  {
    errors' := errors;
    for r := 0 to |responses|
      invariant errors' == errors + ResponsesViolations(responses[..r], path, preds)
    {
      FlatMapAppendStep(errors, responses, r, ResponseCallback(path, preds));
      var (responseKey, response) := responses[r];
      errors' := CheckMediaTypes(errors', ContentEntries(response), path + [responseKey], preds);
    }
    assert responses[..|responses|] == responses;
  }

  /** The callback of `each(response.content, ...)`: push a violation for each flagged media type of one response. */
  method CheckMediaTypes(errors: seq<Violation>, mediaTypes: seq<(Step, Json)>, responsePath: Path, preds: SchemaPredicates)
    returns (errors': seq<Violation>)
    ensures errors' == errors + MediaTypesViolations(mediaTypes, responsePath, preds)
  {
    errors' := errors;
    for m := 0 to |mediaTypes|
      invariant errors' == errors + MediaTypesViolations(mediaTypes[..m], responsePath, preds)
    {
      FlatMapAppendStep(errors, mediaTypes, m, MediaTypeCallback(responsePath, preds));
      var (mediaTypeKey, mediaType) := mediaTypes[m];
      var schema := Get(mediaType, "schema");
      if Present(schema) && preds.isJsonMimeType(mediaTypeKey) {
        if !IsRef(schema.value) && !preds.isPrimitiveType(schema.value) && !ArrayItemsAreRefOrPrimitive(schema.value, preds) {
          errors' := errors' + [Violation(ErrorMessage, responsePath + [Key("content"), mediaTypeKey, Key("schema")])];
        }
      }
    }
    assert mediaTypes[..|mediaTypes|] == mediaTypes;
  }

  // ---------------------------------------------------------------------
  // Properties of the rule
  // ---------------------------------------------------------------------

  /** `arrayItemsAreRefOrPrimitive` holds only for a schema whose `type` is `array` and whose `items` is present. */
  lemma ArrayItemsNeedArrayType(schema: Json, preds: SchemaPredicates)
    requires Get(schema, "type") != Some(JStr("array")) || !Present(Get(schema, "items"))
    ensures !ArrayItemsAreRefOrPrimitive(schema, preds)
  {
  }

  /** Non-JSON media types and media types without a schema are never reported. */
  lemma NonJsonOrSchemalessNotReported(mediaTypeKey: Step, mediaType: Json, responsePath: Path, preds: SchemaPredicates)
    requires !preds.isJsonMimeType(mediaTypeKey) || !Present(Get(mediaType, "schema"))
    ensures MediaTypeViolations(mediaTypeKey, mediaType, responsePath, preds) == []
  {
  }

  /** A `$ref`, a primitive type, or an array of `$ref` or primitive items is never reported. */
  lemma AcceptedSchemasNotReported(mediaTypeKey: Step, mediaType: Json, responsePath: Path, preds: SchemaPredicates)
    requires Get(mediaType, "schema").Some?
    requires var schema := Get(mediaType, "schema").value;
      || IsRef(schema)
      || preds.isPrimitiveType(schema)
      || (Get(schema, "type") == Some(JStr("array")) && Present(Get(schema, "items"))
          && (IsRef(Get(schema, "items").value) || preds.isPrimitiveType(Get(schema, "items").value)))
    ensures MediaTypeViolations(mediaTypeKey, mediaType, responsePath, preds) == []
  {
  }

  /**
   * An inline array of inline objects under a JSON media type, such as
   * `{type: array, items: {type: object}}`, is reported exactly once, at the
   * path of its `schema`.
   */
  lemma InlineArrayOfObjectsReported(mediaTypeKey: Step, responsePath: Path, preds: SchemaPredicates)
    requires preds.isJsonMimeType(mediaTypeKey)
    requires var items := JObj([("type", JStr("object"))]);
      var schema := JObj([("type", JStr("array")), ("items", items)]);
      !preds.isPrimitiveType(schema) && !preds.isPrimitiveType(items)
    ensures var schema := JObj([("type", JStr("array")), ("items", JObj([("type", JStr("object"))]))]);
      MediaTypeViolations(mediaTypeKey, JObj([("schema", schema)]), responsePath, preds)
        == [Violation(ErrorMessage, responsePath + [Key("content"), mediaTypeKey, Key("schema")])]
  {
  }

  /** `v` is reported for the media type `mediaTypes[j]` of the response at `responsePath`. */
  ghost predicate ReportedForResponse(response: (Step, Json), path: Path, v: Violation, preds: SchemaPredicates)
  {
    exists j :: 0 <= j < |ContentEntries(response.1)|
      && Flagged(ContentEntries(response.1)[j].0, ContentEntries(response.1)[j].1, preds)
      && v == Violation(ErrorMessage, path + [response.0, Key("content"), ContentEntries(response.1)[j].0, Key("schema")])
  }

  /**
   * `v` is reported for the Responses Object `node` at `path`: some response
   * of it has a flagged JSON media type, and `v` is the fixed message at that
   * media type's `schema`.
   */
  ghost predicate ReportedAt(node: Json, path: Path, v: Violation, preds: SchemaPredicates)
  {
    exists i :: 0 <= i < |EachEntries(node)| && ReportedForResponse(EachEntries(node)[i], path, v, preds)
  }

  lemma ResponseViolationsExact(response: (Step, Json), path: Path, preds: SchemaPredicates, v: Violation)
    ensures v in ResponseViolations(response, path, preds) <==> ReportedForResponse(response, path, v, preds)
  {
    var mediaTypes := ContentEntries(response.1);
    InFlatMap(mediaTypes, MediaTypeCallback(path + [response.0], preds), v);
    forall j | 0 <= j < |mediaTypes|
      ensures path + [response.0] + [Key("content"), mediaTypes[j].0, Key("schema")]
           == path + [response.0, Key("content"), mediaTypes[j].0, Key("schema")]
    {
    }
  }

  lemma NodeViolationsExact(node: Json, path: Path, preds: SchemaPredicates, v: Violation)
    ensures v in NodeViolations(node, path, preds) <==> IsResponseObject(path) && !IsRef(node) && ReportedAt(node, path, v, preds)
  {
    if IsResponseObject(path) && !IsRef(node) {
      var responses := EachEntries(node);
      InFlatMap(responses, ResponseCallback(path, preds), v);
      forall i | 0 <= i < |responses|
        ensures v in ResponseViolations(responses[i], path, preds) <==> ReportedForResponse(responses[i], path, v, preds)
      {
        ResponseViolationsExact(responses[i], path, preds, v);
      }
    }
  }

  /**
   * The rule reports `v` exactly when some node of the document is a
   * Responses Object that is not a `$ref`, and `v` is reported for it.
   */
  lemma ViolationsExact(apidef: Json, preds: SchemaPredicates, v: Violation)
    ensures v in Violations(apidef, preds)
        <==> exists node, path :: Reachable(apidef, path, node) && IsResponseObject(path) && !IsRef(node) && ReportedAt(node, path, v, preds)
  {
    var visits := Walk(apidef, []);
    InFlatMap(visits, Visitor(preds), v);
    if v in Violations(apidef, preds) {
      var k :| 0 <= k < |visits| && v in NodeViolations(visits[k].0, visits[k].1, preds);
      NodeViolationsExact(visits[k].0, visits[k].1, preds, v);
      WalkExact(apidef, visits[k].0, visits[k].1);
    }
    if exists node, path :: Reachable(apidef, path, node) && IsResponseObject(path) && !IsRef(node) && ReportedAt(node, path, v, preds) {
      var node, path :| Reachable(apidef, path, node) && IsResponseObject(path) && !IsRef(node) && ReportedAt(node, path, v, preds);
      WalkExact(apidef, node, path);
      var k :| 0 <= k < |visits| && visits[k] == (node, path);
      NodeViolationsExact(node, path, preds, v);
    }
  }

  /**
   * Every violation carries the fixed message, and its path is the path of a
   * Responses Object followed by a response key, `content`, a media-type key
   * and `schema`: four steps longer, ending in `schema`.
   */
  lemma ViolationShape(apidef: Json, preds: SchemaPredicates, v: Violation)
    requires v in Violations(apidef, preds)
    ensures v.message == ErrorMessage
    ensures exists path :: IsResponseObject(path) && |v.path| == |path| + 4 && v.path[..|path|] == path
                           && v.path[|path| + 1] == Key("content") && v.path[|path| + 3] == Key("schema")
  {
    ViolationsExact(apidef, preds, v);
    var node, path :| Reachable(apidef, path, node) && IsResponseObject(path) && !IsRef(node) && ReportedAt(node, path, v, preds);
    ReportedAtShape(node, path, v, preds);
  }

  lemma ReportedAtShape(node: Json, path: Path, v: Violation, preds: SchemaPredicates)
    requires ReportedAt(node, path, v, preds)
    ensures v.message == ErrorMessage
    ensures |v.path| == |path| + 4 && v.path[..|path|] == path
    ensures v.path[|path| + 1] == Key("content") && v.path[|path| + 3] == Key("schema")
  {
    var responses := EachEntries(node);
    var i :| 0 <= i < |responses| && ReportedForResponse(responses[i], path, v, preds);
    ReportedForResponseShape(responses[i], path, v, preds);
  }

  lemma ReportedForResponseShape(response: (Step, Json), path: Path, v: Violation, preds: SchemaPredicates)
    requires ReportedForResponse(response, path, v, preds)
    ensures v.message == ErrorMessage
    ensures |v.path| == |path| + 4 && v.path[..|path|] == path
    ensures v.path[|path| + 1] == Key("content") && v.path[|path| + 3] == Key("schema")
  {
    var mediaTypes := ContentEntries(response.1);
    var j :| 0 <= j < |mediaTypes| && Flagged(mediaTypes[j].0, mediaTypes[j].1, preds)
      && v == Violation(ErrorMessage, path + [response.0, Key("content"), mediaTypes[j].0, Key("schema")]);
    var tail := [response.0, Key("content"), mediaTypes[j].0, Key("schema")];
    assert v.path == path + tail;
    assert v.path[..|path|] == path;
    assert v.path[|path| + 1] == tail[1] && v.path[|path| + 3] == tail[3];
  }

  /** A document without an unreferenced Responses Object yields `[]`. */
  lemma NoResponseObjectsNoViolations(apidef: Json, preds: SchemaPredicates)
    requires forall node, path :: Reachable(apidef, path, node) ==> !IsResponseObject(path) || IsRef(node)
    ensures Violations(apidef, preds) == []
  {
    if Violations(apidef, preds) != [] {
      ViolationsExact(apidef, preds, Violations(apidef, preds)[0]);
    }
  }

  /**
   * Null, booleans, numbers and strings never produce violations, even at a
   * `responses` path; so the output does not depend on whether the walk hands
   * primitive leaves to the visitor.
   */
  lemma LeavesReportNothing(node: Json, path: Path, preds: SchemaPredicates)
    requires !node.JArr? && !node.JObj?
    ensures NodeViolations(node, path, preds) == []
  {
    FlatMapEmpty(EachEntries(node), ResponseCallback(path, preds));
  }

  // ---------------------------------------------------------------------
  // The order in which `each` visits the responses
  // ---------------------------------------------------------------------

  /** Splitting three entries, the first not an array index, the other two array indices. */
  lemma ThreeIndexEntries(a: string, b: string, c: string, ra: Json, rb: Json, rc: Json)
    requires !IsArrayIndex(a) && IsArrayIndex(b) && IsArrayIndex(c)
    ensures IndexEntries([(a, ra), (b, rb), (c, rc)]) == [(b, rb), (c, rc)]
    ensures NamedEntries([(a, ra), (b, rb), (c, rc)]) == [(a, ra)]
  {
    var fields := [(a, ra), (b, rb), (c, rc)];
    var two, one := [(a, ra), (b, rb)], [(a, ra)];
    assert fields[..2] == two && two[..1] == one && one[..0] == [];
    assert IndexEntries(one) == [] && NamedEntries(one) == one;
    assert IndexEntries(two) == [(b, rb)] && NamedEntries(two) == one;
  }

  /** Two array-index entries out of numeric order are swapped. */
  lemma SortTwo(b: string, c: string, rb: Json, rc: Json)
    requires IsArrayIndex(b) && IsArrayIndex(c) && DecimalValue(c) < DecimalValue(b)
    ensures SortByIndex([(b, rb), (c, rc)]) == [(c, rc), (b, rb)]
  {
    assert [(b, rb), (c, rc)][1..] == [(c, rc)];
    assert [(c, rc)][1..] == [];
  }

  /** Status codes are array-index keys; `default` is not. */
  lemma StatusCodeKeys()
    ensures IsArrayIndex("200") && IsArrayIndex("404") && !IsArrayIndex("default")
    ensures DecimalValue("200") < DecimalValue("404")
  {
    assert "200"[..2] == "20" && "20"[..1] == "2" && "2"[..0] == "";
    assert "404"[..2] == "40" && "40"[..1] == "4" && "4"[..0] == "";
    assert DecimalValue("200") == 200 && DecimalValue("404") == 404;
  }

  /**
   * `each` over a Responses Object visits the status codes in numeric order
   * and `default` after them, whatever their order in the document.
   */
  lemma StatusCodesInNumericOrder(r404: Json, r200: Json, rDefault: Json)
    ensures EachEntries(JObj([("default", rDefault), ("404", r404), ("200", r200)]))
         == [(Key("200"), r200), (Key("404"), r404), (Key("default"), rDefault)]
  {
    StatusCodeKeys();
    ThreeIndexEntries("default", "404", "200", rDefault, r404, r200);
    SortTwo("404", "200", r404, r200);
    EachEntriesOfThree([("default", rDefault), ("404", r404), ("200", r200)], [("200", r200), ("404", r404), ("default", rDefault)]);
  }

  /** `each` hands over the entries of an object in the order `OwnKeyOrder` gives them. */
  lemma EachEntriesOfThree(fields: seq<(string, Json)>, ordered: seq<(string, Json)>)
    requires OwnKeyOrder(fields) == ordered && |ordered| == 3
    ensures EachEntries(JObj(fields)) == [(Key(ordered[0].0), ordered[0].1), (Key(ordered[1].0), ordered[1].1), (Key(ordered[2].0), ordered[2].1)]
  {
    var entries := ObjectEntries(fields);
    assert EachEntries(JObj(fields)) == entries;
    assert entries[0] == (Key(ordered[0].0), ordered[0].1);
    assert entries[1] == (Key(ordered[1].0), ordered[1].1);
    assert entries[2] == (Key(ordered[2].0), ordered[2].1);
  }
}
