/**
 * The scenarios of the `paths-ibm` test suite for the duplicate-path-parameter
 * check, worked out on the model: a path `/v1/api/resources/{id}` with a
 * `get` and a `post` operation, and the level configured as `warning`. The
 * operation ids and the descriptions of the `id` parameter are left open,
 * so each scenario covers every choice of them.
 */
module PathsIbmExamples {
  import opened Json
  import opened Seqs
  import opened PathsIbm

  const ResourcePath: string := "/v1/api/resources/{id}"

  /** A path parameter `id` with the given description. */
  function IdParameter(description: string): Json
  {
    JObj([("name", JStr("id")), ("in", JStr("path")), ("required", JBool(true)), ("type", JStr("string")), ("description", JStr(description))])
  }

  /** An operation with an `operationId` and, when given, a `parameters` list. */
  function Operation(operationId: string, parameters: Option<seq<Json>>): Json
  {
    match parameters
    case Some(ps) => JObj([("operationId", JStr(operationId)), ("parameters", JArr(ps))])
    case None => JObj([("operationId", JStr(operationId))])
  }

  /** A Path Item with a `get` and a `post` operation, after a path-level `parameters` list when one is given. */
  function GetPostItem(pathParameters: Option<seq<Json>>, get: Json, post: Json): Json
  {
    match pathParameters
    case Some(ps) => JObj([("parameters", JArr(ps)), ("get", get), ("post", post)])
    case None => JObj([("get", get), ("post", post)])
  }

  /** A document whose only path is `ResourcePath`. */
  function SpecWith(pathItem: Json): Json
  {
    JObj([("paths", JObj([(ResourcePath, pathItem)]))])
  }

  function Warning(op: string, index: string): Message
  {
    Message(["paths", ResourcePath, op, "parameters", index], HoistMessage, "warning", RuleId)
  }

  // ---------------------------------------------------------------------
  // The document around the scenarios
  // ---------------------------------------------------------------------

  lemma ResourcePathPlaceholders()
    ensures Placeholders(ResourcePath) == ["id"]
  {
    PlaceholdersOfTemplate([("/v1/api/resources/", "id")], "");
    assert Template([("/v1/api/resources/", "id")], "") == ResourcePath;
  }

  lemma OperationParametersOf(operationId: string, parameters: Option<seq<Json>>)
    ensures Get(Operation(operationId, parameters), "parameters") == (if parameters.Some? then Some(JArr(parameters.value)) else None)
  {
    assert "operationId" != "parameters" by {
      assert |"operationId"| == 11 && |"parameters"| == 10;
    }
    match parameters
    case Some(ps) =>
      assert Operation(operationId, parameters).fields[1] == ("parameters", JArr(ps));
    case None =>
  }

  lemma AllowedOperationsHaveShortNames()
    ensures "get" in AllowedOperations && "post" in AllowedOperations && "parameters" !in AllowedOperations
  {
    assert AllowedOperations[0] == "get" && AllowedOperations[2] == "post";
    assert forall k :: 0 <= k < |AllowedOperations| ==> |AllowedOperations[k]| != |"parameters"|;
  }

  lemma FilterGetPost()
    ensures FilterOperations(["get", "post"]) == ["get", "post"]
    ensures FilterOperations(["parameters", "get", "post"]) == ["get", "post"]
  {
    AllowedOperationsHaveShortNames();
    FilterOperationsSnoc([], "get");
    FilterOperationsSnoc(["get"], "post");
    FilterOperationsSnoc([], "parameters");
    FilterOperationsSnoc(["parameters"], "get");
    FilterOperationsSnoc(["parameters", "get"], "post");
  }

  /** The keys of such a Path Item: the path-level `parameters` first when present, then `get` and `post`. */
  lemma GetPostKeys(pathParameters: Option<seq<Json>>, get: Json, post: Json)
    ensures Keys(GetPostItem(pathParameters, get, post)) == (if pathParameters.Some? then ["parameters", "get", "post"] else ["get", "post"])
  {
  }

  /** The operations of such a Path Item are `get` then `post`. */
  lemma GetPostOperations(pathParameters: Option<seq<Json>>, get: Json, post: Json)
    ensures OperationKeys(GetPostItem(pathParameters, get, post)) == ["get", "post"]
  {
    GetPostKeys(pathParameters, get, post);
    OperationKeysInDocumentOrder(GetPostItem(pathParameters, get, post));
    FilterGetPost();
  }

  /** The two operations of such a Path Item are found under their keys. */
  lemma GetPostLookup(pathParameters: Option<seq<Json>>, get: Json, post: Json)
    ensures Get(GetPostItem(pathParameters, get, post), "get") == Some(get)
    ensures Get(GetPostItem(pathParameters, get, post), "post") == Some(post)
  {
    assert |"parameters"| == 10 && |"get"| == 3 && |"post"| == 4;
    assert Lookup([("get", get), ("post", post)], "post") == Some(post) by {
      assert [("get", get), ("post", post)][1..] == [("post", post)];
    }
  }

  /** The `parameters` lists of the two operations, as the validator reads them. */
  lemma GetPostParameters(pathParameters: Option<seq<Json>>, getId: string, getParameters: Option<seq<Json>>,
                          postId: string, postParameters: Option<seq<Json>>)
    ensures ParametersOf(GetPostItem(pathParameters, Operation(getId, getParameters), Operation(postId, postParameters)), "get")
         == (if getParameters.Some? then Some(JArr(getParameters.value)) else None)
    ensures ParametersOf(GetPostItem(pathParameters, Operation(getId, getParameters), Operation(postId, postParameters)), "post")
         == (if postParameters.Some? then Some(JArr(postParameters.value)) else None)
  {
    GetPostLookup(pathParameters, Operation(getId, getParameters), Operation(postId, postParameters));
    OperationParametersOf(getId, getParameters);
    OperationParametersOf(postId, postParameters);
  }

  /** For a document with the single path `ResourcePath`, the messages are those of its placeholder `id`. */
  lemma SinglePathMessages(pathParameters: Option<seq<Json>>, get: Json, post: Json)
    ensures ValidateSpec(SpecWith(GetPostItem(pathParameters, get, post)), Some("warning"))
         == DuplicateMessages(ResourcePath, GetPostItem(pathParameters, get, post), ["get", "post"], "id", Some("warning"))
  {
    var item := GetPostItem(pathParameters, get, post);
    ValidateInDocumentOrder(SpecWith(item), Some("warning"), [(ResourcePath, item)]);
    FlatMapSnoc([], (ResourcePath, item), PathCallback(Some("warning")));
    GetPostOperations(pathParameters, get, post);
    ResourcePathPlaceholders();
    FlatMapSnoc([], "id", ParameterCallback(ResourcePath, item, ["get", "post"], Some("warning")));
  }

  // ---------------------------------------------------------------------
  // What each operation contributes
  // ---------------------------------------------------------------------

  /** Concatenation over the two operations `get` and `post`. */
  lemma OverGetPost<U>(f: string -> seq<U>)
    ensures FlatMap(["get", "post"], f) == f("get") + f("post")
  {
    FlatMapSnoc([], "get", f);
    FlatMapSnoc(["get"], "post", f);
  }

  lemma WarningEnables()
    ensures CheckStatus(Some("warning")) == "warning" && MatchesSeverity("warning")
  {
    assert OccursAt("warning", "warning", 0);
  }

  /** An operation with a `parameters` list contributes its definitions of `id`. */
  lemma DefinitionsWith(item: Json, op: string, ps: seq<Json>)
    requires ParametersOf(item, op) == Some(JArr(ps))
    ensures NamedDefinitionsOf(item, "id")(op) == FilterNamed(ps, "id")
  {
  }

  /** An operation with a `parameters` list gets the message at `id`'s index in it. */
  lemma HoistWith(item: Json, op: string, ps: seq<Json>)
    requires ParametersOf(item, op) == Some(JArr(ps))
    ensures HoistCallback(ResourcePath, item, "id", "warning")(op) == [Warning(op, IndexString(FindIndex(ps, "id")))]
  {
  }

  /** An operation without `parameters` contributes nothing. */
  lemma ContributionsWithout(item: Json, op: string)
    requires ParametersOf(item, op) == None
    ensures NamedDefinitionsOf(item, "id")(op) == []
    ensures HoistCallback(ResourcePath, item, "id", "warning")(op) == []
  {
  }

  /** The definitions of `id` in the two operations, in order. */
  lemma DefinitionsOverGetPost(item: Json, getDefs: seq<Json>, postDefs: seq<Json>)
    requires NamedDefinitionsOf(item, "id")("get") == getDefs
    requires NamedDefinitionsOf(item, "id")("post") == postDefs
    ensures NamedDefinitions(item, ["get", "post"], "id") == getDefs + postDefs
  {
    OverGetPost(NamedDefinitionsOf(item, "id"));
  }

  /** The messages for `id` once flagged, when the two operations contribute the lists shown. */
  lemma HoistOverGetPost(item: Json, fromGet: seq<Message>, fromPost: seq<Message>)
    requires HoistCallback(ResourcePath, item, "id", "warning")("get") == fromGet
    requires HoistCallback(ResourcePath, item, "id", "warning")("post") == fromPost
    ensures HoistMessages(ResourcePath, item, ["get", "post"], "id", "warning") == fromGet + fromPost
  {
    OverGetPost(HoistCallback(ResourcePath, item, "id", "warning"));
  }

  /** A one-element `parameters` list whose entry is named `id` holds one definition of it. */
  lemma SingleIdFiltered(p: Json)
    requires HasName(p, "id")
    ensures FilterNamed([p], "id") == [p]
  {
  }

  /** An operation whose `parameters` list is one definition of `id` contributes exactly that definition. */
  lemma SingleDefinition(item: Json, op: string, p: Json)
    requires ParametersOf(item, op) == Some(JArr([p])) && HasName(p, "id")
    ensures NamedDefinitionsOf(item, "id")(op) == [p]
  {
    DefinitionsWith(item, op, [p]);
    SingleIdFiltered(p);
  }

  /** A one-element `parameters` list whose entry is named `id` has it at index 0. */
  lemma SingleIdIndex(p: Json)
    requires HasName(p, "id")
    ensures IndexString(FindIndex([p], "id")) == "0"
  {
    assert FindIndex([p], "id") == 0;
  }

  /** The same parameter object twice is one deep-equality class. */
  lemma SameParameterTwice(p: Json)
    ensures |UniqWith([p, p])| == 1
  {
    assert UniqWith([p]) == [p];
    assert [p, p][..1] == [p];
    assert HasDeepEqual([p], p);
  }

  /** Two parameter objects that are not deeply equal are two classes. */
  lemma DifferentParameters(p: Json, q: Json)
    requires !DeepEqual(p, q)
    ensures |UniqWith([p, q])| == 2
  {
    assert UniqWith([p]) == [p];
    assert [p, q][..1] == [p];
    assert !HasDeepEqual([p], q);
  }

  /** With a single class of definitions and the level `warning`, the messages are the hoist messages. */
  lemma FlaggedAsWarning(item: Json)
    requires |UniqWith(NamedDefinitions(item, ["get", "post"], "id"))| == 1
    ensures DuplicateMessages(ResourcePath, item, ["get", "post"], "id", Some("warning"))
         == HoistMessages(ResourcePath, item, ["get", "post"], "id", "warning")
  {
    WarningEnables();
  }

  lemma DescriptionOf(d: string)
    ensures Get(IdParameter(d), "description") == Some(JStr(d))
  {
    var fields := IdParameter(d).fields;
    assert |"description"| == 11 && |"name"| == 4 && |"in"| == 2 && |"required"| == 8 && |"type"| == 4;
    assert fields[4] == ("description", JStr(d));
    assert forall i :: 0 <= i < 4 ==> fields[i].0 != "description";
  }

  /** `id` parameters with different descriptions are not deeply equal. */
  lemma DescriptionsTellApart(d: string, e: string)
    requires d != e
    ensures !DeepEqual(IdParameter(d), IdParameter(e))
  {
    var p, q := IdParameter(d), IdParameter(e);
    DescriptionOf(d);
    DescriptionOf(e);
    if DeepEqual(p, q) {
      DeepEqualSameProperty(p, q, "description");
    }
  }

  // ---------------------------------------------------------------------
  // The decision for `id`, for the shapes of the scenarios
  // ---------------------------------------------------------------------

  /** Both operations list the same single definition of `id`: each is reported at index 0. */
  lemma BothReported(item: Json, p: Json)
    requires ParametersOf(item, "get") == Some(JArr([p])) && ParametersOf(item, "post") == Some(JArr([p]))
    requires HasName(p, "id")
    ensures DuplicateMessages(ResourcePath, item, ["get", "post"], "id", Some("warning")) == [Warning("get", "0"), Warning("post", "0")]
  {
    BothDefine(item, p);
    FlaggedAsWarning(item);
    BothHoisted(item, p);
  }

  lemma BothDefine(item: Json, p: Json)
    requires ParametersOf(item, "get") == Some(JArr([p])) && ParametersOf(item, "post") == Some(JArr([p]))
    requires HasName(p, "id")
    ensures |UniqWith(NamedDefinitions(item, ["get", "post"], "id"))| == 1
  {
    TwoDefinitions(item, p, p);
    SameParameterTwice(p);
  }

  lemma BothHoisted(item: Json, p: Json)
    requires ParametersOf(item, "get") == Some(JArr([p])) && ParametersOf(item, "post") == Some(JArr([p]))
    requires HasName(p, "id")
    ensures HoistMessages(ResourcePath, item, ["get", "post"], "id", "warning") == [Warning("get", "0"), Warning("post", "0")]
  {
    HoistWith(item, "get", [p]);
    HoistWith(item, "post", [p]);
    SingleIdIndex(p);
    HoistOverGetPost(item, [Warning("get", "0")], [Warning("post", "0")]);
  }

  /** The operations list one definition of `id` each, and the two differ: nothing is reported. */
  lemma NeitherReported(item: Json, p: Json, q: Json)
    requires ParametersOf(item, "get") == Some(JArr([p])) && ParametersOf(item, "post") == Some(JArr([q]))
    requires HasName(p, "id") && HasName(q, "id") && !DeepEqual(p, q)
    ensures DuplicateMessages(ResourcePath, item, ["get", "post"], "id", Some("warning")) == []
  {
    TwoDefinitions(item, p, q);
    DifferentParameters(p, q);
  }

  /** Each operation lists one definition of `id`: the definitions are those two, `get`'s first. */
  lemma TwoDefinitions(item: Json, p: Json, q: Json)
    requires ParametersOf(item, "get") == Some(JArr([p])) && ParametersOf(item, "post") == Some(JArr([q]))
    requires HasName(p, "id") && HasName(q, "id")
    ensures NamedDefinitions(item, ["get", "post"], "id") == [p, q]
  {
    SingleDefinition(item, "get", p);
    SingleDefinition(item, "post", q);
    DefinitionsOverGetPost(item, [p], [q]);
  }

  /** Only `get` lists a definition of `id`, as its first entry: `get` alone is reported, at index 0. */
  lemma OnlyGetReported(item: Json, p: Json)
    requires ParametersOf(item, "get") == Some(JArr([p])) && ParametersOf(item, "post") == None
    requires HasName(p, "id")
    ensures DuplicateMessages(ResourcePath, item, ["get", "post"], "id", Some("warning")) == [Warning("get", "0")]
  {
    OnlyGetDefines(item, p);
    FlaggedAsWarning(item);
    OnlyGetHoisted(item, p);
  }

  lemma OnlyGetDefines(item: Json, p: Json)
    requires ParametersOf(item, "get") == Some(JArr([p])) && ParametersOf(item, "post") == None
    requires HasName(p, "id")
    ensures |UniqWith(NamedDefinitions(item, ["get", "post"], "id"))| == 1
  {
    SingleDefinition(item, "get", p);
    ContributionsWithout(item, "post");
    DefinitionsOverGetPost(item, [p], []);
    assert [p] + [] == [p];
    assert UniqWith([p]) == [p];
  }

  lemma OnlyGetHoisted(item: Json, p: Json)
    requires ParametersOf(item, "get") == Some(JArr([p])) && ParametersOf(item, "post") == None
    requires HasName(p, "id")
    ensures HoistMessages(ResourcePath, item, ["get", "post"], "id", "warning") == [Warning("get", "0")]
  {
    HoistWith(item, "get", [p]);
    ContributionsWithout(item, "post");
    SingleIdIndex(p);
    HoistOverGetPost(item, [Warning("get", "0")], []);
  }

  /** Neither operation has a `parameters` list: nothing is reported. */
  lemma NoneReported(item: Json)
    requires ParametersOf(item, "get") == None && ParametersOf(item, "post") == None
    ensures DuplicateMessages(ResourcePath, item, ["get", "post"], "id", Some("warning")) == []
  {
    ContributionsWithout(item, "get");
    ContributionsWithout(item, "post");
    DefinitionsOverGetPost(item, [], []);
  }

  // ---------------------------------------------------------------------
  // The scenarios
  // ---------------------------------------------------------------------

  /** Two operations that define `id` identically are both reported, `get` first, each at index 0. */
  lemma IdenticalDefinitionsReported(getId: string, postId: string, description: string)
    ensures ValidateSpec(SpecWith(GetPostItem(None, Operation(getId, Some([IdParameter(description)])),
                                                    Operation(postId, Some([IdParameter(description)])))), Some("warning"))
         == [Warning("get", "0"), Warning("post", "0")]
  {
    IdParameterNamed(description);
    SameDefinitionReported(getId, postId, IdParameter(description));
  }

  /** `IdParameter(d)` is named `id`. */
  lemma IdParameterNamed(d: string)
    ensures HasName(IdParameter(d), "id")
  {
  }

  lemma SameDefinitionReported(getId: string, postId: string, p: Json)
    requires HasName(p, "id")
    ensures ValidateSpec(SpecWith(GetPostItem(None, Operation(getId, Some([p])), Operation(postId, Some([p])))), Some("warning"))
         == [Warning("get", "0"), Warning("post", "0")]
  {
    var get, post := Operation(getId, Some([p])), Operation(postId, Some([p]));
    SinglePathMessages(None, get, post);
    GetPostParameters(None, getId, Some([p]), postId, Some([p]));
    BothReported(GetPostItem(None, get, post), p);
  }

  /** When the two definitions differ only in their description, nothing is reported. */
  lemma DifferentDescriptionsNotReported(getId: string, postId: string, getDescription: string, postDescription: string)
    requires getDescription != postDescription
    ensures ValidateSpec(SpecWith(GetPostItem(None, Operation(getId, Some([IdParameter(getDescription)])),
                                                    Operation(postId, Some([IdParameter(postDescription)])))), Some("warning"))
         == []
  {
    var p, q := IdParameter(getDescription), IdParameter(postDescription);
    var get, post := Operation(getId, Some([p])), Operation(postId, Some([q]));
    SinglePathMessages(None, get, post);
    GetPostParameters(None, getId, Some([p]), postId, Some([q]));
    DescriptionsTellApart(getDescription, postDescription);
    NeitherReported(GetPostItem(None, get, post), p, q);
  }

  /** A parameter declared only on the Path Item is not reported: the operations define nothing to hoist. */
  lemma PathLevelParameterNotReported(getId: string, postId: string, description: string)
    ensures ValidateSpec(SpecWith(GetPostItem(Some([IdParameter(description)]), Operation(getId, None),
                                                    Operation(postId, None))), Some("warning"))
         == []
  {
    var get, post := Operation(getId, None), Operation(postId, None);
    SinglePathMessages(Some([IdParameter(description)]), get, post);
    GetPostParameters(Some([IdParameter(description)]), getId, None, postId, None);
    NoneReported(GetPostItem(Some([IdParameter(description)]), get, post));
  }

  /** A definition in only one operation is reported for that operation alone, even when the Path Item declares it too. */
  lemma SingleOperationDefinitionReported(getId: string, postId: string, description: string)
    ensures ValidateSpec(SpecWith(GetPostItem(Some([IdParameter(description)]),
                                              Operation(getId, Some([JObj([("name", JStr("id")), ("in", JStr("path"))])])),
                                              Operation(postId, None))), Some("warning"))
         == [Warning("get", "0")]
  {
    var p := JObj([("name", JStr("id")), ("in", JStr("path"))]);
    var get, post := Operation(getId, Some([p])), Operation(postId, None);
    SinglePathMessages(Some([IdParameter(description)]), get, post);
    GetPostParameters(Some([IdParameter(description)]), getId, Some([p]), postId, None);
    assert HasName(p, "id");
    OnlyGetReported(GetPostItem(Some([IdParameter(description)]), get, post), p);
  }
}
