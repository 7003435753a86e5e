# openapi-validator: response-schema rule and duplicate path parameters

A Dafny model of three pieces of the IBM OpenAPI validator. Each piece works on
a parsed API definition, which is a JSON tree.

- `isResponseObject(path)` decides from a traversal path whether the node there
  is a Responses Object (module `ResponseObject`).
- The `inline-response-schema` rule walks the document. At every Responses
  Object that is not a `$ref`, it reports each JSON media-type schema that is
  inline instead of a `$ref` to a named schema (module `InlineResponseSchema`,
  with the walk in `Traversal`).
- The `paths-ibm` semantic validator looks at path templates that have `{name}`
  placeholders and at least two operations. When every operation-level
  definition of a placeholder is the same parameter object, it reports one
  `duplicate_path_parameter` message per operation that has a `parameters`
  list (modules `PathsIbm`, `PathsIbmProperties` and `PathsIbmExamples`).

Shared modules:
- `Json` holds the document datatype. Objects are lists of entries, and
  property reads take the first entry with the key. It also holds JavaScript
  truthiness, the key order of `Object.keys` (array-index keys first, in
  ascending numeric order, then the other keys in insertion order), what
  lodash `each` iterates over in that order, and lodash `isEqual`.
  `isEqual` is modelled as equality of a canonical form, in which objects
  become maps, so key order does not matter.
- `Seqs` holds `FlatMap`. It stands for a callback that appends to an output
  list while iterating, and for `flatten(xs.map(f))`.

The rule and the validator are each modelled twice:
- as a specification function (`InlineResponseSchema.Violations`,
  `PathsIbm.ValidateSpec`);
- as an imperative method whose loops mirror the source's nested `each` and
  `forEach` calls (`InlineResponseSchema.InlineResponseSchema`,
  `PathsIbm.Validate`).

Each method's postcondition ties its result to the function. The lemmas then
state what the function reports in terms that do not depend on how it is
computed: exact membership, message shape, and the severity gate.

Inputs whose sources are not part of this model:
- `isPrimitiveType` and `isJsonMimeType` are parameters (`SchemaPredicates`).
- `walk` is modelled as a pre-order traversal that visits every node with its
  path. Its properties are proved against an independent reachability
  relation.

The configuration is reduced to the one setting the validator reads,
`config.paths.duplicate_path_parameter`, which is passed as `Option<string>`.

## Model

| member | source | states |
|---|---|---|
| ResponseObject.IsResponseObjectExact | packages/ruleset/src/utils/is-response-object.js:1-29 | the classifier accepts exactly a path ending in an operation name followed by `responses`, or exactly `components.responses` (both directions) |
| ResponseObject.NotResponsesNotResponseObject | packages/ruleset/src/utils/is-response-object.js:13-28 | the empty path, and any path whose last step is not `responses`, is rejected |
| ResponseObject.OperationResponsesAccepted | packages/ruleset/src/utils/is-response-object.js:2-22 | `[..., op, responses]` is accepted for each of the eight HTTP methods, whatever the prefix |
| ResponseObject.ComponentsResponsesOnlyAtTop | packages/ruleset/src/utils/is-response-object.js:25-28 | `components.responses` is accepted at the top level and rejected under any non-empty prefix |
| ResponseObject.OtherParentsRejected | packages/ruleset/src/utils/is-response-object.js:15-28 | a `responses` property under anything other than an operation (for example `definitions`) is rejected, except top-level `components` |
| ResponseObject.DependsOnlyOnLastTwoSteps | packages/ruleset/src/utils/is-response-object.js:13-28 | two paths with the same length and the same last two steps get the same answer |
| Traversal.WalkStartsAtRoot | packages/ruleset/src/functions/inline-response-schema.js:25 | the walk visits the start node first, at the path it was given |
| Traversal.WalkVisitCount | packages/ruleset/src/functions/inline-response-schema.js:25 | the walk makes as many visits as the document has nodes |
| Traversal.WalkSound | packages/ruleset/src/functions/inline-response-schema.js:25 | every visited path extends the start path, and following the extension from the start reaches the visited node |
| Traversal.WalkComplete | packages/ruleset/src/functions/inline-response-schema.js:25 | every node reachable from the start is visited, at the path that reaches it |
| Traversal.WalkExact | packages/ruleset/src/functions/inline-response-schema.js:25 | from the root, a (node, path) pair is visited if and only if the path reaches the node |
| InlineResponseSchema.InlineResponseSchema | packages/ruleset/src/functions/inline-response-schema.js:21-51 | the list the rule fills while walking is exactly `Violations`, the violations of all visits in visit order, each Responses Object's responses taken in `Object.keys` order |
| InlineResponseSchema.Visit | packages/ruleset/src/functions/inline-response-schema.js:25-48 | the visitor appends exactly the violations of that node, its responses in `Object.keys` order, and appends nothing unless the node is a Responses Object without `$ref` |
| InlineResponseSchema.CheckResponses | packages/ruleset/src/functions/inline-response-schema.js:31-46 | iterating over the responses appends their violations in response order |
| InlineResponseSchema.CheckMediaTypes | packages/ruleset/src/functions/inline-response-schema.js:32-45 | iterating over a response's `content` appends one violation for each flagged media type, in order, with the fixed message and the path `[...path, responseKey, content, mediaTypeKey, schema]` |
| InlineResponseSchema.MediaTypeViolations | packages/ruleset/src/functions/inline-response-schema.js:33-45 | one media type yields at most one violation, and only when it is a JSON media type with a truthy `schema` |
| InlineResponseSchema.StatusCodesInNumericOrder | packages/ruleset/src/functions/inline-response-schema.js:31 | `each` visits responses `default`, `404`, `200` (in that document order) as `200`, `404`, `default` |
| Json.OwnKeyOrderSpec | packages/ruleset/src/functions/inline-response-schema.js:31 | the `Object.keys` order is a permutation of the entries that puts array-index keys first, in ascending numeric order, and keeps the other keys in insertion order |
| Json.ObjectKeys | packages/validator/src/plugins/validation/2and3/semantic-validators/paths-ibm.js:33 | `Object.keys` lists exactly the keys of the object |
| InlineResponseSchema.ArrayItemsNeedArrayType | packages/ruleset/src/functions/inline-response-schema.js:59-66 | `arrayItemsAreRefOrPrimitive` is false when `type` is not `array` or `items` is missing |
| InlineResponseSchema.NonJsonOrSchemalessNotReported | packages/ruleset/src/functions/inline-response-schema.js:33 | a media type that is not JSON, or has no truthy `schema`, yields no violation |
| InlineResponseSchema.AcceptedSchemasNotReported | packages/ruleset/src/functions/inline-response-schema.js:34-38 | a `$ref` schema, a primitive schema, or an array whose `items` is a `$ref` or primitive yields no violation |
| InlineResponseSchema.InlineArrayOfObjectsReported | packages/ruleset/src/functions/inline-response-schema.js:31-45 | an inline array of inline objects under a JSON media type yields exactly one violation, at its `schema` |
| InlineResponseSchema.ResponseViolationsExact | packages/ruleset/src/functions/inline-response-schema.js:32-45 | a violation comes from a response if and only if some media type of its `content` is flagged and the violation points at that media type's `schema` |
| InlineResponseSchema.NodeViolationsExact | packages/ruleset/src/functions/inline-response-schema.js:26-47 | a visit yields a violation if and only if the node is a Responses Object without `$ref` and the violation is reported for one of its responses |
| InlineResponseSchema.ViolationsExact | packages/ruleset/src/functions/inline-response-schema.js:21-51 | a violation is in the result if and only if it is reported at some reachable Responses Object without `$ref` |
| InlineResponseSchema.ViolationShape | packages/ruleset/src/functions/inline-response-schema.js:39-42 | every violation has the fixed message, and its path is a Responses Object path plus four steps, the second `content` and the fourth `schema` |
| InlineResponseSchema.ReportedAtShape | packages/ruleset/src/functions/inline-response-schema.js:39-42 | a violation reported at a Responses Object has the fixed message and a path four steps longer than the object's path, ending in `content`, a key, `schema` |
| InlineResponseSchema.NoResponseObjectsNoViolations | packages/ruleset/src/functions/inline-response-schema.js:22-50 | a document with no reachable Responses Object without `$ref` yields `[]` |
| InlineResponseSchema.LeavesReportNothing | packages/ruleset/src/functions/inline-response-schema.js:25-31 | null, booleans, numbers and strings yield no violation even at a `responses` path, so it does not matter whether the walk visits leaves |
| Json.DeepEqualIgnoresKeyOrder | packages/validator/src/plugins/validation/2and3/semantic-validators/paths-ibm.js:108-113 | objects that differ only in the order of two adjacent entries with different keys are deeply equal |
| Json.DeepEqualSameProperty | packages/validator/src/plugins/validation/2and3/semantic-validators/paths-ibm.js:108-113 | deeply equal objects have the same properties, with deeply equal values |
| Seqs.InFlatMap | packages/validator/src/plugins/validation/2and3/semantic-validators/paths-ibm.js:109-111 | an element is in the flattened list if and only if it is in the part contributed by some input element |
| PathsIbm.Placeholders | packages/validator/src/plugins/validation/2and3/semantic-validators/paths-ibm.js:37-46 | a placeholder name never contains `}`, because each match stops at the nearest `}` after its `{` (the names themselves are stated by `PlaceholdersOfTemplate`) |
| PathsIbm.PlaceholdersOfTemplate | packages/validator/src/plugins/validation/2and3/semantic-validators/paths-ibm.js:37-46 | round trip: a template built from literal segments and `{name}` placeholders yields exactly those names, in order |
| PathsIbm.NoPlaceholdersIff | packages/validator/src/plugins/validation/2and3/semantic-validators/paths-ibm.js:37-41 | a template has no placeholders if and only if no `{` is followed, anywhere later, by a `}` |
| PathsIbm.FilterOperations | packages/validator/src/plugins/validation/2and3/semantic-validators/paths-ibm.js:49-51 | a key is kept if and only if it is one of the eight HTTP methods; the result is no longer than the input (its order is stated by `FilterOperationsInOrder`) |
| PathsIbm.OperationPositions | packages/validator/src/plugins/validation/2and3/semantic-validators/paths-ibm.js:103-105 | the positions of the keys that are HTTP methods: all of them, and no other, in increasing order |
| PathsIbm.FilterOperationsInOrder | packages/validator/src/plugins/validation/2and3/semantic-validators/paths-ibm.js:103-105 | the filtered list is the keys at those positions, in that order: the HTTP methods among the keys, keeping their order and repetitions |
| PathsIbm.OperationKeys | packages/validator/src/plugins/validation/2and3/semantic-validators/paths-ibm.js:103-105 | the operation keys, taken in `Object.keys` order, are exactly the Path Item's keys that are HTTP methods |
| PathsIbm.OperationKeysInDocumentOrder | packages/validator/src/plugins/validation/2and3/semantic-validators/paths-ibm.js:103-105 | taking the keys in `Object.keys` order gives the same operations as document order, since no HTTP method is an array-index key |
| PathsIbm.OperationsAreNotIndices | packages/validator/src/plugins/validation/2and3/semantic-validators/paths-ibm.js:17-26 | none of the eight HTTP methods is an array-index key |
| PathsIbm.OnlyHttpMethodsAreOperations | packages/validator/src/plugins/validation/2and3/semantic-validators/paths-ibm.js:17-26 | `parameters`, vendor extensions and any other non-method key are never operations |
| PathsIbm.FlattenedParametersSpec | packages/validator/src/plugins/validation/2and3/semantic-validators/paths-ibm.js:108-111 | `flatten` of the truthy `parameters` values contributes a list's elements, nothing for an absent or falsy value, and a truthy non-list value as one element |
| PathsIbm.FindIndex | packages/validator/src/plugins/validation/2and3/semantic-validators/paths-ibm.js:120-122 | the result is the first index whose parameter has the name, or -1 exactly when none has it |
| PathsIbm.FilterNamed | packages/validator/src/plugins/validation/2and3/semantic-validators/paths-ibm.js:111 | a parameter is kept if and only if its `name` is the placeholder name |
| PathsIbm.UniqWith | packages/validator/src/plugins/validation/2and3/semantic-validators/paths-ibm.js:108-113 | deduplication keeps the first element and only elements of the input, and never grows the list |
| PathsIbm.UniqWithCovers | packages/validator/src/plugins/validation/2and3/semantic-validators/paths-ibm.js:108-113 | every input element is deeply equal to some kept element |
| PathsIbm.UniqWithDistinct | packages/validator/src/plugins/validation/2and3/semantic-validators/paths-ibm.js:108-113 | no two kept elements are deeply equal |
| PathsIbm.UniqWithSingleClass | packages/validator/src/plugins/validation/2and3/semantic-validators/paths-ibm.js:108-114 | exactly one element is kept if and only if the input is non-empty and all its elements are deeply equal |
| PathsIbm.ContainsSubstring | packages/validator/src/plugins/validation/2and3/semantic-validators/paths-ibm.js:117 | the search succeeds if and only if the pattern occurs at some position |
| PathsIbm.DecimalString | packages/validator/src/plugins/validation/2and3/semantic-validators/paths-ibm.js:124 | the index text is a non-empty string of decimal digits without a leading zero |
| PathsIbm.DecimalRoundTrip | packages/validator/src/plugins/validation/2and3/semantic-validators/paths-ibm.js:124 | reading back the digits of the index text gives the index |
| PathsIbm.Validate | packages/validator/src/plugins/validation/2and3/semantic-validators/paths-ibm.js:28-138 | the messages the validator adds while looping over the path names are exactly `ValidateSpec`, in path order |
| PathsIbm.IndicesHaveNoPlaceholders | packages/validator/src/plugins/validation/2and3/semantic-validators/paths-ibm.js:37-39 | a path name that is an array-index key has no placeholders |
| PathsIbm.ValidateInDocumentOrder | packages/validator/src/plugins/validation/2and3/semantic-validators/paths-ibm.js:33 | taking the path names in `Object.keys` order gives the same messages as document order, since array-index path names report nothing |
| PathsIbm.ValidatePath | packages/validator/src/plugins/validation/2and3/semantic-validators/paths-ibm.js:99-134 | one path appends exactly its own messages (`PathMessages`) to those of the earlier paths |
| PathsIbm.CheckParameters | packages/validator/src/plugins/validation/2and3/semantic-validators/paths-ibm.js:107-132 | the loop over placeholder names adds their messages, name by name |
| PathsIbm.CheckParameter | packages/validator/src/plugins/validation/2and3/semantic-validators/paths-ibm.js:108-131 | one placeholder appends exactly its own messages (`DuplicateMessages`), leaving the earlier ones in place |
| PathsIbm.AddHoistMessages | packages/validator/src/plugins/validation/2and3/semantic-validators/paths-ibm.js:118-129 | the loop over operations adds one message per operation that has `parameters`, in operation order |
| PathsIbmProperties.HoistMessagesExact | packages/validator/src/plugins/validation/2and3/semantic-validators/paths-ibm.js:118-129 | a message is among the hoist messages if and only if it is the message, at the name's first index, for an operation that has a `parameters` list |
| PathsIbmProperties.HoistMessagesOnePerOperation | packages/validator/src/plugins/validation/2and3/semantic-validators/paths-ibm.js:118-129 | when every operation has `parameters`, there is exactly one message per operation, the k-th for the k-th operation |
| PathsIbmProperties.DuplicateMessagesExact | packages/validator/src/plugins/validation/2and3/semantic-validators/paths-ibm.js:107-132 | a placeholder yields a message if and only if its definitions are non-empty and all deeply equal, the level matches, and the message is an operation's hoist message |
| PathsIbmProperties.PathMessagesExact | packages/validator/src/plugins/validation/2and3/semantic-validators/paths-ibm.js:99-134 | a path yields a message if and only if the message is reported for one of its flagged placeholders |
| PathsIbmProperties.PathMessagesSound | packages/validator/src/plugins/validation/2and3/semantic-validators/paths-ibm.js:99-134 | each message of a path is reported for a flagged placeholder |
| PathsIbmProperties.PathMessagesComplete | packages/validator/src/plugins/validation/2and3/semantic-validators/paths-ibm.js:99-134 | each message reported for a flagged placeholder is among the path's messages |
| PathsIbmProperties.ValidateExact | packages/validator/src/plugins/validation/2and3/semantic-validators/paths-ibm.js:28-138 | a message is produced if and only if it is reported for some entry of `paths` |
| PathsIbmProperties.NoPathsQuiet | packages/validator/src/plugins/validation/2and3/semantic-validators/paths-ibm.js:33 | a document without `paths` yields no messages |
| PathsIbmProperties.MessagesWellFormed | packages/validator/src/plugins/validation/2and3/semantic-validators/paths-ibm.js:123-128 | every message has the fixed text and rule id `duplicate_path_parameter`, the configured severity (which matches `error` or `warning`), and the path `[paths, pathName, op, parameters, index]` for a templated path and one of its operations; the missing-parameter bookkeeping contributes nothing |
| PathsIbmProperties.ReportedShape | packages/validator/src/plugins/validation/2and3/semantic-validators/paths-ibm.js:123-128 | a message reported for a path has the fixed text, rule and severity, and points at one of the path's operations |
| PathsIbmProperties.OperationMessageShape | packages/validator/src/plugins/validation/2and3/semantic-validators/paths-ibm.js:123-128 | an operation's hoist message has five path steps, `paths`, the path name, the operation, `parameters` and the index |
| PathsIbmProperties.SeverityGate | packages/validator/src/plugins/validation/2and3/semantic-validators/paths-ibm.js:116-117 | nothing is reported unless the configured level contains `error` or `warning` |
| PathsIbmProperties.OffByDefault | packages/validator/src/plugins/validation/2and3/semantic-validators/paths-ibm.js:116-117 | with no level, an empty level or `off`, nothing is reported |
| PathsIbmProperties.SeverityIsASubstringMatch | packages/validator/src/plugins/validation/2and3/semantic-validators/paths-ibm.js:117 | `error`, `warning` and `no-warnings` enable the check, and `info` does not |
| PathsIbmProperties.UntemplatedPathsQuiet | packages/validator/src/plugins/validation/2and3/semantic-validators/paths-ibm.js:37-41 | a path without a `{` that is followed later by a `}` yields no messages |
| PathsIbmProperties.SingleOperationPathsQuiet | packages/validator/src/plugins/validation/2and3/semantic-validators/paths-ibm.js:106 | a path with at most one operation yields no messages |
| PathsIbmProperties.DefinitionsDisagree | packages/validator/src/plugins/validation/2and3/semantic-validators/paths-ibm.js:108-114 | two definitions that differ in a string-valued property, or where only one of them has it, do not all agree |
| PathsIbmProperties.DifferingDefinitionsNotFlagged | packages/validator/src/plugins/validation/2and3/semantic-validators/paths-ibm.js:108-114 | a placeholder whose operation-level definitions differ in a string-valued property is not flagged |
| PathsIbmProperties.MissingDefinitionReportedAtMinusOne | packages/validator/src/plugins/validation/2and3/semantic-validators/paths-ibm.js:119-124 | an operation whose `parameters` list lacks the name still gets a message, at index `-1` |
| PathsIbmExamples.DescriptionsTellApart | packages/validator/test/plugins/validation/2and3/paths-ibm.test.js:210-251 | `id` parameters that differ only in `description` are not deeply equal |
| PathsIbmExamples.IdenticalDefinitionsReported | packages/validator/test/plugins/validation/2and3/paths-ibm.test.js:147-208 | identical `id` definitions in `get` and `post` give two warnings, `get` then `post`, each at index `0` |
| PathsIbmExamples.DifferentDescriptionsNotReported | packages/validator/test/plugins/validation/2and3/paths-ibm.test.js:210-251 | definitions with different descriptions give no messages |
| PathsIbmExamples.PathLevelParameterNotReported | packages/validator/test/plugins/validation/2and3/paths-ibm.test.js:253-285 | a parameter defined only on the Path Item gives no messages |
| PathsIbmExamples.SingleOperationDefinitionReported | packages/validator/test/plugins/validation/2and3/paths-ibm.test.js:287-334 | a definition in `get` only gives one warning for `get` at index `0`, even when the Path Item also defines it |

## Left out

- Crash paths are not modelled; the model returns a result where JavaScript would throw. These are:
  - a `null` node where the source reads a property;
  - a truthy path-level `parameters` that is not a list (`.filter`, paths-ibm.js line 56);
  - a truthy operation `parameters` that is not a list, in an operation without `x-sdk-exclude: true` (`.filter`, line 72);
  - a parameter whose truthy `in` is not a string (`toLowerCase`, lines 57 and 73);
  - a `null` entry in a `parameters` list;
  - `config.paths` missing, and a configured level that is not a string.
- PathsIbm.OperationParameters: when messages are added, a truthy `parameters` that is not a list counts as absent, so that operation gets no message. The source's `findIndex` call (line 120) would throw there. When the definitions are collected, such a value is kept as one definition, as `flatten` keeps it (`FlattenedParameters`).
- PathsIbm.Placeholders: the `.` of the placeholder regular expression does not match line terminators. The model lets a placeholder span a newline. Path templates do not contain newlines.
- JSON numbers are integers: floating point and `NaN` (which `isEqual` treats specially) are not modelled.
- Objects are lists of entries. A repeated key keeps its first entry for property reads and `isEqual`, but `Keys` lists every entry. Parsed documents have no repeated keys.
- lodash `each` treats an object that has a numeric `length` property as array-like. The model treats it as an object.
- MessageCarrier is not part of this model. The messages are one ordered list, without the split into errors and warnings by severity.
- `walk`, `isPrimitiveType` and `isJsonMimeType` are not part of this model. The first is the pre-order traversal in `Traversal`, which visits an object's members in document order; a walk that follows `Object.keys` would visit array-index keys first, which changes only the order of violations found under such keys. The other two are parameters.
- The missing-path-parameter bookkeeping (paths-ibm.js lines 53-96) computes lists that are never reported, so it has no part in the model. Its absence from the output is what `PathsIbmProperties.MessagesWellFormed` states.
