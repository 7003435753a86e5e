/**
 * What the duplicate-path-parameter check of `paths-ibm` reports, stated
 * without reference to the order in which the validator computes it, and
 * the behaviour its tests describe.
 */
module PathsIbmProperties {
  import opened Json
  import opened Seqs
  import opened PathsIbm

  /** There is at least one definition, and all of them are the same parameter object. */
  predicate AllDefinitionsAgree(defs: seq<Json>)
  {
    defs != [] && forall i :: 0 <= i < |defs| ==> DeepEqual(defs[i], defs[0])
  }

  /** `m` is the message for some operation of `ops` that has a `parameters` list. */
  predicate ReportedOperation(pathName: string, pathItem: Json, ops: seq<string>, parameter: string, status: string, m: Message)
  {
    exists op :: op in ops && OperationParameters(pathItem, op).Some?
      && m == HoistMessageAt(pathName, op, FindIndex(OperationParameters(pathItem, op).value, parameter), status)
  }

  /** The placeholder `parameter` of the path is flagged: the path has several operations, their definitions of it agree, and the check is enabled. */
  predicate Flagged(pathName: string, pathItem: Json, parameter: string, level: Option<string>)
  {
    && parameter in Placeholders(pathName)
    && |OperationKeys(pathItem)| > 1
    && AllDefinitionsAgree(NamedDefinitions(pathItem, OperationKeys(pathItem), parameter))
    && MatchesSeverity(CheckStatus(level))
  }

  /** `m` is reported for the path: it is the message for one operation, for some flagged placeholder. */
  ghost predicate ReportedFor(pathName: string, pathItem: Json, level: Option<string>, m: Message)
  {
    exists parameter :: Flagged(pathName, pathItem, parameter, level)
      && ReportedOperation(pathName, pathItem, OperationKeys(pathItem), parameter, CheckStatus(level), m)
  }

  /** Once a parameter is flagged, every operation with a `parameters` list gets exactly its message, and no other operation does. */
  lemma HoistMessagesExact(pathName: string, pathItem: Json, ops: seq<string>, parameter: string, status: string, m: Message)
    ensures m in HoistMessages(pathName, pathItem, ops, parameter, status) <==> ReportedOperation(pathName, pathItem, ops, parameter, status, m)
  {
    var f := HoistCallback(pathName, pathItem, parameter, status);
    InFlatMap(ops, f, m);
    if m in HoistMessages(pathName, pathItem, ops, parameter, status) {
      var i :| 0 <= i < |ops| && m in f(ops[i]);
      assert ops[i] in ops;
    }
    if ReportedOperation(pathName, pathItem, ops, parameter, status, m) {
      var op :| op in ops && OperationParameters(pathItem, op).Some?
        && m == HoistMessageAt(pathName, op, FindIndex(OperationParameters(pathItem, op).value, parameter), status);
      var i :| 0 <= i < |ops| && ops[i] == op;
      assert m in f(ops[i]);
    }
  }

  /** When every operation has a `parameters` list, the messages are one per operation, in operation order. */
  lemma {:induction false} HoistMessagesOnePerOperation(pathName: string, pathItem: Json, ops: seq<string>, parameter: string, status: string)
    requires forall k :: 0 <= k < |ops| ==> OperationParameters(pathItem, ops[k]).Some?
    ensures |HoistMessages(pathName, pathItem, ops, parameter, status)| == |ops|
    ensures forall k :: 0 <= k < |ops| ==>
              HoistMessages(pathName, pathItem, ops, parameter, status)[k]
              == HoistMessageAt(pathName, ops[k], FindIndex(OperationParameters(pathItem, ops[k]).value, parameter), status)
    decreases |ops|
  {
    if ops != [] {
      var init, last := ops[..|ops| - 1], ops[|ops| - 1];
      var f := HoistCallback(pathName, pathItem, parameter, status);
      HoistMessagesOnePerOperation(pathName, pathItem, init, parameter, status);
      assert init + [last] == ops;
      FlatMapSnoc(init, last, f);
      assert f(last) == [HoistMessageAt(pathName, last, FindIndex(OperationParameters(pathItem, last).value, parameter), status)];
      assert forall k :: 0 <= k < |init| ==> init[k] == ops[k];
    }
  }

  /** The decision for one placeholder name: messages are reported exactly when all its definitions agree and the check is enabled. */
  lemma DuplicateMessagesExact(pathName: string, pathItem: Json, ops: seq<string>, parameter: string, level: Option<string>, m: Message)
    ensures m in DuplicateMessages(pathName, pathItem, ops, parameter, level)
        <==> AllDefinitionsAgree(NamedDefinitions(pathItem, ops, parameter)) && MatchesSeverity(CheckStatus(level))
             && ReportedOperation(pathName, pathItem, ops, parameter, CheckStatus(level), m)
  {
    UniqWithSingleClass(NamedDefinitions(pathItem, ops, parameter));
    HoistMessagesExact(pathName, pathItem, ops, parameter, CheckStatus(level), m);
  }

  /** The messages for one path are exactly those reported for its flagged placeholders. */
  lemma PathMessagesExact(pathName: string, pathItem: Json, level: Option<string>, m: Message)
    ensures m in PathMessages(pathName, pathItem, level) <==> ReportedFor(pathName, pathItem, level, m)
  {
    if m in PathMessages(pathName, pathItem, level) {
      PathMessagesSound(pathName, pathItem, level, m);
    }
    if ReportedFor(pathName, pathItem, level, m) {
      var parameter :| Flagged(pathName, pathItem, parameter, level)
        && ReportedOperation(pathName, pathItem, OperationKeys(pathItem), parameter, CheckStatus(level), m);
      PathMessagesComplete(pathName, pathItem, level, parameter, m);
    }
  }

  lemma PathMessagesSound(pathName: string, pathItem: Json, level: Option<string>, m: Message)
    requires m in PathMessages(pathName, pathItem, level)
    ensures ReportedFor(pathName, pathItem, level, m)
  {
    var parameters := Placeholders(pathName);
    var ops := OperationKeys(pathItem);
    var f := ParameterCallback(pathName, pathItem, ops, level);
    PathMessagesByPlaceholder(pathName, pathItem, level);
    InFlatMap(parameters, f, m);
    var i :| 0 <= i < |parameters| && m in f(parameters[i]);
    var parameter := parameters[i];
    DuplicateMessagesExact(pathName, pathItem, ops, parameter, level, m);
    ReportedForWitness(pathName, pathItem, level, parameter, m);
  }

  /** A path that reports anything has placeholders and several operations, and reports placeholder by placeholder. */
  lemma PathMessagesByPlaceholder(pathName: string, pathItem: Json, level: Option<string>)
    requires PathMessages(pathName, pathItem, level) != []
    ensures Placeholders(pathName) != [] && |OperationKeys(pathItem)| > 1
    ensures PathMessages(pathName, pathItem, level)
         == FlatMap(Placeholders(pathName), ParameterCallback(pathName, pathItem, OperationKeys(pathItem), level))
  {
  }

  lemma ReportedForWitness(pathName: string, pathItem: Json, level: Option<string>, parameter: string, m: Message)
    requires Flagged(pathName, pathItem, parameter, level)
    requires ReportedOperation(pathName, pathItem, OperationKeys(pathItem), parameter, CheckStatus(level), m)
    ensures ReportedFor(pathName, pathItem, level, m)
  {
  }

  lemma PathMessagesComplete(pathName: string, pathItem: Json, level: Option<string>, parameter: string, m: Message)
    requires Flagged(pathName, pathItem, parameter, level)
    requires ReportedOperation(pathName, pathItem, OperationKeys(pathItem), parameter, CheckStatus(level), m)
    ensures m in PathMessages(pathName, pathItem, level)
  {
    var parameters := Placeholders(pathName);
    var ops := OperationKeys(pathItem);
    var f := ParameterCallback(pathName, pathItem, ops, level);
    var i :| 0 <= i < |parameters| && parameters[i] == parameter;
    DuplicateMessagesExact(pathName, pathItem, ops, parameter, level, m);
    assert m in f(parameters[i]);
    InFlatMap(parameters, f, m);
  }

  /** The messages of the validator are exactly the messages reported for the entries of `paths`. */
  lemma ValidateExact(resolvedSpec: Json, level: Option<string>, m: Message)
    ensures m in ValidateSpec(resolvedSpec, level)
        <==> exists i :: 0 <= i < |PathEntries(resolvedSpec)| && ReportedFor(PathEntries(resolvedSpec)[i].0, PathEntries(resolvedSpec)[i].1, level, m)
  {
    var paths := PathEntries(resolvedSpec);
    var f := PathCallback(level);
    InFlatMap(paths, f, m);
    forall i | 0 <= i < |paths|
      ensures m in f(paths[i]) <==> ReportedFor(paths[i].0, paths[i].1, level, m)
    {
      PathMessagesExact(paths[i].0, paths[i].1, level, m);
    }
  }

  /** Every message points at the `parameters` entry of an operation of a templated path, with the fixed text, rule and configured severity. */
  lemma MessagesWellFormed(resolvedSpec: Json, level: Option<string>, m: Message)
    requires m in ValidateSpec(resolvedSpec, level)
    ensures m.message == HoistMessage && m.ruleId == RuleId
    ensures m.severity == CheckStatus(level) && MatchesSeverity(m.severity)
    ensures |m.path| == 5 && m.path[0] == "paths" && m.path[2] in AllowedOperations && m.path[3] == "parameters"
    ensures exists i :: 0 <= i < |PathEntries(resolvedSpec)| && ReportedAtEntry(PathEntries(resolvedSpec)[i], m)
  {
    ValidateExact(resolvedSpec, level, m);
    var paths := PathEntries(resolvedSpec);
    var i :| 0 <= i < |paths| && ReportedFor(paths[i].0, paths[i].1, level, m);
    ReportedShape(paths[i].0, paths[i].1, level, m);
  }

  /** `m` points into the path entry `entry`: at the entry's name, at one of its operations, and the name has placeholders. */
  predicate ReportedAtEntry(entry: (string, Json), m: Message)
  {
    |m.path| >= 3 && m.path[1] == entry.0 && Placeholders(entry.0) != [] && m.path[2] in OperationKeys(entry.1)
  }

  lemma ReportedShape(pathName: string, pathItem: Json, level: Option<string>, m: Message)
    requires ReportedFor(pathName, pathItem, level, m)
    ensures m.message == HoistMessage && m.ruleId == RuleId
    ensures m.severity == CheckStatus(level) && MatchesSeverity(m.severity)
    ensures |m.path| == 5 && m.path[0] == "paths" && m.path[2] in AllowedOperations && m.path[3] == "parameters"
    ensures ReportedAtEntry((pathName, pathItem), m)
  {
    var parameter :| Flagged(pathName, pathItem, parameter, level)
      && ReportedOperation(pathName, pathItem, OperationKeys(pathItem), parameter, CheckStatus(level), m);
    OperationMessageShape(pathName, pathItem, OperationKeys(pathItem), parameter, CheckStatus(level), m);
    assert Placeholders(pathName) != [];
  }

  lemma OperationMessageShape(pathName: string, pathItem: Json, ops: seq<string>, parameter: string, status: string, m: Message)
    requires ReportedOperation(pathName, pathItem, ops, parameter, status, m)
    ensures m.message == HoistMessage && m.ruleId == RuleId && m.severity == status
    ensures |m.path| == 5 && m.path[0] == "paths" && m.path[1] == pathName && m.path[2] in ops && m.path[3] == "parameters"
  {
  }

  /** Nothing is reported unless the configured level contains `error` or `warning`. */
  lemma SeverityGate(resolvedSpec: Json, level: Option<string>)
    requires !MatchesSeverity(CheckStatus(level))
    ensures ValidateSpec(resolvedSpec, level) == []
  {
    if ValidateSpec(resolvedSpec, level) != [] {
      MessagesWellFormed(resolvedSpec, level, ValidateSpec(resolvedSpec, level)[0]);
    }
  }

  /** The check is off by default: with no level, an empty level, or `off`, nothing is reported. */
  lemma OffByDefault(resolvedSpec: Json)
    ensures ValidateSpec(resolvedSpec, None) == []
    ensures ValidateSpec(resolvedSpec, Some("")) == []
    ensures ValidateSpec(resolvedSpec, Some("off")) == []
  {
    SeverityGate(resolvedSpec, None);
    SeverityGate(resolvedSpec, Some(""));
    SeverityGate(resolvedSpec, Some("off"));
  }

  /** The level is searched, not compared: `error` and `warning` enable the check, and so does any level containing either. */
  lemma SeverityIsASubstringMatch()
    ensures MatchesSeverity("error") && MatchesSeverity("warning")
    ensures MatchesSeverity("no-warnings")
    ensures !MatchesSeverity("info")
  {
    assert OccursAt("error", "error", 0);
    assert OccursAt("warning", "warning", 0);
    assert OccursAt("no-warnings", "warning", 3);
  }

  /** A document without `paths` yields no messages. */
  lemma NoPathsQuiet(resolvedSpec: Json, level: Option<string>)
    requires Get(resolvedSpec, "paths").None?
    ensures ValidateSpec(resolvedSpec, level) == []
  {
  }

  /** A path without a `{` followed later by a `}` has no placeholders, so it is never reported. */
  lemma UntemplatedPathsQuiet(pathName: string, pathItem: Json, level: Option<string>)
    requires !exists i, j :: 0 <= i < j < |pathName| && pathName[i] == '{' && pathName[j] == '}'
    ensures PathMessages(pathName, pathItem, level) == []
  {
    NoPlaceholdersIff(pathName);
  }

  /** A path with at most one operation is never reported, whatever its placeholders. */
  lemma SingleOperationPathsQuiet(pathName: string, pathItem: Json, level: Option<string>)
    requires |OperationKeys(pathItem)| <= 1
    ensures PathMessages(pathName, pathItem, level) == []
  {
  }

  /** Two definitions that differ in a string-valued property, or where only one has it, do not all agree. */
  lemma DefinitionsDisagree(defs: seq<Json>, i: nat, j: nat, key: string)
    requires i < j < |defs| && defs[i].JObj?
    requires Get(defs[i], key) != Get(defs[j], key)
    requires Get(defs[i], key).Some? ==> Get(defs[i], key).value.JStr?
    requires Get(defs[j], key).Some? ==> Get(defs[j], key).value.JStr?
    ensures !AllDefinitionsAgree(defs)
  {
    if AllDefinitionsAgree(defs) {
      assert DeepEqual(defs[i], defs[0]) && DeepEqual(defs[j], defs[0]);
      DeepEqualSameProperty(defs[i], defs[j], key);
    }
  }

  /** A parameter whose operation-level definitions differ in a string-valued property is not flagged. */
  lemma DifferingDefinitionsNotFlagged(pathName: string, pathItem: Json, parameter: string, level: Option<string>, i: nat, j: nat, key: string)
    requires var defs := NamedDefinitions(pathItem, OperationKeys(pathItem), parameter);
      && i < j < |defs| && defs[i].JObj?
      && Get(defs[i], key) != Get(defs[j], key)
      && (Get(defs[i], key).Some? ==> Get(defs[i], key).value.JStr?)
      && (Get(defs[j], key).Some? ==> Get(defs[j], key).value.JStr?)
    ensures !Flagged(pathName, pathItem, parameter, level)
  {
    DefinitionsDisagree(NamedDefinitions(pathItem, OperationKeys(pathItem), parameter), i, j, key);
  }

  /** An operation with a `parameters` list that lacks the flagged name is still reported, at index `-1`. */
  lemma MissingDefinitionReportedAtMinusOne(pathName: string, pathItem: Json, ops: seq<string>, parameter: string, status: string, op: string)
    requires op in ops
    requires OperationParameters(pathItem, op).Some?
    requires forall k :: 0 <= k < |OperationParameters(pathItem, op).value| ==> !HasName(OperationParameters(pathItem, op).value[k], parameter)
    ensures Message(["paths", pathName, op, "parameters", "-1"], HoistMessage, status, RuleId) in HoistMessages(pathName, pathItem, ops, parameter, status)
  {
    assert IndexString(-1) == "-1";
    HoistMessagesExact(pathName, pathItem, ops, parameter, status, Message(["paths", pathName, op, "parameters", "-1"], HoistMessage, status, RuleId));
  }
}
