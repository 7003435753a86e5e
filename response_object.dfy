/**
 * `isResponseObject(path)`: whether the node reached by a traversal path is
 * a Responses Object, decided from the path alone. Only the last two steps
 * and the length of the path matter.
 */
module ResponseObject {
  import opened Json

  /** The operation names of a Path Item, as listed by the ruleset. */
  const Operations: seq<string> := ["get", "put", "post", "delete", "options", "head", "patch", "trace"]

  /** `operations.includes(step)`: only a property name can be an operation name. */
  predicate IsOperation(step: Step)
  {
    step.Key? && step.name in Operations
  }

  /**
   * The path ends in `responses`, and either the step before it is an
   * operation name or the whole path is `components.responses`. A step
   * before the start of the path reads as `undefined`, which matches nothing.
   */
  predicate IsResponseObject(path: Path)
  {
    var n := |path|;
    && n >= 1 && path[n - 1] == Key("responses")
    && ((n >= 2 && IsOperation(path[n - 2])) || (n == 2 && path[n - 2] == Key("components")))
  }

  /** The paths the classifier is meant to accept, described independently of it. */
  ghost predicate OperationResponsesPath(path: Path)
  {
    exists prefix: Path, op: string :: op in Operations && path == prefix + [Key(op), Key("responses")]
  }

  /** The classifier accepts exactly an operation's `responses` and `components.responses`. */
  lemma {:induction false} IsResponseObjectExact(path: Path)
    ensures IsResponseObject(path) <==> OperationResponsesPath(path) || path == [Key("components"), Key("responses")]
  {
    var n := |path|;
    if n >= 2 && IsOperation(path[n - 2]) && path[n - 1] == Key("responses") {
      assert path == path[..n - 2] + [Key(path[n - 2].name), Key("responses")];
    }
    if OperationResponsesPath(path) {
      var prefix: Path, op: string :| op in Operations && path == prefix + [Key(op), Key("responses")];
      assert path[n - 2] == Key(op);
    }
  }

  /** Nothing is a Responses Object unless its last step is exactly `responses`: not the root, and no other name. */
  lemma NotResponsesNotResponseObject(path: Path)
    requires path == [] || path[|path| - 1] != Key("responses")
    ensures !IsResponseObject(path)
  {
  }

  /** `[..., op, 'responses']` is a Responses Object for each of the eight operation names. */
  lemma OperationResponsesAccepted(prefix: Path, op: string)
    requires op in Operations
    ensures IsResponseObject(prefix + [Key(op), Key("responses")])
  {
  }

  /** `components.responses` is a Responses Object only at the top level of the document. */
  lemma ComponentsResponsesOnlyAtTop(prefix: Path)
    ensures IsResponseObject([Key("components"), Key("responses")])
    ensures prefix != [] ==> !IsResponseObject(prefix + [Key("components"), Key("responses")])
  {
  }

  /** A schema property named `responses` (for example under `definitions`) is not a Responses Object. */
  lemma OtherParentsRejected(path: Path)
    requires |path| >= 2 && !IsOperation(path[|path| - 2])
    requires path != [Key("components"), Key("responses")]
    ensures !IsResponseObject(path)
  {
  }

  /** The answer depends only on the length of the path and its last two steps. */
  lemma DependsOnlyOnLastTwoSteps(p: Path, q: Path)
    requires |p| == |q|
    requires |p| >= 1 ==> p[|p| - 1] == q[|q| - 1]
    requires |p| >= 2 ==> p[|p| - 2] == q[|q| - 2]
    ensures IsResponseObject(p) == IsResponseObject(q)
  {
  }
}
