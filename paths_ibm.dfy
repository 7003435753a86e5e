/**
 * The `paths-ibm` semantic validator. For every path template that holds
 * `{name}` placeholders and more than one operation, it checks each
 * placeholder name: when every operation-level definition of that name is
 * the same parameter object, the parameter should be declared once on the
 * Path Item, and one message is reported per operation that has a
 * `parameters` list.
 *
 * The missing-path-parameter bookkeeping of the validator computes lists
 * that are never reported, so it has no part in the result; every message
 * is a `duplicate_path_parameter` message (`PathsIbmProperties.MessagesWellFormed`).
 */
module PathsIbm {
  import opened Json
  import opened Seqs

  /** The HTTP methods that name operations of a Path Item, as listed by the validator. */
  const AllowedOperations: seq<string> := ["get", "put", "post", "delete", "options", "head", "patch", "trace"]

  const HoistMessage: string := "Common path parameters should be defined on path object"

  const RuleId: string := "duplicate_path_parameter"

  /** One `messages.addMessage(path, message, severity, ruleId)` call. */
  datatype Message = Message(path: seq<string>, message: string, severity: string, ruleId: string)

  // ---------------------------------------------------------------------
  // Placeholder extraction: `pathName.match(/\{(.*?)\}/g)`, braces removed
  // ---------------------------------------------------------------------

  /** The position of the first `}` at or after `from`. */
  function FindClose(s: string, from: nat): (r: Option<nat>)
    requires from <= |s|
    ensures r.Some? ==> from <= r.value < |s| && s[r.value] == '}' && forall k :: from <= k < r.value ==> s[k] != '}'
    ensures r.None? ==> forall k :: from <= k < |s| ==> s[k] != '}'
    decreases |s| - from
  {
    if from == |s| then None
    else if s[from] == '}' then Some(from)
    else FindClose(s, from + 1)
  }

  /**
   * The placeholder names of a path template, in order: scanning left to
   * right, each `{` with a `}` after it starts a match that ends at the
   * nearest such `}`, and scanning resumes after it.
   */
  function Placeholders(template: string): (names: seq<string>)
    ensures forall k :: 0 <= k < |names| ==> '}' !in names[k]
    decreases |template|
  {
    if template == [] then []
    else if template[0] != '{' then Placeholders(template[1..])
    else
      match FindClose(template, 1)
      case None => Placeholders(template[1..])
      case Some(close) => [template[1..close]] + Placeholders(template[close + 1..])
  }

  /** A path template built from literal segments, each followed by a `{name}` placeholder, and a literal tail. */
  function Template(segments: seq<(string, string)>, tail: string): string
  {
    if segments == [] then tail
    else segments[0].0 + "{" + segments[0].1 + "}" + Template(segments[1..], tail)
  }

  function Names(segments: seq<(string, string)>): seq<string>
  {
    seq(|segments|, k requires 0 <= k < |segments| => segments[k].1)
  }

  lemma {:induction false} PlaceholdersSkipLiteral(literal: string, rest: string)
    requires '{' !in literal
    ensures Placeholders(literal + rest) == Placeholders(rest)
    decreases |literal|
  {
    if literal != [] {
      assert (literal + rest)[1..] == literal[1..] + rest;
      PlaceholdersSkipLiteral(literal[1..], rest);
    } else {
      assert literal + rest == rest;
    }
  }

  lemma PlaceholdersTakeName(name: string, rest: string)
    requires '}' !in name
    ensures Placeholders("{" + name + "}" + rest) == [name] + Placeholders(rest)
  {
    var s := "{" + name + "}" + rest;
    var close := |name| + 1;
    assert s[close] == '}';
    assert forall k :: 1 <= k < close ==> s[k] == name[k - 1];
    assert FindClose(s, 1) == Some(close);
    assert s[1..close] == name;
    assert s[close + 1..] == rest;
  }

  /** Round trip: the placeholders of a template built from names are exactly those names, in order. */
  lemma {:induction false} PlaceholdersOfTemplate(segments: seq<(string, string)>, tail: string)
    requires forall k :: 0 <= k < |segments| ==> '{' !in segments[k].0 && '}' !in segments[k].1
    requires !exists i, j :: 0 <= i < j < |tail| && tail[i] == '{' && tail[j] == '}'
    ensures Placeholders(Template(segments, tail)) == Names(segments)
    decreases |segments|
  {
    if segments == [] {
      NoPlaceholdersIff(tail);
    } else {
      var (literal, name) := segments[0];
      var rest := Template(segments[1..], tail);
      assert Template(segments, tail) == literal + ("{" + name + "}" + rest);
      PlaceholdersSkipLiteral(literal, "{" + name + "}" + rest);
      PlaceholdersTakeName(name, rest);
      PlaceholdersOfTemplate(segments[1..], tail);
      assert Names(segments) == [name] + Names(segments[1..]);
    }
  }

  /** A template has placeholders exactly when some `{` is followed, anywhere later, by a `}`. */
  lemma {:induction false} NoPlaceholdersIff(template: string)
    ensures Placeholders(template) == []
        <==> !exists i, j :: 0 <= i < j < |template| && template[i] == '{' && template[j] == '}'
    decreases |template|
  {
    if template != [] {
      var tail := template[1..];
      NoPlaceholdersIff(tail);
      if exists i, j :: 0 <= i < j < |tail| && tail[i] == '{' && tail[j] == '}' {
        var i, j :| 0 <= i < j < |tail| && tail[i] == '{' && tail[j] == '}';
        assert template[i + 1] == '{' && template[j + 1] == '}';
      }
      if template[0] != '{' {
        if exists i, j :: 0 <= i < j < |template| && template[i] == '{' && template[j] == '}' {
          var i, j :| 0 <= i < j < |template| && template[i] == '{' && template[j] == '}';
          assert tail[i - 1] == '{' && tail[j - 1] == '}';
        }
      } else {
        match FindClose(template, 1)
        case None =>
          assert forall j :: 1 <= j < |template| ==> template[j] != '}';
        case Some(close) =>
          assert template[0] == '{' && template[close] == '}';
      }
    }
  }

  // ---------------------------------------------------------------------
  // Operations of a Path Item
  // ---------------------------------------------------------------------

  /**
   * The positions of `keys` that hold an HTTP method, in increasing order:
   * every such position, and no other.
   */
  function OperationPositions(keys: seq<string>): (idx: seq<nat>)
    ensures forall k :: 0 <= k < |idx| ==> idx[k] < |keys| && keys[idx[k]] in AllowedOperations
    ensures forall k, l :: 0 <= k < l < |idx| ==> idx[k] < idx[l]
    ensures forall i :: 0 <= i < |keys| && keys[i] in AllowedOperations ==> i in idx
  {
    if keys == [] then []
    else
      var idx := OperationPositions(keys[..|keys| - 1]);
      if keys[|keys| - 1] in AllowedOperations then idx + [|keys| - 1] else idx
  }

  /**
   * `keys.filter(k => allowedOperations.includes(k))`: the keys at
   * `OperationPositions(keys)`, so the HTTP methods among `keys`, each
   * occurrence once and in the order of `keys`.
   */
  function FilterOperations(keys: seq<string>): (ops: seq<string>)
    ensures |ops| <= |keys|
    ensures forall op :: op in ops <==> op in keys && op in AllowedOperations
  {
    if keys == [] then []
    else
      var ops := FilterOperations(keys[..|keys| - 1]);
      var key := keys[|keys| - 1];
      assert keys == keys[..|keys| - 1] + [key];
      if key in AllowedOperations then ops + [key] else ops
  }

  /** The filtered keys are exactly the keys at `OperationPositions(keys)`, in that order. */
  lemma {:induction false} FilterOperationsInOrder(keys: seq<string>)
    ensures |FilterOperations(keys)| == |OperationPositions(keys)|
    ensures forall k :: 0 <= k < |FilterOperations(keys)| ==> FilterOperations(keys)[k] == keys[OperationPositions(keys)[k]]
    decreases |keys|
  {
    if keys != [] {
      var n := |keys| - 1;
      var init := keys[..n];
      var ops, idx := FilterOperations(init), OperationPositions(init);
      FilterOperationsInOrder(init);
      if keys[n] in AllowedOperations {
        assert FilterOperations(keys) == ops + [keys[n]];
        assert OperationPositions(keys) == idx + [n];
      } else {
        assert FilterOperations(keys) == ops;
        assert OperationPositions(keys) == idx;
      }
      forall k | 0 <= k < |ops|
        ensures ops[k] == keys[idx[k]]
      {
        assert ops[k] == init[idx[k]];
      }
    }
  }

  /** Filtering keys one at a time. */
  lemma FilterOperationsSnoc(keys: seq<string>, key: string)
    ensures FilterOperations(keys + [key]) == FilterOperations(keys) + (if key in AllowedOperations then [key] else [])
  {
    assert (keys + [key])[..|keys|] == keys;
  }

  /**
   * `Object.keys(pathObj).filter(...)`: the operation keys of a Path Item, in
   * `Object.keys` order. A Path Item that is not an object has no key that
   * is an HTTP method.
   */
  function OperationKeys(pathItem: Json): (ops: seq<string>)
    ensures forall op :: op in ops <==> op in Keys(pathItem) && op in AllowedOperations
  {
    FilterOperations(ObjectKeys(pathItem))
  }

  /** No HTTP method is an array-index key: each starts with a letter. */
  lemma OperationsAreNotIndices()
    ensures forall op :: op in AllowedOperations ==> !IsArrayIndex(op)
  {
    forall k | 0 <= k < |AllowedOperations|
      ensures !IsArrayIndex(AllowedOperations[k])
    {
      assert !('0' <= AllowedOperations[k][0] <= '9');
    }
  }

  /** Filtering the keys of some entries ignores their array-index keys. */
  lemma {:induction false} FilterIgnoresIndices(es: seq<(string, Json)>)
    ensures FilterOperations(KeysOf(es)) == FilterOperations(KeysOf(NamedEntries(es)))
    decreases |es|
  {
    if es != [] {
      var init := es[..|es| - 1];
      var last := es[|es| - 1];
      assert es == init + [last];
      FilterIgnoresIndices(init);
      FilterKeysSnoc(init, last);
      if IsArrayIndex(last.0) {
        OperationsAreNotIndices();
        assert NamedEntries(es) == NamedEntries(init);
      } else {
        assert NamedEntries(es) == NamedEntries(init) + [last];
        FilterKeysSnoc(NamedEntries(init), last);
      }
    }
  }

  /** Filtering the keys of one more entry. */
  lemma FilterKeysSnoc(es: seq<(string, Json)>, last: (string, Json))
    ensures FilterOperations(KeysOf(es + [last])) == FilterOperations(KeysOf(es)) + (if last.0 in AllowedOperations then [last.0] else [])
  {
    assert KeysOf(es + [last]) == KeysOf(es) + [last.0];
    FilterOperationsSnoc(KeysOf(es), last.0);
  }

  /**
   * `Object.keys` moves array-index keys to the front, but none of them is an
   * operation: the operations come in document order.
   */
  lemma OperationKeysInDocumentOrder(pathItem: Json)
    ensures OperationKeys(pathItem) == FilterOperations(Keys(pathItem))
  {
    if pathItem.JObj? {
      var fields := pathItem.fields;
      OwnKeyOrderSpec(fields);
      FilterIgnoresIndices(OwnKeyOrder(fields));
      FilterIgnoresIndices(fields);
    }
  }

  /** Vendor extensions and the Path Item's own `parameters` are never operations. */
  lemma OnlyHttpMethodsAreOperations(pathItem: Json, key: string)
    requires key !in AllowedOperations
    ensures key !in OperationKeys(pathItem)
  {
  }

  /** `pathObj[op].parameters`; `None` when it is `undefined`. */
  function ParametersOf(pathItem: Json, op: string): Option<Json>
  {
    match Get(pathItem, op)
    case Some(operation) => Get(operation, "parameters")
    case None => None
  }

  /**
   * `pathObj[op].parameters` where the messages are added, when it is a
   * list; `None` when it is falsy, where the source skips the operation.
   */
  function OperationParameters(pathItem: Json, op: string): Option<seq<Json>>
  {
    match ParametersOf(pathItem, op)
    case Some(JArr(params)) => Some(params)
    case _ => None
  }

  /**
   * What `flatten` takes from one operation's `parameters` once falsy ones
   * are filtered out: the elements of a list, any other truthy value as a
   * single element, and nothing for a falsy or missing one.
   */
  function FlattenedParameters(pathItem: Json, op: string): seq<Json>
  {
    match ParametersOf(pathItem, op)
    case Some(JArr(params)) => params
    case Some(v) => if Truthy(v) then [v] else []
    case None => []
  }

  /**
   * The definitions are read from the same list the messages index into;
   * a falsy `parameters` gives none, and a truthy value that is not a list
   * is kept whole, so it is compared with the other definitions.
   */
  lemma FlattenedParametersSpec(pathItem: Json, op: string)
    ensures OperationParameters(pathItem, op).Some? ==> FlattenedParameters(pathItem, op) == OperationParameters(pathItem, op).value
    ensures !Present(ParametersOf(pathItem, op)) ==> FlattenedParameters(pathItem, op) == []
    ensures Present(ParametersOf(pathItem, op)) && !ParametersOf(pathItem, op).value.JArr?
        ==> FlattenedParameters(pathItem, op) == [ParametersOf(pathItem, op).value]
  {
  }

  /** `p.name === name` */
  predicate HasName(p: Json, name: string)
  {
    Get(p, "name") == Some(JStr(name))
  }

  /** `params.findIndex(p => p.name === name)`: the first index of a parameter with that name, or -1. */
  function FindIndex(params: seq<Json>, name: string): (r: int)
    ensures -1 <= r < |params|
    ensures r >= 0 ==> HasName(params[r], name) && forall k :: 0 <= k < r ==> !HasName(params[k], name)
    ensures r == -1 <==> forall k :: 0 <= k < |params| ==> !HasName(params[k], name)
  {
    if params == [] then -1
    else if HasName(params[0], name) then 0
    else
      var r := FindIndex(params[1..], name);
      if r == -1 then -1 else r + 1
  }

  // ---------------------------------------------------------------------
  // Duplicate detection: `uniqWith(flatten(...).filter(...), isEqual)`
  // ---------------------------------------------------------------------

  /** `params.filter(p => p.name === name)` */
  function FilterNamed(params: seq<Json>, name: string): (named: seq<Json>)
    ensures forall p :: p in named <==> p in params && HasName(p, name)
  {
    if params == [] then []
    else
      var named := FilterNamed(params[..|params| - 1], name);
      var p := params[|params| - 1];
      assert params == params[..|params| - 1] + [p];
      if HasName(p, name) then named + [p] else named
  }

  /** The definitions named `name` in the `parameters` of one operation. */
  function NamedDefinitionsOf(pathItem: Json, name: string): string -> seq<Json>
  {
    (op: string) => FilterNamed(FlattenedParameters(pathItem, op), name)
  }

  /** All operation-level definitions named `name`, operation by operation. */
  function NamedDefinitions(pathItem: Json, ops: seq<string>, name: string): seq<Json>
  {
    FlatMap(ops, NamedDefinitionsOf(pathItem, name))
  }

  /** Some element of `u` is deeply equal to `x`. */
  predicate HasDeepEqual(u: seq<Json>, x: Json)
  {
    exists k :: 0 <= k < |u| && DeepEqual(u[k], x)
  }

  /** lodash `uniqWith(xs, isEqual)`: the first element of each deep-equality class, in order. */
  function UniqWith(xs: seq<Json>): (u: seq<Json>)
    ensures |u| <= |xs|
    ensures xs != [] ==> u != [] && u[0] == xs[0]
    ensures forall k :: 0 <= k < |u| ==> u[k] in xs
    decreases |xs|
  {
    if xs == [] then []
    else
      var init := xs[..|xs| - 1];
      var u := UniqWith(init);
      assert forall k :: 0 <= k < |u| ==> u[k] in xs by {
        assert forall y :: y in init ==> y in xs;
      }
      if HasDeepEqual(u, xs[|xs| - 1]) then u else u + [xs[|xs| - 1]]
  }

  /** Every element of the input is represented in the result. */
  lemma {:induction false} UniqWithCovers(xs: seq<Json>, i: nat)
    requires i < |xs|
    ensures HasDeepEqual(UniqWith(xs), xs[i])
    decreases |xs|
  {
    var init := xs[..|xs| - 1];
    var u := UniqWith(init);
    if i < |xs| - 1 {
      UniqWithCovers(init, i);
      assert init[i] == xs[i];
      var k :| 0 <= k < |u| && DeepEqual(u[k], xs[i]);
      assert UniqWith(xs)[k] == u[k];
    } else if !HasDeepEqual(u, xs[i]) {
      assert UniqWith(xs)[|u|] == xs[i];
    }
  }

  /** No two elements of the result are deeply equal. */
  lemma {:induction false} UniqWithDistinct(xs: seq<Json>, a: nat, b: nat)
    requires a < b < |UniqWith(xs)|
    ensures !DeepEqual(UniqWith(xs)[a], UniqWith(xs)[b])
    decreases |xs|
  {
    var init := xs[..|xs| - 1];
    var u := UniqWith(init);
    if b < |u| {
      UniqWithDistinct(init, a, b);
    } else {
      assert !HasDeepEqual(u, xs[|xs| - 1]);
    }
  }

  /** `uniqWith` leaves exactly one element iff there is a definition and all definitions are deeply equal. */
  lemma UniqWithSingleClass(xs: seq<Json>)
    ensures |UniqWith(xs)| == 1 <==> xs != [] && forall i :: 0 <= i < |xs| ==> DeepEqual(xs[i], xs[0])
  {
    var u := UniqWith(xs);
    if |u| == 1 {
      forall i | 0 <= i < |xs|
        ensures DeepEqual(xs[i], xs[0])
      {
        UniqWithCovers(xs, i);
      }
    }
    if xs != [] && forall i :: 0 <= i < |xs| ==> DeepEqual(xs[i], xs[0]) {
      if |u| >= 2 {
        var i :| 0 <= i < |xs| && xs[i] == u[1];
        UniqWithDistinct(xs, 0, 1);
      }
    }
  }

  // ---------------------------------------------------------------------
  // Severity: `config.duplicate_path_parameter || 'off'`, `.match('error|warning')`
  // ---------------------------------------------------------------------

  /** The configured level of the check; an absent or empty setting means `off`. */
  function CheckStatus(level: Option<string>): string
  {
    match level
    case Some(s) => if s == "" then "off" else s
    case None => "off"
  }

  /** `t` occurs in `s` starting at position `i`. */
  predicate OccursAt(s: string, t: string, i: nat)
  {
    i + |t| <= |s| && s[i..i + |t|] == t
  }

  /** `t` occurs somewhere in `s`. */
  function ContainsSubstring(s: string, t: string): (r: bool)
    ensures r <==> exists i: nat :: OccursAt(s, t, i)
    decreases |s|
  {
    if |s| < |t| then false
    else if s[..|t|] == t then assert OccursAt(s, t, 0); true
    else
      var r := ContainsSubstring(s[1..], t);
      assert forall i: nat :: OccursAt(s, t, i + 1) <==> OccursAt(s[1..], t, i) by {
        forall i: nat ensures OccursAt(s, t, i + 1) <==> OccursAt(s[1..], t, i) {
          if i + 1 + |t| <= |s| {
            var a, b := s[i + 1..i + 1 + |t|], s[1..][i..i + |t|];
            assert forall k :: 0 <= k < |t| ==> a[k] == b[k];
          }
        }
      }
      assert !OccursAt(s, t, 0);
      assert (exists i: nat :: OccursAt(s, t, i)) ==> exists i: nat :: OccursAt(s[1..], t, i) by {
        if exists i: nat :: OccursAt(s, t, i) {
          var i: nat :| OccursAt(s, t, i);
          assert i > 0;
          assert OccursAt(s[1..], t, i - 1);
        }
      }
      r
  }

  /** `status.match('error|warning')`: an unanchored search, so any status containing either word enables the check. */
  predicate MatchesSeverity(status: string)
  {
    ContainsSubstring(status, "error") || ContainsSubstring(status, "warning")
  }

  // ---------------------------------------------------------------------
  // Messages
  // ---------------------------------------------------------------------

  /** The decimal digits of a natural number, most significant first, without leading zeros. */
  function DecimalString(n: nat): (s: string)
    ensures |s| >= 1 && IsDigits(s)
    ensures |s| > 1 ==> s[0] != '0'
  {
    if n < 10 then [('0' as int + n) as char]
    else DecimalString(n / 10) + [('0' as int + n % 10) as char]
  }

  /** Reading back the digits gives the number. */
  lemma {:induction false} DecimalRoundTrip(n: nat)
    ensures DecimalValue(DecimalString(n)) == n
  {
    if n >= 10 {
      var s := DecimalString(n);
      assert s[..|s| - 1] == DecimalString(n / 10);
      DecimalRoundTrip(n / 10);
    }
  }

  /** `${index}` for the result of `findIndex`. */
  function IndexString(index: int): string
  {
    if index < 0 then "-" + DecimalString(-index) else DecimalString(index)
  }

  /** The message reported for operation `op` of the Path Item at `pathName`, pointing at index `index` of its `parameters`. */
  function HoistMessageAt(pathName: string, op: string, index: int, status: string): Message
  {
    Message(["paths", pathName, op, "parameters", IndexString(index)], HoistMessage, status, RuleId)
  }

  /** What one operation contributes once `parameter` is flagged: one message if it has `parameters`, none otherwise. */
  function OperationHoist(pathName: string, pathItem: Json, op: string, parameter: string, status: string): seq<Message>
  {
    match OperationParameters(pathItem, op)
    case Some(params) => [HoistMessageAt(pathName, op, FindIndex(params, parameter), status)]
    case None => []
  }

  function HoistCallback(pathName: string, pathItem: Json, parameter: string, status: string): string -> seq<Message>
  {
    (op: string) => OperationHoist(pathName, pathItem, op, parameter, status)
  }

  /** The messages for a flagged parameter, operation by operation. */
  function HoistMessages(pathName: string, pathItem: Json, ops: seq<string>, parameter: string, status: string): seq<Message>
  {
    FlatMap(ops, HoistCallback(pathName, pathItem, parameter, status))
  }

  /** The messages for one placeholder name of a path with at least two operations. */
  function DuplicateMessages(pathName: string, pathItem: Json, ops: seq<string>, parameter: string, level: Option<string>): seq<Message>
  {
    if |UniqWith(NamedDefinitions(pathItem, ops, parameter))| != 1 then []
    else
      var status := CheckStatus(level);
      if !MatchesSeverity(status) then [] else HoistMessages(pathName, pathItem, ops, parameter, status)
  }

  function ParameterCallback(pathName: string, pathItem: Json, ops: seq<string>, level: Option<string>): string -> seq<Message>
  {
    (parameter: string) => DuplicateMessages(pathName, pathItem, ops, parameter, level)
  }

  /** The messages for the given placeholder names, name by name (a repeated name is checked again). */
  function ParametersMessages(pathName: string, pathItem: Json, ops: seq<string>, parameters: seq<string>, level: Option<string>): seq<Message>
  {
    FlatMap(parameters, ParameterCallback(pathName, pathItem, ops, level))
  }

  /** The messages for one entry of `paths`. */
  function PathMessages(pathName: string, pathItem: Json, level: Option<string>): seq<Message>
  {
    var parameters := Placeholders(pathName);
    if parameters == [] then []
    else
      var ops := OperationKeys(pathItem);
      if |ops| <= 1 then [] else ParametersMessages(pathName, pathItem, ops, parameters, level)
  }

  function PathCallback(level: Option<string>): ((string, Json)) -> seq<Message>
  {
    (entry: (string, Json)) => PathMessages(entry.0, entry.1, level)
  }

  /**
   * The entries of `resolvedSpec.paths` in `Object.keys` order. When `paths`
   * is absent there are none; a truthy `paths` that is not an object has
   * only array-index keys, which hold no `{`, so it contributes nothing
   * either.
   */
  function PathEntries(resolvedSpec: Json): seq<(string, Json)>
  {
    match Get(resolvedSpec, "paths")
    case Some(JObj(fields)) => OwnKeyOrder(fields)
    case _ => []
  }

  /** The messages of the validator, path by path. */
  function ValidateSpec(resolvedSpec: Json, level: Option<string>): seq<Message>
  {
    FlatMap(PathEntries(resolvedSpec), PathCallback(level))
  }

  /** An array-index key is made of digits, so it holds no placeholder. */
  lemma IndicesHaveNoPlaceholders(pathName: string)
    requires IsArrayIndex(pathName)
    ensures Placeholders(pathName) == []
  {
    NoPlaceholdersIff(pathName);
  }

  /** The messages of some entries of `paths` ignore the entries under array-index keys. */
  lemma {:induction false} MessagesIgnoreIndices(es: seq<(string, Json)>, level: Option<string>)
    ensures FlatMap(es, PathCallback(level)) == FlatMap(NamedEntries(es), PathCallback(level))
    decreases |es|
  {
    if es != [] {
      var init := es[..|es| - 1];
      var last := es[|es| - 1];
      var callback := PathCallback(level);
      MessagesIgnoreIndices(init, level);
      assert FlatMap(es, callback) == FlatMap(init, callback) + callback(last);
      if IsArrayIndex(last.0) {
        IndicesHaveNoPlaceholders(last.0);
        assert callback(last) == [];
        assert NamedEntries(es) == NamedEntries(init);
      } else {
        assert NamedEntries(es) == NamedEntries(init) + [last];
        FlatMapSnoc(NamedEntries(init), last, callback);
      }
    }
  }

  /**
   * `Object.keys(resolvedSpec.paths)` moves array-index path names to the
   * front, but they report nothing: the messages come path by path in
   * document order.
   */
  lemma ValidateInDocumentOrder(resolvedSpec: Json, level: Option<string>, fields: seq<(string, Json)>)
    requires Get(resolvedSpec, "paths") == Some(JObj(fields))
    ensures ValidateSpec(resolvedSpec, level) == FlatMap(fields, PathCallback(level))
  {
    OwnKeyOrderSpec(fields);
    MessagesIgnoreIndices(OwnKeyOrder(fields), level);
    MessagesIgnoreIndices(fields, level);
  }

  /**
   * `validate({resolvedSpec}, config)` with `level` standing for
   * `config.paths.duplicate_path_parameter`: a loop over the path names that
   * appends to the message list.
   */
  method Validate(resolvedSpec: Json, level: Option<string>) returns (messages: seq<Message>)
    ensures messages == ValidateSpec(resolvedSpec, level)
  {
    messages := [];
    var paths := PathEntries(resolvedSpec);
    for i := 0 to |paths|
      invariant messages == FlatMap(paths[..i], PathCallback(level))
    {
      FlatMapStep(paths, i, PathCallback(level));
      messages := ValidatePath(messages, paths[i].0, paths[i].1, level);
    }
    assert paths[..|paths|] == paths;
  }

  /** The body of `pathNames.forEach(pathName => ...)` for one path. */
  method ValidatePath(messages: seq<Message>, pathName: string, pathObj: Json, level: Option<string>) returns (messages': seq<Message>)
    ensures messages' == messages + PathMessages(pathName, pathObj, level)
  {
    messages' := messages;
    var parameters := Placeholders(pathName);
    if parameters != [] {
      var operationKeys := OperationKeys(pathObj);
      if |operationKeys| > 1 {
        messages' := CheckParameters(messages, pathName, pathObj, operationKeys, parameters, level);
      }
    }
  }

  /** `parameters.forEach(parameter => ...)` over the placeholder names of one path. */
  method CheckParameters(messages: seq<Message>, pathName: string, pathObj: Json, operationKeys: seq<string>, parameters: seq<string>, level: Option<string>)
    returns (messages': seq<Message>)
    ensures messages' == messages + ParametersMessages(pathName, pathObj, operationKeys, parameters, level)
  {
    messages' := messages;
    for j := 0 to |parameters|
      invariant messages' == messages + ParametersMessages(pathName, pathObj, operationKeys, parameters[..j], level)
    {
      FlatMapAppendStep(messages, parameters, j, ParameterCallback(pathName, pathObj, operationKeys, level));
      messages' := CheckParameter(messages', pathName, pathObj, operationKeys, parameters[j], level);
    }
    assert parameters[..|parameters|] == parameters;
  }

  /** One placeholder name: report every operation when all its definitions of the name agree and the check is enabled. */
  method CheckParameter(messages: seq<Message>, pathName: string, pathObj: Json, operationKeys: seq<string>, parameter: string, level: Option<string>)
    returns (messages': seq<Message>)
    ensures messages' == messages + ParameterCallback(pathName, pathObj, operationKeys, level)(parameter)
  {
    messages' := messages;
    var operationPathParams := UniqWith(NamedDefinitions(pathObj, operationKeys, parameter));
    if |operationPathParams| == 1 {
      var checkStatus := CheckStatus(level);
      if MatchesSeverity(checkStatus) {
        messages' := AddHoistMessages(messages', pathName, pathObj, operationKeys, parameter, checkStatus);
      }
    }
  }

  /** `operationKeys.forEach(op => ...)`: one message per operation that has `parameters`. */
  method AddHoistMessages(messages: seq<Message>, pathName: string, pathObj: Json, operationKeys: seq<string>, parameter: string, checkStatus: string)
    returns (messages': seq<Message>)
    ensures messages' == messages + HoistMessages(pathName, pathObj, operationKeys, parameter, checkStatus)
  {
    messages' := messages;
    for k := 0 to |operationKeys|
      invariant messages' == messages + HoistMessages(pathName, pathObj, operationKeys[..k], parameter, checkStatus)
    {
      var op := operationKeys[k];
      FlatMapAppendStep(messages, operationKeys, k, HoistCallback(pathName, pathObj, parameter, checkStatus));
      var params := OperationParameters(pathObj, op);
      if params.Some? {
        var index := FindIndex(params.value, parameter);
        messages' := messages' + [Message(["paths", pathName, op, "parameters", IndexString(index)], HoistMessage, checkStatus, RuleId)];
      }
    }
    assert operationKeys[..|operationKeys|] == operationKeys;
  }
}
