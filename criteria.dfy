/** Matching containers against parsed criteria (src/commands/criteria.ts). */
module Criteria {
  import opened Wrappers
  import opened Containers
  import opened Text
  import opened Commands
  import Parser

  /** evaluateString (src/commands/criteria.ts:6-24): `exists` asks for a present non-empty
      value; otherwise a missing expected value never matches, `=` compares and `!=`
      negates the comparison. */
  function EvaluateString(value: Option<string>, op: Operator, expected: Option<string>): bool {
    match op
    case Exists => value.Some? && value.value != []
    case Eq => expected.Some? && value == expected
    case NotEq => expected.Some? && value != expected
  }

  /** The words evaluateBoolean reads as true, after lower-casing. */
  predicate Truthy(expected: string) {
    var normalized := ToLowerAscii(expected);
    normalized == "true" || normalized == "1" || normalized == "yes"
  }

  /** evaluateBoolean (src/commands/criteria.ts:26-47): `exists` is the value itself;
      otherwise a missing expected value never matches, `=` compares the value with the
      truth of the expected word and `!=` negates that. */
  function EvaluateBoolean(value: bool, op: Operator, expected: Option<string>): bool {
    match op
    case Exists => value
    case Eq => expected.Some? && value == Truthy(expected.value)
    case NotEq => expected.Some? && value != Truthy(expected.value)
  }

  /** The keys that look at Window fields and at Workspace fields. */
  predicate WindowKey(key: string) { key == "app_id" || key == "title" || key == "floating" || key == "tiling" }
  predicate WorkspaceKey(key: string) { key == "workspace" || key == "urgent" }
  predicate KnownKey(key: string) { WindowKey(key) || WorkspaceKey(key) || key == "con_mark" || key == "con_id" }

  /** matchesCriterion (src/commands/criteria.ts:49-99). Marks form a set, so `has` is
      membership and `size > 0` is non-emptiness. */
  function MatchesCriterion(n: Node, c: Criterion): bool {
    var x := n.extra;
    if c.key == "app_id" then x.WindowData? && EvaluateString(Some(x.appId), c.op, c.value)
    else if c.key == "title" then x.WindowData? && EvaluateString(Some(x.title), c.op, c.value)
    else if c.key == "workspace" then x.WorkspaceData? && EvaluateString(Some(x.name), c.op, c.value)
    else if c.key == "con_mark" then
      match c.op
      case Exists => |n.marks| > 0
      case Eq => c.value.Some? && c.value.value in n.marks
      case NotEq => c.value.Some? && c.value.value !in n.marks
    else if c.key == "con_id" then EvaluateString(Some(IntToString(n.id)), c.op, c.value)
    else if c.key == "floating" then x.WindowData? && EvaluateBoolean(x.floating, c.op, c.value)
    else if c.key == "tiling" then x.WindowData? && EvaluateBoolean(!x.floating, c.op, c.value)
    else if c.key == "urgent" then x.WorkspaceData? && EvaluateBoolean(x.urgent, c.op, c.value)
    else false
  }

  /** matchesCriteria (src/commands/criteria.ts:101-111): every criterion must match; the
      empty list matches every container. */
  function MatchesCriteria(n: Node, criteria: seq<Criterion>): (b: bool)
    ensures criteria == [] ==> b
    ensures b <==> forall i :: 0 <= i < |criteria| ==> MatchesCriterion(n, criteria[i])
  {
    if criteria == [] then true
    else MatchesCriterion(n, criteria[0]) && MatchesCriteria(n, criteria[1..])
  }

  /** Criteria lists combine by conjunction: matching a concatenation is matching both. */
  lemma {:induction false} MatchesConcat(n: Node, a: seq<Criterion>, b: seq<Criterion>)
    ensures MatchesCriteria(n, a + b) <==> MatchesCriteria(n, a) && MatchesCriteria(n, b)
  {
    if a != [] {
      assert (a + b)[0] == a[0] && (a + b)[1..] == a[1..] + b;
      MatchesConcat(n, a[1..], b);
    } else {
      assert a + b == b;
    }
  }

  /** A string `exists` test holds exactly for a present, non-empty value. */
  lemma StringExists(value: Option<string>, expected: Option<string>)
    ensures EvaluateString(value, Exists, expected) <==> value.Some? && |value.value| > 0
  {
  }

  /** With an expected value, `!=` is the negation of `=`; without one, neither holds. */
  lemma StringOperatorsComplement(value: Option<string>, expected: Option<string>)
    ensures expected.Some? ==> (EvaluateString(value, NotEq, expected) <==> !EvaluateString(value, Eq, expected))
    ensures expected.None? ==> !EvaluateString(value, Eq, expected) && !EvaluateString(value, NotEq, expected)
  {
  }

  /** The same for booleans, and `=` with a truthy word holds exactly for true. */
  lemma BooleanOperators(value: bool, expected: string)
    ensures EvaluateBoolean(value, NotEq, Some(expected)) <==> !EvaluateBoolean(value, Eq, Some(expected))
    ensures Truthy(expected) ==> (EvaluateBoolean(value, Eq, Some(expected)) <==> value)
    ensures !Truthy(expected) ==> (EvaluateBoolean(value, Eq, Some(expected)) <==> !value)
    ensures !EvaluateBoolean(value, Eq, None) && !EvaluateBoolean(value, NotEq, None)
  {
  }

  /** An illustration on single words of the truthy rule (true, 1 and yes in any letter
      case): "TRUE" and "Yes" are truthy, "on" and "0" are not. */
  lemma TruthyWords()
    ensures Truthy("TRUE") && Truthy("Yes") && Truthy("1")
    ensures !Truthy("on") && !Truthy("0") && !Truthy("false")
  {
    assert ToLowerAscii("TRUE") == "true";
    assert ToLowerAscii("Yes") == "yes";
    assert ToLowerAscii("1") == "1";
    assert ToLowerAscii("on") == "on";
    assert ToLowerAscii("0") == "0";
    assert ToLowerAscii("false") == "false";
  }

  /** Window keys never match anything but a Window, workspace keys anything but a
      Workspace, and unknown keys (window_type among them) match nothing. */
  lemma KindRestrictions(n: Node, c: Criterion)
    ensures WindowKey(c.key) && !n.extra.WindowData? ==> !MatchesCriterion(n, c)
    ensures WorkspaceKey(c.key) && !n.extra.WorkspaceData? ==> !MatchesCriterion(n, c)
    ensures !KnownKey(c.key) ==> !MatchesCriterion(n, c)
    ensures !MatchesCriterion(n, Criterion("window_type", c.op, c.value))
  {
  }

  /** `tiling` is `floating` negated, for every operator: on a window, a tiling test with
      `=` matches exactly when the floating test with `!=` does. */
  lemma TilingIsNotFloating(n: Node, expected: string)
    requires n.extra.WindowData?
    ensures MatchesCriterion(n, Criterion("tiling", Eq, Some(expected)))
            <==> MatchesCriterion(n, Criterion("floating", NotEq, Some(expected)))
    ensures MatchesCriterion(n, Criterion("tiling", Exists, None)) <==> !MatchesCriterion(n, Criterion("floating", Exists, None))
  {
  }

  /** con_mark: `exists` holds iff some mark is set, `=` is membership and `!=` its
      negation. */
  lemma MarkCriteria(n: Node, mark: string)
    ensures MatchesCriterion(n, Criterion("con_mark", Exists, None)) <==> |n.marks| > 0
    ensures MatchesCriterion(n, Criterion("con_mark", Eq, Some(mark))) <==> mark in n.marks
    ensures MatchesCriterion(n, Criterion("con_mark", NotEq, Some(mark))) <==> mark !in n.marks
  {
  }

  /** con_id compares decimal text: `con_id=v` matches exactly the container whose id
      reads back from `v`, so no two ids match the same text. */
  lemma ConIdCriterion(n: Node, v: string)
    ensures MatchesCriterion(n, Criterion("con_id", Eq, Some(IntToString(n.id))))
    ensures MatchesCriterion(n, Criterion("con_id", Eq, Some(v))) ==> ParseInt(v) == Some(n.id)
  {
    ParseIntOfString(n.id);
  }

  /** Text to match: a criterion written as `app_id=<a>` in a command selects exactly the
      windows whose app id is `a`. */
  lemma AppIdFromText(n: Node, a: string)
    requires Parser.Plain(a)
    ensures MatchesCriterion(n, Parser.ParseCriteriaToken("app_id=" + a)) <==> n.extra.WindowData? && n.extra.appId == a
  {
    var c := Criterion("app_id", Eq, Some(a));
    assert Parser.CriterionText(c) == "app_id=" + a;
    Parser.ParseCriterionText(c);
  }
}
