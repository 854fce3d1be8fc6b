/** The `for_window` rules of the configuration (src/rules.ts): each rule's match becomes a
    list of criteria, and a new window collects the commands of every rule it matches. */
module Rules {
  import opened Wrappers
  import opened Containers
  import opened Commands
  import opened Criteria

  /** The `match` object of a rule (the field `when` here, `match` being a keyword); each
      field may be absent. */
  datatype RuleMatch = RuleMatch(appId: Option<string>, title: Option<string>, windowType: Option<string>)

  datatype ForWindowRule = ForWindowRule(when: RuleMatch, commands: seq<string>)

  /** JavaScript truthiness of an optional string: present and non-empty. */
  predicate Given(s: Option<string>) {
    s.Some? && s.value != []
  }

  /** ruleToCriteria (src/rules.ts:6-22): app_id and title only when given, window_type
      whenever it is present (even empty), always with the `=` operator, in that order. */
  function RuleToCriteria(m: RuleMatch): (cs: seq<Criterion>)
    ensures |cs| == (if Given(m.appId) then 1 else 0) + (if Given(m.title) then 1 else 0)
                    + (if m.windowType.Some? then 1 else 0)
    ensures forall i :: 0 <= i < |cs| ==> cs[i].op == Eq && cs[i].value.Some?
    ensures Given(m.appId) ==> cs[0] == Criterion("app_id", Eq, m.appId)
    ensures m.windowType.Some? ==> cs[|cs| - 1] == Criterion("window_type", Eq, m.windowType)
  {
    (if Given(m.appId) then [Criterion("app_id", Eq, m.appId)] else [])
    + (if Given(m.title) then [Criterion("title", Eq, m.title)] else [])
    + (if m.windowType.Some? then [Criterion("window_type", Eq, m.windowType)] else [])
  }

  /** Whether the window satisfies the rule's criteria (src/rules.ts:31-32). */
  predicate RuleMatches(n: Node, r: ForWindowRule) {
    MatchesCriteria(n, RuleToCriteria(r.when))
  }

  /** A window matches a rule iff every given field equals the window's, and no window type
      is named: `window_type` is an unknown criteria key, so such a rule never fires. */
  lemma RuleMatchesIff(n: Node, m: RuleMatch)
    requires n.extra.WindowData?
    ensures MatchesCriteria(n, RuleToCriteria(m)) <==>
              && m.windowType.None?
              && (Given(m.appId) ==> n.extra.appId == m.appId.value)
              && (Given(m.title) ==> n.extra.title == m.title.value)
  {
    var a := if Given(m.appId) then [Criterion("app_id", Eq, m.appId)] else [];
    var t := if Given(m.title) then [Criterion("title", Eq, m.title)] else [];
    var w := if m.windowType.Some? then [Criterion("window_type", Eq, m.windowType)] else [];
    assert RuleToCriteria(m) == (a + t) + w;
    MatchesConcat(n, a + t, w);
    MatchesConcat(n, a, t);
    if m.windowType.Some? {
      KindRestrictions(n, Criterion("window_type", Eq, m.windowType));
      assert !MatchesCriterion(n, w[0]);
    }
  }

  /** A rule whose match names nothing has no criteria and so matches every container. */
  lemma EmptyMatchMatchesAll(n: Node, commands: seq<string>)
    ensures RuleToCriteria(RuleMatch(None, None, None)) == []
    ensures RuleMatches(n, ForWindowRule(RuleMatch(None, None, None), commands))
  {
  }

  /** The commands of the matching rules, concatenated in rule order. */
  function RulesCommands(rules: seq<ForWindowRule>, n: Node): (cmds: seq<string>)
    ensures rules == [] ==> cmds == []
  {
    if rules == [] then []
    else
      var last := rules[|rules| - 1];
      RulesCommands(rules[..|rules| - 1], n) + (if RuleMatches(n, last) then last.commands else [])
  }

  /** Rule lists compose: the commands of `a + b` are those of `a` followed by those of `b`. */
  lemma {:induction false} RulesCommandsAppend(a: seq<ForWindowRule>, b: seq<ForWindowRule>, n: Node)
    ensures RulesCommands(a + b, n) == RulesCommands(a, n) + RulesCommands(b, n)
    decreases |b|
  {
    if b == [] {
      assert a + b == a;
    } else {
      var b' := b[..|b| - 1];
      assert (a + b)[..|a + b| - 1] == a + b';
      RulesCommandsAppend(a, b', n);
    }
  }

  /** A single rule contributes its commands iff the window matches it. */
  lemma RulesCommandsOne(r: ForWindowRule, n: Node)
    ensures RulesCommands([r], n) == (if RuleMatches(n, r) then r.commands else [])
  {
    assert [r][..0] == [];
  }

  /** evaluateRules (src/rules.ts:24-38): the loop over the rules pushing each matching
      rule's commands. */
  method EvaluateRules(rules: seq<ForWindowRule>, n: Node) returns (commands: seq<string>)
    ensures commands == RulesCommands(rules, n)
  {
    commands := [];
    var i := 0;
    while i < |rules|
      invariant i <= |rules|
      invariant commands == RulesCommands(rules[..i], n)
    {
      var criteria := RuleToCriteria(rules[i].when);
      if MatchesCriteria(n, criteria) {
        commands := commands + rules[i].commands;
      }
      assert rules[..i + 1][..i] == rules[..i];
      i := i + 1;
    }
    assert rules[..i] == rules;
  }
}
