// plan_steps (server.py:136-192): scan the ordered rules, and for every rule
// whose whole `if` mapping equals the request's fields, collect its steps
// and a trace entry.

module StepPlanner {
  import opened Wrappers
  import opened Values
  import opened Tables

  /** An entry of `matched_rules`. */
  datatype MatchedRule = MatchedRule(ruleIndex: nat, conditions: map<string, Value>, actions: Actions)

  datatype Plan = Plan(steps: seq<string>, matchedRules: seq<MatchedRule>)

  /** `all(request.get(key) == value for key, value in conditions.items())`
      (server.py:166-169): a field the request lacks reads as `None`. */
  predicate Matches(request: Record, conditions: map<string, Value>) {
    forall key :: key in conditions ==> PyEq(Get(request, key), conditions[key])
  }

  /** The steps a rule's actions contribute: none without a "steps" key. */
  function StepsOf(actions: Actions): seq<string> {
    actions.steps.GetOr([])
  }

  /** The trace of the rules matched among `rules`, in rule order. */
  function Trace(request: Record, rules: seq<Rule>): seq<MatchedRule> {
    if |rules| == 0 then []
    else
      var n := |rules| - 1;
      Trace(request, rules[..n]) +
        (if Matches(request, rules[n].conditions)
         then [MatchedRule(n, rules[n].conditions, rules[n].actions)] else [])
  }

  /** The steps of the rules matched among `rules`, joined in rule order. */
  function PlannedSteps(request: Record, rules: seq<Rule>): seq<string> {
    if |rules| == 0 then []
    else
      var n := |rules| - 1;
      PlannedSteps(request, rules[..n]) +
        (if Matches(request, rules[n].conditions) then StepsOf(rules[n].actions) else [])
  }

  /** The steps of the entries of a trace, joined in trace order. */
  function TraceSteps(trace: seq<MatchedRule>): seq<string> {
    if |trace| == 0 then [] else TraceSteps(trace[..|trace| - 1]) + StepsOf(trace[|trace| - 1].actions)
  }

  /** The indices of all matching rules. */
  function MatchingIndices(request: Record, rules: seq<Rule>): set<nat> {
    set i: nat | i < |rules| && Matches(request, rules[i].conditions)
  }

  /** plan_steps. An unknown request gets an empty plan; otherwise every
      rule is tested, in order, with no early exit. */
  method PlanSteps(requests: map<string, Record>, rules: seq<Rule>, requestId: string) returns (plan: Plan)
    ensures requestId !in requests ==> plan == Plan([], [])
    ensures requestId in requests ==>
      plan.steps == PlannedSteps(requests[requestId], rules) &&
      plan.matchedRules == Trace(requests[requestId], rules)
  {
    if requestId !in requests {
      return Plan([], []);
    }
    var request := requests[requestId];
    var steps: seq<string> := [];
    var matched: seq<MatchedRule> := [];
    for i := 0 to |rules|
      invariant steps == PlannedSteps(request, rules[..i])
      invariant matched == Trace(request, rules[..i])
    {
      assert rules[..i + 1][..i] == rules[..i];
      var rule := rules[i];
      if Matches(request, rule.conditions) {
        if rule.actions.steps.Some? {
          steps := steps + rule.actions.steps.value;
        }
        matched := matched + [MatchedRule(i, rule.conditions, rule.actions)];
      }
    }
    assert rules[..|rules|] == rules;
    plan := Plan(steps, matched);
  }

  /** A trace entry that names a rule of the list that matches, with that
      rule's own conditions and actions. */
  predicate FaithfulEntry(request: Record, rules: seq<Rule>, e: MatchedRule) {
    e.ruleIndex < |rules| &&
    e.conditions == rules[e.ruleIndex].conditions &&
    e.actions == rules[e.ruleIndex].actions &&
    Matches(request, e.conditions)
  }

  /** Every trace entry names a matching rule of the list, with that rule's
      own conditions and actions, and the indices strictly increase. */
  lemma {:induction false} TraceIsSound(request: Record, rules: seq<Rule>)
    ensures forall k :: 0 <= k < |Trace(request, rules)| ==>
      FaithfulEntry(request, rules, Trace(request, rules)[k])
    ensures forall k, l :: 0 <= k < l < |Trace(request, rules)| ==>
      Trace(request, rules)[k].ruleIndex < Trace(request, rules)[l].ruleIndex
  {
    if |rules| > 0 {
      var n := |rules| - 1;
      var init := rules[..n];
      TraceIsSound(request, init);
      var t0 := Trace(request, init);
      var t := Trace(request, rules);
      var tail: seq<MatchedRule> := if Matches(request, rules[n].conditions)
        then [MatchedRule(n, rules[n].conditions, rules[n].actions)] else [];
      assert t == t0 + tail;
      forall k | 0 <= k < |t| ensures FaithfulEntry(request, rules, t[k]) {
        if k < |t0| {
          assert t[k] == t0[k];
          assert FaithfulEntry(request, init, t0[k]);
          assert rules[t0[k].ruleIndex] == init[t0[k].ruleIndex];
        }
      }
      forall k, l | 0 <= k < l < |t| ensures t[k].ruleIndex < t[l].ruleIndex {
        assert t[k] == t0[k];
        assert FaithfulEntry(request, init, t0[k]);
        if l < |t0| {
          assert t[l] == t0[l];
        }
      }
    }
  }

  /** Every matching rule has a trace entry. */
  lemma {:induction false} TraceIsComplete(request: Record, rules: seq<Rule>, i: nat)
    requires i < |rules| && Matches(request, rules[i].conditions)
    ensures exists k :: 0 <= k < |Trace(request, rules)| && Trace(request, rules)[k].ruleIndex == i
  {
    var n := |rules| - 1;
    var t := Trace(request, rules);
    if i == n {
      assert t[|t| - 1].ruleIndex == i;
    } else {
      var init := rules[..n];
      assert init[i] == rules[i];
      TraceIsComplete(request, init, i);
      var t0 := Trace(request, init);
      var k :| 0 <= k < |t0| && t0[k].ruleIndex == i;
      assert t[k] == t0[k];
    }
  }

  /** matched_rules has one entry per matching rule. */
  lemma {:induction false} TraceCountsMatches(request: Record, rules: seq<Rule>)
    ensures |Trace(request, rules)| == |MatchingIndices(request, rules)|
  {
    if |rules| > 0 {
      var n := |rules| - 1;
      TraceCountsMatches(request, rules[..n]);
      MatchingIndicesOfLast(request, rules);
    }
  }

  /** The matching indices of a list are those of all but its last rule,
      plus the last index when the last rule matches. */
  lemma MatchingIndicesOfLast(request: Record, rules: seq<Rule>)
    requires |rules| > 0
    ensures var n := |rules| - 1;
      var before := MatchingIndices(request, rules[..n]);
      n !in before &&
      MatchingIndices(request, rules) ==
        before + (if Matches(request, rules[n].conditions) then {n} else {})
  {
    var n := |rules| - 1;
    var init := rules[..n];
    forall i: nat | i < n ensures init[i] == rules[i] {
    }
  }

  /** The planned steps are exactly the joined steps of the trace entries:
      matching rules without "steps" contribute nothing, and nothing is
      deduplicated. */
  lemma {:induction false} StepsFollowTrace(request: Record, rules: seq<Rule>)
    ensures PlannedSteps(request, rules) == TraceSteps(Trace(request, rules))
  {
    if |rules| > 0 {
      var n := |rules| - 1;
      var init := rules[..n];
      StepsFollowTrace(request, init);
      var t0 := Trace(request, init);
      if Matches(request, rules[n].conditions) {
        var t := t0 + [MatchedRule(n, rules[n].conditions, rules[n].actions)];
        assert t[..|t| - 1] == t0;
      } else {
        assert Trace(request, rules) == t0 + [] == t0;
        assert PlannedSteps(request, rules) == PlannedSteps(request, init) + [];
      }
    }
  }

  /** Rules are independent: the plan over `a + b` is the plan over `a`
      followed by the plan over `b`, whatever `a` matched. */
  lemma {:induction false} StepsOfConcatenatedRules(request: Record, a: seq<Rule>, b: seq<Rule>)
    ensures PlannedSteps(request, a + b) == PlannedSteps(request, a) + PlannedSteps(request, b)
    decreases |b|
  {
    if |b| == 0 {
      assert a + b == a;
    } else {
      var n := |b| - 1;
      assert (a + b)[..|a| + n] == a + b[..n];
      StepsOfConcatenatedRules(request, a, b[..n]);
      assert (a + b)[|a| + n] == b[n];
    }
  }

  /** A field the request lacks matches only a `null` condition value. */
  lemma MissingFieldMatchesOnlyNull(request: Record, conditions: map<string, Value>, key: string)
    requires key in conditions && key !in request
    ensures Matches(request, conditions) ==> conditions[key] == VNull
  {
    PyEqNull(conditions[key]);
  }

  /** Matching sees request fields only through Python `==`: two requests
      with the same fields, pairwise `==` (such as `True` and `1`), match
      the same rules. */
  lemma MatchesRespectsPyEq(r1: Record, r2: Record, conditions: map<string, Value>)
    requires r1.Keys == r2.Keys
    requires forall k :: k in r1 ==> PyEq(r1[k], r2[k])
    ensures Matches(r1, conditions) <==> Matches(r2, conditions)
  {
    forall key | key in conditions
      ensures PyEq(Get(r1, key), conditions[key]) <==> PyEq(Get(r2, key), conditions[key])
    {
      PyEqIsEquivalence(Get(r1, key), Get(r2, key), conditions[key]);
      PyEqIsEquivalence(Get(r2, key), Get(r1, key), conditions[key]);
    }
  }

  /** A rule with an empty `if` mapping matches every request. */
  lemma EmptyConditionsMatchAll(request: Record)
    ensures Matches(request, map[])
  {
  }
}
