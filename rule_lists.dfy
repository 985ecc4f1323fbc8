/**
 * The export-policy rule lists of the in-memory back-end, as values.
 *
 * A policy holds an ordered list of client-match strings (an IP address,
 * optionally with a mask). `create_policy` stores `list(OrderedSet(rules))`,
 * `ensure_policy_rule_present` appends a rule that is not yet there and
 * `ensure_policy_rule_absent` filters every occurrence out. The class
 * DummyStorage applies these functions to its stored lists.
 */
module RuleLists {
  import opened DictUtils

  /** The position of the first occurrence of `x` in `s`. */
  function FirstIndex(s: seq<string>, x: string): (i: nat)
    requires x in s
    ensures i < |s| && s[i] == x && x !in s[..i]
  {
    if s[0] == x then 0 else 1 + FirstIndex(s[1..], x)
  }

  /**
   * `list(OrderedSet(rules))`: the rules with repetitions removed, each kept
   * where it first occurs.
   */
  function Dedup(rules: seq<string>): (r: seq<string>)
    ensures Distinct(r)
    ensures forall x :: x in r <==> x in rules
  {
    if rules == [] then []
    else
      var d := Dedup(rules[..|rules| - 1]);
      var x := rules[|rules| - 1];
      if x in d then d else d + [x]
  }

  /** De-duplication keeps the rules in the order of their first occurrences. */
  lemma {:induction false} DedupKeepsFirstOccurrenceOrder(rules: seq<string>)
    ensures forall i, j :: 0 <= i < j < |Dedup(rules)| ==>
              FirstIndex(rules, Dedup(rules)[i]) < FirstIndex(rules, Dedup(rules)[j])
  {
    if rules != [] {
      var init := rules[..|rules| - 1];
      var x := rules[|rules| - 1];
      var d := Dedup(init);
      assert init + [x] == rules;
      DedupKeepsFirstOccurrenceOrder(init);
      forall y | y in init ensures FirstIndex(rules, y) == FirstIndex(init, y) {
        FirstIndexOfPrefix(init, [x], y);
        assert init + [x] == rules;
      }
      if x !in d {
        assert x !in init;
        forall i | 0 <= i < |d| ensures FirstIndex(rules, d[i]) < FirstIndex(rules, x) {
          assert d[i] in init;
          FirstIndexAfterPrefix(init, x);
        }
      }
    }
  }

  lemma {:induction false} FirstIndexOfPrefix(a: seq<string>, b: seq<string>, y: string)
    requires y in a
    ensures FirstIndex(a + b, y) == FirstIndex(a, y)
  {
    if a[0] != y {
      assert (a + b)[1..] == a[1..] + b;
      FirstIndexOfPrefix(a[1..], b, y);
    }
  }

  lemma FirstIndexAfterPrefix(init: seq<string>, x: string)
    requires x !in init
    ensures FirstIndex(init + [x], x) == |init|
  {
    var s := init + [x];
    assert s[..|init|] == init;
    assert s[|init|] == x;
    assert forall j :: 0 <= j < |init| ==> s[j] == init[j];
  }

  /** A list that is already free of repetitions is stored unchanged. */
  lemma {:induction false} DedupOfDistinct(rules: seq<string>)
    requires Distinct(rules)
    ensures Dedup(rules) == rules
  {
    if rules != [] {
      var init := rules[..|rules| - 1];
      assert Distinct(init);
      DedupOfDistinct(init);
      assert rules[|rules| - 1] !in init;
      assert init + [rules[|rules| - 1]] == rules;
    }
  }

  /** De-duplicating twice is the same as de-duplicating once. */
  lemma DedupIdempotent(rules: seq<string>)
    ensures Dedup(Dedup(rules)) == Dedup(rules)
  {
    DedupOfDistinct(Dedup(rules));
  }

  /** `ensure_policy_rule_present`: append `rule` unless it is already listed. */
  function WithRule(rules: seq<string>, rule: string): (r: seq<string>)
    ensures rule in r
    ensures Distinct(rules) ==> Distinct(r)
    ensures multiset(r)[rule] == if rule in rules then multiset(rules)[rule] else 1
    // every existing rule keeps its place; at most the new rule is added, at the end
    ensures |rules| <= |r| <= |rules| + 1 && r[..|rules|] == rules
    ensures |r| == |rules| <==> rule in rules
    ensures |r| > |rules| ==> r[|rules|] == rule
  {
    if rule in rules then rules else rules + [rule]
  }

  /** `n` calls of `ensure_policy_rule_present` in a row. */
  function WithRuleTimes(rules: seq<string>, rule: string, n: nat): seq<string>
  {
    if n == 0 then rules else WithRule(WithRuleTimes(rules, rule, n - 1), rule)
  }

  /**
   * However often the rule is ensured present, a list free of repetitions
   * ends up holding it exactly once, and equals the list after one call.
   */
  lemma {:induction false} WithRuleRepeated(rules: seq<string>, rule: string, n: nat)
    requires Distinct(rules)
    requires n >= 1
    ensures WithRuleTimes(rules, rule, n) == WithRule(rules, rule)
    ensures multiset(WithRuleTimes(rules, rule, n))[rule] == 1
  {
    if n > 1 {
      WithRuleRepeated(rules, rule, n - 1);
    }
    DistinctCountsOnce(WithRule(rules, rule), rule);
  }

  lemma {:induction false} DistinctCountsOnce(s: seq<string>, x: string)
    requires Distinct(s) && x in s
    ensures multiset(s)[x] == 1
  {
    var i :| 0 <= i < |s| && s[i] == x;
    assert s == s[..i] + [x] + s[i + 1..];
    assert x !in s[..i] && x !in s[i + 1..] by {
      forall j | 0 <= j < i ensures s[..i][j] != x { }
      var tail := s[i + 1..];
      forall j | 0 <= j < |tail| ensures tail[j] != x {
        assert tail[j] == s[j + i + 1];
      }
    }
    assert multiset(s) == multiset(s[..i]) + multiset([x]) + multiset(s[i + 1..]);
  }

  /**
   * `ensure_policy_rule_absent`: `list(filter(lambda x: x != rule, rules))`,
   * every occurrence of `rule` removed and the other rules kept in order.
   */
  function WithoutRule(rules: seq<string>, rule: string): (r: seq<string>)
    ensures rule !in r
    ensures forall x :: x in r ==> x in rules
  {
    if rules == [] then []
    else
      var rest := WithoutRule(rules[1..], rule);
      if rules[0] == rule then rest else [rules[0]] + rest
  }

  /** Removal drops exactly the occurrences of `rule`: every other rule keeps its count. */
  lemma {:induction false} WithoutRuleCounts(rules: seq<string>, rule: string)
    ensures multiset(WithoutRule(rules, rule)) == multiset(rules)[rule := 0]
  {
    if rules != [] {
      WithoutRuleCounts(rules[1..], rule);
      assert rules == [rules[0]] + rules[1..];
      assert multiset(rules) == multiset([rules[0]]) + multiset(rules[1..]);
    }
  }

  /** Removal keeps a list free of repetitions. */
  lemma {:induction false} WithoutRuleDistinct(rules: seq<string>, rule: string)
    requires Distinct(rules)
    ensures Distinct(WithoutRule(rules, rule))
  {
    if rules != [] {
      assert Distinct(rules[1..]) by {
        forall i, j | 0 <= i < j < |rules[1..]| ensures rules[1..][i] != rules[1..][j] {
          assert rules[1..][i] == rules[i + 1] && rules[1..][j] == rules[j + 1];
        }
      }
      WithoutRuleDistinct(rules[1..], rule);
      assert rules[0] !in rules[1..];
    }
  }

  /** Removal works piece by piece, so the surviving rules keep their order. */
  lemma {:induction false} WithoutRuleDistributes(a: seq<string>, b: seq<string>, rule: string)
    ensures WithoutRule(a + b, rule) == WithoutRule(a, rule) + WithoutRule(b, rule)
  {
    if a != [] {
      assert (a + b)[1..] == a[1..] + b;
      WithoutRuleDistributes(a[1..], b, rule);
    } else {
      assert a + b == b;
    }
  }

  /** Removing a rule that is not listed changes nothing. */
  lemma {:induction false} WithoutRuleAbsent(rules: seq<string>, rule: string)
    requires rule !in rules
    ensures WithoutRule(rules, rule) == rules
  {
    if rules != [] {
      WithoutRuleAbsent(rules[1..], rule);
    }
  }

  /** Removing a rule twice is the same as removing it once. */
  lemma WithoutRuleIdempotent(rules: seq<string>, rule: string)
    ensures WithoutRule(WithoutRule(rules, rule), rule) == WithoutRule(rules, rule)
  {
    WithoutRuleAbsent(WithoutRule(rules, rule), rule);
  }
}
