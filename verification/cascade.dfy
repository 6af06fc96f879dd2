/**
 First-match-wins rule lists. Each rule either declines (`Normal(None)`),
 decides (`Normal(Some(v))`), or throws while being evaluated; the list's
 answer is that of the first rule that does not decline.
 */
module Cascade {
  import opened Js

  function FirstMatch<R, V>(rules: seq<R>, apply: R -> Completion<Option<V>>): Completion<Option<V>> {
    if |rules| == 0 then Normal(None)
    else if apply(rules[0]) == Normal(None) then FirstMatch(rules[1..], apply)
    else apply(rules[0])
  }

  /** Every rule before index `k` declines. */
  ghost predicate DeclinedBefore<R, V>(rules: seq<R>, apply: R -> Completion<Option<V>>, k: int) {
    forall j :: 0 <= j < k && j < |rules| ==> apply(rules[j]) == Normal(None)
  }

  /**
   The answer of a rule list is the answer of its first non-declining rule,
   whatever the rules after it would say.
   */
  lemma {:induction false} FirstMatchAt<R, V>(rules: seq<R>, apply: R -> Completion<Option<V>>, k: nat)
    requires k < |rules|
    requires DeclinedBefore(rules, apply, k)
    requires apply(rules[k]) != Normal(None)
    ensures FirstMatch(rules, apply) == apply(rules[k])
    decreases k
  {
    if k > 0 {
      assert apply(rules[0]) == Normal(None);
      assert rules[1..][k - 1] == rules[k];
      assert DeclinedBefore(rules[1..], apply, k - 1) by {
        forall j | 0 <= j < k - 1 ensures apply(rules[1..][j]) == Normal(None) {
          assert rules[1..][j] == rules[j + 1];
        }
      }
      FirstMatchAt(rules[1..], apply, k - 1);
    }
  }

  /** A rule list declines exactly when every rule declines. */
  lemma {:induction false} FirstMatchNone<R, V>(rules: seq<R>, apply: R -> Completion<Option<V>>)
    ensures FirstMatch(rules, apply) == Normal(None) <==> DeclinedBefore(rules, apply, |rules|)
    decreases |rules|
  {
    if |rules| > 0 {
      FirstMatchNone(rules[1..], apply);
      if apply(rules[0]) == Normal(None) {
        if DeclinedBefore(rules[1..], apply, |rules| - 1) {
          forall j | 0 < j < |rules| ensures apply(rules[j]) == Normal(None) {
            assert rules[j] == rules[1..][j - 1];
          }
        }
        if DeclinedBefore(rules, apply, |rules|) {
          forall j | 0 <= j < |rules| - 1 ensures apply(rules[1..][j]) == Normal(None) {
            assert rules[1..][j] == rules[j + 1];
          }
        }
      }
    }
  }

  /**
   Any non-declining answer of a rule list is the answer of some rule, all
   of whose predecessors declined.
   */
  lemma {:induction false} FirstMatchWitness<R, V>(rules: seq<R>, apply: R -> Completion<Option<V>>)
    requires FirstMatch(rules, apply) != Normal(None)
    ensures exists k :: 0 <= k < |rules| && DeclinedBefore(rules, apply, k) && FirstMatch(rules, apply) == apply(rules[k])
    decreases |rules|
  {
    if apply(rules[0]) == Normal(None) {
      FirstMatchWitness(rules[1..], apply);
      var k :| 0 <= k < |rules[1..]| && DeclinedBefore(rules[1..], apply, k) && FirstMatch(rules[1..], apply) == apply(rules[1..][k]);
      assert DeclinedBefore(rules, apply, k + 1) by {
        forall j | 0 < j < k + 1 ensures apply(rules[j]) == Normal(None) {
          assert rules[j] == rules[1..][j - 1];
        }
      }
      assert rules[k + 1] == rules[1..][k];
    } else {
      assert DeclinedBefore(rules, apply, 0);
    }
  }
}
