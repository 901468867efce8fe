/** The plan validator of `services/evaluator.py`. */
module Evaluator {
  import opened Wrappers

  /** Total number of activities over all days. */
  function Sum(xs: seq<nat>): nat {
    if xs == [] then 0 else Sum(xs[..|xs| - 1]) + xs[|xs| - 1]
  }

  /** There are activities in total exactly when some day has one. */
  lemma {:induction false} SumPositiveIff(xs: seq<nat>)
    ensures Sum(xs) > 0 <==> exists i :: 0 <= i < |xs| && xs[i] > 0
    decreases |xs|
  {
    if xs != [] {
      var pre := xs[..|xs| - 1];
      SumPositiveIff(pre);
      if exists i :: 0 <= i < |pre| && pre[i] > 0 {
        var i :| 0 <= i < |pre| && pre[i] > 0;
        assert xs[i] > 0;
      }
      if exists i :: 0 <= i < |xs| && xs[i] > 0 {
        var i :| 0 <= i < |xs| && xs[i] > 0;
        if i < |pre| {
          assert pre[i] > 0;
        }
      }
    }
  }

  datatype Evaluation = Evaluation(daysGenerated: nat, avgEntitiesPerDay: real, withinBudget: bool, validationPassed: bool)

  /** `evaluate_plan`. Each day is given by its number of activities (a day
      without an `activities` list counts 0); the budget flag is `None`
      when `within_budget` is missing. The average is not rounded. */
  function EvaluatePlan(activities: seq<nat>, withinBudget: Option<bool>): (r: Evaluation)
    ensures r.daysGenerated == |activities|
    ensures r.avgEntitiesPerDay * |activities| as real == Sum(activities) as real
    ensures r.avgEntitiesPerDay >= 0.0
    ensures |activities| == 0 ==> r.avgEntitiesPerDay == 0.0
    ensures r.withinBudget <==> withinBudget == Some(true)
  {
    var n := |activities|;
    var avg := if n > 0 then Sum(activities) as real / n as real else 0.0;
    Evaluation(n, avg, withinBudget.GetOr(false), n > 0 && avg > 0.0 && withinBudget.GetOr(false))
  }

  /** A passed validation means at least one day, at least one activity,
      and a budget flag that is present and true. */
  lemma ValidationSound(activities: seq<nat>, withinBudget: Option<bool>)
    requires EvaluatePlan(activities, withinBudget).validationPassed
    ensures |activities| > 0 && Sum(activities) > 0 && withinBudget == Some(true)
    ensures exists i :: 0 <= i < |activities| && activities[i] > 0
  {
    SumPositiveIff(activities);
  }

  /** With days present, validation passes exactly when some day has an
      activity and the plan is within budget; a missing flag fails it. */
  lemma ValidationComplete(activities: seq<nat>, withinBudget: Option<bool>)
    requires |activities| > 0
    ensures EvaluatePlan(activities, withinBudget).validationPassed
        <==> (exists i :: 0 <= i < |activities| && activities[i] > 0) && withinBudget == Some(true)
  {
    SumPositiveIff(activities);
  }
}
