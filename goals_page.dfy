/**
 * The goals page: every goal of the signed-in user with its milestones, or
 * the empty state when there are none. Missing query data reads as no rows.
 */
module GoalsPage {
  import opened Wrappers
  import opened Types
  import opened Progress
  import Seqs

  /** One entry of `goalsWithMilestones`. */
  datatype GoalEntry = GoalEntry(goal: Goal, milestones: seq<Milestone>)

  /**
   * `goals.map((goal) => ({ goal, milestones: milestones.filter(...) }))`:
   * one entry per goal, in order, each with exactly that goal's milestones in their original order.
   */
  function GroupByGoal(goals: seq<Goal>, milestones: seq<Milestone>): (r: seq<GoalEntry>)
    ensures |r| == |goals|
    ensures forall i :: 0 <= i < |r| ==>
              r[i].goal == goals[i] && Seqs.Selects(r[i].milestones, milestones, BelongsTo(goals[i].id))
  {
    seq(|goals|, i requires 0 <= i < |goals| => GoalEntry(goals[i], MilestonesOf(goals[i].id, milestones)))
  }

  /** A milestone shows up under its own goal, and under no goal with another id. */
  lemma MilestoneGrouped(goals: seq<Goal>, milestones: seq<Milestone>, k: nat, i: nat)
    requires k < |milestones| && i < |goals|
    ensures milestones[k].goalId == goals[i].id ==> milestones[k] in GroupByGoal(goals, milestones)[i].milestones
    ensures milestones[k].goalId != goals[i].id ==> milestones[k] !in GroupByGoal(goals, milestones)[i].milestones
  {
    var group := GroupByGoal(goals, milestones)[i].milestones;
    var p := BelongsTo(goals[i].id);
    assert Seqs.Selects(group, milestones, p);
    if milestones[k].goalId == goals[i].id {
      assert p(milestones[k]);
      assert multiset(group)[milestones[k]] == multiset(milestones)[milestones[k]] > 0;
    } else {
      assert !p(milestones[k]);
      assert forall j :: 0 <= j < |group| ==> p(group[j]);
    }
  }

  datatype GoalsView = GoalsView(entries: seq<GoalEntry>, showEmptyState: bool)

  /** `GoalsPage()`: `goalsData` and `milestonesData` are the query results. */
  function Load(user: Option<Id>, goalsData: Option<seq<Goal>>, milestonesData: Option<seq<Milestone>>): (r: Outcome<GoalsView>)
    ensures user.None? <==> r == Redirect("/auth/login")
    ensures r.Render? ==>
              r.view.entries == GroupByGoal(Seqs.OrEmpty(goalsData), Seqs.OrEmpty(milestonesData))
              && |r.view.entries| == |Seqs.OrEmpty(goalsData)|
              && (r.view.showEmptyState <==> goalsData.None? || goalsData.value == [])
  {
    if user.None? then Redirect("/auth/login")
    else
      var entries := GroupByGoal(Seqs.OrEmpty(goalsData), Seqs.OrEmpty(milestonesData));
      Render(GoalsView(entries, |entries| == 0))
  }
}
