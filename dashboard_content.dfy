/**
 * The dashboard's data loader: the signed-in user's goals, the milestones of
 * those goals (not queried at all when there are none), the latest check-in,
 * and the derived progress figures.
 */
module DashboardContent {
  import opened Wrappers
  import opened Types
  import opened Progress
  import Seqs
  import GoalCard

  /** The record the loader returns. */
  datatype Summary = Summary(
    goals: seq<Goal>,
    milestones: seq<Milestone>,
    latestCheckin: Option<Checkin>,
    activeGoals: seq<Goal>,
    completedMilestones: seq<Milestone>,
    goalMilestones: seq<Milestone>,
    overallProgress: nat)

  /**
   * `DashboardContent()`. The query results are inputs: `goalsData` for the
   * user's goals, `milestonesData` for the milestone query (made only when
   * there are goals), `checkinsData` for the latest check-in query.
   */
  function Load(user: Option<Id>, goalsData: Option<seq<Goal>>, milestonesData: Option<seq<Milestone>>,
                checkinsData: Option<seq<Checkin>>): (r: Outcome<Summary>)
    ensures user.None? <==> r == Redirect("/auth/login")
    ensures r.Render? ==>
              var v := r.view;
              v.goals == Seqs.OrEmpty(goalsData)
              && v.milestones == (if v.goals == [] then [] else Seqs.OrEmpty(milestonesData))
              && v.latestCheckin == FirstRow(checkinsData)
              && Seqs.Selects(v.activeGoals, v.goals, IsActive)
              && Seqs.Selects(v.goalMilestones, v.milestones, BelongsToSome(v.goals))
              && (forall k :: 0 <= k < |v.goalMilestones| ==> HasGoal(v.goals, v.goalMilestones[k].goalId))
              && Seqs.Selects(v.completedMilestones, v.goalMilestones, GoalCard.IsDone)
              && |v.completedMilestones| <= |v.goalMilestones|
              && v.overallProgress == OverallProgress(v.goalMilestones)
              && v.overallProgress ==
                   (if |v.goalMilestones| > 0 then GoalCard.Percent(|v.completedMilestones|, |v.goalMilestones|) else 0)
              && v.overallProgress <= 100
              && (v.goals == [] ==> v.milestones == [] && v.overallProgress == 0)
  {
    if user.None? then Redirect("/auth/login")
    else
      var goals := Seqs.OrEmpty(goalsData);
      var milestones := if |goals| > 0 then Seqs.OrEmpty(milestonesData) else [];
      var goalMilestones := GoalMilestones(goals, milestones);
      Render(Summary(
        goals,
        milestones,
        FirstRow(checkinsData),
        ActiveGoals(goals),
        CompletedMilestones(goalMilestones),
        goalMilestones,
        OverallProgress(goalMilestones)))
  }
}
