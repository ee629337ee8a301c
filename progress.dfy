/**
 * The progress figures the dashboard computes from a user's goals and
 * milestones: the active goals, the milestones that belong to one of the
 * goals, the completed ones among those, and the overall percentage.
 */
module Progress {
  import opened Wrappers
  import opened Types
  import Seqs
  import GoalCard

  /** A server page either redirects (the `redirect` call throws) or renders. */
  datatype Outcome<T> = Redirect(path: string) | Render(view: T)

  predicate IsActive(g: Goal) { g.status == Active }

  predicate IsFinished(g: Goal) { g.status == Completed }

  /** `goals.some((g) => g.id === goalId)`. */
  predicate HasGoal(goals: seq<Goal>, goalId: Id) {
    exists i :: 0 <= i < |goals| && goals[i].id == goalId
  }

  /** `goals.filter((g) => g.status === 'active')`: exactly the active goals, in order. */
  function ActiveGoals(goals: seq<Goal>): (r: seq<Goal>)
    ensures Seqs.Selects(r, goals, IsActive)
  {
    Seqs.FilterSelects(goals, IsActive);
    Seqs.Filter(goals, IsActive)
  }

  /** `goals.filter((g) => g.status === 'completed')`: exactly the completed goals, in order. */
  function FinishedGoals(goals: seq<Goal>): (r: seq<Goal>)
    ensures Seqs.Selects(r, goals, IsFinished)
  {
    Seqs.FilterSelects(goals, IsFinished);
    Seqs.Filter(goals, IsFinished)
  }

  /** The milestones whose goal is one of `goals`. */
  function BelongsToSome(goals: seq<Goal>): Milestone -> bool {
    (m: Milestone) => HasGoal(goals, m.goalId)
  }

  /** `milestones.filter((m) => goals.some((g) => g.id === m.goal_id))`. */
  function GoalMilestones(goals: seq<Goal>, milestones: seq<Milestone>): (r: seq<Milestone>)
    ensures Seqs.Selects(r, milestones, BelongsToSome(goals))
    ensures forall k :: 0 <= k < |r| ==> HasGoal(goals, r[k].goalId)
    ensures goals == [] ==> r == []
  {
    var p := BelongsToSome(goals);
    Seqs.FilterSelects(milestones, p);
    var r := Seqs.Filter(milestones, p);
    assert forall k :: 0 <= k < |r| ==> p(r[k]);
    r
  }

  /** `goalMilestones.filter((m) => m.is_completed)`: exactly the completed ones, in order. */
  function CompletedMilestones(milestones: seq<Milestone>): (r: seq<Milestone>)
    ensures Seqs.Selects(r, milestones, GoalCard.IsDone)
    ensures |r| <= |milestones|
    ensures |r| == GoalCard.CompletedCount(milestones)
  {
    Seqs.FilterSelects(milestones, GoalCard.IsDone);
    Seqs.Filter(milestones, GoalCard.IsDone)
  }

  /**
   * `goalMilestones.length > 0 ? Math.round(completed / total * 100) : 0`:
   * 0 with no milestones, otherwise the rounded percentage, never above 100.
   */
  function OverallProgress(goalMilestones: seq<Milestone>): (pct: nat)
    ensures goalMilestones == [] ==> pct == 0
    ensures pct <= 100
    ensures goalMilestones != [] ==> pct == GoalCard.Percent(GoalCard.CompletedCount(goalMilestones), |goalMilestones|)
    ensures (forall k :: 0 <= k < |goalMilestones| ==> goalMilestones[k].isCompleted) && goalMilestones != [] ==> pct == 100
  {
    var completed := GoalCard.CompletedCount(goalMilestones);
    GoalCard.PercentBounds(completed, |goalMilestones|);
    GoalCard.CompletedCountExtremes(goalMilestones);
    if |goalMilestones| > 0 then GoalCard.Percent(completed, |goalMilestones|) else 0
  }

  /** The milestones of one goal. */
  function BelongsTo(goalId: Id): Milestone -> bool {
    (m: Milestone) => m.goalId == goalId
  }

  /** `milestones.filter((m) => m.goal_id === goalId)`: exactly that goal's milestones, in order. */
  function MilestonesOf(goalId: Id, milestones: seq<Milestone>): (r: seq<Milestone>)
    ensures Seqs.Selects(r, milestones, BelongsTo(goalId))
    ensures forall k :: 0 <= k < |r| ==> r[k].goalId == goalId
  {
    Seqs.FilterSelects(milestones, BelongsTo(goalId));
    var r := Seqs.Filter(milestones, BelongsTo(goalId));
    assert forall k :: 0 <= k < |r| ==> BelongsTo(goalId)(r[k]);
    r
  }

  /** `data?.[0] || null`: the first row of a query, if it returned any. */
  function FirstRow<T>(data: Option<seq<T>>): (r: Option<T>)
    ensures r.Some? <==> data.Some? && |data.value| > 0
    ensures r.Some? ==> r.value == data.value[0]
  {
    if data.Some? && |data.value| > 0 then Some(data.value[0]) else None
  }
}
