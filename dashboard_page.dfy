/**
 * The dashboard page: the stat tiles (active goals, milestones done, streak,
 * overall progress), cards for the first three active goals, and the latest
 * coaching feedback. Its milestone query is not scoped to the user; the page
 * keeps only the milestones of the user's own goals for the figures.
 */
module DashboardPage {
  import opened Wrappers
  import opened Types
  import opened Text
  import opened Progress
  import Seqs
  import GoalCard

  /** At most this many goal cards are shown. */
  const CardLimit: nat := 3

  /** The stat tiles. */
  datatype Stats = Stats(
    activeGoals: seq<Goal>,
    completedGoals: seq<Goal>,
    goalMilestones: seq<Milestone>,
    completedMilestones: seq<Milestone>,
    overallProgress: nat,
    streak: nat)

  /** The figures behind the tiles; only milestones of the user's own goals count, whatever the query returned. */
  function StatsFor(goals: seq<Goal>, milestones: seq<Milestone>, latest: Option<Checkin>): (v: Stats)
    ensures Seqs.Selects(v.activeGoals, goals, IsActive)
    ensures Seqs.Selects(v.completedGoals, goals, IsFinished)
    ensures Seqs.Selects(v.goalMilestones, milestones, BelongsToSome(goals))
    ensures forall k :: 0 <= k < |v.goalMilestones| ==> HasGoal(goals, v.goalMilestones[k].goalId)
    ensures Seqs.Selects(v.completedMilestones, v.goalMilestones, GoalCard.IsDone)
    ensures |v.completedMilestones| <= |v.goalMilestones|
    // `Math.round(completedMilestones.length / goalMilestones.length * 100)`, 0 without milestones
    ensures v.overallProgress == OverallProgress(v.goalMilestones)
    ensures v.overallProgress ==
              (if |v.goalMilestones| > 0 then GoalCard.Percent(|v.completedMilestones|, |v.goalMilestones|) else 0)
    ensures v.overallProgress <= 100
    ensures v.streak == 1 <==> latest.Some?
    ensures v.streak == 0 <==> latest.None?
  {
    var goalMilestones := GoalMilestones(goals, milestones);
    Stats(
      ActiveGoals(goals),
      FinishedGoals(goals),
      goalMilestones,
      CompletedMilestones(goalMilestones),
      OverallProgress(goalMilestones),
      if latest.Some? then 1 else 0)
  }

  /** One entry of `goalsWithMilestones`. */
  datatype CardEntry = CardEntry(goal: Goal, milestones: seq<Milestone>)

  /** `activeGoals.slice(0, 3).map((goal) => ({ goal, milestones: ... }))`. */
  function Cards(activeGoals: seq<Goal>, milestones: seq<Milestone>): (r: seq<CardEntry>)
    ensures |r| <= CardLimit
    ensures |r| == if |activeGoals| < CardLimit then |activeGoals| else CardLimit
    ensures forall i :: 0 <= i < |r| ==>
              r[i].goal == activeGoals[i] && Seqs.Selects(r[i].milestones, milestones, BelongsTo(activeGoals[i].id))
  {
    var first := Seqs.Take(activeGoals, CardLimit);
    seq(|first|, i requires 0 <= i < |first| => CardEntry(first[i], MilestonesOf(first[i].id, milestones)))
  }

  /** What each `GoalCard` shows: its counts come from the card's own milestones. */
  function CardViews(cards: seq<CardEntry>): (r: seq<GoalCard.CardView>)
    ensures |r| == |cards|
    ensures forall i :: 0 <= i < |r| ==>
              r[i] == GoalCard.Card(cards[i].goal, Some(cards[i].milestones))
              && r[i].total == |cards[i].milestones|
              && r[i].completed == GoalCard.CompletedCount(cards[i].milestones) && r[i].completed <= r[i].total
              && r[i].pct == (if r[i].total == 0 then 0 else GoalCard.Percent(r[i].completed, r[i].total))
  {
    seq(|cards|, i requires 0 <= i < |cards| => GoalCard.Card(cards[i].goal, Some(cards[i].milestones)))
  }

  datatype DashboardView = DashboardView(
    stats: Stats,
    cards: seq<CardEntry>,
    cardViews: seq<GoalCard.CardView>,
    showEmptyState: bool,
    showFeedback: bool)

  /** `DashboardPage()`: the query results are inputs. */
  function Load(user: Option<Id>, goalsData: Option<seq<Goal>>, milestonesData: Option<seq<Milestone>>,
                checkinsData: Option<seq<Checkin>>): (r: Outcome<DashboardView>)
    ensures user.None? <==> r == Redirect("/auth/login")
    ensures r.Render? ==>
              var v := r.view;
              var goals := Seqs.OrEmpty(goalsData);
              var milestones := Seqs.OrEmpty(milestonesData);
              var latest := FirstRow(checkinsData);
              v.stats == StatsFor(goals, milestones, latest)
              && v.cards == Cards(v.stats.activeGoals, milestones)
              && v.cardViews == CardViews(v.cards)
              && (v.showEmptyState <==> v.cards == [])
              && (v.showFeedback <==> latest.Some? && Truthy(latest.value.aiFeedback))
  {
    if user.None? then Redirect("/auth/login")
    else
      var goals := Seqs.OrEmpty(goalsData);
      var milestones := Seqs.OrEmpty(milestonesData);
      var latest := FirstRow(checkinsData);
      var stats := StatsFor(goals, milestones, latest);
      var cards := Cards(stats.activeGoals, milestones);
      Render(DashboardView(stats, cards, CardViews(cards), |cards| == 0,
        latest.Some? && Truthy(latest.value.aiFeedback)))
  }
}
