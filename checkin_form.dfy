/**
 * The weekly check-in form: the week number of the current date, the
 * check-in row it inserts, the feedback request it then posts, and how the
 * form's loading, error, feedback and note fields end up on each path.
 */
module CheckinForm {
  import opened Wrappers
  import opened Types
  import opened Text
  import opened Outcomes
  import CheckinFeedback

  /** Milliseconds in a week: `1000 * 60 * 60 * 24 * 7`. */
  const WeekMs: nat := 604800000

  /** Milliseconds in a leap year, the longest a calendar year can be. */
  const LeapYearMs: nat := 31622400000

  /**
   * `getCurrentWeek()`: `Math.ceil(elapsed / oneWeek)` where `elapsed` is the
   * time since local midnight on January 1st. It is 0 only at that instant.
   */
  function WeekNumber(elapsedMs: nat): (week: nat)
    ensures week == 0 <==> elapsedMs == 0
    ensures week > 0 ==> (week - 1) * WeekMs < elapsedMs <= week * WeekMs
    ensures elapsedMs <= LeapYearMs ==> week <= 53
  {
    (elapsedMs + WeekMs - 1) / WeekMs
  }

  /** `goals[0]?.id || ''`: the goal selected when the form opens. */
  function DefaultSelectedGoal(goals: seq<Goal>): (id: Id)
    ensures goals == [] ==> id == ""
    ensures goals != [] ==> id == goals[0].id
  {
    if goals == [] then "" else goals[0].id
  }

  /** `goals.findIndex((g) => g.id === id)`: the first goal with that id. */
  function FindGoal(goals: seq<Goal>, id: Id): (r: Option<nat>)
    ensures r.None? <==> forall i :: 0 <= i < |goals| ==> goals[i].id != id
    ensures r.Some? ==> r.value < |goals| && goals[r.value].id == id
                        && forall j :: 0 <= j < r.value ==> goals[j].id != id
  {
    if goals == [] then None
    else if goals[0].id == id then Some(0)
    else match FindGoal(goals[1..], id)
      case None => None
      case Some(i) => Some(i + 1)
  }

  /** `goals.find((g) => g.id === id)?.title`. */
  function TitleOf(goals: seq<Goal>, id: Id): (title: Option<string>)
    ensures title.None? <==> forall i :: 0 <= i < |goals| ==> goals[i].id != id
    ensures title.Some? ==> title.value == goals[FindGoal(goals, id).value].title
  {
    match FindGoal(goals, id)
    case Some(i) => Some(goals[i].title)
    case None => None
  }

  /** The row inserted into `checkins`. */
  datatype CheckinInsert = CheckinInsert(userId: Id, goalId: Id, weekNumber: nat, progressNote: Option<string>, mood: Mood)

  /** The path the form posts the feedback request to. */
  const FeedbackPath := "/api/ai/coach-feedback"

  /** The feedback request: the note goes as typed, empty or not; a goal title that was not found is omitted. */
  datatype FeedbackPost = FeedbackPost(path: string, checkinId: Id, goalTitle: Option<string>,
                                       progressNote: string, mood: Mood, weekNumber: nat)

  /** How the feedback handler reads that request body. */
  function AsHandlerRequest(post: FeedbackPost): (r: CheckinFeedback.FeedbackRequest)
    ensures r.checkinId == Some(post.checkinId) && r.goalTitle == post.goalTitle
    ensures r.progressNote == Some(post.progressNote) && r.mood == Some(MoodValue(post.mood))
    ensures r.weekNumber == Some(post.weekNumber)
  {
    CheckinFeedback.FeedbackRequest(Some(post.checkinId), post.goalTitle, Some(post.progressNote),
                                    Some(MoodValue(post.mood)), Some(post.weekNumber))
  }

  /** An empty note is stored as null in the row and shown as "No notes provided" in the prompt. */
  lemma EmptyNoteEverywhere(post: FeedbackPost, row: CheckinInsert)
    requires post.progressNote == "" && row.progressNote == NullIfEmpty(post.progressNote)
    ensures row.progressNote.None?
    ensures CheckinFeedback.NoteText(AsHandlerRequest(post).progressNote) == "No notes provided"
  {
  }

  /** The mood the form sends always has its supporting phrase in the prompt. */
  lemma FormMoodHasPhrase(post: FeedbackPost)
    ensures CheckinFeedback.MoodContext(AsHandlerRequest(post).mood) != ""
  {
    MoodRoundTrip(post.mood);
  }

  /** The feedback request either throws, comes back not ok, or comes back ok with a body that may not parse. */
  datatype FetchOutcome =
    | FetchRejected(thrown: Thrown)
    | NotOk
    | OkBody(feedback: Option<string>)
    | OkUnreadable(thrown: Thrown)

  const SubmitFallback := "Failed to submit check-in"

  /** The form's state. */
  class CheckinFormState {
    const goals: seq<Goal>
    const userId: Id
    var selectedGoal: Id
    var progressNote: string
    var mood: Mood
    var isLoading: bool
    var feedback: Option<string>
    var error: Option<string>

    /** The initial state: the first goal selected, an empty note, mood "good". */
    constructor(goals: seq<Goal>, userId: Id)
      ensures this.goals == goals && this.userId == userId
      ensures selectedGoal == DefaultSelectedGoal(goals)
      ensures progressNote == "" && mood == Good
      ensures !isLoading && feedback.None? && error.None?
    {
      this.goals := goals;
      this.userId := userId;
      selectedGoal := DefaultSelectedGoal(goals);
      progressNote := "";
      mood := Good;
      isLoading := false;
      feedback := None;
      error := None;
    }

    /**
     * `handleSubmit`. `elapsedMs` is the clock reading, `insert` the database's
     * answer to the check-in insert and `fetch` the outcome of the feedback request.
     * Returns the row handed to the insert and the request posted, if any.
     */
    method HandleSubmit(elapsedMs: nat, insert: InsertOutcome, fetch: FetchOutcome)
      returns (row: CheckinInsert, post: Option<FeedbackPost>)
      modifies this
      ensures row == CheckinInsert(userId, old(selectedGoal), WeekNumber(elapsedMs), NullIfEmpty(old(progressNote)), old(mood))
      ensures insert.InsertFailed? ==>
                post.None? && error == Some(Message(insert.thrown, SubmitFallback))
                && feedback.None? && progressNote == old(progressNote)
      ensures insert.Inserted? ==>
                post == Some(FeedbackPost(FeedbackPath, insert.id, TitleOf(goals, old(selectedGoal)),
                                          old(progressNote), old(mood), row.weekNumber))
      ensures insert.Inserted? && fetch.FetchRejected? ==>
                error == Some(Message(fetch.thrown, SubmitFallback)) && feedback.None? && progressNote == old(progressNote)
      ensures insert.Inserted? && fetch.OkUnreadable? ==>
                error == Some(Message(fetch.thrown, SubmitFallback)) && feedback.None? && progressNote == old(progressNote)
      ensures insert.Inserted? && fetch.NotOk? ==> error.None? && feedback.None? && progressNote == ""
      ensures insert.Inserted? && fetch.OkBody? ==> error.None? && feedback == fetch.feedback && progressNote == ""
      ensures !isLoading
      ensures selectedGoal == old(selectedGoal) && mood == old(mood)
    {
      isLoading := true;
      error := None;
      feedback := None;
      post := None;
      var weekNumber := WeekNumber(elapsedMs);
      row := CheckinInsert(userId, selectedGoal, weekNumber, NullIfEmpty(progressNote), mood);
      match insert {
        case InsertFailed(thrown) =>
          error := Some(Message(thrown, SubmitFallback));
        case Inserted(id) =>
          post := Some(FeedbackPost(FeedbackPath, id, TitleOf(goals, selectedGoal), progressNote, mood, weekNumber));
          match fetch {
            case FetchRejected(thrown) =>
              error := Some(Message(thrown, SubmitFallback));
            case OkUnreadable(thrown) =>
              error := Some(Message(thrown, SubmitFallback));
            case NotOk =>
              progressNote := "";
            case OkBody(fb) =>
              feedback := fb;
              progressNote := "";
          }
      }
      isLoading := false;
    }
  }
}
