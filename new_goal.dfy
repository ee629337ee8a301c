/**
 * The new-goal form: the goal row it inserts for the signed-in user, the
 * milestone-generation request that follows, and where the browser goes.
 * A failed generation does not stop the navigation to the new goal.
 */
module NewGoal {
  import opened Wrappers
  import opened Types
  import opened Text
  import opened Outcomes

  /** The row inserted into `goals`. */
  datatype GoalInsert = GoalInsert(userId: Id, title: string, description: Option<string>, category: Category,
                                   targetDate: Option<string>, status: Status)

  /** The row built from the form: a new goal is active, and empty optional fields are stored as null. */
  function GoalRow(userId: Id, title: string, description: string, category: Category, targetDate: string): (r: GoalInsert)
    ensures r.userId == userId && r.title == title && r.category == category && r.status == Active
    ensures r.description == NullIfEmpty(description) && (r.description.None? <==> description == "")
    ensures r.targetDate == NullIfEmpty(targetDate) && (r.targetDate.None? <==> targetDate == "")
  {
    GoalInsert(userId, title, NullIfEmpty(description), category, NullIfEmpty(targetDate), Active)
  }

  /** The path of the milestone-generation request. */
  const GeneratePath := "/api/ai/generate-milestones"

  /** The generation request: the goal's id, title, description and category, and nothing else (no target date). */
  datatype GeneratePost = GeneratePost(path: string, goalId: Id, title: string, description: string, category: string)

  /** The generation request either throws or comes back, ok or not. */
  datatype FetchOutcome = FetchRejected(thrown: Thrown) | Responded(ok: bool)

  const CreateFallback := "Failed to create goal"

  /** The form's state. */
  class NewGoalForm {
    var title: string
    var description: string
    var category: Category
    var targetDate: string
    var isLoading: bool
    var error: Option<string>

    /** The initial state: empty fields and the personal category. */
    constructor()
      ensures title == "" && description == "" && targetDate == "" && category == Personal
      ensures !isLoading && error.None?
    {
      title, description, targetDate := "", "", "";
      category := Personal;
      isLoading := false;
      error := None;
    }

    /**
     * `handleSubmit`. `user` is the signed-in user, `insert` the database's
     * answer to the goal insert and `fetch` the outcome of the generation
     * request. Returns the row handed to the insert, the request posted and
     * the navigation, each if it happened.
     */
    method HandleSubmit(user: Option<Id>, insert: InsertOutcome, fetch: FetchOutcome)
      returns (row: Option<GoalInsert>, post: Option<GeneratePost>, navigation: Option<string>)
      modifies this
      // no user: off to the login page, nothing inserted, the button stays busy
      ensures user.None? ==>
                row.None? && post.None? && navigation == Some("/auth/login") && isLoading && error.None?
      ensures user.Some? ==>
                row == Some(GoalRow(user.value, old(title), old(description), old(category), old(targetDate)))
      ensures user.Some? && insert.InsertFailed? ==>
                post.None? && navigation.None? && error == Some(Message(insert.thrown, CreateFallback)) && !isLoading
      ensures user.Some? && insert.Inserted? ==>
                post == Some(GeneratePost(GeneratePath, insert.id, old(title), old(description), CategoryValue(old(category))))
      ensures user.Some? && insert.Inserted? && fetch.FetchRejected? ==>
                navigation.None? && error == Some(Message(fetch.thrown, CreateFallback)) && !isLoading
      // the goal exists: whether or not generation succeeded, go to it
      ensures user.Some? && insert.Inserted? && fetch.Responded? ==>
                navigation == Some("/goals/" + insert.id) && error.None? && isLoading
      ensures title == old(title) && description == old(description)
              && category == old(category) && targetDate == old(targetDate)
    {
      isLoading := true;
      error := None;
      row, post, navigation := None, None, None;
      if user.None? {
        navigation := Some("/auth/login");
        return;
      }
      row := Some(GoalRow(user.value, title, description, category, targetDate));
      match insert {
        case InsertFailed(thrown) =>
          error := Some(Message(thrown, CreateFallback));
          isLoading := false;
        case Inserted(id) =>
          post := Some(GeneratePost(GeneratePath, id, title, description, CategoryValue(category)));
          match fetch {
            case FetchRejected(thrown) =>
              error := Some(Message(thrown, CreateFallback));
              isLoading := false;
            case Responded(ok) =>
              navigation := Some("/goals/" + id);
          }
      }
    }
  }
}
