/**
 * The records of the application and their enumerations: goals, the
 * milestones that break a goal into months, and weekly check-ins. Nullable
 * columns are `Option`s; identities and timestamps are the strings the
 * database hands out.
 */
module Types {
  import opened Wrappers

  type Id = string

  datatype Category = Health | Career | Finance | Personal | Learning
  datatype Status = Active | Completed | Abandoned
  datatype Mood = Great | Good | Okay | Struggling

  datatype Goal = Goal(
    id: Id,
    userId: Id,
    title: string,
    description: Option<string>,
    category: Category,
    targetDate: Option<string>,
    status: Status,
    createdAt: string,
    updatedAt: string)

  datatype Milestone = Milestone(
    id: Id,
    goalId: Id,
    title: string,
    month: int,
    isCompleted: bool,
    completedAt: Option<string>,
    createdAt: string)

  datatype Checkin = Checkin(
    id: Id,
    userId: Id,
    goalId: Id,
    weekNumber: int,
    progressNote: Option<string>,
    mood: Mood,
    aiFeedback: Option<string>,
    createdAt: string)

  /** The column value stored for a category. */
  function CategoryValue(c: Category): string {
    match c
    case Health => "health"
    case Career => "career"
    case Finance => "finance"
    case Personal => "personal"
    case Learning => "learning"
  }

  /** The column value stored for a mood. */
  function MoodValue(m: Mood): string {
    match m
    case Great => "great"
    case Good => "good"
    case Okay => "okay"
    case Struggling => "struggling"
  }

  /** Reads a category column; only the five category values are accepted. */
  function ParseCategory(s: string): (r: Option<Category>)
    ensures r.Some? <==> s in {"health", "career", "finance", "personal", "learning"}
    ensures r.Some? ==> CategoryValue(r.value) == s
  {
    if s == "health" then Some(Health)
    else if s == "career" then Some(Career)
    else if s == "finance" then Some(Finance)
    else if s == "personal" then Some(Personal)
    else if s == "learning" then Some(Learning)
    else None
  }

  /** Reads a mood value; only the four mood values are accepted. */
  function ParseMood(s: string): (r: Option<Mood>)
    ensures r.Some? <==> s in {"great", "good", "okay", "struggling"}
    ensures r.Some? ==> MoodValue(r.value) == s
  {
    if s == "great" then Some(Great)
    else if s == "good" then Some(Good)
    else if s == "okay" then Some(Okay)
    else if s == "struggling" then Some(Struggling)
    else None
  }

  /** Every category is stored as a distinct value that reads back as itself. */
  lemma CategoryRoundTrip(c: Category)
    ensures ParseCategory(CategoryValue(c)) == Some(c)
  {
  }

  /** Every mood is stored as a distinct value that reads back as itself. */
  lemma MoodRoundTrip(m: Mood)
    ensures ParseMood(MoodValue(m)) == Some(m)
  {
  }

  datatype CategoryOption = CategoryOption(value: Category, labelText: string, color: string)
  datatype MoodOption = MoodOption(value: Mood, labelText: string, emoji: string)

  /** `GOAL_CATEGORIES`: the category picker's entries, each category once. */
  function GoalCategories(): (r: seq<CategoryOption>)
    ensures |r| == 5
    ensures forall i, j :: 0 <= i < j < |r| ==> r[i].value != r[j].value
    ensures forall c: Category :: CategoryIndex(c) < |r| && r[CategoryIndex(c)].value == c
  {
    var r := [
      CategoryOption(Health, "Health", "bg-emerald-100 text-emerald-700"),
      CategoryOption(Career, "Career", "bg-blue-100 text-blue-700"),
      CategoryOption(Finance, "Finance", "bg-amber-100 text-amber-700"),
      CategoryOption(Personal, "Personal", "bg-purple-100 text-purple-700"),
      CategoryOption(Learning, "Learning", "bg-pink-100 text-pink-700")
    ];
    r
  }

  /** The position of a category in the picker. */
  function CategoryIndex(c: Category): nat {
    match c
    case Health => 0
    case Career => 1
    case Finance => 2
    case Personal => 3
    case Learning => 4
  }

  /** `MOOD_OPTIONS`: the mood picker's entries, each mood once. */
  function MoodOptions(): (r: seq<MoodOption>)
    ensures |r| == 4
    ensures forall i, j :: 0 <= i < j < |r| ==> r[i].value != r[j].value
    ensures forall m: Mood :: MoodIndex(m) < |r| && r[MoodIndex(m)].value == m
  {
    var r := [
      MoodOption(Great, "Great", "\U{1F680}"),
      MoodOption(Good, "Good", "\U{1F60A}"),
      MoodOption(Okay, "Okay", "\U{1F610}"),
      MoodOption(Struggling, "Struggling", "\U{1F613}")
    ];
    r
  }

  /** The position of a mood in the picker. */
  function MoodIndex(m: Mood): nat {
    match m
    case Great => 0
    case Good => 1
    case Okay => 2
    case Struggling => 3
  }

  /** `GOAL_CATEGORIES.find((c) => c.value === value)`. */
  function FindCategoryOption(value: string): (r: Option<CategoryOption>)
    ensures r.Some? <==> ParseCategory(value).Some?
    ensures r.Some? ==> CategoryValue(r.value.value) == value && r.value in GoalCategories()
    ensures r.Some? ==> r.value == GoalCategories()[CategoryIndex(ParseCategory(value).value)]
  {
    var r := FindCategoryIn(GoalCategories(), value);
    if r.Some? then
      OptionAtIndex(r.value);
      CategoryRoundTrip(r.value.value);
      r
    else r
  }

  /** Each picker entry sits at its category's position. */
  lemma OptionAtIndex(o: CategoryOption)
    requires o in GoalCategories()
    ensures o == GoalCategories()[CategoryIndex(o.value)]
  {
    var options := GoalCategories();
    var j :| 0 <= j < |options| && options[j] == o;
  }

  function FindCategoryIn(options: seq<CategoryOption>, value: string): (r: Option<CategoryOption>)
    ensures r.Some? ==> r.value in options && CategoryValue(r.value.value) == value
    ensures r.None? ==> forall i :: 0 <= i < |options| ==> CategoryValue(options[i].value) != value
  {
    if options == [] then None
    else if CategoryValue(options[0].value) == value then Some(options[0])
    else FindCategoryIn(options[1..], value)
  }
}
