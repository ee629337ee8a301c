/**
 * The coaching-feedback endpoint (`POST /api/ai/checkin-feedback`).
 *
 * It checks the request, builds a prompt from the check-in (goal, week, mood
 * and its supporting phrase, progress note), asks the language model for two
 * or three sentences, and writes the trimmed answer, or a fixed encouragement
 * when the answer is empty, into the check-in's `ai_feedback` column, but only
 * on the row whose id and owner both match.
 */
module CheckinFeedback {
  import opened Wrappers
  import opened Text
  import opened Types
  import opened Llm

  /** The fields the handler reads from the request body (`undefined` is `None`). */
  datatype FeedbackRequest = FeedbackRequest(
    checkinId: Option<string>,
    goalTitle: Option<string>,
    progressNote: Option<string>,
    mood: Option<string>,
    weekNumber: Option<int>)

  /** `await request.json()` either yields the fields or throws. */
  datatype RequestBody = Malformed(message: string) | Parsed(request: FeedbackRequest)

  /** `moodContext`: the supporting phrase of each mood. */
  const GreatPhrase := "The user is feeling great and motivated."
  const GoodPhrase := "The user is feeling good about their progress."
  const OkayPhrase := "The user is feeling okay, might need some encouragement."
  const StrugglingPhrase := "The user is struggling and needs support and motivation."

  /** `moodContext[mood] || ''`: a supporting phrase for each of the four moods, nothing otherwise. */
  function MoodContext(mood: Option<string>): (phrase: string)
    ensures (mood.Some? && ParseMood(mood.value).Some?) <==> phrase != ""
    ensures mood.Some? && ParseMood(mood.value) == Some(Great) ==> phrase == GreatPhrase
    ensures mood.Some? && ParseMood(mood.value) == Some(Good) ==> phrase == GoodPhrase
    ensures mood.Some? && ParseMood(mood.value) == Some(Okay) ==> phrase == OkayPhrase
    ensures mood.Some? && ParseMood(mood.value) == Some(Struggling) ==> phrase == StrugglingPhrase
  {
    if mood.None? then ""
    else match ParseMood(mood.value)
      case Some(Great) => GreatPhrase
      case Some(Good) => GoodPhrase
      case Some(Okay) => OkayPhrase
      case Some(Struggling) => StrugglingPhrase
      case None => ""
  }

  /** Different moods get different phrases, so the prompt tells the moods apart. */
  lemma MoodPhrasesDistinct(a: Mood, b: Mood)
    requires a != b
    ensures MoodContext(Some(MoodValue(a))) != MoodContext(Some(MoodValue(b)))
  {
    MoodRoundTrip(a);
    MoodRoundTrip(b);
    var pa, pb := MoodContext(Some(MoodValue(a))), MoodContext(Some(MoodValue(b)));
    // the phrases differ in their length or in their thirteenth character
    assert |pa| != |pb| || pa[12] != pb[12];
  }

  /** `${v}` for an optional string: a missing value renders as `undefined`. */
  function Show(v: Option<string>): (text: string)
    ensures v.Some? ==> text == v.value
    ensures v.None? ==> text == "undefined"
  {
    v.GetOr("undefined")
  }

  /** `${n}` for an optional integer. */
  function ShowInt(v: Option<int>): (text: string)
    ensures v.Some? ==> text == IntToString(v.value)
    ensures v.None? ==> text == "undefined"
  {
    match v
    case Some(n) => IntToString(n)
    case None => "undefined"
  }

  /** `progressNote || 'No notes provided'`. */
  function NoteText(note: Option<string>): (text: string)
    ensures text != ""
    ensures Truthy(note) ==> text == note.value
    ensures !Truthy(note) ==> text == "No notes provided"
  {
    if Truthy(note) then note.value else "No notes provided"
  }

  const SystemPrompt := "You are an encouraging and supportive goal coach. Keep responses brief (2-3 sentences) and supportive. Be warm and motivational."

  /** Fixed lines of the user prompt. */
  const IntroLine := "Provide brief, personalized feedback (2-3 sentences) based on this weekly check-in."
  const ClosingLine := "Give motivational, actionable feedback. Be warm but concise. Focus on celebrating progress or offering support based on their mood."

  /** The user prompt: goal, week out of 52, mood with its phrase, and the note. */
  function Prompt(goalTitle: string, weekNumber: Option<int>, mood: Option<string>, progressNote: Option<string>): (p: string)
    ensures Contains(p, "Goal: " + goalTitle)
    ensures Contains(p, "Week: " + ShowInt(weekNumber) + " of 52")
    ensures Contains(p, "Mood: " + Show(mood) + " - " + MoodContext(mood))
    ensures Contains(p, "Progress Note: " + NoteText(progressNote))
  {
    var lines := [
      IntroLine,
      "",
      "Goal: " + goalTitle,
      "Week: " + ShowInt(weekNumber) + " of 52",
      "Mood: " + Show(mood) + " - " + MoodContext(mood),
      "Progress Note: " + NoteText(progressNote),
      "",
      ClosingLine
    ];
    JoinLinesContains(lines, 2);
    JoinLinesContains(lines, 3);
    JoinLinesContains(lines, 4);
    JoinLinesContains(lines, 5);
    JoinLines(lines)
  }

  /** The text used when the model's answer is missing or blank. */
  const DefaultFeedback := "Keep up the great work on your goals!"

  /** `content?.trim() || 'Keep up the great work on your goals!'`: never empty, never padded. */
  function Feedback(content: Option<string>): (fb: string)
    ensures fb != ""
    ensures content.Some? && Trim(content.value) != "" ==> fb == Trim(content.value)
    ensures content.None? || Trim(content.value) == "" ==> fb == DefaultFeedback
    ensures Trim(fb) == fb
  {
    if content.Some? && Trim(content.value) != "" then
      TrimIdempotent(content.value);
      Trim(content.value)
    else
      TrimmedFixed(DefaultFeedback);
      DefaultFeedback
  }

  /**
   * The `checkins` table after `update({ ai_feedback }).eq('id', id).eq('user_id', owner)`:
   * only the row with that id, and only if `owner` owns it, changes, and only in `aiFeedback`.
   */
  function FeedbackWritten(rows: map<Id, Checkin>, id: Id, owner: Id, feedback: string): (r: map<Id, Checkin>)
    ensures r.Keys == rows.Keys
    ensures forall k :: k in rows && (k != id || rows[k].userId != owner) ==> r[k] == rows[k]
    ensures id in rows && rows[id].userId == owner ==>
              r[id].aiFeedback == Some(feedback) && r[id] == rows[id].(aiFeedback := Some(feedback))
  {
    if id in rows && rows[id].userId == owner then rows[id := rows[id].(aiFeedback := Some(feedback))]
    else rows
  }

  /** A check-in that belongs to someone else is never touched, whatever the id. */
  lemma ForeignRowsUntouched(rows: map<Id, Checkin>, id: Id, owner: Id, feedback: string)
    requires id !in rows || rows[id].userId != owner
    ensures FeedbackWritten(rows, id, owner, feedback) == rows
  {
  }

  /** Writing the same feedback twice is writing it once. */
  lemma FeedbackWrittenIdempotent(rows: map<Id, Checkin>, id: Id, owner: Id, feedback: string)
    ensures var once := FeedbackWritten(rows, id, owner, feedback);
      FeedbackWritten(once, id, owner, feedback) == once
  {
  }

  /** The `checkins` table, keyed by row id. */
  class CheckinsTable {
    var rows: map<Id, Checkin>

    constructor(rows: map<Id, Checkin>)
      ensures this.rows == rows
    {
      this.rows := rows;
    }

    /**
     * The filtered update. `fails` is the database's answer; a failed update
     * changes nothing. Zero matching rows is not an error.
     */
    method UpdateFeedback(id: Id, owner: Id, feedback: string, fails: bool) returns (error: bool)
      modifies this
      ensures error == fails
      ensures fails ==> rows == old(rows)
      ensures !fails ==> rows == FeedbackWritten(old(rows), id, owner, feedback)
    {
      error := fails;
      if !fails {
        rows := FeedbackWritten(rows, id, owner, feedback);
      }
    }
  }

  datatype Body =
    | Success(feedback: string)
    | Failure(error: string, details: Option<string>)

  datatype Response = Response(status: nat, body: Body)

  /**
   * `POST /api/ai/checkin-feedback`. Returns the response and the model request
   * if one was made; `updateFails` is the database's answer to the update.
   */
  method HandleFeedback(body: RequestBody, user: Option<Id>, llm: LlmOutcome, updateFails: bool, table: CheckinsTable)
    returns (resp: Response, llmCall: Option<LlmRequest>)
    modifies table
    ensures body.Malformed? ==>
              resp == Response(500, Failure("Failed to generate feedback", Some(body.message)))
              && llmCall.None? && table.rows == old(table.rows)
    ensures body.Parsed? && !(Truthy(body.request.checkinId) && Truthy(body.request.goalTitle)) ==>
              resp == Response(400, Failure("Check-in ID and goal title are required", None))
              && llmCall.None? && table.rows == old(table.rows)
    ensures body.Parsed? && Truthy(body.request.checkinId) && Truthy(body.request.goalTitle) && user.None? ==>
              resp == Response(401, Failure("Unauthorized", None)) && llmCall.None? && table.rows == old(table.rows)
    ensures body.Parsed? && Truthy(body.request.checkinId) && Truthy(body.request.goalTitle) && user.Some? ==>
              var req := body.request;
              llmCall == Some(LlmRequest(Model, SystemPrompt,
                Prompt(req.goalTitle.value, req.weekNumber, req.mood, req.progressNote), 200, 8))
    ensures llmCall.Some? && llm.LlmThrew? ==>
              resp == Response(500, Failure("Failed to generate feedback", Some(llm.message)))
              && table.rows == old(table.rows)
    ensures llmCall.Some? && llm.LlmAnswered? && updateFails ==>
              resp == Response(500, Failure("Failed to save feedback", None)) && table.rows == old(table.rows)
    // success: the feedback returned is the feedback written, on the caller's own row only
    ensures llmCall.Some? && llm.LlmAnswered? && !updateFails ==>
              resp == Response(200, Success(Feedback(llm.content)))
              && table.rows == FeedbackWritten(old(table.rows), body.request.checkinId.value, user.value, Feedback(llm.content))
    ensures resp.body.Success? ==> llmCall.Some? && llm.LlmAnswered? && !updateFails
  {
    llmCall := None;
    if body.Malformed? {
      resp := Response(500, Failure("Failed to generate feedback", Some(body.message)));
      return;
    }
    var req := body.request;
    if !Truthy(req.checkinId) || !Truthy(req.goalTitle) {
      resp := Response(400, Failure("Check-in ID and goal title are required", None));
      return;
    }
    if user.None? {
      resp := Response(401, Failure("Unauthorized", None));
      return;
    }
    llmCall := Some(LlmRequest(Model, SystemPrompt, Prompt(req.goalTitle.value, req.weekNumber, req.mood, req.progressNote), 200, 8));
    if llm.LlmThrew? {
      resp := Response(500, Failure("Failed to generate feedback", Some(llm.message)));
      return;
    }
    var feedback := Feedback(llm.content);
    var updateError := table.UpdateFeedback(req.checkinId.value, user.value, feedback, updateFails);
    if updateError {
      resp := Response(500, Failure("Failed to save feedback", None));
      return;
    }
    resp := Response(200, Success(feedback));
  }
}
