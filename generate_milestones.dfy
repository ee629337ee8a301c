/**
 * The milestone generation endpoint (`POST /api/ai/generate-milestones`).
 *
 * It checks the request, asks the language model for twelve monthly
 * milestones, cuts the JSON array out of whatever text comes back, keeps at
 * most twelve of its entries and pads the rest, or replaces everything with a
 * synthetic twelve-entry plan when the answer is unusable, and inserts one
 * milestone row per entry. The language model, `JSON.parse`, the signed-in
 * user and the outcome of the insert are inputs.
 */
module GenerateMilestones {
  import opened Wrappers
  import opened Text
  import opened Llm

  /** A parsed JSON value. Numbers are integers here. */
  datatype Json =
    | JNull
    | JBool(b: bool)
    | JNumber(n: int)
    | JString(s: string)
    | JArray(items: seq<Json>)
    | JObject(fields: map<string, Json>)

  /** The plan always has this many entries. */
  const MilestoneCount: nat := 12

  /** `value[key]` on a parsed value; `None` is `undefined` (only objects have own properties). */
  function Prop(value: Json, key: string): (r: Option<Json>)
    ensures r.Some? ==> value.JObject? && key in value.fields && r.value == value.fields[key]
    ensures value.JObject? && key in value.fields ==> r.Some?
  {
    match value
    case JObject(fields) => if key in fields then Some(fields[key]) else None
    case _ => None
  }

  // ---------------------------------------------------------------------------
  // Finding the array in the model's text: `text.match(/\[[\s\S]*\]/)`
  // ---------------------------------------------------------------------------

  /** `s.indexOf(c)`, with `None` for -1. */
  function IndexOf(s: string, c: char): (r: Option<nat>)
    ensures r.None? <==> c !in s
    ensures r.Some? ==> r.value < |s| && s[r.value] == c && c !in s[..r.value]
  {
    if s == [] then None
    else if s[0] == c then Some(0)
    else match IndexOf(s[1..], c)
      case None => None
      case Some(i) =>
        assert s[..i + 1] == [s[0]] + s[1..][..i];
        Some(i + 1)
  }

  /** `s.lastIndexOf(c)`, with `None` for -1. */
  function LastIndexOf(s: string, c: char): (r: Option<nat>)
    ensures r.None? <==> c !in s
    ensures r.Some? ==> r.value < |s| && s[r.value] == c && c !in s[r.value + 1..]
  {
    if s == [] then None
    else if s[|s| - 1] == c then Some(|s| - 1)
    else
      var init := s[..|s| - 1];
      assert s == init + [s[|s| - 1]];
      match LastIndexOf(init, c)
      case None => None
      case Some(j) =>
        assert s[j + 1..] == init[j + 1..] + [s[|s| - 1]];
        Some(j)
  }

  /** Some `[` is followed, somewhere later, by a `]`. */
  predicate HasBracketPair(text: string) {
    exists i, j :: 0 <= i < j < |text| && text[i] == '[' && text[j] == ']'
  }

  /**
   * The greedy match of `/\[[\s\S]*\]/`: from the first `[` to the last `]`,
   * both included; there is a match exactly when some `[` has a `]` after it.
   */
  function ExtractArray(text: string): (r: Option<string>)
    ensures r.Some? <==> HasBracketPair(text)
    ensures r.Some? ==>
              exists i, j :: 0 <= i < j < |text| && text[i] == '[' && text[j] == ']'
                && '[' !in text[..i] && ']' !in text[j + 1..] && r.value == text[i..j + 1]
  {
    match IndexOf(text, '[')
    case None => None
    case Some(i) =>
      match LastIndexOf(text, ']')
      case None => None
      case Some(j) =>
        if i < j then Some(text[i..j + 1])
        else
          assert !HasBracketPair(text) by {
            forall a, b | 0 <= a < b < |text| && text[a] == '[' && text[b] == ']'
              ensures false
            {
            }
          }
          None
  }

  // ---------------------------------------------------------------------------
  // The plan: parsed entries, padding entries, fallback entries
  // ---------------------------------------------------------------------------

  /** The entry pushed at 0-based position `k` to pad a short answer. */
  function PadEntry(k: nat, title: string): (e: Json)
    ensures Prop(e, "month") == Some(JNumber(k + 1))
    ensures Prop(e, "title") == Some(JString("Continue working on " + title))
  {
    JObject(map["month" := JNumber(k + 1), "title" := JString("Continue working on " + title)])
  }

  /** Entry `i` of the synthetic plan used when the answer is unusable. */
  function FallbackEntry(i: nat, title: string): (e: Json)
    ensures Prop(e, "month") == Some(JNumber(i + 1))
    ensures Prop(e, "title") == Some(JString("Month " + NatToString(i + 1) + ": Progress milestone for " + title))
  {
    JObject(map["month" := JNumber(i + 1),
                "title" := JString("Month " + NatToString(i + 1) + ": Progress milestone for " + title)])
  }

  /** `Array.from({ length: 12 }, (_, i) => ...)`. */
  function Fallback(title: string): (r: seq<Json>)
    ensures |r| == MilestoneCount
    ensures forall i :: 0 <= i < |r| ==> r[i] == FallbackEntry(i, title)
  {
    seq(MilestoneCount, i requires 0 <= i => FallbackEntry(i, title))
  }

  /**
   * The entries of the model's answer when it is usable: the trimmed text holds
   * a bracketed candidate, `JSON.parse` accepts it, and the value is a
   * non-empty array. Every other case is a failure that selects the fallback.
   */
  function ParsedItems(responseText: string, parse: string -> Option<Json>): (r: Option<seq<Json>>)
    ensures ExtractArray(Trim(responseText)).None? ==> r.None?
    ensures ExtractArray(Trim(responseText)).Some? ==>
              var parsed := parse(ExtractArray(Trim(responseText)).value);
              (r.Some? <==> parsed.Some? && parsed.value.JArray? && |parsed.value.items| > 0)
              && (r.Some? ==> r.value == parsed.value.items)
  {
    match ExtractArray(Trim(responseText))
    case None => None
    case Some(candidate) =>
      match parse(candidate)
      case Some(JArray(items)) => if |items| > 0 then Some(items) else None
      case _ => None
  }

  /**
   * What the normalised plan must be: exactly twelve entries; a usable answer
   * keeps its first min(n, 12) entries unchanged and in order and is padded
   * with `PadEntry`s; anything else yields the fallback plan.
   */
  ghost predicate Normalised(ms: seq<Json>, responseText: string, title: string, parse: string -> Option<Json>) {
    |ms| == MilestoneCount &&
    match ParsedItems(responseText, parse)
    case None => forall i :: 0 <= i < |ms| ==> ms[i] == FallbackEntry(i, title)
    case Some(items) =>
      (forall i :: 0 <= i < |items| && i < |ms| ==> ms[i] == items[i])
      && (forall k :: |items| <= k < |ms| ==> ms[k] == PadEntry(k, title))
  }

  /** The handler's parse-or-fallback block: slice to twelve, then push padding until twelve. */
  method NormaliseMilestones(responseText: string, title: string, parse: string -> Option<Json>)
    returns (milestones: seq<Json>)
    ensures Normalised(milestones, responseText, title, parse)
  {
    var text := Trim(responseText);
    var jsonMatch := ExtractArray(text);
    if jsonMatch.None? {
      assert ParsedItems(responseText, parse).None?;
      milestones := Fallback(title);
      return;
    }
    var parsed := parse(jsonMatch.value);
    if !(parsed.Some? && parsed.value.JArray? && |parsed.value.items| > 0) {
      assert ParsedItems(responseText, parse).None?;
      milestones := Fallback(title);
      return;
    }
    milestones := SliceAndPad(parsed.value.items, title);
    assert ParsedItems(responseText, parse) == Some(parsed.value.items);
  }

  /**
   * `milestones.slice(0, 12)` followed by the padding loop: the first
   * min(n, 12) entries are kept in order and every later position `k` gets
   * `PadEntry(k, title)`.
   */
  method SliceAndPad(items: seq<Json>, title: string) returns (milestones: seq<Json>)
    ensures |milestones| == MilestoneCount
    ensures forall i :: 0 <= i < |items| && i < |milestones| ==> milestones[i] == items[i]
    ensures forall k :: |items| <= k < |milestones| ==> milestones[k] == PadEntry(k, title)
  {
    milestones := items;
    if |milestones| > MilestoneCount {
      milestones := milestones[..MilestoneCount];
    }
    while |milestones| < MilestoneCount
      invariant |milestones| <= MilestoneCount
      invariant forall i :: 0 <= i < |items| && i < |milestones| ==> milestones[i] == items[i]
      invariant forall k :: |items| <= k < |milestones| ==> milestones[k] == PadEntry(k, title)
      decreases MilestoneCount - |milestones|
    {
      milestones := milestones + [PadEntry(|milestones|, title)];
    }
  }

  /** Only one plan meets the description, so the normalisation is deterministic. */
  lemma NormalisedUnique(a: seq<Json>, b: seq<Json>, responseText: string, title: string, parse: string -> Option<Json>)
    requires Normalised(a, responseText, title, parse)
    requires Normalised(b, responseText, title, parse)
    ensures a == b
  {
    match ParsedItems(responseText, parse)
    case None =>
    case Some(items) =>
      forall i | 0 <= i < |a|
        ensures a[i] == b[i]
      {
        if i < |items| { assert a[i] == items[i] == b[i]; }
      }
  }

  /** With no usable answer every entry `i` has month `i + 1` and the synthetic title. */
  lemma FallbackMonths(ms: seq<Json>, responseText: string, title: string, parse: string -> Option<Json>, i: nat)
    requires Normalised(ms, responseText, title, parse)
    requires ParsedItems(responseText, parse).None?
    requires i < MilestoneCount
    ensures Prop(ms[i], "month") == Some(JNumber(i + 1))
    ensures Prop(ms[i], "title") == Some(JString("Month " + NatToString(i + 1) + ": Progress milestone for " + title))
  {
  }

  // ---------------------------------------------------------------------------
  // Rows, prompt, handler
  // ---------------------------------------------------------------------------

  /** A row of the `milestones` insert; `None` fields are `undefined` properties of the entry. */
  datatype MilestoneRow = MilestoneRow(goalId: string, title: Option<Json>, month: Option<Json>, isCompleted: bool)

  /** The message of the `TypeError` thrown when `m.title` is read off a `null` entry. */
  const NullEntryMessage := "Cannot read properties of null (reading 'title')"

  /**
   * `milestones.map((m) => ({ goal_id, title: m.title, month: m.month, is_completed: false }))`;
   * `None` when the map throws because some entry is `null`.
   */
  function ToRows(goalId: string, ms: seq<Json>): (r: Option<seq<MilestoneRow>>)
    ensures r.None? <==> exists i :: 0 <= i < |ms| && ms[i] == JNull
    ensures r.Some? ==> |r.value| == |ms|
    ensures r.Some? ==> forall i :: 0 <= i < |ms| ==>
              r.value[i].goalId == goalId && !r.value[i].isCompleted
              && r.value[i].title == Prop(ms[i], "title") && r.value[i].month == Prop(ms[i], "month")
  {
    if ms == [] then Some([])
    else if ms[0] == JNull then None
    else
      match ToRows(goalId, ms[1..])
      case None => None
      case Some(rest) => Some([MilestoneRow(goalId, Prop(ms[0], "title"), Prop(ms[0], "month"), false)] + rest)
  }

  /** The fallback plan has no `null` entry, so an unusable answer always reaches the insert. */
  lemma FallbackRows(goalId: string, ms: seq<Json>, responseText: string, title: string,
                       parse: string -> Option<Json>)
    requires Normalised(ms, responseText, title, parse)
    requires ParsedItems(responseText, parse).None?
    ensures ToRows(goalId, ms).Some?
    ensures forall i :: 0 <= i < |ms| ==> ToRows(goalId, ms).value[i].month == Some(JNumber(i + 1))
  {
    forall i | 0 <= i < |ms|
      ensures ms[i] != JNull && Prop(ms[i], "month") == Some(JNumber(i + 1))
    {
      assert ms[i] == FallbackEntry(i, title);
    }
  }

  /** The fields the handler reads from the request body (`undefined` is `None`). */
  datatype GenerateRequest = GenerateRequest(
    goalId: Option<string>,
    title: Option<string>,
    description: Option<string>,
    category: Option<string>)

  /** `await request.json()` either yields the fields or throws. */
  datatype RequestBody = Malformed(message: string) | Parsed(request: GenerateRequest)

  const SystemPrompt := "You are a goal-planning assistant that only responds with valid JSON arrays. Never include any text outside of the JSON array."

  /** Fixed lines of the user prompt. */
  const IntroLine := "Given a user's goal, generate exactly 12 monthly milestones (one for each month of the year) that will help them achieve their goal progressively."
  const FormatLine := "Respond with ONLY a valid JSON array of 12 objects, each with \"month\" (1-12) and \"title\" (a specific, actionable milestone). No other text."
  const ExampleLine := "[{\"month\":1,\"title\":\"Research and create a detailed plan\"},{\"month\":2,\"title\":\"Start with basic steps\"}...]"

  /** A template line that is present only when its value is truthy (and empty otherwise). */
  function OptionalLine(prefix: string, v: Option<string>): (line: string)
    ensures Truthy(v) ==> line == prefix + v.value
    ensures !Truthy(v) ==> line == ""
  {
    if Truthy(v) then prefix + v.value else ""
  }

  /** The user prompt: the goal's title, and its description and category when given. */
  function Prompt(title: string, description: Option<string>, category: Option<string>): (p: string)
    ensures Contains(p, "Goal: " + title)
    ensures Truthy(description) ==> Contains(p, "Description: " + description.value)
    ensures Truthy(category) ==> Contains(p, "Category: " + category.value)
  {
    var lines := [
      IntroLine,
      "",
      "Goal: " + title,
      OptionalLine("Description: ", description),
      OptionalLine("Category: ", category),
      "",
      FormatLine,
      "",
      "Example format:",
      ExampleLine
    ];
    JoinLinesContains(lines, 2);
    JoinLinesContains(lines, 3);
    JoinLinesContains(lines, 4);
    JoinLines(lines)
  }

  datatype Body =
    | Milestones(rows: seq<MilestoneRow>)
    | Failure(error: string, details: Option<string>)

  datatype Response = Response(status: nat, body: Body)

  /**
   * `POST /api/ai/generate-milestones`. Returns the response, the model request
   * if one was made, and the batch handed to the insert if the handler got
   * that far; `insertFails` is the database's answer to that insert.
   */
  method HandleGenerate(body: RequestBody, user: Option<string>, llm: LlmOutcome,
                        parse: string -> Option<Json>, insertFails: bool)
    returns (resp: Response, llmCall: Option<LlmRequest>, inserted: Option<seq<MilestoneRow>>)
    // an unreadable body lands in the outer catch
    ensures body.Malformed? ==>
              resp == Response(500, Failure("Failed to generate milestones", Some(body.message)))
              && llmCall.None? && inserted.None?
    // missing fields: 400, before the user is looked at
    ensures body.Parsed? && !(Truthy(body.request.goalId) && Truthy(body.request.title)) ==>
              resp == Response(400, Failure("Goal ID and title are required", None))
              && llmCall.None? && inserted.None?
    // no user: 401, before the model is called
    ensures body.Parsed? && Truthy(body.request.goalId) && Truthy(body.request.title) && user.None? ==>
              resp == Response(401, Failure("Unauthorized", None)) && llmCall.None? && inserted.None?
    // a signed-in user with a complete request always gets a model call carrying the prompt
    ensures body.Parsed? && Truthy(body.request.goalId) && Truthy(body.request.title) && user.Some? ==>
              llmCall == Some(LlmRequest(Model, SystemPrompt,
                Prompt(body.request.title.value, body.request.description, body.request.category), 1500, 7))
    ensures llmCall.Some? ==> body.Parsed? && body.request.title.Some? && body.request.goalId.Some?
    ensures llmCall.Some? && llm.LlmThrew? ==>
              resp == Response(500, Failure("Failed to generate milestones", Some(llm.message))) && inserted.None?
    // whatever the model said, the batch has twelve rows for this goal, none completed
    ensures inserted.Some? ==>
              llmCall.Some? && llm.LlmAnswered?
              && |inserted.value| == MilestoneCount
              && exists ms :: Normalised(ms, llm.content.GetOr(""), body.request.title.value, parse)
                   && ToRows(body.request.goalId.value, ms) == Some(inserted.value)
    // an answer reaches the insert exactly when its normalised plan has no null entry
    ensures llmCall.Some? && llm.LlmAnswered? ==>
              forall ms :: Normalised(ms, llm.content.GetOr(""), body.request.title.value, parse) ==>
                (inserted.Some? <==> ToRows(body.request.goalId.value, ms).Some?)
    ensures llmCall.Some? && llm.LlmAnswered? && inserted.None? ==>
              resp == Response(500, Failure("Failed to generate milestones", Some(NullEntryMessage)))
    ensures inserted.Some? && insertFails ==> resp == Response(500, Failure("Failed to save milestones", None))
    ensures inserted.Some? && !insertFails ==> resp == Response(200, Milestones(inserted.value))
    ensures resp.body.Milestones? ==> inserted.Some? && !insertFails
  {
    llmCall, inserted := None, None;
    if body.Malformed? {
      resp := Response(500, Failure("Failed to generate milestones", Some(body.message)));
      return;
    }
    var req := body.request;
    if !Truthy(req.goalId) || !Truthy(req.title) {
      resp := Response(400, Failure("Goal ID and title are required", None));
      return;
    }
    if user.None? {
      resp := Response(401, Failure("Unauthorized", None));
      return;
    }
    var title := req.title.value;
    llmCall := Some(LlmRequest(Model, SystemPrompt, Prompt(title, req.description, req.category), 1500, 7));
    if llm.LlmThrew? {
      resp := Response(500, Failure("Failed to generate milestones", Some(llm.message)));
      return;
    }
    var responseText := llm.content.GetOr("");  // a missing content reads as the empty string
    var milestones := NormaliseMilestones(responseText, title, parse);
    forall ms | Normalised(ms, responseText, title, parse)
      ensures ms == milestones
    {
      NormalisedUnique(ms, milestones, responseText, title, parse);
    }
    var rows := ToRows(req.goalId.value, milestones);
    if rows.None? {
      resp := Response(500, Failure("Failed to generate milestones", Some(NullEntryMessage)));
      return;
    }
    inserted := rows;
    if insertFails {
      resp := Response(500, Failure("Failed to save milestones", None));
      return;
    }
    resp := Response(200, Milestones(rows.value));
  }
}
