# GoalsTracker core, modelled in Dafny

GoalsTracker is a Next.js application for yearly goals. A user creates a goal. A language model breaks the goal into twelve monthly milestones. The user ticks milestones off, files weekly check-ins with a mood and a note, and gets a short coaching reply from the model. A dashboard sums up progress. Data lives in three hosted tables: `goals`, `milestones` and `checkins`.

This project models the deterministic logic of that application and proves what it promises:

- **Milestone generation endpoint** (`generate_milestones.dfy`).
  - Checks the request and builds the prompt.
  - Cuts the first-`[`-to-last-`]` slice out of the model's trimmed answer.
  - Keeps at most twelve parsed entries, pads the rest, or falls back to a synthetic twelve-month plan.
  - Maps the plan to insert rows and orders the 400/401/500/200 responses.
- **Coaching-feedback endpoint** (`checkin_feedback.dfy`).
  - Checks the request, in the same order.
  - Uses the mood phrase table and the note placeholder.
  - Applies the trim-or-default rule to the reply.
  - Updates the `checkins` table, a class over a `map`, only on the row whose id and owner both match.
- **Progress figures**. These cover the goal card's count, percentage and category fall-backs (`goal_card.dfy`) and the shared filters (`progress.dfy`). They are used by:
  - the dashboard loader (`dashboard_content.dfy`);
  - the dashboard page (`dashboard_page.dfy`);
  - the goals page (`goals_page.dfy`).
- **Milestone list** (`milestone_list.dfy`).
  - A stable insertion sort by month, with the month labels.
  - The completion toggle as a class whose method updates both the `milestones` table and the component's own list.
- **Forms as classes whose methods update their fields**:
  - the check-in form with its week number (`checkin_form.dfy`);
  - the new-goal form (`new_goal.dfy`);
  - the status selector (`status_selector.dfy`);
  - sign-up (`signup.dfy`);
  - login with the resend flow (`login.dfy`).
- **Records and enumerations** (`types.dfy`), with the category and mood picker tables.

Shared modules hold the JavaScript operations the code relies on:

- `Seqs`: `filter` (order and multiplicity kept), `slice`, and `|| []`.
- `Text`: `trim` with the language's white-space set, `includes`, ASCII `toLowerCase`, UTF-16 `length`, and the decimal rendering of an integer.
- `Outcomes`: caught errors and insert results.
- `Llm`: the model request and its outcome.
- `Wrappers`: `Option`.

Everything outside the program is a parameter of the member that uses it. That covers:

- the language model's answer (or the error it throws);
- `JSON.parse` (a function `string -> Option<Json>`);
- the signed-in user;
- every database answer (rows returned, or whether a write failed);
- the clock (milliseconds since January 1st, or a timestamp string);
- the page origin.

## Model

| member | source | states |
|---|---|---|
| Seqs.Filter | src/app/dashboard/page.tsx:41 | a filter is no longer than its input and holds only elements that pass |
| Seqs.FilterSelects | src/app/dashboard/page.tsx:41-48 | `filter` keeps exactly the passing elements: a subsequence (original order), nothing failing, each passing element as often as in the input |
| Seqs.FilterConcat | src/app/goals/page.tsx:31 | filtering a concatenation is concatenating the filters |
| Seqs.FilterIdempotent | src/app/dashboard/page.tsx:48 | filtering twice with the same test is filtering once |
| Seqs.Take | src/app/dashboard/page.tsx:57 | `slice(0, n)` has min(n, length) elements, the first ones of the input |
| Seqs.OrEmpty | src/app/goals/page.tsx:29 | a null query result reads as no rows, otherwise as the rows themselves |
| Text.Trim | src/app/api/ai/checkin-feedback/route.ts:75 | `trim` returns the slice left after the leading white space, followed only by white space, with no white space at either end |
| Text.TrimmedFixed | src/app/api/ai/checkin-feedback/route.ts:75 | a string with no white space at either end is its own trim |
| Text.TrimEmpty | src/app/api/ai/checkin-feedback/route.ts:75 | a string trims to nothing exactly when all its characters are white space |
| Text.TrimIdempotent | src/app/api/ai/generate-milestones/route.ts:80 | trimming a trimmed string changes nothing |
| Text.NullIfEmpty | src/components/CheckinForm.tsx:50 | `s \|\| null` is null exactly for the empty string and otherwise the string itself |
| Text.JoinLinesContains | src/app/api/ai/checkin-feedback/route.ts:56-63 | every line of a multi-line template occurs in the resulting text |
| Text.JoinLines | src/app/api/ai/checkin-feedback/route.ts:56-63 | a multi-line template literal is its lines joined by line feeds: nothing for no lines, and the text starts with the first line and ends with the last |
| Text.Lower | src/app/auth/login/page.tsx:43 | `toLowerCase` keeps the length, maps each character, and leaves no upper-case ASCII letter |
| Text.LowerIdempotent | src/app/auth/login/page.tsx:43-44 | lower-casing twice is lower-casing once |
| Text.Utf16Length | src/app/auth/signup/page.tsx:25 | `length` counts UTF-16 code units: between the number of characters and twice that |
| Text.Utf16LengthBmp | src/app/auth/signup/page.tsx:25 | without astral characters `length` is the number of characters |
| Text.NatToString | src/app/api/ai/checkin-feedback/route.ts:59 | `${n}` for a non-negative integer is a non-empty string of decimal digits without a leading zero |
| Text.IntToString | src/app/api/ai/checkin-feedback/route.ts:59 | `${n}` for a negative integer is a minus sign followed by the digits of its magnitude |
| Text.NatToStringRoundTrip | src/app/api/ai/checkin-feedback/route.ts:59 | reading the rendered digits back gives the number |
| Types.ParseCategory | src/types/index.ts:6 | a category column holds exactly one of five values, each naming its category |
| Types.ParseMood | src/types/index.ts:29 | a mood holds exactly one of four values, each naming its mood |
| Types.CategoryRoundTrip | src/types/index.ts:6 | every category's stored value reads back as that category |
| Types.MoodRoundTrip | src/types/index.ts:29 | every mood's stored value reads back as that mood |
| Types.GoalCategories | src/types/index.ts:42-48 | the category picker has five entries, lists every category, and lists none twice |
| Types.MoodOptions | src/types/index.ts:50-55 | the mood picker has four entries, lists every mood, and lists none twice |
| Types.FindCategoryOption | src/components/GoalCard.tsx:29 | the picker entry for a value is found exactly when the value is a category, and it is that category's own entry in `GOAL_CATEGORIES` |
| Types.FindCategoryIn | src/components/GoalCard.tsx:29 | `find` returns an entry with the value, or nothing when no entry has it |
| GoalCard.Percent | src/components/GoalCard.tsx:32 | 0 with no milestones, else the half-up rounding of 100·completed/total (stated as the two-sided bound of the nearest integer) |
| GoalCard.PercentBounds | src/components/GoalCard.tsx:32 | the percentage lies in 0..100; none done gives 0 and all done gives 100 |
| GoalCard.ThreeOfFour | src/components/GoalCard.tsx:32 | three of four milestones done shows 75 |
| GoalCard.PercentMonotonic | src/components/GoalCard.tsx:32 | more milestones done never shows a lower percentage |
| GoalCard.CompletedCount | src/components/GoalCard.tsx:30 | the completed count is the number of milestones marked done, never more than the total |
| GoalCard.CompletedCountExtremes | src/components/GoalCard.tsx:30-31 | none done counts 0 and all done counts the total |
| GoalCard.CategoryIcon | src/components/GoalCard.tsx:34 | a known category gets its own icon from the `categoryIcons` table; an unknown category gets the User icon |
| GoalCard.KnownIcon | src/components/GoalCard.tsx:7-13 | the `categoryIcons` table: one icon per category (a table, no contract of its own; see KnownIconsDistinct) |
| GoalCard.KnownIconsDistinct | src/components/GoalCard.tsx:7-13 | different categories have different icons |
| GoalCard.CategoryAccent | src/components/GoalCard.tsx:35 | a known category gets its own colours, an unknown one the personal colours |
| GoalCard.Card | src/components/GoalCard.tsx:28-35 | the card's total is the number of milestones given (none when absent); completed is the number marked done; pct is the rounded percentage of completed over total, 0 with no milestones, never above 100; the progress section shows iff total > 0; the category label is that category's picker label; the icon and colours are the category's |
| GenerateMilestones.Prop | src/app/api/ai/generate-milestones/route.ts:114-115 | reading `m.title` or `m.month` gives the object's own field, and `undefined` for anything else |
| GenerateMilestones.IndexOf | src/app/api/ai/generate-milestones/route.ts:82 | the first position of a character, or nothing exactly when it does not occur |
| GenerateMilestones.LastIndexOf | src/app/api/ai/generate-milestones/route.ts:82 | the last position of a character, or nothing exactly when it does not occur |
| GenerateMilestones.ExtractArray | src/app/api/ai/generate-milestones/route.ts:82-85 | the regular expression matches exactly when some `[` has a `]` after it, and the match runs from the first `[` to the last `]` inclusive |
| GenerateMilestones.PadEntry | src/app/api/ai/generate-milestones/route.ts:95-100 | the padding entry at 0-based position k has month k+1 and title "Continue working on <title>" |
| GenerateMilestones.FallbackEntry | src/app/api/ai/generate-milestones/route.ts:105-108 | fallback entry i has month i+1 and title "Month i+1: Progress milestone for <title>" |
| GenerateMilestones.Fallback | src/app/api/ai/generate-milestones/route.ts:105-108 | the fallback plan has twelve entries, entry i being the fallback entry i |
| GenerateMilestones.ParsedItems | src/app/api/ai/generate-milestones/route.ts:80-91 | the answer is usable exactly when the trimmed text has a bracketed match, `JSON.parse` accepts it, and it is a non-empty array; the entries are then that array's |
| GenerateMilestones.NormaliseMilestones | src/app/api/ai/generate-milestones/route.ts:78-109 | whatever the model said, the plan has exactly twelve entries: a usable answer's first min(n, 12) entries unchanged and in order, then padding; otherwise the fallback plan |
| GenerateMilestones.SliceAndPad | src/app/api/ai/generate-milestones/route.ts:94-100 | slicing to twelve and pushing padding until twelve yields twelve entries, keeps the first min(n, 12) entries, and pads position k with month k+1 |
| GenerateMilestones.NormalisedUnique | src/app/api/ai/generate-milestones/route.ts:78-109 | the description of the normalised plan admits a single plan, so normalisation is deterministic |
| GenerateMilestones.FallbackMonths | src/app/api/ai/generate-milestones/route.ts:101-108 | on any failure, entry i of the plan has month i+1 and the synthetic title |
| GenerateMilestones.FallbackRows | src/app/api/ai/generate-milestones/route.ts:101-117 | the fallback plan has no null entry, so it always maps to twelve insert rows with months 1..12 |
| GenerateMilestones.ToRows | src/app/api/ai/generate-milestones/route.ts:112-117 | rows correspond 1:1 and in order to the plan, each for this goal, not completed, with the entry's title and month; the map throws exactly when some entry is null |
| GenerateMilestones.OptionalLine | src/app/api/ai/generate-milestones/route.ts:57-58 | the description and category lines appear with their value when it is truthy and are empty otherwise |
| GenerateMilestones.Prompt | src/app/api/ai/generate-milestones/route.ts:54-63 | the prompt contains the goal line, and the description and category lines when those are given |
| GenerateMilestones.HandleGenerate | src/app/api/ai/generate-milestones/route.ts:16-141 | an unreadable body gives 500; missing goalId/title gives 400 before the user is looked at; no user gives 401 before any model call; otherwise the model is asked with the prompt, 1500 tokens and temperature 0.7; a model error gives 500 with its message; an answer reaches the insert exactly when its normalised plan has no null entry, and the batch inserted then has twelve rows from that plan; a null entry gives 500 with the TypeError message; an insert error gives 500 "Failed to save milestones" and the success body comes only from a successful insert |
| CheckinFeedback.MoodContext | src/app/api/ai/checkin-feedback/route.ts:49-54 | each of the four moods gets its own fixed phrase, and any other value or none gets the empty string |
| CheckinFeedback.MoodPhrasesDistinct | src/app/api/ai/checkin-feedback/route.ts:49-54 | different moods get different phrases |
| CheckinFeedback.Show | src/app/api/ai/checkin-feedback/route.ts:60 | an absent mood renders as `undefined` in the prompt |
| CheckinFeedback.ShowInt | src/app/api/ai/checkin-feedback/route.ts:59 | the week renders as its decimal digits, or `undefined` when absent |
| CheckinFeedback.NoteText | src/app/api/ai/checkin-feedback/route.ts:61 | the note line is the note itself, or "No notes provided" when the note is empty or absent; never empty |
| CheckinFeedback.Prompt | src/app/api/ai/checkin-feedback/route.ts:56-63 | the prompt contains the goal line, the "Week: n of 52" line, the mood line with its phrase and the note line |
| CheckinFeedback.Feedback | src/app/api/ai/checkin-feedback/route.ts:75 | the feedback is the trimmed reply, or "Keep up the great work on your goals!" when the reply is absent or blank; it is never empty and never padded |
| CheckinFeedback.FeedbackWritten | src/app/api/ai/checkin-feedback/route.ts:78-82 | the update changes only `ai_feedback`, and only on the row with that id owned by the caller; every other row and the key set are untouched |
| CheckinFeedback.ForeignRowsUntouched | src/app/api/ai/checkin-feedback/route.ts:81-82 | an id that is missing or owned by someone else leaves the table as it was |
| CheckinFeedback.FeedbackWrittenIdempotent | src/app/api/ai/checkin-feedback/route.ts:78-82 | writing the same feedback twice is writing it once |
| CheckinFeedback.CheckinsTable.UpdateFeedback | src/app/api/ai/checkin-feedback/route.ts:78-82 | a failed update changes nothing; otherwise the table becomes the filtered write; matching zero rows is no error |
| CheckinFeedback.HandleFeedback | src/app/api/ai/checkin-feedback/route.ts:11-102 | an unreadable body gives 500; missing checkinId/goalTitle gives 400, then no user gives 401, both with no model call and no write; the model is asked with 200 tokens and temperature 0.8; a model error gives 500; an update error gives 500 "Failed to save feedback"; otherwise 200 with exactly the feedback written to the caller's own row |
| MilestoneList.MonthName | src/components/MilestoneList.tsx:85 | month m in 1..12 is labelled with entry m-1 of `MONTH_NAMES` (1 is January, 12 December), and other months get no label |
| MilestoneList.MonthNamesDistinct | src/components/MilestoneList.tsx:14-17 | different months get different labels |
| MilestoneList.InsertByMonth | src/components/MilestoneList.tsx:24 | inserting adds exactly the new element: one more element, the same multiset plus it |
| MilestoneList.InsertSorted | src/components/MilestoneList.tsx:24 | inserting into a month-sorted list keeps it sorted |
| MilestoneList.SortByMonth | src/components/MilestoneList.tsx:24 | the sorted list is a permutation of the milestones in non-decreasing month order |
| MilestoneList.InsertKeepsMonthOrder | src/components/MilestoneList.tsx:24 | inserting an element appends it after the milestones of its own month and leaves other months' order alone |
| MilestoneList.SortByMonthStable | src/components/MilestoneList.tsx:24 | the sort is stable: the milestones of every month keep their original relative order |
| MilestoneList.WithCompletion | src/components/MilestoneList.tsx:43 | the toggled copy has the new completion, a timestamp exactly when completed, and the same id, goal, title, month and creation time |
| MilestoneList.SetCompletion | src/components/MilestoneList.tsx:40-46 | only milestones with the toggled id change, and they get the new completion |
| MilestoneList.SetCompletionConsistent | src/components/MilestoneList.tsx:40-46 | a toggle keeps `completed_at` set exactly when `is_completed` holds, for every milestone |
| MilestoneList.ToggleTwiceRestores | src/components/MilestoneList.tsx:29-45 | two toggles restore the completion and the presence of the timestamp, and leave every other milestone alone |
| MilestoneList.CompletionWritten | src/components/MilestoneList.tsx:31-37 | the database update changes only the row with that id, only in completion and timestamp |
| MilestoneList.MilestonesTable.UpdateCompletion | src/components/MilestoneList.tsx:31-37 | the write may only be issued while the list component marks that id as updating; a failed update changes nothing; otherwise the table becomes the completion write |
| MilestoneList.MilestoneListView.Shown | src/components/MilestoneList.tsx:24 | what is rendered is a month-sorted permutation of the state, computed without changing it |
| MilestoneList.MilestoneListView.constructor | src/components/MilestoneList.tsx:20-21 | the list starts as the milestones passed in, with no write in flight |
| MilestoneList.MilestoneListView.Disabled | src/components/MilestoneList.tsx:66 | no button is disabled while no write is in flight |
| MilestoneList.MilestoneListView.OneDisabled | src/components/MilestoneList.tsx:66 | at most one milestone is disabled at a time, the one whose id is `updating` |
| MilestoneList.MilestoneListView.HandleToggle | src/components/MilestoneList.tsx:26-50 | the write is issued while `updating` holds the target's id (the precondition of the table write), and `updating` is cleared afterwards, so no button stays disabled; a failed write leaves the list and the table unchanged; a successful one writes the negated completion to the table and to the local list; consistency of every milestone is preserved |
| Progress.ActiveGoals | src/app/dashboard/DashboardContent.tsx:32 | exactly the active goals, in their original order |
| Progress.FinishedGoals | src/app/dashboard/page.tsx:42 | exactly the completed goals, in their original order |
| Progress.GoalMilestones | src/app/dashboard/DashboardContent.tsx:33 | exactly the milestones whose goal is one of the user's goals, in order; none when there are no goals |
| Progress.CompletedMilestones | src/app/dashboard/DashboardContent.tsx:34 | exactly the completed ones among them, in order, counted by the goal card's count |
| Progress.OverallProgress | src/app/dashboard/DashboardContent.tsx:35-37 | 0 with no milestones, otherwise the rounded percentage of completed ones; never above 100, and 100 when all are done |
| Progress.MilestonesOf | src/app/dashboard/page.tsx:59 | exactly the milestones of one goal, in their original order |
| Progress.FirstRow | src/app/dashboard/DashboardContent.tsx:30 | the latest check-in is the first row returned, or none when no rows came back |
| DashboardContent.Load | src/app/dashboard/DashboardContent.tsx:5-39 | no user redirects to the login page; the milestones come from the goal-scoped query, and there are none when the user has no goals; active goals, goal milestones and completed milestones are the exact order-keeping selections; progress is the rounded percentage of completed goal milestones over all goal milestones, 0 without any, and lies in 0..100 |
| DashboardPage.StatsFor | src/app/dashboard/page.tsx:37-55 | the tiles count only milestones of the user's own goals, whatever the unscoped query returned; completed ≤ total; progress is the rounded percentage of completed over total goal milestones, 0 without any, and lies in 0..100; the streak is 1 iff a latest check-in exists, else 0 |
| DashboardPage.Cards | src/app/dashboard/page.tsx:57-60 | at most three cards, for the first three active goals in order, each with exactly that goal's milestones |
| DashboardPage.CardViews | src/app/dashboard/page.tsx:150 | each card is the goal card of its own goal and milestones: its total is their number, its completed count the number done, its percentage the rounded ratio of the two |
| DashboardPage.Load | src/app/dashboard/page.tsx:12-60 | no user redirects to the login page; the view holds the stats, the cards and their views; the empty state shows iff there are no cards; the feedback panel shows iff the latest check-in has non-empty feedback |
| GoalsPage.GroupByGoal | src/app/goals/page.tsx:29-32 | one entry per goal, in order, each with exactly that goal's milestones in their original order |
| GoalsPage.MilestoneGrouped | src/app/goals/page.tsx:31 | a milestone appears under its own goal and under no goal with another id |
| GoalsPage.Load | src/app/goals/page.tsx:10-53 | no user redirects to the login page; null data reads as no rows; the empty state shows iff there are no goals |
| Outcomes.Message | src/components/CheckinForm.tsx:82 | an `Error` shows its message, anything else the fixed fall-back text |
| CheckinForm.WeekNumber | src/components/CheckinForm.tsx:26-32 | the week is the ceiling of elapsed/604800000: 0 only at the start of the year, week n covers (n-1)·week < elapsed ≤ n·week, and it is at most 53 within any year |
| CheckinForm.DefaultSelectedGoal | src/components/CheckinForm.tsx:17 | the first goal's id is selected, or the empty id when there are no goals |
| CheckinForm.FindGoal | src/components/CheckinForm.tsx:59 | `find` gives the first goal with that id, or nothing exactly when no goal has it |
| CheckinForm.TitleOf | src/components/CheckinForm.tsx:59 | the goal title sent is the first matching goal's, and absent exactly when no goal matches |
| CheckinForm.AsHandlerRequest | src/components/CheckinForm.tsx:65-71 | the feedback endpoint reads the body as the check-in id, title, note, mood value and week the form sent |
| CheckinForm.EmptyNoteEverywhere | src/components/CheckinForm.tsx:50 | an empty note is stored as null and becomes "No notes provided" in the prompt |
| CheckinForm.FormMoodHasPhrase | src/components/CheckinForm.tsx:69 | any mood the form can send gets its phrase in the prompt |
| CheckinForm.CheckinFormState.constructor | src/components/CheckinForm.tsx:17-22 | the form opens on the first goal, an empty note and mood "good", not loading, with no feedback and no error |
| CheckinForm.CheckinFormState.HandleSubmit | src/components/CheckinForm.tsx:34-86 | the inserted row carries the week number, the note or null, and the mood; an insert error sends no request and sets the error; the same week number goes into the request; a rejected or unreadable response sets the error; a non-ok response sets no error and no feedback; an ok one sets the feedback; the note is cleared after a successful insert and response; loading is off on every path |
| NewGoal.GoalRow | src/app/goals/new/page.tsx:39-48 | the new goal is active and belongs to the current user; an empty description or target date is stored as null |
| NewGoal.NewGoalForm.constructor | src/app/goals/new/page.tsx:16-21 | the form opens empty with the personal category, not loading, with no error |
| NewGoal.NewGoalForm.HandleSubmit | src/app/goals/new/page.tsx:25-76 | no user navigates to login with nothing inserted; an insert error sends no request, sets the error and resets loading; the request carries only id, title, description and category; a rejected request sets the error; any response, ok or not, navigates to the new goal |
| StatusSelector.StatusLabel | src/components/GoalStatusSelector.tsx:10-14 | every status has its non-empty label: Active, Done or Dropped |
| StatusSelector.MenuEntries | src/components/GoalStatusSelector.tsx:51 | the menu offers exactly the three statuses, each once |
| StatusSelector.OneHighlighted | src/components/GoalStatusSelector.tsx:57 | exactly one menu entry is highlighted, the current status |
| StatusSelector.StatusWritten | src/components/GoalStatusSelector.tsx:28 | the update writes only the status, only on the row with that id, and leaves `updated_at` alone |
| StatusSelector.GoalsTable.UpdateStatus | src/components/GoalStatusSelector.tsx:28 | the update may only be issued by the goal's selector with its menu closed; a failed update changes nothing; otherwise the table becomes the status write |
| StatusSelector.Selector.constructor | src/components/GoalStatusSelector.tsx:22 | the menu starts closed |
| StatusSelector.Selector.Label | src/components/GoalStatusSelector.tsx:32-43 | the pill's label is non-empty and names the current status and no other |
| StatusSelector.Selector.Toggle | src/components/GoalStatusSelector.tsx:37 | clicking the pill negates `open` |
| StatusSelector.Selector.Dismiss | src/components/GoalStatusSelector.tsx:49 | clicking the backdrop closes the menu |
| StatusSelector.Selector.HandleChange | src/components/GoalStatusSelector.tsx:26-30 | the menu is closed before the update is issued (the precondition of the table write) and stays closed; the update is the status-only write, and its outcome is ignored |
| SignUp.PasswordError | src/app/auth/signup/page.tsx:24-25 | mismatched passwords are refused first with "Passwords do not match"; otherwise fewer than 6 UTF-16 units gives the length error; the checks pass exactly when the passwords match and are long enough |
| SignUp.BmpPasswordRule | src/app/auth/signup/page.tsx:25 | for ordinary characters, a password passes exactly when it has at least six characters |
| SignUp.AlreadyRegistered | src/app/auth/signup/page.tsx:39 | a sign-up that returns a user with an empty identity list means the address is already registered (a definition, no contract of its own) |
| SignUp.SignUpForm.constructor | src/app/auth/signup/page.tsx:11-16 | the form opens empty, with no error, not loading and not succeeded |
| SignUp.SignUpForm.HandleSignUp | src/app/auth/signup/page.tsx:19-47 | the sign-up call is made exactly when the password checks pass, with the confirmation link under the page origin; a service error shows its message; a user without identities gives the already-exists error; success is set only when every check passed; loading is off on every exit |
| Login.UnconfirmedIgnoresCase | src/app/auth/login/page.tsx:42-44 | two messages that agree once lower-cased are classified alike, so letter case never changes whether an error counts as unconfirmed |
| Login.IsUnconfirmed | src/app/auth/login/page.tsx:42-44 | an error counts as unconfirmed when its lower-cased text contains "email not confirmed" or "email confirmation" (a definition, no contract of its own) |
| Login.LoginForm.constructor | src/app/auth/login/page.tsx:24-29 | a non-empty `error` query parameter is shown at start |
| Login.LoginForm.ResendButtonShown | src/app/auth/login/page.tsx:113 | the resend button shows when the option is set and an email is typed in (a definition, no contract of its own) |
| Login.LoginForm.HandleLogin | src/app/auth/login/page.tsx:31-58 | submitting clears the resend success; success navigates to the dashboard; an unconfirmed-email error sets the fixed message and offers a resend; any other error shows its own message |
| Login.LoginForm.HandleResend | src/app/auth/login/page.tsx:60-85 | an empty email sets an error and makes no call; otherwise the confirmation is requested for that address, loading is off once it returns, success sets the success flag and hides the option, and failure shows the error |

## Left out

- The language model client (src/lib/huggingface.ts and the OpenAI client calls): its answer is an input. Only the request built for it (model, prompts, token limit, temperature in tenths) is modelled.
- The hosted database client, cookies and `auth.getUser`. The user and each query's rows are inputs. Each write's success or failure is an input flag. The three tables are classes over a `map` keyed by row id.
- Inserts are not applied to any table: only updates go through the table classes. The generate-milestones handler returns the batch it hands to the insert, `NewGoal.NewGoalForm.HandleSubmit` returns the goal row it inserts, and `CheckinForm.CheckinFormState.HandleSubmit` returns the check-in row it inserts; none of them adds the row to `StatusSelector.GoalsTable`, `MilestoneList.MilestonesTable` or `CheckinFeedback.CheckinsTable`. A partial write by the database is not modelled.
- src/app/checkin/page.tsx, src/components/ProgressRing.tsx, and the landing, navigation, theme, layout and UI-kit files: these are markup, styling or floating-point SVG geometry.
- `Date`, `toISOString` and `toLocaleDateString`. The clock is an input: elapsed milliseconds for the week number, and a timestamp string for `completed_at`. There is no calendar or time-zone logic.
- MilestoneList.MilestoneListView.HandleToggle: the database write and the local copy each read the clock. They are two separate inputs, so their timestamps may differ, as in the code.
- `router.refresh()` and the other re-renders have no modelled effect. Concurrent handlers and `Promise.all` are sequential here.
- GoalCard.Percent: integer half-up rounding of 100·completed/total. JavaScript computes `completed / total * 100` in floating point, which can land just below a half. For example, 29 of 200 shows 14 in the browser and 15 here.
- Progress.OverallProgress: the same floating-point caveat as GoalCard.Percent.
- GenerateMilestones.Json: JSON numbers are integers. `JSON.parse` is an arbitrary function parameter, and its exceptions are its `None`.
- Request bodies with fields of other JSON types are not modelled. Fields are optional strings and, for the week, an optional integer.
- CheckinFeedback.MoodContext: moods are looked up among the four keys only. JavaScript would also find inherited object properties such as `constructor` under those names.
- GoalCard.CategoryIcon and GoalCard.CategoryAccent: likewise, inherited object properties are not looked up.
- Text.Lower: `toLowerCase` is modelled on ASCII letters only. Other scripts' case mappings are not.
- CheckinForm.CheckinFormState.HandleSubmit posts to `/api/ai/coach-feedback`, as the code does. The feedback endpoint is served at `/api/ai/checkin-feedback`, and no routing between the two is modelled.
- Behaviour the code does not have is not modelled:
  - sizing milestones by the goal's target date (the date is neither read by the endpoint nor sent by the form);
  - an ownership check on the goal in the milestone endpoint;
  - failing the feedback update when it matches no row;
  - touching `updated_at` when the status changes.
- The `console.error` logging in both endpoints.
