# Goal journal — a Dafny model of its core

The goal journal is a Next.js application for tracking personal goals. The
user keeps a list of goals. Each goal has a title, optional description,
initial-progress note and context, an overall progress from 0 to 100, and a
status (`in-progress`, `paused` or `completed`). The user writes journal
entries against a goal, and each entry is sent to a progress service.

- For a goal whose text mentions money, the progress service computes the
  progress itself. It reads a target amount from the goal and a current
  amount from the entry.
- Otherwise it asks a language model, using a short prompt.

The home page applies the answer. It clamps the progress into [0, 100],
completes the goal automatically at 100 and congratulates the user. It
records the entry with the analysis. When the analysis fails, it still
records the entry. If the failed reply carries a fallback analysis, the page
first applies and records that fallback. The progress service's fallback
reports a progress of 0, so the goal's progress drops to 0. The failure
record that follows carries the goal's progress from before the fallback.
Without a fallback, the goal's progress stays unchanged. A second service asks
the model for coaching: milestones, habits and advice. It cleans and
validates the model's reply and falls back to fixed advice when the reply
cannot be used.

The model has one module per source file, plus three modules for the
JavaScript built-ins the code leans on:

| module | file | models |
|---|---|---|
| `JsText` | `jstext.dfy` | the string built-ins (`\s`, `toLowerCase`, `includes`, `startsWith`, `indexOf`, `lastIndexOf`, `trim`, `join`, the text of an integer) |
| `JsMath` | `jsmath.dfy` | `Math.min`, `Math.max` and `Math.round` on real numbers |
| `Types` | `types.dfy` | the records of `src/types/index.ts`, `filter` |
| `Utils` | `utils.dfy` | `src/lib/utils.ts` |
| `GoalCard` | `goalcard.dfy` | the badge and bar of `src/components/GoalCard.tsx` |
| `AmountPatterns` | `amountpatterns.dfy` | the nine amount regexes of the progress service, and `match` over them |
| `FinancialProgress` | `financialprogress.dfy` | `src/app/api/progress/route.ts` |
| `Dashboard` | `dashboard.dfy` | the goal-list operations of `src/components/Dashboard.tsx` |
| `HomePage` | `homepage.dfy` | the state of `src/app/page.tsx`, as the class `Home` |
| `Coaching` | `coaching.dfy` | `src/app/api/coaching/route.ts` |

Each regular expression is modelled twice:

- as a ghost predicate describing the texts it accepts;
- as the greedy scan a backtracking engine performs.

Lemmas show that the scan finds the leftmost match, and that the captured
number at that match is the one JavaScript reports.

The amount parsed from a capture is tied to its digits.
`AmountPatterns.Shift(x, n)` is `x` times 10 to the `n`
(`AmountPatterns.ShiftIsProduct`). The capture `2,500.75` has two fraction
digits, so its amount, moved by two places, is 250075.

Pure code is written as functions, with lemmas beside them. The loops of
`extractTargetAmount`, `extractCurrentAmount` and the reassignments of
`cleanResponse` are written as methods. Each is proved equal to a
specification function. The home page's state is a class whose methods
state its whole new state.

The financial-goal test looks for plain substrings, not whole words. So
"Learn to paint" is a financial goal, because "learn" contains the keyword
"earn" (`FinancialProgress.LearnToPaintIsFinancial`).

The failed-analysis path is modelled as written. A reply that carries a
fallback first records the fallback analysis, then throws into the `catch`
block, which records the entry a second time as a failure.

## Model

| member | source | states |
|---|---|---|
| JsText.ToLower | src/app/api/progress/route.ts:145 | lower-casing keeps the length and maps every character through the A-Z / Kelvin-sign rule |
| JsText.Prefix | src/app/api/progress/route.ts:127 | `substring(0, n)` has length n, or the whole length when shorter, and is a prefix of the text |
| JsText.StartsWith | src/app/api/coaching/route.ts:82-84 | `startsWith`: the text begins with the prefix; no ensures of its own, `Coaching.StripFence` states the fence tests built on it |
| JsText.EndsWith | src/app/api/coaching/route.ts:83 | the text ends with the suffix, as the `$` anchor of the closing-fence pattern demands; no ensures of its own, `Coaching.DropClosing` states the removal built on it |
| JsText.Includes | src/app/api/progress/route.ts:146 | `includes`; no ensures of its own, `JsText.IncludesIff` states what it computes |
| JsText.IncludesIff | src/app/api/progress/route.ts:146 | `includes` holds exactly when the needle occurs at some position of the text |
| JsText.SpacesEnd | src/app/api/coaching/route.ts:83 | a greedy `\s*` stops at the first character that is not a space |
| JsText.SpacesPrefix | src/app/api/coaching/route.ts:83 | every run of spaces from `i` ends within the greedy run |
| JsText.SpacesStart | src/app/api/coaching/route.ts:83 | the run of spaces before `j` goes back to a non-space or the start |
| JsText.Trim | src/components/Dashboard.tsx:40-41 | the result is a slice of the input with only spaces cut from both ends; it neither starts nor ends with a space; it is empty exactly when the input is all spaces |
| JsText.TrimIdempotent | src/app/api/coaching/route.ts:79 | trimming twice is trimming once |
| JsText.Join | src/app/api/coaching/route.ts:156 | joining no parts is empty; joining one part is that part |
| JsText.NatToString | src/lib/utils.ts:15 | the text of a natural number is a non-empty string of digits without a leading zero |
| JsText.IntToString | src/lib/utils.ts:15 | the text of an integer is non-empty and starts with a minus sign exactly when the integer is negative |
| JsText.NatToStringRoundTrip | src/lib/utils.ts:15 | reading back the digits of a natural number gives the number |
| JsText.IntToStringRoundTrip | src/app/api/progress/route.ts:244 | reading back the text of a rounded percentage, after its sign, gives the integer |
| Types.OrEmpty | src/app/api/progress/route.ts:145 | an absent optional text reads as the empty string, a present one as itself |
| Types.OrDefault | src/app/api/coaching/route.ts:160-163 | an absent or empty field reads as its placeholder, any other as itself |
| Types.Filter | src/app/page.tsx:67 | a filtered list is no longer than the list |
| Types.FilterMembers | src/app/page.tsx:67 | every kept element is in the list and passes the test, and every element that passes is kept |
| Types.FilterAppend | src/components/Dashboard.tsx:269 | filtering distributes over concatenation, so relative order is kept |
| JsMath.Min | src/app/api/progress/route.ts:165 | the minimum is one of the arguments and no larger than either |
| JsMath.Max | src/app/api/progress/route.ts:165 | the maximum is one of the arguments and no smaller than either |
| JsMath.Round | src/app/api/progress/route.ts:178-179 | `Math.round` gives the integer within half of the argument, halves going up |
| JsMath.RoundMonotone | src/app/api/progress/route.ts:178-179 | rounding keeps order |
| JsMath.RoundOfInt | src/app/api/progress/route.ts:178 | an integral value rounds to itself |
| JsMath.RoundWithin | src/app/api/progress/route.ts:178 | a value between integral bounds rounds to a value between them |
| Utils.FormatProgress | src/lib/utils.ts:14-16 | the display text ends in `%`, and what precedes it is the rounded value's text |
| Utils.FormatProgressReadsBack | src/lib/utils.ts:14-16 | for progress not below −0.5, the text before `%` is all digits and reads back as the rounded progress |
| Utils.ValidateProgress | src/lib/utils.ts:19-21 | the clamp lies in [0, 100], keeps values already there, and maps values below to 0 and above to 100 |
| Utils.ValidateProgressIdempotent | src/lib/utils.ts:19-21 | clamping twice is clamping once |
| Utils.ValidateProgressMonotone | src/lib/utils.ts:19-21 | clamping keeps order |
| Utils.ProgressBarColor | src/lib/utils.ts:24-30 | each colour class is chosen exactly on its band (100+, 75–100, 50–75, 25–50, below 25) |
| GoalCard.StatusColor | src/components/GoalCard.tsx:47-59 | completed and paused decide the colour; any other status picks it exactly by the progress band, with 0 on its own |
| GoalCard.StatusText | src/components/GoalCard.tsx:61-74 | completed and paused decide the text; any other status picks it exactly by band, with exactly 100 reading "Complete" and the rest of 75+ "Almost There" |
| GoalCard.ColorMatchesText | src/components/GoalCard.tsx:47-74 | outside completed and paused, each badge text goes with exactly one badge colour |
| GoalCard.BarWidth | src/components/GoalCard.tsx:35 | the bar width lies in [0, 100] and is the same clamp as `validateProgress` |
| AmountPatterns.DigitsEnd | src/app/api/progress/route.ts:195 | a greedy `\d+` run ends at a non-digit or at the end |
| AmountPatterns.DigitsPrefix | src/app/api/progress/route.ts:195 | any run of digits from the same start ends within the greedy one |
| AmountPatterns.GroupsEnd | src/app/api/progress/route.ts:196 | a greedy `(?:,\d{3})*` consumes whole thousands groups of digits and commas |
| AmountPatterns.GroupsPrefix | src/app/api/progress/route.ts:196 | any sequence of thousands groups ends within the greedy one, and one that ends earlier is followed by a comma |
| AmountPatterns.FractionEnd | src/app/api/progress/route.ts:195-196 | a greedy `(?:\.\d+)?` is an empty or a point-and-digits fraction |
| AmountPatterns.FractionPrefix | src/app/api/progress/route.ts:195-196 | any fraction from the same start ends within the greedy one |
| AmountPatterns.BodyEnd | src/app/api/progress/route.ts:195-199 | the greedy number from a digit is in the number's language and consists of digits, commas and points |
| AmountPatterns.BodyPrefix | src/app/api/progress/route.ts:195-199 | every number the shape admits starts with a digit and ends within the greedy one; one ending earlier is followed by a number character |
| AmountPatterns.CueTailEnd | src/app/api/progress/route.ts:223 | the greedy walk of `\s*:?\s*\$?` stays inside that language |
| AmountPatterns.DollarTailUnique | src/app/api/progress/route.ts:223 | before a digit, the spaces of `\s*\$?` are the whole run of spaces |
| AmountPatterns.CueTailUnique | src/app/api/progress/route.ts:223 | a cue tail followed by a digit can only end where the greedy walk ends |
| AmountPatterns.CueTailWithinSpaces | src/app/api/progress/route.ts:223 | the case of the cue tail with the colon skipped inside the run of spaces ends at the greedy end |
| AmountPatterns.CueTailAfterSpaces | src/app/api/progress/route.ts:223 | the case of the cue tail taking the first run of spaces whole ends at the greedy end |
| AmountPatterns.CueTailEndNoColon | src/app/api/progress/route.ts:223 | without a colon after the spaces, the walk goes on to the optional dollar sign |
| AmountPatterns.MarkersAreNotSpaces | src/app/api/progress/route.ts:223 | colon, dollar sign and digits are not `\s` |
| AmountPatterns.CharEqIgnoreCaseUnique | src/app/api/progress/route.ts:223 | one character matches at most one lower-case ASCII letter case-insensitively |
| AmountPatterns.CueWordsExclusive | src/app/api/progress/route.ts:223 | no two cue words match at the same position |
| AmountPatterns.CueAttempt | src/app/api/progress/route.ts:223 | one cue alternative succeeds only where its word occurs, and then ends at the greedy tail before a digit |
| AmountPatterns.CueBodyStart | src/app/api/progress/route.ts:223 | the number after the cues starts with a digit at or after the attempt position |
| AmountPatterns.CueBodyStartSound | src/app/api/progress/route.ts:223 | what the engine finds after the cues is one of the alternatives followed by a cue tail |
| AmountPatterns.BodyStart | src/app/api/progress/route.ts:195-199 | where the capture group starts is a lead end followed by a digit |
| AmountPatterns.CueBodyStartFinds | src/app/api/progress/route.ts:223 | the alternatives are tried in order, and the first that succeeds decides |
| AmountPatterns.BodyStartComplete | src/app/api/progress/route.ts:195-199 | every lead end followed by a digit is the one the engine finds |
| AmountPatterns.CueLeadComplete | src/app/api/progress/route.ts:223 | every cue followed by a digit is the one the engine finds |
| AmountPatterns.TrailMatches | src/app/api/progress/route.ts:195-199 | the greedy test of a pattern's trail; no ensures of its own, `AmountPatterns.TrailMatchesIff` states what it computes |
| AmountPatterns.TrailMatchesIff | src/app/api/progress/route.ts:195-199 | the greedy test of the trail (`\s*k`, `\s*dollars?`, `\s*\$`, the lookahead for a space or the end) accepts exactly the texts the trail describes |
| AmountPatterns.SkippedSpacesEnd | src/app/api/progress/route.ts:195 | spaces followed by a non-space are the whole greedy run |
| AmountPatterns.TrailRejectsNumberChar | src/app/api/progress/route.ts:195-199 | no trail starts with a digit, comma or point |
| AmountPatterns.MatchAt | src/app/api/progress/route.ts:203 | one attempt yields a non-empty group of number characters starting with a digit |
| AmountPatterns.MatchAtSound | src/app/api/progress/route.ts:203 | what an attempt reports is a match of the pattern |
| AmountPatterns.MatchAtComplete | src/app/api/progress/route.ts:203 | whenever the pattern can match at a position, the attempt there succeeds with the same group start and an end no earlier (the same end when a trail follows) |
| AmountPatterns.GreedyEndAccepted | src/app/api/progress/route.ts:195-199 | a trail accepted after a number is also accepted after the greedy number, and then the two ends coincide unless there is no trail |
| AmountPatterns.Attempts | src/app/api/progress/route.ts:203 | one attempt per start position, end of text included |
| AmountPatterns.FirstSome | src/app/api/progress/route.ts:203 | the first present entry from a position, and no present entry before it |
| AmountPatterns.FindMatch | src/app/api/progress/route.ts:203 | `match` without `g` reports the first start position whose attempt succeeds, and fails only if every attempt fails |
| AmountPatterns.FindMatchGroup | src/app/api/progress/route.ts:205 | the captured text of a match is a digit followed by number characters |
| AmountPatterns.FindMatchNone | src/app/api/progress/route.ts:203-204 | `match` fails exactly when the pattern matches nowhere |
| AmountPatterns.FindMatchSound | src/app/api/progress/route.ts:203 | a reported match is a match of the pattern |
| AmountPatterns.FindMatchLeftmost | src/app/api/progress/route.ts:203 | every match starts no earlier than the reported one; at the same start it has the same group start and an end no later (the same end when a trail follows) |
| AmountPatterns.Results | src/app/api/progress/route.ts:202-203 | the outcome of `match` for every pattern of the list |
| AmountPatterns.FirstMatch | src/app/api/progress/route.ts:202-204 | the first pattern of the list that matches, with its match; none exactly when no pattern matches |
| AmountPatterns.FractionValue | src/app/api/progress/route.ts:205 | the digits after a point have a value in [0, 1); moved by as many decimal places as there are digits, that value is the digits' integer value |
| AmountPatterns.ParseFloat | src/app/api/progress/route.ts:205 | `parseFloat` of a text of digits and points lies between its integer part and the integer part plus one; moved by as many places as it reads fraction digits, it is the value of the digits it reads with the point dropped |
| AmountPatterns.ParseWhole | src/app/api/progress/route.ts:205 | `parseFloat` of digits alone is their integer value |
| AmountPatterns.ParsePoint | src/app/api/progress/route.ts:205 | `parseFloat` of digits, a point and digits, moved by the number of fraction digits, is the value of all the digits |
| AmountPatterns.RemoveCommas | src/app/api/progress/route.ts:205 | removing commas leaves no comma, keeps only characters of the input and keeps every character that is not a comma |
| AmountPatterns.RemoveCommasAppend | src/app/api/progress/route.ts:205 | removing commas from a concatenation is removing them from each part |
| AmountPatterns.RemoveCommasChar | src/app/api/progress/route.ts:205 | a lone comma is removed and any other lone character is kept |
| AmountPatterns.RemoveCommasKeepsFirst | src/app/api/progress/route.ts:205 | a text not starting with a comma keeps its first character |
| AmountPatterns.MatchedNumberText | src/app/api/progress/route.ts:195-199 | every text the two number shapes accept starts with a digit, has only digits, commas and points, has only digits after a point and does not end in a point |
| AmountPatterns.NumberTextParts | src/app/api/progress/route.ts:205 | such a text splits into the digits before its first point and the digits after it; dropping its commas leaves the two joined by the point |
| AmountPatterns.NumberTextValue | src/app/api/progress/route.ts:205 | `parseFloat` reads such a text whole once its commas are gone: moved by its number of fraction digits, the value is that of all its digits |
| AmountPatterns.CapturedAmount | src/app/api/progress/route.ts:205 | the parsed amount of a match is never negative; for a captured number, moved by its number of fraction digits, it equals the value of its digits with commas and point dropped |
| AmountPatterns.FindMatchAmount | src/app/api/progress/route.ts:203-205 | the number a pattern's leftmost match captures is such a text, and its amount is the value of its digits with the point put back |
| AmountPatterns.CapturedThousands | src/app/api/progress/route.ts:196 | the capture `3,000` is the amount 3000 |
| AmountPatterns.CapturedFraction | src/app/api/progress/route.ts:195 | the capture `2.5` is the amount 2.5 |
| FinancialProgress.AnyIncluded | src/app/api/progress/route.ts:146 | `some(includes)` holds exactly when one of the keywords is included |
| FinancialProgress.GoalText | src/app/api/progress/route.ts:145 | `${title} ${description || ''} ${context || ''}`; no ensures of its own, `FinancialProgress.IsFinancialGoalIff` and `FinancialProgress.TargetAmountFromFirstMatch` state what is done with it |
| FinancialProgress.IsFinancialGoal | src/app/api/progress/route.ts:138-147 | `isFinancialGoal`; no ensures of its own, `FinancialProgress.IsFinancialGoalIff` states what it computes |
| FinancialProgress.IsFinancialGoalIff | src/app/api/progress/route.ts:138-147 | a goal is financial exactly when some keyword occurs as a substring of its lower-cased title, description and context |
| FinancialProgress.LearnToPaintIsFinancial | src/app/api/progress/route.ts:139-146 | "Learn to paint" is financial, because "learn" contains "earn" |
| FinancialProgress.ScaleThousands | src/app/api/progress/route.ts:207-210 | an amount under 1000 is multiplied by 1000 exactly when the text contains a `k` anywhere; other amounts stay |
| FinancialProgress.FirstAmount | src/app/api/progress/route.ts:202-214 | an amount found by the patterns is never negative |
| FinancialProgress.FirstAmountNone | src/app/api/progress/route.ts:202-216 | no amount is found exactly when no pattern of the list matches |
| FinancialProgress.FirstAmountValue | src/app/api/progress/route.ts:202-205 | a found amount is the value of the digits the first matching pattern captured, with the point put back |
| FinancialProgress.FirstAmountAt | src/app/api/progress/route.ts:202-213 | when the patterns before `k` fail and `k` matches, the amount is what pattern `k` captures |
| FinancialProgress.TargetAmount | src/app/api/progress/route.ts:190-217 | a found target amount is never negative |
| FinancialProgress.FindFirstAmount | src/app/api/progress/route.ts:202-216 | the loop over the patterns returns the amount of the first pattern that matches, or none |
| FinancialProgress.AmountFromStart | src/app/api/progress/route.ts:202-214 | trying the patterns from the first gives the first-match amount |
| FinancialProgress.AmountFromAfterFailures | src/app/api/progress/route.ts:202-214 | once the patterns before `k` are known to fail, trying from `k` gives the first-match amount |
| FinancialProgress.ExtractTargetAmount | src/app/api/progress/route.ts:190-217 | `extractTargetAmount` returns the first-match amount with the thousands rule applied |
| FinancialProgress.ApplyThousands | src/app/api/progress/route.ts:205-210 | the in-place `amount *= 1000` step is the thousands rule |
| FinancialProgress.CurrentAmount | src/app/api/progress/route.ts:220-237 | the first-match amount of the four current-amount patterns; no ensures of its own, `FinancialProgress.CurrentAmountNone`, `FinancialProgress.FirstAmountValue` and `FinancialProgress.ExtractCurrentAmount` state its value |
| FinancialProgress.ExtractCurrentAmount | src/app/api/progress/route.ts:220-237 | `extractCurrentAmount` returns the first-match amount of the four patterns, never rescaled |
| FinancialProgress.TargetAmountNone | src/app/api/progress/route.ts:194-216 | the target is missing exactly when none of the five patterns matches anywhere in the goal's text |
| FinancialProgress.CurrentAmountNone | src/app/api/progress/route.ts:222-236 | the current amount is missing exactly when none of the four patterns matches anywhere in the entry |
| FinancialProgress.TargetAmountFromFirstMatch | src/app/api/progress/route.ts:202-212 | a found target is what the first matching pattern captures at its leftmost match, rescaled by the thousands rule |
| FinancialProgress.Percentage | src/app/api/progress/route.ts:165 | the percentage lies in [0, 100], is 100 at or above a positive target, and the plain ratio between 0 and the target |
| FinancialProgress.RatioBounds | src/app/api/progress/route.ts:165 | for a positive target the ratio reaches 100 per cent at the target and is not negative for a non-negative amount |
| FinancialProgress.PreviousProgress | src/app/api/progress/route.ts:168-170 | the baseline is the last earlier update's recorded progress, or 0 without one or without its analysis |
| FinancialProgress.IsLoss | src/app/api/progress/route.ts:241 | the lower-cased entry contains `lost`, `down` or `decreased`; no ensures of its own, `FinancialProgress.Tier` states that it picks the discipline template |
| FinancialProgress.Tier | src/app/api/progress/route.ts:241-253 | a loss word picks the discipline template whatever the percentage; otherwise each template is picked exactly in its band (100+, 80–100, 50–80, below 50) |
| FinancialProgress.FinancialFeedback | src/app/api/progress/route.ts:240-254 | each tier's message is that tier's whole template, filled in with the formatted current and target amounts and the rounded percentage |
| FinancialProgress.FinancialFeedbackMentions | src/app/api/progress/route.ts:244-252 | every message names both formatted amounts, and every message but the congratulation names the rounded percentage |
| FinancialProgress.FinancialResponse | src/app/api/progress/route.ts:172-182 | the response carries the rounded percentage, the rounded non-negative gain over the baseline, both amounts in the reasoning, and the tier's feedback |
| FinancialProgress.CalculateFinancialProgress | src/app/api/progress/route.ts:150-187 | a response exists exactly when a non-zero target and a current amount are found, and is then computed from them and the last earlier update |
| FinancialProgress.FinancialResponseBounds | src/app/api/progress/route.ts:165-179 | the reported progress is a whole number in [0, 100]; the gain is a whole non-negative number, and 0 when the percentage does not exceed the baseline |
| FinancialProgress.TargetReachedScoresHundred | src/app/api/progress/route.ts:165-182 | reaching the target scores 100 and, without a loss word, earns the congratulations |
| FinancialProgress.RecordedProgress | src/app/api/progress/route.ts:127 | an update's recorded progress is the baseline a one-update history gives |
| FinancialProgress.AnalysisContext | src/app/api/progress/route.ts:126-128 | without earlier updates the context is empty; otherwise it is exactly `Previous: `, the last entry's first 50 characters, ` (`, its recorded progress and `%)`: it starts with the first part, ends with the last, and has the length of the two together |
| FinancialProgress.AnalysisContextUsesLastOnly | src/app/api/progress/route.ts:127 | histories with the same last update give the same context |
| FinancialProgress.ProgressAnalysisPrompt | src/app/api/progress/route.ts:125-135 | the prompt opens with the goal's title and current progress, closes with the quoted entry and the instruction, and has exactly the context line in between |
| FinancialProgress.ProgressAnalysisPromptUsesLastOnly | src/app/api/progress/route.ts:126-134 | histories with the same last update give the same prompt |
| FinancialProgress.ProgressRoute | src/app/api/progress/route.ts:27-39 | the service computes the answer exactly when the goal is financial and the calculation succeeds, and otherwise asks the model with the analysis prompt |
| Dashboard.NonEmpty | src/components/Dashboard.tsx:163-164 | an empty field is absent, any other is kept as it is |
| Dashboard.NewGoal | src/components/Dashboard.tsx:159-169 | a new goal has the given id, title and description, no progress, status in-progress, and the optional notes only when non-empty |
| Dashboard.AddGoal | src/components/Dashboard.tsx:158-174 | adding keeps the old list as a prefix and appends the new goal |
| Dashboard.WithStatus | src/components/Dashboard.tsx:177-181 | a goal with the id takes the status and timestamp; any other is unchanged |
| Dashboard.SetStatus | src/components/Dashboard.tsx:176-184 | a status change keeps the length, changes exactly the goals with the id, and only their status and timestamp |
| Dashboard.SetStatusIdempotent | src/components/Dashboard.tsx:176-184 | setting the same status twice is setting it once |
| Dashboard.SetStatusKeepsIds | src/components/Dashboard.tsx:176-184 | every goal keeps its id, title and progress in place |
| Dashboard.Section | src/components/Dashboard.tsx:258-330 | a section holds exactly the goals of its status, all from the list |
| Dashboard.Unshown | src/components/Dashboard.tsx:258-330 | the goals outside the three sections are exactly the list goals with none of the three statuses |
| Dashboard.SectionsAreDisjoint | src/components/Dashboard.tsx:258-330 | a goal with one of the three statuses is in its own section and in no other |
| Dashboard.SectionsPartition | src/components/Dashboard.tsx:258-330 | the three sections and the unshown goals together count every goal once |
| Dashboard.AddGoalSections | src/components/Dashboard.tsx:158-174 | a new goal goes at the end of the in-progress section and leaves the other sections alone |
| Dashboard.AddGoalForm.constructor | src/components/Dashboard.tsx:33-36 | the form starts empty |
| Dashboard.AddGoalForm.Submit | src/components/Dashboard.tsx:38-48 | a blank title changes nothing; otherwise the four trimmed fields are handed on, with a non-blank title, and the form is cleared |
| HomePage.MigrateStatus | src/app/page.tsx:25 | a missing status becomes in-progress, any other is kept, and none is left empty |
| HomePage.Migrate | src/app/page.tsx:23-26 | migration keeps the length and every field except a missing status |
| HomePage.MigrateIdempotent | src/app/page.tsx:23-26 | migrating twice is migrating once |
| HomePage.MigrateKeepsStatusedGoals | src/app/page.tsx:23-26 | goals that all have a status are untouched |
| HomePage.GoalIndex | src/app/page.tsx:47 | the position of the first goal with the id, or none exactly when no goal has it |
| HomePage.GoalById | src/app/page.tsx:47-51 | `find` returns the first goal in the list with the id, or none exactly when no goal has it |
| HomePage.GoalIndexSameIds | src/app/page.tsx:92-111 | lists with the same ids in the same places find the same position |
| HomePage.PreviousUpdates | src/app/page.tsx:67 | exactly the goal's own updates, all from the list |
| HomePage.PreviousUpdatesAppend | src/app/page.tsx:107 | an update appended for the goal becomes its last update and leaves other goals' histories alone |
| HomePage.Progressed | src/app/page.tsx:92-104 | the goal with the id takes the clamped progress and timestamp; any other is unchanged |
| HomePage.ApplyProgress | src/app/page.tsx:92-104 | only the goal with the id changes: it takes the clamped progress and timestamp, becomes completed exactly when that reaches 100 or it was already, and keeps every other field |
| HomePage.ApplyProgressIdempotent | src/app/page.tsx:92-104 | applying the same analysis twice is applying it once |
| HomePage.WasAutoCompleted | src/app/page.tsx:110-111 | congratulation is due exactly when the clamped progress reaches 100 and the goal found before was not completed |
| HomePage.AutoCompletionIsStatusChange | src/app/page.tsx:92-111 | for an existing goal, congratulation is due exactly when the update turns it from not completed to completed |
| HomePage.FeedbackMessage | src/app/page.tsx:114-117 | the message ends with the feedback, and is prefixed by the congratulation exactly when the goal was auto-completed |
| HomePage.FailureRecord | src/app/page.tsx:166-181 | the record of a failed analysis keeps the goal's progress, has no gain, and carries the unavailable texts |
| HomePage.FailureRecordKeepsBaseline | src/app/page.tsx:170-186 | after a failure record, the next financial analysis measures from the goal's own progress |
| HomePage.Home.constructor | src/app/page.tsx:10-16 | the page starts with no goals, no updates, no feedback and no advice |
| HomePage.Home.Load | src/app/page.tsx:19-30 | loading installs the migrated goals and the stored updates and leaves the rest |
| HomePage.Home.RecordAnalysis | src/app/page.tsx:84-121 | an applied analysis updates the goals, appends the entry with its analysis, and sets the three feedback fields |
| HomePage.Home.RecordFailure | src/app/page.tsx:162-186 | a failure appends the failure record, sets the unavailable texts and a zero gain, and leaves the goals alone |
| HomePage.Home.SubmitUpdate | src/app/page.tsx:43-193 | an unknown goal changes nothing; data is applied and recorded; a fallback is applied and recorded and then a failure is recorded too; a refusal without one records only the failure |
| HomePage.Home.RecordRefusal | src/app/page.tsx:124-186 | a refusal applies and records its fallback when there is one, then records the failure |
| HomePage.Home.GetCoaching | src/app/page.tsx:195-252 | the advice, or a refusal's fallback, is stored under the goal's id; no fallback or an unknown goal keeps the advice as it was; nothing else changes |
| Coaching.DropOpening | src/app/api/coaching/route.ts:83 | `replace(/^FENCE\s*/, '')` removes the fence and the spaces after it and leaves a suffix that does not start with a space |
| Coaching.DropOpeningGreedy | src/app/api/coaching/route.ts:83 | the opening removed is the longest match |
| Coaching.DropClosing | src/app/api/coaching/route.ts:83 | the closing-fence replace removes a closing fence at the end with all spaces before it, and leaves text ending in a non-space; without one the text stays |
| Coaching.DropClosingLeftmost | src/app/api/coaching/route.ts:83 | the closing match removed is the leftmost one |
| Coaching.StripFence | src/app/api/coaching/route.ts:82-86 | the JSON fence is tried before the plain fence; text without a fence stays |
| Coaching.DropOpeningOf | src/app/api/coaching/route.ts:83 | a fence and blank run before a non-space are removed exactly |
| Coaching.DropClosingOf | src/app/api/coaching/route.ts:83 | a blank run and closing fence after a non-space are removed exactly |
| Coaching.FenceThenJson | src/app/api/coaching/route.ts:82-84 | after a plain fence the JSON fence is present exactly when `json` follows |
| Coaching.DropFences | src/app/api/coaching/route.ts:83 | both removals together take a fenced block back to its body |
| Coaching.StripJsonFenceRoundTrip | src/app/api/coaching/route.ts:82-83 | a body wrapped in the JSON fence comes back unchanged |
| Coaching.StripPlainFenceRoundTrip | src/app/api/coaching/route.ts:84-85 | a body wrapped in the plain fence, not followed by `json`, comes back unchanged |
| Coaching.StripPlainFence | src/app/api/coaching/route.ts:84-85 | a plain fence not followed by `json` takes the plain-fence branch |
| Coaching.SpacesStartAt | src/app/api/coaching/route.ts:83 | the space run ending at `j` starts after the last non-space |
| JsText.IndexOf | src/app/api/coaching/route.ts:89 | the first position of the character, or none exactly when it is absent |
| JsText.LastIndexOf | src/app/api/coaching/route.ts:89 | the last position of the character, or none exactly when it is absent |
| Coaching.ObjectMatch | src/app/api/coaching/route.ts:89 | `match(/\{[\s\S]*\}/)` fails exactly when no `{` precedes a `}`, and otherwise spans a brace pair |
| Coaching.ObjectMatchLeftmostLongest | src/app/api/coaching/route.ts:89 | the object found is the leftmost match, and the longest there |
| Coaching.ExtractObject | src/app/api/coaching/route.ts:89-92 | the text is cut to the matched object, from `{` to `}`, or kept when there is none |
| Coaching.ExtractObjectIdempotent | src/app/api/coaching/route.ts:89-92 | cutting out the object again changes nothing |
| Coaching.CleanedResponse | src/app/api/coaching/route.ts:79-92 | trim, unfence, cut to the object; no ensures of its own, `Coaching.CleanResponse` equals it and `Coaching.StripJsonFenceRoundTrip`, `Coaching.StripPlainFenceRoundTrip` and `Coaching.ExtractObjectIdempotent` state what it does to a fenced object |
| Coaching.CleanResponse | src/app/api/coaching/route.ts:79-92 | the successive reassignments of the response give the trimmed, unfenced text cut to its object |
| Coaching.Fallback | src/app/api/coaching/route.ts:125-137 | the fallback has three milestones and three habits, and the salvaged advice or the default |
| Coaching.Accepted | src/app/api/coaching/route.ts:98 | milestones, habits and a non-empty advice are all present; no ensures of its own, `Coaching.CoachingData` and `Coaching.CoachingDataFallbackIff` state what follows from it |
| Coaching.CoachingData | src/app/api/coaching/route.ts:95-137 | an accepted parse is passed on field for field, anything else gives the fallback |
| Coaching.CoachingDataHasAdvice | src/app/api/coaching/route.ts:98-136 | if salvaging never yields an empty text, the advice is never empty |
| Coaching.CoachingDataFallbackIff | src/app/api/coaching/route.ts:98-137 | the answer is the fallback exactly when the parse is not accepted or equals the fallback |
| Coaching.CoachingResult | src/app/api/coaching/route.ts:69-143 | an empty reply gives no answer; any other gives the data of the cleaned reply |
| Coaching.LastTwo | src/app/api/coaching/route.ts:156 | `slice(-2)` is the last two updates, or all when fewer |
| Coaching.JournalEntries | src/app/api/coaching/route.ts:156 | the entries of the updates, in order |
| Coaching.RecentContext | src/app/api/coaching/route.ts:155-157 | the context line of the coaching prompt; no ensures of its own, `Coaching.RecentContextIs` and `Coaching.RecentContextUsesLastTwo` state what it computes |
| Coaching.BasePrompt | src/app/api/coaching/route.ts:159-164 | the goal lines followed by the context line; no ensures of its own, `Coaching.CoachingPrompt` states that every prompt starts with it |
| Coaching.RecentContextIs | src/app/api/coaching/route.ts:155-157 | the context says there are no updates, or names the last entry, or the last two separated by `; ` |
| Coaching.RecentContextUsesLastTwo | src/app/api/coaching/route.ts:155-157 | histories agreeing on the last two entries give the same context |
| Coaching.CoachingPrompt | src/app/api/coaching/route.ts:154-177 | the prompt opens with the goal lines; a non-empty question selects the question ending, anything else the plan ending; the length is the goal lines' plus that ending's |

## Left out

- The OpenAI calls, HTTP requests and JSON responses are not modelled. This covers the missing-key 500 answers, the 400 answers for a missing goal or entry (`src/app/api/progress/route.ts:23-25`, `src/app/api/coaching/route.ts:22-24`) and the system prompts. The model's reply is a parameter: `analyse`, `coach`, `response`.
- `JSON.parse` and the two advice-salvaging regexes of the coaching service are library parsing and heuristics. They are the parameters `parse` and `salvage`.
- `src/lib/storage.ts` is not part of this model. The saves after each change are left out, and the load takes the stored goals and updates as parameters.
- `generateId` (uuid) and `getCurrentTimestamp` (the clock) are parameters. The fallback branch of `handleSubmitUpdate` takes a fresh timestamp for the goal, and that timestamp is a separate parameter.
- `toLocaleString` and the printing of a non-integral number in a template string are the parameters `fmt` and `show`.
- Numbers are mathematical reals, not IEEE doubles. NaN, infinities and rounding error are not modelled, so the `|| 0` that replaces NaN is not either.
- `toLowerCase` is modelled for A-Z and the Kelvin sign only. Strings are sequences of code points, not UTF-16 code units.
- The React rendering, the modals, the tabs and the loading flag are not modelled; nor are the `alert` and `console` calls.
- The shape of the JSON the services exchange is assumed, with snake_case analysis fields mapped onto the record's fields.
- FinancialProgress.CurrentAmount, FinancialProgress.FirstAmount, FinancialProgress.TargetAmount: their own contracts only bound the amount. What they compute is stated by FirstAmountNone, FirstAmountAt, FirstAmountValue, TargetAmountNone, CurrentAmountNone and TargetAmountFromFirstMatch.
- AmountPatterns.ParseFloat, AmountPatterns.CapturedAmount: the decimal value is exact. The rounding of `parseFloat` to the nearest double is not modelled.
