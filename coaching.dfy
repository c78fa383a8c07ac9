/**
 * The coaching service (src/app/api/coaching/route.ts): how the model's
 * reply is cleaned before it is parsed, which parsed replies are accepted,
 * the fallback advice, and the prompt sent to the model.
 *
 * `JSON.parse` and the advice-salvaging regexes are library parsing and
 * heuristics: they are the parameters `parse` and `salvage`. A parse that
 * fails is `None`; a field of the parsed object that is missing or falsy is
 * `None` as well.
 */
module Coaching {
  import opened Types
  import opened JsText

  // ------------------------------------------------------ code fences

  const Fence: string := "```"
  const JsonFence: string := "```json"

  /** Replacing the regex `^FENCE\s*` by nothing, in a string that starts with the fence: the fence and the spaces after it go. */
  function DropOpening(s: string, fence: string): (r: string)
    requires StartsWith(s, fence)
    ensures |fence| + |r| <= |s| && r == s[|s| - |r|..]
    ensures AllSpaces(s, |fence|, |s| - |r|)
    ensures r != [] ==> !IsSpace(r[0])
  {
    s[SpacesEnd(s, |fence|)..]
  }

  /** The regex `^FENCE\s*` matches `s[..k]`. */
  ghost predicate OpeningMatch(s: string, fence: string, k: nat) {
    StartsWith(s, fence) && |fence| <= k <= |s| && AllSpaces(s, |fence|, k)
  }

  /** The greedy `\s*` takes the longest opening match, and nothing else follows it in the pattern. */
  lemma DropOpeningGreedy(s: string, fence: string, k: nat)
    requires OpeningMatch(s, fence, k)
    ensures k <= |s| - |DropOpening(s, fence)|
  {
    SpacesPrefix(s, |fence|, k);
  }

  /** `s.replace(/\s*```$/, '')`: a closing fence at the very end goes, with all the spaces before it. */
  function DropClosing(s: string): (r: string)
    ensures !EndsWith(s, Fence) ==> r == s
    ensures EndsWith(s, Fence) ==>
      && |r| + |Fence| <= |s| && r == s[..|r|]
      && AllSpaces(s, |r|, |s| - |Fence|)
      && (r != [] ==> !IsSpace(r[|r| - 1]))
  {
    if EndsWith(s, Fence) then s[..SpacesStart(s, |s| - |Fence|)] else s
  }

  /** The regex `\s*```$` matches `s[i..]` (without the multiline flag `$` is the end of the text). */
  ghost predicate ClosingMatch(s: string, i: nat) {
    EndsWith(s, Fence) && i <= |s| - |Fence| && AllSpaces(s, i, |s| - |Fence|)
  }

  /** The match `replace` removes is the leftmost one. */
  lemma DropClosingLeftmost(s: string, i: nat)
    requires ClosingMatch(s, i)
    ensures |DropClosing(s)| <= i
  {
  }

  /** The two fence-stripping branches of the route, applied to the trimmed reply. */
  function StripFence(s: string): (r: string)
    ensures !StartsWith(s, Fence) ==> r == s
    ensures StartsWith(s, JsonFence) ==> r == DropClosing(DropOpening(s, JsonFence))
    ensures StartsWith(s, Fence) && !StartsWith(s, JsonFence) ==> r == DropClosing(DropOpening(s, Fence))
  {
    if StartsWith(s, JsonFence) then DropClosing(DropOpening(s, JsonFence))
    else if StartsWith(s, Fence) then DropClosing(DropOpening(s, Fence))
    else s
  }

  /** `sp` consists of spaces only. */
  predicate Blank(sp: string) {
    forall k :: 0 <= k < |sp| ==> IsSpace(sp[k])
  }

  /** The opening fence and the blank run after it are dropped up to the first non-space. */
  lemma DropOpeningOf(fence: string, sp: string, rest: string)
    requires Blank(sp)
    requires rest != [] ==> !IsSpace(rest[0])
    ensures StartsWith(fence + sp + rest, fence)
    ensures DropOpening(fence + sp + rest, fence) == rest
  {
    var s := fence + sp + rest;
    var n := |fence| + |sp|;
    assert s[..|fence|] == fence;
    assert AllSpaces(s, |fence|, n) by {
      forall k | |fence| <= k < n
        ensures IsSpace(s[k])
      {
        assert s[k] == sp[k - |fence|];
      }
    }
    SpacesPrefix(s, |fence|, n);
    if n < |s| {
      assert s[n] == rest[0];
    }
    assert s[n..] == rest;
  }

  /** A closing fence and the blank run before it are dropped back to the last non-space. */
  lemma DropClosingOf(body: string, sp: string)
    requires Blank(sp)
    requires body != [] ==> !IsSpace(body[|body| - 1])
    ensures DropClosing(body + sp + Fence) == body
  {
    var s := body + sp + Fence;
    EndsWithAppend(body + sp, Fence);
    assert AllSpaces(s, |body|, |body| + |sp|) by {
      forall k | |body| <= k < |body| + |sp|
        ensures IsSpace(s[k])
      {
        assert s[k] == sp[k - |body|];
      }
    }
    if 0 < |body| {
      assert s[|body| - 1] == body[|body| - 1];
    }
    SpacesStartAt(s, |body|, |s| - |Fence|);
    assert s[..|body|] == body;
  }

  /** After the plain fence, the JSON fence is there exactly when the text goes on with `json`. */
  lemma FenceThenJson(rest: string)
    ensures StartsWith(Fence + rest, JsonFence) <==> StartsWith(rest, "json")
  {
    var s := Fence + rest;
    assert JsonFence == Fence + "json";
    if |rest| >= 4 {
      assert s[..7] == Fence + rest[..4];
      assert (Fence + rest[..4])[3..] == rest[..4];
      assert (Fence + "json")[3..] == "json";
    }
  }

  /** Both fence removals together take a fenced block back to the text inside it. */
  lemma DropFences(opening: string, sp1: string, body: string, sp2: string)
    requires Blank(sp1) && Blank(sp2)
    requires body != [] ==> !IsSpace(body[0]) && !IsSpace(body[|body| - 1])
    ensures StartsWith(opening + sp1 + body + sp2 + Fence, opening)
    ensures DropClosing(DropOpening(opening + sp1 + body + sp2 + Fence, opening)) == body
  {
    var s := opening + sp1 + body + sp2 + Fence;
    if body != [] {
      assert s == opening + sp1 + (body + sp2 + Fence);
      DropOpeningOf(opening, sp1, body + sp2 + Fence);
      DropClosingOf(body, sp2);
    } else {
      assert s == opening + (sp1 + sp2) + Fence;
      assert Blank(sp1 + sp2) by {
        forall k | 0 <= k < |sp1 + sp2|
          ensures IsSpace((sp1 + sp2)[k])
        {
          if k >= |sp1| {
            assert (sp1 + sp2)[k] == sp2[k - |sp1|];
          }
        }
      }
      DropOpeningOf(opening, sp1 + sp2, Fence);
      assert [] + [] + Fence == Fence;
      DropClosingOf([], []);
    }
  }

  /**
   * A block between the JSON fence and a closing fence comes back as the
   * text inside it: the fences go, and so do the spaces after the opening
   * fence and before the closing one.
   */
  lemma StripJsonFenceRoundTrip(sp1: string, body: string, sp2: string)
    requires Blank(sp1) && Blank(sp2)
    requires body != [] ==> !IsSpace(body[0]) && !IsSpace(body[|body| - 1])
    ensures StripFence(JsonFence + sp1 + body + sp2 + Fence) == body
  {
    DropFences(JsonFence, sp1, body, sp2);
  }

  /**
   * The same for the plain fence, as long as the text after it does not go
   * on with `json`, which would make it the JSON fence.
   */
  lemma StripPlainFenceRoundTrip(sp1: string, body: string, sp2: string)
    requires Blank(sp1) && Blank(sp2)
    requires body != [] ==> !IsSpace(body[0]) && !IsSpace(body[|body| - 1])
    requires !StartsWith(sp1 + body + sp2 + Fence, "json")
    ensures StripFence(Fence + sp1 + body + sp2 + Fence) == body
  {
    var s := Fence + sp1 + body + sp2 + Fence;
    var rest := sp1 + body + sp2 + Fence;
    assert s == Fence + rest by {
      assert Fence + sp1 + body + sp2 + Fence == Fence + (sp1 + body + sp2 + Fence);
    }
    StripPlainFence(s, rest);
    assert DropClosing(DropOpening(s, Fence)) == body by {
      DropFences(Fence, sp1, body, sp2);
    }
  }

  /** A plain fence not followed by `json` is removed as the plain fence. */
  lemma StripPlainFence(s: string, rest: string)
    requires s == Fence + rest && !StartsWith(rest, "json")
    ensures StripFence(s) == DropClosing(DropOpening(s, Fence))
  {
    FenceThenJson(rest);
  }

  /** The run of spaces ending at `j` starts at `i` when `s[i..j]` is all spaces and `s[i - 1]` is not one. */
  lemma SpacesStartAt(s: string, i: nat, j: nat)
    requires i <= j <= |s| && AllSpaces(s, i, j)
    requires 0 < i ==> !IsSpace(s[i - 1])
    ensures SpacesStart(s, j) == i
    decreases j
  {
    if i < j {
      SpacesStartAt(s, i, j - 1);
    }
  }

  // ------------------------------------------------------- JSON object

  /** `{` at `i` and `}` at `j - 1`: the regex `\{[\s\S]*\}` matches `s[i..j]`. */
  ghost predicate ObjectAt(s: string, i: nat, j: nat) {
    i + 2 <= j <= |s| && s[i] == '{' && s[j - 1] == '}'
  }

  /** `s.match(/\{[\s\S]*\}/)`: from the first `{` to the last `}`, when that `}` comes after it. */
  function ObjectMatch(s: string): (r: Option<(nat, nat)>)
    ensures r.None? <==> forall i, j :: 0 <= i < j < |s| ==> !(s[i] == '{' && s[j] == '}')
    ensures r.Some? ==> ObjectAt(s, r.value.0, r.value.1)
  {
    match (IndexOf(s, '{'), LastIndexOf(s, '}'))
    case (Some(i), Some(k)) => if i < k then Some((i, k + 1)) else None
    case _ => None
  }

  /** The match is the leftmost one, and of those starting there the longest: JavaScript's rule for this regex. */
  lemma ObjectMatchLeftmostLongest(s: string, i: nat, j: nat)
    requires ObjectAt(s, i, j)
    ensures ObjectMatch(s).Some?
    ensures var (b, e) := ObjectMatch(s).value; b <= i && (b == i ==> j <= e)
  {
    assert !(forall i', j' :: 0 <= i' < j' < |s| ==> !(s[i'] == '{' && s[j'] == '}')) by {
      assert s[i] == '{' && s[j - 1] == '}' && i < j - 1;
    }
  }

  /** The cleaned text: the matched object when there is one, the text itself otherwise. */
  function ExtractObject(s: string): (r: string)
    ensures ObjectMatch(s).None? ==> r == s
    ensures ObjectMatch(s).Some? ==> 2 <= |r| && r[0] == '{' && r[|r| - 1] == '}'
    ensures ObjectMatch(s).Some? ==> r == s[ObjectMatch(s).value.0..ObjectMatch(s).value.1]
  {
    match ObjectMatch(s)
    case None => s
    case Some((i, j)) => s[i..j]
  }

  /** Cutting out the object a second time changes nothing. */
  lemma ExtractObjectIdempotent(s: string)
    ensures ExtractObject(ExtractObject(s)) == ExtractObject(s)
  {
    var r := ExtractObject(s);
    if ObjectMatch(s).Some? {
      ObjectMatchLeftmostLongest(r, 0, |r|);
      var (b, e) := ObjectMatch(r).value;
      assert r[0..|r|] == r;
    }
  }

  /** What `JSON.parse` is handed: the trimmed reply, without fences, cut to its object. */
  function CleanedResponse(response: string): string {
    ExtractObject(StripFence(Trim(response)))
  }

  /** The successive reassignments of `cleanResponse` in the route. */
  method CleanResponse(response: string) returns (cleanResponse: string)
    ensures cleanResponse == CleanedResponse(response)
  {
    cleanResponse := Trim(response);
    if StartsWith(cleanResponse, JsonFence) {
      cleanResponse := DropOpening(cleanResponse, JsonFence);
      cleanResponse := DropClosing(cleanResponse);
    } else if StartsWith(cleanResponse, Fence) {
      cleanResponse := DropOpening(cleanResponse, Fence);
      cleanResponse := DropClosing(cleanResponse);
    }
    var jsonMatch := ObjectMatch(cleanResponse);
    if jsonMatch.Some? {
      cleanResponse := cleanResponse[jsonMatch.value.0..jsonMatch.value.1];
    }
  }

  // ------------------------------------------------------- acceptance

  /** The parsed object, each field `None` when it is missing or falsy. */
  datatype ParsedCoaching = ParsedCoaching(milestones: Option<seq<Milestone>>, habits: Option<seq<Habit>>, advice: Option<string>)

  /** The structure check: milestones, habits and advice all present and truthy (an empty text is falsy, an empty array is not). */
  predicate Accepted(p: ParsedCoaching) {
    p.milestones.Some? && p.habits.Some? && p.advice.Some? && p.advice.value != []
  }

  const DefaultAdvice: string := "Unable to parse AI response. Please try again for personalized coaching advice."

  const FallbackMilestones: seq<Milestone> := [
    Milestone("Break down your goal", "Divide your goal into smaller, manageable steps", "1 week", "high"),
    Milestone("Set weekly targets", "Create specific weekly objectives to track progress", "ongoing", "high"),
    Milestone("Track progress regularly", "Monitor and adjust your approach based on results", "ongoing", "medium")
  ]

  const FallbackHabits: seq<Habit> := [
    Habit("Daily practice", "Dedicate time each day to work toward your goal", "daily", "high"),
    Habit("Weekly review", "Reflect on progress and adjust strategies", "weekly", "medium"),
    Habit("Monthly assessment", "Evaluate overall progress and set new targets", "monthly", "high")
  ]

  /** The advice used when the reply cannot be used: three milestones, three habits, and the salvaged or default advice. */
  function Fallback(salvaged: Option<string>): (r: LLMCoachingResponse)
    ensures |r.milestones| == 3 && |r.habits| == 3
    ensures salvaged.Some? ==> r.advice == salvaged.value
    ensures salvaged.None? ==> r.advice == DefaultAdvice
  {
    LLMCoachingResponse(FallbackMilestones, FallbackHabits, if salvaged.Some? then salvaged.value else DefaultAdvice)
  }

  /** The data the route answers with, given the outcome of parsing and of salvaging. */
  function CoachingData(parsed: Option<ParsedCoaching>, salvaged: Option<string>): (r: LLMCoachingResponse)
    ensures parsed.Some? && Accepted(parsed.value) ==>
      r == LLMCoachingResponse(parsed.value.milestones.value, parsed.value.habits.value, parsed.value.advice.value)
    ensures !(parsed.Some? && Accepted(parsed.value)) ==> r == Fallback(salvaged)
  {
    if parsed.Some? && Accepted(parsed.value) then
      LLMCoachingResponse(parsed.value.milestones.value, parsed.value.habits.value, parsed.value.advice.value)
    else Fallback(salvaged)
  }

  /** Whichever way it goes, the advice the page receives is not empty, as long as salvaging never yields an empty text. */
  lemma CoachingDataHasAdvice(parsed: Option<ParsedCoaching>, salvaged: Option<string>)
    requires salvaged.Some? ==> salvaged.value != []
    ensures CoachingData(parsed, salvaged).advice != []
  {
  }

  /** A reply that is accepted is passed on field for field; the fallback is used exactly when it is not. */
  lemma CoachingDataFallbackIff(parsed: Option<ParsedCoaching>, salvaged: Option<string>)
    ensures CoachingData(parsed, salvaged) == Fallback(salvaged) <==>
      !(parsed.Some? && Accepted(parsed.value))
      || (parsed.value.milestones.value == FallbackMilestones && parsed.value.habits.value == FallbackHabits
          && parsed.value.advice.value == Fallback(salvaged).advice)
  {
  }

  /**
   * The successful answer of the route for a model reply: none for an empty
   * reply (the route throws), otherwise the accepted parse of the cleaned
   * reply or the fallback.
   */
  function CoachingResult(response: string, parse: string -> Option<ParsedCoaching>, salvage: string -> Option<string>)
    : (r: Option<LLMCoachingResponse>)
    ensures r.None? <==> response == []
    ensures r.Some? ==> r.value == CoachingData(parse(CleanedResponse(response)), salvage(response))
  {
    if response == [] then None else Some(CoachingData(parse(CleanedResponse(response)), salvage(response)))
  }

  // ------------------------------------------------------------ prompt

  /** `previousUpdates.slice(-2)`. */
  function LastTwo(updates: seq<ProgressUpdate>): (r: seq<ProgressUpdate>)
    ensures |r| == if |updates| < 2 then |updates| else 2
    ensures r == updates[|updates| - |r|..]
  {
    if |updates| < 2 then updates else updates[|updates| - 2..]
  }

  function JournalEntries(updates: seq<ProgressUpdate>): (r: seq<string>)
    ensures |r| == |updates| && forall i :: 0 <= i < |updates| ==> r[i] == updates[i].journalEntry
  {
    seq(|updates|, i requires 0 <= i < |updates| => updates[i].journalEntry)
  }

  /** The context line of `createCoachingPrompt`. */
  function RecentContext(previous: seq<ProgressUpdate>): string {
    if |previous| > 0 then "Recent progress: " + Join(JournalEntries(LastTwo(previous)), "; ")
    else "No previous progress updates"
  }

  /** The context line names the entries of the last two updates, or says there are none. */
  lemma RecentContextIs(previous: seq<ProgressUpdate>)
    ensures previous == [] ==> RecentContext(previous) == "No previous progress updates"
    ensures |previous| == 1 ==> RecentContext(previous) == "Recent progress: " + previous[0].journalEntry
    ensures |previous| >= 2 ==>
      RecentContext(previous) == "Recent progress: " + (previous[|previous| - 2].journalEntry + "; " + previous[|previous| - 1].journalEntry)
  {
    var entries := JournalEntries(LastTwo(previous));
    if |previous| >= 2 {
      assert Join(entries[1..], "; ") == entries[1];
    }
  }

  /** Only the last two updates reach the prompt. */
  lemma RecentContextUsesLastTwo(a: seq<ProgressUpdate>, b: seq<ProgressUpdate>)
    requires |a| >= 2 && |b| >= 2
    requires a[|a| - 2].journalEntry == b[|b| - 2].journalEntry && a[|a| - 1].journalEntry == b[|b| - 1].journalEntry
    ensures RecentContext(a) == RecentContext(b)
  {
    RecentContextIs(a);
    RecentContextIs(b);
  }

  /** The six lines every coaching prompt opens with; absent or empty fields read as their placeholders. */
  function BasePrompt(goal: Goal, previous: seq<ProgressUpdate>, show: real -> string): string {
    "Goal: " + goal.title
      + "\nDescription: " + OrDefault(goal.description, "No description")
      + "\nCurrent Progress: " + show(goal.overallProgress) + "%"
      + "\nInitial Progress: " + OrDefault(goal.initialProgress, "Not specified")
      + "\nContext: " + OrDefault(goal.context, "No additional context")
      + "\n" + RecentContext(previous)
  }

  const QuestionFooter: string := "\n\nProvide specific advice addressing their question."
  const PlanFooter: string := "\n\nProvide strategic milestones and habits to help achieve this goal."

  /** `createCoachingPrompt`: a non-empty user input selects the question template. */
  function CoachingPrompt(goal: Goal, previous: seq<ProgressUpdate>, userInput: Option<string>, show: real -> string)
    : (r: string)
    ensures StartsWith(r, BasePrompt(goal, previous, show))
    ensures userInput.Some? && userInput.value != [] ==>
      EndsWith(r, "\n\nUser Question: " + userInput.value + QuestionFooter)
    ensures !(userInput.Some? && userInput.value != []) ==> EndsWith(r, PlanFooter)
    ensures userInput.Some? && userInput.value != [] ==>
      |r| == |BasePrompt(goal, previous, show)| + |"\n\nUser Question: " + userInput.value + QuestionFooter|
    ensures !(userInput.Some? && userInput.value != []) ==> |r| == |BasePrompt(goal, previous, show)| + |PlanFooter|
  {
    var base := BasePrompt(goal, previous, show);
    var footer := if userInput.Some? && userInput.value != [] then "\n\nUser Question: " + userInput.value + QuestionFooter
      else PlanFooter;
    StartsWithAppend(base, footer);
    EndsWithAppend(base, footer);
    base + footer
  }
}
