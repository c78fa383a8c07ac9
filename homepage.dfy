/**
 * The state of the home page (src/app/page.tsx): the goals and updates it
 * loads, how a progress analysis changes them, and the coaching advice kept
 * per goal. The two services are function parameters (`analyse`, `coach`)
 * whose reply is either the data, or a refusal that may carry a fallback;
 * a request that fails outright is a refusal without a fallback. Fresh
 * identifiers and timestamps are parameters as well.
 */
module HomePage {
  import opened Types
  import opened JsText
  import Utils
  import FinancialProgress

  // ------------------------------------------------------------ migration

  /** `goal.status || 'in-progress'` (a missing status is stored as the empty string). */
  function MigrateStatus(status: string): (r: string)
    ensures r != []
    ensures status != [] ==> r == status
    ensures status == [] ==> r == InProgress
  {
    if status == [] then InProgress else status
  }

  /** The migration applied to the stored goals on load. */
  function Migrate(goals: seq<Goal>): (r: seq<Goal>)
    ensures |r| == |goals|
    ensures forall i :: 0 <= i < |goals| ==>
      && r[i].status == MigrateStatus(goals[i].status)
      && r[i].(status := goals[i].status) == goals[i]
  {
    seq(|goals|, i requires 0 <= i < |goals| => goals[i].(status := MigrateStatus(goals[i].status)))
  }

  /** Migrating twice is migrating once. */
  lemma MigrateIdempotent(goals: seq<Goal>)
    ensures Migrate(Migrate(goals)) == Migrate(goals)
  {
  }

  /** Goals that already had a status come out of the migration untouched. */
  lemma MigrateKeepsStatusedGoals(goals: seq<Goal>)
    requires forall i :: 0 <= i < |goals| ==> goals[i].status != []
    ensures Migrate(goals) == goals
  {
    assert forall i :: 0 <= i < |goals| ==> Migrate(goals)[i] == goals[i];
  }

  // -------------------------------------------------------------- look-up

  /** Where `goals.find(g => g.id === goalId)` stops. */
  function GoalIndex(goals: seq<Goal>, goalId: string): (r: Option<nat>)
    ensures r.None? <==> forall i :: 0 <= i < |goals| ==> goals[i].id != goalId
    ensures r.Some? ==> r.value < |goals| && goals[r.value].id == goalId
    ensures r.Some? ==> forall j :: 0 <= j < r.value ==> goals[j].id != goalId
    decreases |goals|
  {
    if goals == [] then None
    else if goals[0].id == goalId then Some(0)
    else
      match GoalIndex(goals[1..], goalId)
      case None => None
      case Some(i) => Some(i + 1)
  }

  /** `goals.find(g => g.id === goalId)`. */
  function GoalById(goals: seq<Goal>, goalId: string): (r: Option<Goal>)
    ensures r.None? <==> forall i :: 0 <= i < |goals| ==> goals[i].id != goalId
    ensures r.Some? ==> r.value.id == goalId && r.value in goals
    ensures r.Some? ==> exists i :: 0 <= i < |goals| && goals[i] == r.value && forall j :: 0 <= j < i ==> goals[j].id != goalId
  {
    match GoalIndex(goals, goalId)
    case None => None
    case Some(i) => Some(goals[i])
  }

  /** Two lists with the same ids in the same places find a goal at the same place. */
  lemma {:induction false} GoalIndexSameIds(a: seq<Goal>, b: seq<Goal>, goalId: string)
    requires |a| == |b|
    requires forall i :: 0 <= i < |a| ==> a[i].id == b[i].id
    ensures GoalIndex(a, goalId) == GoalIndex(b, goalId)
    decreases |a|
  {
    if a != [] && a[0].id != goalId {
      GoalIndexSameIds(a[1..], b[1..], goalId);
    }
  }

  /** `updates.filter(update => update.goalId === goalId)`. */
  function PreviousUpdates(updates: seq<ProgressUpdate>, goalId: string): (r: seq<ProgressUpdate>)
    ensures forall i :: 0 <= i < |r| ==> r[i] in updates && r[i].goalId == goalId
    ensures forall i :: 0 <= i < |updates| && updates[i].goalId == goalId ==> updates[i] in r
  {
    var p := (u: ProgressUpdate) => u.goalId == goalId;
    FilterMembers(updates, p);
    Filter(updates, p)
  }

  /** An appended update is the last of its own goal's updates and does not touch any other goal's. */
  lemma PreviousUpdatesAppend(updates: seq<ProgressUpdate>, u: ProgressUpdate, goalId: string)
    ensures u.goalId == goalId ==> PreviousUpdates(updates + [u], goalId) == PreviousUpdates(updates, goalId) + [u]
    ensures u.goalId != goalId ==> PreviousUpdates(updates + [u], goalId) == PreviousUpdates(updates, goalId)
  {
    FilterAppend(updates, [u], (u: ProgressUpdate) => u.goalId == goalId);
  }

  // ------------------------------------------------------------- progress

  /** One element of the `goals.map` that applies an analysis. */
  function Progressed(g: Goal, goalId: string, overall: real, timestamp: string): (r: Goal)
    ensures g.id != goalId ==> r == g
    ensures g.id == goalId ==> r.overallProgress == Utils.ValidateProgress(overall) && r.updatedAt == timestamp
  {
    if g.id == goalId then
      var newProgress := Utils.ValidateProgress(overall);
      g.(overallProgress := newProgress, status := if newProgress >= 100.0 then Completed else g.status, updatedAt := timestamp)
    else g
  }

  /**
   * The goals after an analysis with the given overall progress: only the
   * goal with the id changes; it takes the clamped progress and the
   * timestamp, and it becomes completed when the clamped progress reaches
   * 100, keeping its status otherwise.
   */
  function ApplyProgress(goals: seq<Goal>, goalId: string, overall: real, timestamp: string): (r: seq<Goal>)
    ensures |r| == |goals|
    ensures forall i :: 0 <= i < |goals| && goals[i].id != goalId ==> r[i] == goals[i]
    ensures forall i :: 0 <= i < |goals| && goals[i].id == goalId ==>
      && r[i].overallProgress == Utils.ValidateProgress(overall)
      && (r[i].status == Completed <==> Utils.ValidateProgress(overall) >= 100.0 || goals[i].status == Completed)
      && (Utils.ValidateProgress(overall) < 100.0 ==> r[i].status == goals[i].status)
      && r[i].updatedAt == timestamp
      && r[i].(overallProgress := goals[i].overallProgress, status := goals[i].status, updatedAt := goals[i].updatedAt) == goals[i]
  {
    seq(|goals|, i requires 0 <= i < |goals| => Progressed(goals[i], goalId, overall, timestamp))
  }

  /** Applying the same analysis twice is applying it once. */
  lemma ApplyProgressIdempotent(goals: seq<Goal>, goalId: string, overall: real, timestamp: string)
    ensures var once := ApplyProgress(goals, goalId, overall, timestamp);
      ApplyProgress(once, goalId, overall, timestamp) == once
  {
    var once := ApplyProgress(goals, goalId, overall, timestamp);
    var twice := ApplyProgress(once, goalId, overall, timestamp);
    forall i | 0 <= i < |goals|
      ensures twice[i] == once[i]
    {
      Utils.ValidateProgressIdempotent(overall);
    }
  }

  /** `wasAutoCompleted`: the clamped progress reaches 100 and the goal found before was not already completed. */
  function WasAutoCompleted(goals: seq<Goal>, goalId: string, overall: real): (r: bool)
    ensures r <==>
      Utils.ValidateProgress(overall) >= 100.0 && (GoalById(goals, goalId).None? || GoalById(goals, goalId).value.status != Completed)
  {
    Utils.ValidateProgress(overall) >= 100.0 &&
      match GoalById(goals, goalId)
      case None => true
      case Some(g) => g.status != Completed
  }

  /**
   * For a goal that exists, the page congratulates exactly when applying
   * the analysis turns the goal it finds from not completed to completed.
   */
  lemma AutoCompletionIsStatusChange(goals: seq<Goal>, goalId: string, overall: real, timestamp: string)
    requires GoalById(goals, goalId).Some?
    ensures var after := GoalById(ApplyProgress(goals, goalId, overall, timestamp), goalId);
      && after.Some?
      && (WasAutoCompleted(goals, goalId, overall) <==>
            GoalById(goals, goalId).value.status != Completed && after.value.status == Completed)
  {
    var r := ApplyProgress(goals, goalId, overall, timestamp);
    GoalIndexSameIds(goals, r, goalId);
  }

  /** The opening the page puts before the feedback of a goal it has just completed. */
  const CongratsPrefix: string := PartyPopper + " Congratulations! Goal completed! "

  /** The feedback shown after an analysis. */
  function FeedbackMessage(autoCompleted: bool, feedback: string): (r: string)
    ensures EndsWith(r, feedback)
    ensures autoCompleted ==> StartsWith(r, CongratsPrefix) && |r| == |CongratsPrefix| + |feedback|
    ensures !autoCompleted ==> r == feedback
  {
    if autoCompleted then
      StartsWithAppend(CongratsPrefix, feedback);
      EndsWithAppend(CongratsPrefix, feedback);
      CongratsPrefix + feedback
    else
      EndsWithAppend([], feedback);
      assert [] + feedback == feedback;
      feedback
  }

  /** The feedback shown, and recorded, when the analysis failed. */
  const UnavailableFeedback: string := "Your progress has been recorded. AI analysis is temporarily unavailable."

  /** The reasoning shown, and recorded, when the analysis failed. */
  const UnavailableReasoning: string := "Unable to analyze progress due to technical issues"

  /** The update the `catch` block records: the goal's progress as it was, no increase. */
  function FailureRecord(id: string, goal: Goal, journalEntry: string, timestamp: string): (u: ProgressUpdate)
    ensures u.id == id && u.goalId == goal.id && u.journalEntry == journalEntry && u.timestamp == timestamp
    ensures u.llmResponse.Some? && u.llmResponse.value.overallProgress == goal.overallProgress
    ensures u.llmResponse.value.progressIncrease == 0.0
    ensures u.llmResponse.value.feedback == UnavailableFeedback && u.llmResponse.value.reasoning == UnavailableReasoning
  {
    ProgressUpdate(id, goal.id, journalEntry, timestamp,
      Some(LLMProgressResponse(goal.overallProgress, 0.0, UnavailableReasoning, UnavailableFeedback)))
  }

  /**
   * A failure record keeps the baseline of the next analysis where it was:
   * the progress the arithmetic path reads from the goal's last update is
   * the goal's own progress.
   */
  lemma FailureRecordKeepsBaseline(updates: seq<ProgressUpdate>, id: string, goal: Goal, journalEntry: string, timestamp: string)
    ensures FinancialProgress.PreviousProgress(PreviousUpdates(updates + [FailureRecord(id, goal, journalEntry, timestamp)], goal.id))
      == goal.overallProgress
  {
    PreviousUpdatesAppend(updates, FailureRecord(id, goal, journalEntry, timestamp), goal.id);
  }

  // ---------------------------------------------------------------- state

  /** What the progress service answers (`result.success && result.data`, else `result.fallback`). */
  datatype ProgressReply = Analysed(data: LLMProgressResponse) | Refused(fallback: Option<LLMProgressResponse>)

  /** What the coaching service answers, in the same shape. */
  datatype CoachingReply = Coached(data: LLMCoachingResponse) | CoachingRefused(fallback: Option<LLMCoachingResponse>)

  /** The state `HomePage` keeps; the loading flag is not modelled. */
  class Home {
    var goals: seq<Goal>
    var updates: seq<ProgressUpdate>
    var latestFeedback: string
    var latestProgressIncrease: Option<real>
    var latestReasoning: string
    var coachingResponses: map<string, LLMCoachingResponse>

    constructor()
      ensures goals == [] && updates == [] && latestFeedback == [] && latestProgressIncrease.None?
      ensures latestReasoning == [] && coachingResponses == map[]
    {
      goals, updates := [], [];
      latestFeedback, latestProgressIncrease, latestReasoning := [], None, [];
      coachingResponses := map[];
    }

    /** The load on mount: the stored goals, migrated, and the stored updates as they are. */
    method Load(storedGoals: seq<Goal>, storedUpdates: seq<ProgressUpdate>)
      modifies this
      ensures goals == Migrate(storedGoals) && updates == storedUpdates
      ensures latestFeedback == old(latestFeedback) && latestProgressIncrease == old(latestProgressIncrease)
      ensures latestReasoning == old(latestReasoning) && coachingResponses == old(coachingResponses)
    {
      goals := Migrate(storedGoals);
      updates := storedUpdates;
    }

    /**
     * An analysis (the reply or its fallback) applied to the page: the goal
     * list, the three feedback fields, and the update recorded with it.
     */
    method RecordAnalysis(newUpdate: ProgressUpdate, response: LLMProgressResponse, progressTimestamp: string)
      modifies this
      ensures goals == ApplyProgress(old(goals), newUpdate.goalId, response.overallProgress, progressTimestamp)
      ensures updates == old(updates) + [newUpdate.(llmResponse := Some(response))]
      ensures latestFeedback == FeedbackMessage(WasAutoCompleted(old(goals), newUpdate.goalId, response.overallProgress), response.feedback)
      ensures latestProgressIncrease == Some(response.progressIncrease) && latestReasoning == response.reasoning
      ensures coachingResponses == old(coachingResponses)
    {
      var recorded := newUpdate.(llmResponse := Some(response));
      var wasAutoCompleted := WasAutoCompleted(goals, newUpdate.goalId, response.overallProgress);
      goals := ApplyProgress(goals, newUpdate.goalId, response.overallProgress, progressTimestamp);
      updates := updates + [recorded];
      latestFeedback := FeedbackMessage(wasAutoCompleted, response.feedback);
      latestProgressIncrease := Some(response.progressIncrease);
      latestReasoning := response.reasoning;
    }

    /** The `catch` block: the entry is still recorded, with the goal's progress unchanged. */
    method RecordFailure(goal: Goal, journalEntry: string, errorId: string, errorTimestamp: string)
      modifies this
      ensures updates == old(updates) + [FailureRecord(errorId, goal, journalEntry, errorTimestamp)]
      ensures latestFeedback == UnavailableFeedback && latestProgressIncrease == Some(0.0)
      ensures latestReasoning == UnavailableReasoning
      ensures goals == old(goals) && coachingResponses == old(coachingResponses)
    {
      latestFeedback := UnavailableFeedback;
      latestProgressIncrease := Some(0.0);
      latestReasoning := UnavailableReasoning;
      updates := updates + [FailureRecord(errorId, goal, journalEntry, errorTimestamp)];
    }

    /**
     * `handleSubmitUpdate`. A reply with data is applied and recorded. A
     * refusal with a fallback applies and records the fallback and then
     * still ends in the `catch` block, which records a failure as well; a
     * refusal without one only records the failure. An unknown goal changes
     * nothing.
     */
    method SubmitUpdate(goalId: string, journalEntry: string,
                        analyse: (Goal, string, seq<ProgressUpdate>) -> ProgressReply,
                        updateId: string, timestamp: string, fallbackTimestamp: string,
                        errorId: string, errorTimestamp: string)
      modifies this
      ensures GoalById(old(goals), goalId).None? ==> unchanged(this)
      ensures coachingResponses == old(coachingResponses)
      ensures GoalById(old(goals), goalId).Some? ==>
        var goal := GoalById(old(goals), goalId).value;
        match analyse(goal, journalEntry, PreviousUpdates(old(updates), goalId))
        case Analysed(data) =>
          && goals == ApplyProgress(old(goals), goalId, data.overallProgress, timestamp)
          && updates == old(updates) + [ProgressUpdate(updateId, goalId, journalEntry, timestamp, Some(data))]
          && latestFeedback == FeedbackMessage(WasAutoCompleted(old(goals), goalId, data.overallProgress), data.feedback)
          && latestProgressIncrease == Some(data.progressIncrease)
          && latestReasoning == data.reasoning
        case Refused(Some(fallback)) =>
          && goals == ApplyProgress(old(goals), goalId, fallback.overallProgress, fallbackTimestamp)
          && updates == old(updates) + [ProgressUpdate(updateId, goalId, journalEntry, timestamp, Some(fallback)),
                                        FailureRecord(errorId, goal, journalEntry, errorTimestamp)]
          && latestFeedback == UnavailableFeedback && latestProgressIncrease == Some(0.0)
          && latestReasoning == UnavailableReasoning
        case Refused(None) =>
          && goals == old(goals)
          && updates == old(updates) + [FailureRecord(errorId, goal, journalEntry, errorTimestamp)]
          && latestFeedback == UnavailableFeedback && latestProgressIncrease == Some(0.0)
          && latestReasoning == UnavailableReasoning
    {
      var found := GoalById(goals, goalId);
      if found.None? {
        return;
      }
      var goal := found.value;
      var newUpdate := ProgressUpdate(updateId, goalId, journalEntry, timestamp, None);
      var previousUpdates := PreviousUpdates(updates, goalId);
      var reply := analyse(goal, journalEntry, previousUpdates);
      match reply {
        case Analysed(data) =>
          RecordAnalysis(newUpdate, data, timestamp);
        case Refused(fallback) =>
          RecordRefusal(goal, newUpdate, fallback, fallbackTimestamp, errorId, errorTimestamp);
      }
    }

    /** A refusal: its fallback, when there is one, is applied, and then the failure is recorded. */
    method RecordRefusal(goal: Goal, newUpdate: ProgressUpdate, fallback: Option<LLMProgressResponse>,
                         fallbackTimestamp: string, errorId: string, errorTimestamp: string)
      requires newUpdate.goalId == goal.id
      modifies this
      ensures fallback.Some? ==>
        && goals == ApplyProgress(old(goals), goal.id, fallback.value.overallProgress, fallbackTimestamp)
        && updates == old(updates) + [newUpdate.(llmResponse := fallback),
                                      FailureRecord(errorId, goal, newUpdate.journalEntry, errorTimestamp)]
      ensures fallback.None? ==>
        && goals == old(goals)
        && updates == old(updates) + [FailureRecord(errorId, goal, newUpdate.journalEntry, errorTimestamp)]
      ensures latestFeedback == UnavailableFeedback && latestProgressIncrease == Some(0.0)
      ensures latestReasoning == UnavailableReasoning && coachingResponses == old(coachingResponses)
    {
      if fallback.Some? {
        RecordAnalysis(newUpdate, fallback.value, fallbackTimestamp);
      }
      RecordFailure(goal, newUpdate.journalEntry, errorId, errorTimestamp);
    }

    /**
     * `handleGetCoaching`: the advice, or the fallback of a refusal, is kept
     * under the goal's id; a refusal without a fallback and an unknown goal
     * keep the advice as it was.
     */
    method GetCoaching(goalId: string, userInput: Option<string>,
                       coach: (Goal, seq<ProgressUpdate>, Option<string>) -> CoachingReply)
      modifies this
      ensures goals == old(goals) && updates == old(updates)
      ensures latestFeedback == old(latestFeedback) && latestProgressIncrease == old(latestProgressIncrease)
      ensures latestReasoning == old(latestReasoning)
      ensures GoalById(old(goals), goalId).None? ==> coachingResponses == old(coachingResponses)
      ensures GoalById(old(goals), goalId).Some? ==>
        match coach(GoalById(old(goals), goalId).value, PreviousUpdates(old(updates), goalId), userInput)
        case Coached(data) => coachingResponses == old(coachingResponses)[goalId := data]
        case CoachingRefused(Some(fallback)) => coachingResponses == old(coachingResponses)[goalId := fallback]
        case CoachingRefused(None) => coachingResponses == old(coachingResponses)
    {
      var found := GoalById(goals, goalId);
      if found.None? {
        return;
      }
      var reply := coach(found.value, PreviousUpdates(updates, goalId), userInput);
      match reply {
        case Coached(data) =>
          coachingResponses := coachingResponses[goalId := data];
        case CoachingRefused(fallback) =>
          if fallback.Some? {
            coachingResponses := coachingResponses[goalId := fallback.value];
          }
      }
    }
  }
}
