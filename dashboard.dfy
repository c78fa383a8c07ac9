/**
 * The goal-list operations of the dashboard (src/components/Dashboard.tsx):
 * adding a goal from the form, changing a goal's status, and the three
 * sections the list is shown in. Identifiers and timestamps are parameters.
 */
module Dashboard {
  import opened Types
  import opened JsText

  /** `value || undefined` on a form field: the empty string is absent. */
  function NonEmpty(s: string): (r: Option<string>)
    ensures r.None? <==> s == []
    ensures r.Some? ==> r.value == s
  {
    if s == [] then None else Some(s)
  }

  /** The goal `handleAddGoal` creates: no progress yet, in progress. */
  function NewGoal(id: string, title: string, description: string, initialProgress: string, context: string,
                   createdAt: string, updatedAt: string): (g: Goal)
    ensures g.id == id && g.title == title && g.description == Some(description)
    ensures g.initialProgress.None? <==> initialProgress == []
    ensures g.context.None? <==> context == []
    ensures g.initialProgress.Some? ==> g.initialProgress.value == initialProgress
    ensures g.context.Some? ==> g.context.value == context
    ensures g.overallProgress == 0.0 && g.status == InProgress
    ensures g.createdAt == createdAt && g.updatedAt == updatedAt
  {
    Goal(id, title, Some(description), NonEmpty(initialProgress), NonEmpty(context), 0.0, InProgress, createdAt, updatedAt)
  }

  /** `handleAddGoal`: the list with the new goal appended. */
  function AddGoal(goals: seq<Goal>, id: string, title: string, description: string, initialProgress: string,
                   context: string, createdAt: string, updatedAt: string): (r: seq<Goal>)
    ensures |r| == |goals| + 1
    ensures r[..|goals|] == goals
    ensures r[|goals|] == NewGoal(id, title, description, initialProgress, context, createdAt, updatedAt)
  {
    goals + [NewGoal(id, title, description, initialProgress, context, createdAt, updatedAt)]
  }

  /** One element of `handleStatusChange`'s map. */
  function WithStatus(g: Goal, goalId: string, status: string, now: string): (r: Goal)
    ensures g.id == goalId ==> r == g.(status := status, updatedAt := now)
    ensures g.id != goalId ==> r == g
  {
    if g.id == goalId then g.(status := status, updatedAt := now) else g
  }

  /** `handleStatusChange`: only the goals with the given id take the new status and timestamp. */
  function SetStatus(goals: seq<Goal>, goalId: string, status: string, now: string): (r: seq<Goal>)
    ensures |r| == |goals|
    ensures forall i :: 0 <= i < |goals| && goals[i].id == goalId ==>
      r[i] == goals[i].(status := status, updatedAt := now)
    ensures forall i :: 0 <= i < |goals| && goals[i].id != goalId ==> r[i] == goals[i]
  {
    seq(|goals|, i requires 0 <= i < |goals| => WithStatus(goals[i], goalId, status, now))
  }

  /** Setting a status twice is setting it once. */
  lemma SetStatusIdempotent(goals: seq<Goal>, goalId: string, status: string, now: string)
    ensures SetStatus(SetStatus(goals, goalId, status, now), goalId, status, now) == SetStatus(goals, goalId, status, now)
  {
  }

  /** A status change keeps every goal's identity in place, so it can be undone on the same ids. */
  lemma SetStatusKeepsIds(goals: seq<Goal>, goalId: string, status: string, now: string)
    ensures var r := SetStatus(goals, goalId, status, now);
      forall i :: 0 <= i < |goals| ==>
        r[i].id == goals[i].id && r[i].title == goals[i].title && r[i].overallProgress == goals[i].overallProgress
  {
  }

  /** The goals shown under one status heading, in list order. */
  function Section(goals: seq<Goal>, status: string): (r: seq<Goal>)
    ensures forall i :: 0 <= i < |r| ==> r[i] in goals && r[i].status == status
    ensures forall i :: 0 <= i < |goals| && goals[i].status == status ==> goals[i] in r
  {
    var p := (g: Goal) => g.status == status;
    FilterMembers(goals, p);
    Filter(goals, p)
  }

  /** The goals whose status is none of the three the dashboard shows. */
  function Unshown(goals: seq<Goal>): (r: seq<Goal>)
    ensures forall i :: 0 <= i < |r| ==> r[i] in goals && r[i].status !in {InProgress, Paused, Completed}
    ensures forall i :: 0 <= i < |goals| && goals[i].status !in {InProgress, Paused, Completed} ==> goals[i] in r
  {
    var p := (g: Goal) => g.status !in {InProgress, Paused, Completed};
    FilterMembers(goals, p);
    Filter(goals, p)
  }

  /** A goal with one of the three statuses appears in its own section and in no other. */
  lemma SectionsAreDisjoint(goals: seq<Goal>, i: nat)
    requires i < |goals| && goals[i].status in {InProgress, Paused, Completed}
    ensures goals[i] in Section(goals, goals[i].status)
    ensures forall s :: s in {InProgress, Paused, Completed} && s != goals[i].status ==> goals[i] !in Section(goals, s)
  {
  }

  /** The three sections and the unshown goals together account for every goal exactly once. */
  lemma {:induction false} SectionsPartition(goals: seq<Goal>)
    ensures |Section(goals, InProgress)| + |Section(goals, Paused)| + |Section(goals, Completed)| + |Unshown(goals)| == |goals|
    decreases |goals|
  {
    if goals != [] {
      SectionsPartition(goals[1..]);
    }
  }

  /** Adding a goal puts it at the end of the in-progress section and leaves the other sections as they were. */
  lemma AddGoalSections(goals: seq<Goal>, id: string, title: string, description: string, initialProgress: string,
                        context: string, createdAt: string, updatedAt: string)
    ensures var r := AddGoal(goals, id, title, description, initialProgress, context, createdAt, updatedAt);
      && Section(r, InProgress) == Section(goals, InProgress) + [r[|goals|]]
      && Section(r, Paused) == Section(goals, Paused)
      && Section(r, Completed) == Section(goals, Completed)
  {
    var g := NewGoal(id, title, description, initialProgress, context, createdAt, updatedAt);
    FilterAppend(goals, [g], (g: Goal) => g.status == InProgress);
    FilterAppend(goals, [g], (g: Goal) => g.status == Paused);
    FilterAppend(goals, [g], (g: Goal) => g.status == Completed);
  }

  /** The four fields the add form hands to `handleAddGoal`. */
  datatype GoalFields = GoalFields(title: string, description: string, initialProgress: string, context: string)

  /** The state of the add-goal form (`AddGoalModal`). */
  class AddGoalForm {
    var title: string
    var description: string
    var initialProgress: string
    var context: string

    constructor()
      ensures title == [] && description == [] && initialProgress == [] && context == []
    {
      title, description, initialProgress, context := [], [], [], [];
    }

    /**
     * `handleSubmit`: with a title that is not blank, the four trimmed fields
     * are handed on and the form is cleared; otherwise nothing happens.
     */
    method Submit() returns (submitted: Option<GoalFields>)
      modifies this
      ensures Trim(old(title)) == [] ==> submitted.None? && unchanged(this)
      ensures Trim(old(title)) != [] ==>
        && submitted == Some(GoalFields(Trim(old(title)), Trim(old(description)), Trim(old(initialProgress)), Trim(old(context))))
        && title == [] && description == [] && initialProgress == [] && context == []
      ensures submitted.Some? ==> submitted.value.title != [] && !IsSpace(submitted.value.title[0])
    {
      if Trim(title) != [] {
        submitted := Some(GoalFields(Trim(title), Trim(description), Trim(initialProgress), Trim(context)));
        title := [];
        description := [];
        initialProgress := [];
        context := [];
      } else {
        submitted := None;
      }
    }
  }
}
