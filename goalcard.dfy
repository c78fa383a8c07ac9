/**
 * The status badge and progress bar of a goal card
 * (src/components/GoalCard.tsx). The statuses `completed` and `paused`
 * decide the badge on their own; every other status string, whether
 * `in-progress` or not, falls through to a choice by progress.
 */
module GoalCard {
  import opened Types
  import opened JsMath
  import Utils

  /** `getStatusColor`, for a card whose goal has the given progress. */
  function StatusColor(status: string, progress: real): (r: string)
    ensures status == Completed ==> r == "bg-green-400"
    ensures status == Paused ==> r == "bg-yellow-400"
    ensures status != Completed && status != Paused ==>
      && (r == "bg-gray-400" <==> progress == 0.0)
      && (r == "bg-red-400" <==> progress != 0.0 && progress < 25.0)
      && (r == "bg-blue-400" <==> 25.0 <= progress < 50.0)
      && (r == "bg-blue-500" <==> 50.0 <= progress < 75.0)
      && (r == "bg-green-500" <==> progress >= 75.0)
  {
    if status == Completed then "bg-green-400"
    else if status == Paused then "bg-yellow-400"
    else if progress == 0.0 then "bg-gray-400"
    else if progress < 25.0 then "bg-red-400"
    else if progress < 50.0 then "bg-blue-400"
    else if progress < 75.0 then "bg-blue-500"
    else "bg-green-500"
  }

  /** `getStatusText`, for a card whose goal has the given progress. */
  function StatusText(status: string, progress: real): (r: string)
    ensures status == Completed ==> r == "Completed"
    ensures status == Paused ==> r == "Paused"
    ensures status != Completed && status != Paused ==>
      && (r == "Not Started" <==> progress == 0.0)
      && (r == "Getting Started" <==> progress != 0.0 && progress < 25.0)
      && (r == "In Progress" <==> 25.0 <= progress < 50.0)
      && (r == "Making Good Progress" <==> 50.0 <= progress < 75.0)
      && (r == "Complete" <==> progress == 100.0)
      && (r == "Almost There" <==> progress >= 75.0 && progress != 100.0)
  {
    if status == Completed then "Completed"
    else if status == Paused then "Paused"
    else if progress == 0.0 then "Not Started"
    else if progress < 25.0 then "Getting Started"
    else if progress < 50.0 then "In Progress"
    else if progress < 75.0 then "Making Good Progress"
    else if progress == 100.0 then "Complete"
    else "Almost There"
  }

  /**
   * Badge colour and badge text follow the same progress bands: outside the
   * completed and paused statuses each text goes with exactly one colour.
   */
  lemma ColorMatchesText(status: string, progress: real)
    requires status != Completed && status != Paused
    ensures var c, t := StatusColor(status, progress), StatusText(status, progress);
      && (c == "bg-gray-400" <==> t == "Not Started")
      && (c == "bg-red-400" <==> t == "Getting Started")
      && (c == "bg-blue-400" <==> t == "In Progress")
      && (c == "bg-blue-500" <==> t == "Making Good Progress")
      && (c == "bg-green-500" <==> t == "Complete" || t == "Almost There")
  {
  }

  /** The width of the filled part of the bar, in percent. */
  function BarWidth(progress: real): (r: real)
    ensures 0.0 <= r <= 100.0
    ensures r == Utils.ValidateProgress(progress)
  {
    Min(100.0, Max(0.0, progress))
  }
}
