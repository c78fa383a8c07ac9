/**
 * The progress helpers of src/lib/utils.ts: the display text of a progress
 * value, the clamp into [0, 100], and the colour class of a progress bar.
 * `generateId` and `getCurrentTimestamp` are not modelled: identifiers and
 * timestamps are parameters wherever they are used.
 */
module Utils {
  import opened JsText
  import opened JsMath

  /** `formatProgress`: the rounded value followed by a percent sign. */
  function FormatProgress(progress: real): (r: string)
    ensures 2 <= |r| && r[|r| - 1] == '%'
    ensures r[..|r| - 1] == IntToString(Round(progress))
  {
    IntToString(Round(progress)) + "%"
  }

  /** The text before the percent sign reads back as the rounded value. */
  lemma FormatProgressReadsBack(progress: real)
    requires progress >= -0.5
    ensures var r := FormatProgress(progress);
      (forall k :: 0 <= k < |r| - 1 ==> IsDigit(r[k])) && DigitsValue(r[..|r| - 1]) == Round(progress)
  {
    IntToStringRoundTrip(Round(progress));
  }

  /** `validateProgress`: the value clamped into [0, 100]. */
  function ValidateProgress(progress: real): (r: real)
    ensures 0.0 <= r <= 100.0
    ensures 0.0 <= progress <= 100.0 ==> r == progress
    ensures progress < 0.0 ==> r == 0.0
    ensures progress > 100.0 ==> r == 100.0
  {
    Max(0.0, Min(100.0, progress))
  }

  lemma ValidateProgressIdempotent(progress: real)
    ensures ValidateProgress(ValidateProgress(progress)) == ValidateProgress(progress)
  {
  }

  lemma ValidateProgressMonotone(p: real, q: real)
    requires p <= q
    ensures ValidateProgress(p) <= ValidateProgress(q)
  {
  }

  /** `getProgressBarColor`: the first threshold the value reaches picks the class. */
  function ProgressBarColor(progress: real): (r: string)
    ensures r == "bg-success-500" <==> progress >= 100.0
    ensures r == "bg-warm-500" <==> 75.0 <= progress < 100.0
    ensures r == "bg-warning-500" <==> 50.0 <= progress < 75.0
    ensures r == "bg-warning-400" <==> 25.0 <= progress < 50.0
    ensures r == "bg-gray-300" <==> progress < 25.0
  {
    if progress >= 100.0 then "bg-success-500"
    else if progress >= 75.0 then "bg-warm-500"
    else if progress >= 50.0 then "bg-warning-500"
    else if progress >= 25.0 then "bg-warning-400"
    else "bg-gray-300"
  }
}
