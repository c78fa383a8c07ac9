/**
 * The arithmetic path of the progress service (src/app/api/progress/route.ts):
 * a goal whose text mentions money is scored from the amounts written in
 * its text and in the journal entry, without asking the language model.
 *
 * `toLocaleString` and the printing of a number inside a template string are
 * library formatting; they are the parameters `fmt` and `show`.
 */
module FinancialProgress {
  import opened JsText
  import opened Types
  import opened JsMath
  import opened AmountPatterns

  // ------------------------------------------------------------ keywords

  const FinancialKeywords: seq<string> := [
    "bankroll", "savings", "money", "dollar", "$", "budget", "income", "revenue",
    "profit", "loss", "investment", "portfolio", "cash", "fund", "capital",
    "earn", "make money", "financial", "wealth", "net worth"
  ]

  /** The text the classifier and the target extraction read: title, description and context. */
  function GoalText(g: Goal): string {
    g.title + " " + OrEmpty(g.description) + " " + OrEmpty(g.context)
  }

  /** `keywords.some(keyword => text.includes(keyword))`. */
  function AnyIncluded(text: string, keywords: seq<string>): (r: bool)
    ensures r <==> exists k :: 0 <= k < |keywords| && Includes(text, keywords[k])
    decreases |keywords|
  {
    if keywords == [] then false
    else
      var rest := AnyIncluded(text, keywords[1..]);
      assert forall k :: 1 <= k < |keywords| ==> keywords[k] == keywords[1..][k - 1];
      Includes(text, keywords[0]) || rest
  }

  /** `isFinancialGoal`. */
  function IsFinancialGoal(g: Goal): bool {
    AnyIncluded(ToLower(GoalText(g)), FinancialKeywords)
  }

  /**
   * A goal is financial exactly when one of the keywords occurs, as a plain
   * substring, somewhere in its lower-cased text.
   */
  lemma IsFinancialGoalIff(g: Goal)
    ensures IsFinancialGoal(g) <==>
      exists k, i :: 0 <= k < |FinancialKeywords| && 0 <= i && OccursAt(ToLower(GoalText(g)), FinancialKeywords[k], i)
  {
    var t := ToLower(GoalText(g));
    forall k | 0 <= k < |FinancialKeywords| {
      IncludesIff(t, FinancialKeywords[k]);
    }
  }

  /**
   * Substrings are not words: "Learn to paint" is classified as financial,
   * because "learn" contains the keyword "earn".
   */
  lemma LearnToPaintIsFinancial(g: Goal)
    requires g.title == "Learn to paint" && g.description.None? && g.context.None?
    ensures IsFinancialGoal(g)
  {
    var t := ToLower(GoalText(g));
    assert t[1..5] == "earn";
    assert OccursAt(t, FinancialKeywords[15], 1);
    IsFinancialGoalIff(g);
  }

  // -------------------------------------------------------------- amounts

  /** The thousands rule of `extractTargetAmount`, applied to the parsed amount. */
  function ScaleThousands(text: string, amount: real): (r: real)
    ensures amount >= 1000.0 ==> r == amount
    ensures !Includes(ToLower(text), "k") ==> r == amount
    ensures Includes(ToLower(text), "k") && amount < 1000.0 ==> r == amount * 1000.0
  {
    if Includes(ToLower(text), "k") && amount < 1000.0 then amount * 1000.0 else amount
  }

  /** The parsed amount of the first pattern of the list that matches `text`. */
  function FirstAmount(patterns: seq<Pattern>, text: string): (r: Option<real>)
    ensures r.Some? ==> r.value >= 0.0
  {
    match FirstMatch(patterns, text)
    case None => None
    case Some((k, m)) =>
      FindMatchGroup(patterns[k], text);
      Some(CapturedAmount(text, m))
  }

  /** There is no amount exactly when none of the patterns matches. */
  lemma FirstAmountNone(patterns: seq<Pattern>, text: string)
    ensures FirstAmount(patterns, text).None? <==> forall k :: 0 <= k < |patterns| ==> FindMatch(patterns[k], text).None?
  {
  }

  /** Once the patterns before `k` have failed and pattern `k` matches, pattern `k` decides. */
  lemma FirstAmountAt(patterns: seq<Pattern>, text: string, k: nat)
    requires k < |patterns| && FindMatch(patterns[k], text).Some?
    requires forall j :: 0 <= j < k ==> FindMatch(patterns[j], text).None?
    ensures FirstAmount(patterns, text) == Some(CapturedAmount(text, FindMatch(patterns[k], text).value))
  {
    FindMatchGroup(patterns[k], text);
  }

  /**
   * The amount is the number the first matching pattern captured: moved by
   * as many places as the capture has fraction digits, it is the value of
   * the capture's digits with its commas and its point dropped.
   */
  lemma FirstAmountValue(patterns: seq<Pattern>, text: string)
    requires FirstAmount(patterns, text).Some?
    ensures var m := FirstMatch(patterns, text).value.1;
      var t := text[m.groupStart..m.groupEnd];
      && NumberText(t)
      && Shift(FirstAmount(patterns, text).value, FracLen(t)) == DigitsValue(Digits(t)) as real
  {
    var k := FirstMatch(patterns, text).value.0;
    FindMatchAmount(patterns[k], text);
  }

  /** What `extractTargetAmount` returns for a goal. */
  function TargetAmount(g: Goal): (r: Option<real>)
    ensures r.Some? ==> r.value >= 0.0
  {
    var text := GoalText(g);
    match FirstAmount(TargetPatterns, text)
    case None => None
    case Some(a) => Some(ScaleThousands(text, a))
  }

  /** What `extractCurrentAmount` returns for a journal entry: never rescaled. */
  function CurrentAmount(entry: string): Option<real> {
    FirstAmount(CurrentPatterns, entry)
  }

  /**
   * The loop shared by `extractTargetAmount` and `extractCurrentAmount`: the
   * patterns in order, the first that matches decides.
   */
  method FindFirstAmount(patterns: seq<Pattern>, text: string) returns (r: Option<real>)
    ensures r == FirstAmount(patterns, text)
  {
    AmountFromStart(patterns, text);
    var k := 0;
    while k < |patterns|
      invariant 0 <= k <= |patterns|
      invariant AmountFrom(patterns, text, k) == FirstAmount(patterns, text)
    {
      var m := FindMatch(patterns[k], text);
      if m.Some? {
        FindMatchGroup(patterns[k], text);
        return Some(CapturedAmount(text, m.value));
      }
      k := k + 1;
    }
    return None;
  }

  /** The amount of the first pattern from `k` on that matches. */
  function AmountFrom(patterns: seq<Pattern>, text: string, k: nat): (r: Option<real>)
    requires k <= |patterns|
    decreases |patterns| - k
  {
    if k == |patterns| then None
    else
      match FindMatch(patterns[k], text)
      case Some(m) =>
        FindMatchGroup(patterns[k], text);
        Some(CapturedAmount(text, m))
      case None => AmountFrom(patterns, text, k + 1)
  }

  /** Trying the patterns one by one from the first finds the amount of the first that matches. */
  lemma AmountFromStart(patterns: seq<Pattern>, text: string)
    ensures AmountFrom(patterns, text, 0) == FirstAmount(patterns, text)
  {
    AmountFromAfterFailures(patterns, text, 0);
  }

  lemma {:induction false} AmountFromAfterFailures(patterns: seq<Pattern>, text: string, k: nat)
    requires k <= |patterns|
    requires FirstMatch(patterns, text).None? || FirstMatch(patterns, text).value.0 >= k
    ensures AmountFrom(patterns, text, k) == FirstAmount(patterns, text)
    decreases |patterns| - k
  {
    if k < |patterns| {
      var m := FindMatch(patterns[k], text);
      if m.Some? {
        assert FirstMatch(patterns, text) == Some((k, m.value));
        FindMatchGroup(patterns[k], text);
      } else {
        AmountFromAfterFailures(patterns, text, k + 1);
      }
    }
  }

  /** `extractTargetAmount`: the first pattern that matches decides, then the thousands rule. */
  method ExtractTargetAmount(g: Goal) returns (r: Option<real>)
    ensures r == TargetAmount(g)
  {
    var text := GoalText(g);
    r := FindFirstAmount(TargetPatterns, text);
    if r.Some? {
      var amount := ApplyThousands(text, r.value);
      r := Some(amount);
    }
  }

  /** The thousands step of `extractTargetAmount`: `amount *= 1000` under the rule's condition. */
  method ApplyThousands(text: string, amount: real) returns (scaled: real)
    ensures scaled == ScaleThousands(text, amount)
  {
    scaled := amount;
    if Includes(ToLower(text), "k") && amount < 1000.0 {
      scaled := scaled * 1000.0;
    }
  }

  /** `extractCurrentAmount`. */
  method ExtractCurrentAmount(entry: string) returns (r: Option<real>)
    ensures r == CurrentAmount(entry)
  {
    r := FindFirstAmount(CurrentPatterns, entry);
  }

  /** The target is missing exactly when none of the five patterns matches anywhere in the goal's text. */
  lemma TargetAmountNone(g: Goal)
    ensures TargetAmount(g).None? <==>
      forall k :: 0 <= k < |TargetPatterns| ==> forall i, b, e :: !MatchSpec(TargetPatterns[k], GoalText(g), i, b, e)
  {
    FirstAmountNone(TargetPatterns, GoalText(g));
    forall k | 0 <= k < |TargetPatterns| {
      FindMatchNone(TargetPatterns[k], GoalText(g));
    }
  }

  /** The current amount is missing exactly when none of the four patterns matches anywhere in the entry. */
  lemma CurrentAmountNone(entry: string)
    ensures CurrentAmount(entry).None? <==>
      forall k :: 0 <= k < |CurrentPatterns| ==> forall i, b, e :: !MatchSpec(CurrentPatterns[k], entry, i, b, e)
  {
    FirstAmountNone(CurrentPatterns, entry);
    forall k | 0 <= k < |CurrentPatterns| {
      FindMatchNone(CurrentPatterns[k], entry);
    }
  }

  /**
   * A found target is the number captured by the first pattern that matches,
   * at its leftmost match, rescaled by the thousands rule.
   */
  lemma TargetAmountFromFirstMatch(g: Goal)
    requires TargetAmount(g).Some?
    ensures var text := GoalText(g);
      exists k :: 0 <= k < |TargetPatterns| && FindMatch(TargetPatterns[k], text).Some?
        && (forall j :: 0 <= j < k ==> FindMatch(TargetPatterns[j], text).None?)
        && TargetAmount(g).value == ScaleThousands(text, CapturedAmount(text, FindMatch(TargetPatterns[k], text).value))
  {
    var text := GoalText(g);
    var k := FirstMatch(TargetPatterns, text).value.0;
    FindMatchGroup(TargetPatterns[k], text);
    assert FindMatch(TargetPatterns[k], text).Some?;
  }

  // ------------------------------------------------------------ progress

  /** `Math.min(Math.max((current / target) * 100, 0), 100)` for a non-zero target. */
  function Percentage(current: real, target: real): (r: real)
    requires target != 0.0
    ensures 0.0 <= r <= 100.0
    ensures target > 0.0 && current >= target ==> r == 100.0
    ensures target > 0.0 && 0.0 <= current <= target ==> r == current / target * 100.0
  {
    if target > 0.0 then RatioBounds(current, target); Min(Max(current / target * 100.0, 0.0), 100.0)
    else Min(Max(current / target * 100.0, 0.0), 100.0)
  }

  /** For a positive target, the ratio reaches 100 per cent exactly at the target. */
  lemma RatioBounds(current: real, target: real)
    requires target > 0.0
    ensures current >= target ==> current / target * 100.0 >= 100.0
    ensures current >= 0.0 ==> current / target * 100.0 >= 0.0
  {
    assert current / target * target == current;
  }

  /** `llmResponse?.overall_progress || 0` of the last earlier update, or 0 when there is none. */
  function PreviousProgress(previous: seq<ProgressUpdate>): (r: real)
    ensures previous == [] ==> r == 0.0
    ensures previous != [] && previous[|previous| - 1].llmResponse.None? ==> r == 0.0
    ensures previous != [] && previous[|previous| - 1].llmResponse.Some? ==>
      r == previous[|previous| - 1].llmResponse.value.overallProgress
  {
    if previous == [] then 0.0
    else
      match previous[|previous| - 1].llmResponse
      case None => 0.0
      case Some(resp) => resp.overallProgress
  }

  /** The feedback templates of `generateFinancialFeedback`. */
  datatype FeedbackTier = Discipline | Reached | AlmostThere | KeepItUp | StayConsistent

  /** Which template `generateFinancialFeedback` picks: a loss word first, then the thresholds from the top. */
  function Tier(percentage: real, entry: string): (r: FeedbackTier)
    ensures r == Discipline <==> IsLoss(entry)
    ensures r == Reached <==> !IsLoss(entry) && percentage >= 100.0
    ensures r == AlmostThere <==> !IsLoss(entry) && 80.0 <= percentage < 100.0
    ensures r == KeepItUp <==> !IsLoss(entry) && 50.0 <= percentage < 80.0
    ensures r == StayConsistent <==> !IsLoss(entry) && percentage < 50.0
  {
    if IsLoss(entry) then Discipline
    else if percentage >= 100.0 then Reached
    else if percentage >= 80.0 then AlmostThere
    else if percentage >= 50.0 then KeepItUp
    else StayConsistent
  }

  /** The entry reports a loss: its lower case contains "lost", "down" or "decreased". */
  predicate IsLoss(entry: string) {
    var lower := ToLower(entry);
    Includes(lower, "lost") || Includes(lower, "down") || Includes(lower, "decreased")
  }

  /** `generateFinancialFeedback`: the template of the tier, filled in. */
  function FinancialFeedback(current: real, target: real, percentage: real, entry: string, fmt: real -> string): (r: string)
    ensures var cur, tgt, pct := fmt(current), fmt(target), IntToString(Round(percentage));
      match Tier(percentage, entry)
      case Discipline =>
        r == "Current bankroll: $" + cur + ". You're " + pct + "% to your $" + tgt + " goal." + " Stay disciplined and stick to your strategy."
      case Reached =>
        r == PartyPopper + " Congratulations! You've reached your $" + tgt + " goal! Current bankroll: $" + cur + "."
      case AlmostThere =>
        r == "Great" + " progress! You're " + pct + "% to your $" + tgt + " goal. Current bankroll: $" + cur + "." + " You're almost there!"
      case KeepItUp =>
        r == "Good" + " progress! You're " + pct + "% to your $" + tgt + " goal. Current bankroll: $" + cur + "." + " Keep it up!"
      case StayConsistent =>
        r == "Current bankroll: $" + cur + ". You're " + pct + "% to your $" + tgt + " goal." + " Stay consistent and focused."
  {
    var cur := fmt(current);
    var tgt := fmt(target);
    var pct := IntToString(Round(percentage));
    match Tier(percentage, entry)
    case Discipline =>
      "Current bankroll: $" + cur + ". You're " + pct + "% to your $" + tgt + " goal." + " Stay disciplined and stick to your strategy."
    case Reached =>
      PartyPopper + " Congratulations! You've reached your $" + tgt + " goal! Current bankroll: $" + cur + "."
    case AlmostThere =>
      "Great" + " progress! You're " + pct + "% to your $" + tgt + " goal. Current bankroll: $" + cur + "." + " You're almost there!"
    case KeepItUp =>
      "Good" + " progress! You're " + pct + "% to your $" + tgt + " goal. Current bankroll: $" + cur + "." + " Keep it up!"
    case StayConsistent =>
      "Current bankroll: $" + cur + ". You're " + pct + "% to your $" + tgt + " goal." + " Stay consistent and focused."
  }

  /**
   * Every feedback names both amounts, and every one but the congratulation
   * names the rounded percentage.
   */
  lemma FinancialFeedbackMentions(current: real, target: real, percentage: real, entry: string, fmt: real -> string)
    ensures var r := FinancialFeedback(current, target, percentage, entry, fmt);
      && Includes(r, fmt(current))
      && Includes(r, fmt(target))
      && (Tier(percentage, entry) != Reached ==> Includes(r, IntToString(Round(percentage))))
  {
    var cur, tgt, pct := fmt(current), fmt(target), IntToString(Round(percentage));
    match Tier(percentage, entry)
    case Discipline =>
      BankrollFirstMentions(cur, pct, tgt, " Stay disciplined and stick to your strategy.");
    case Reached =>
      ReachedMentions(cur, tgt);
    case AlmostThere =>
      ProgressFirstMentions("Great", pct, tgt, cur, " You're almost there!");
    case KeepItUp =>
      ProgressFirstMentions("Good", pct, tgt, cur, " Keep it up!");
    case StayConsistent =>
      BankrollFirstMentions(cur, pct, tgt, " Stay consistent and focused.");
  }

  lemma BankrollFirstMentions(cur: string, pct: string, tgt: string, close: string)
    ensures var r := "Current bankroll: $" + cur + ". You're " + pct + "% to your $" + tgt + " goal." + close;
      Includes(r, cur) && Includes(r, tgt) && Includes(r, pct)
  {
    var a := "Current bankroll: $";
    var b, t, e := ". You're ", "% to your $", " goal." + close;
    var r := a + cur + b + pct + t + tgt + " goal." + close;
    assert Includes(r, cur) by {
      assert r == a + cur + (b + pct + t + tgt + e);
      IncludesMiddle(a, cur, b + pct + t + tgt + e);
    }
    assert Includes(r, pct) by {
      assert r == a + cur + b + pct + (t + tgt + e);
      IncludesMiddle(a + cur + b, pct, t + tgt + e);
    }
    assert Includes(r, tgt) by {
      assert r == a + cur + b + pct + t + tgt + e;
      IncludesMiddle(a + cur + b + pct + t, tgt, e);
    }
  }

  lemma ProgressFirstMentions(praise: string, pct: string, tgt: string, cur: string, close: string)
    ensures var r := praise + " progress! You're " + pct + "% to your $" + tgt + " goal. Current bankroll: $" + cur + "." + close;
      Includes(r, cur) && Includes(r, tgt) && Includes(r, pct)
  {
    var a := praise + " progress! You're ";
    var t, g, e := "% to your $", " goal. Current bankroll: $", "." + close;
    var r := a + pct + t + tgt + g + cur + "." + close;
    assert Includes(r, pct) by {
      assert r == a + pct + (t + tgt + g + cur + e);
      IncludesMiddle(a, pct, t + tgt + g + cur + e);
    }
    assert Includes(r, tgt) by {
      assert r == a + pct + t + tgt + (g + cur + e);
      IncludesMiddle(a + pct + t, tgt, g + cur + e);
    }
    assert Includes(r, cur) by {
      assert r == a + pct + t + tgt + g + cur + e;
      IncludesMiddle(a + pct + t + tgt + g, cur, e);
    }
  }

  lemma ReachedMentions(cur: string, tgt: string)
    ensures var r := PartyPopper + " Congratulations! You've reached your $" + tgt + " goal! Current bankroll: $" + cur + ".";
      Includes(r, cur) && Includes(r, tgt)
  {
    var a, g := PartyPopper + " Congratulations! You've reached your $", " goal! Current bankroll: $";
    var r := a + tgt + g + cur + ".";
    assert Includes(r, tgt) by {
      assert r == a + tgt + (g + cur + ".");
      IncludesMiddle(a, tgt, g + cur + ".");
    }
    IncludesMiddle(a + tgt + g, cur, ".");
  }

  /** The response `calculateFinancialProgress` builds once both amounts are known. */
  function FinancialResponse(current: real, target: real, previousProgress: real, entry: string, fmt: real -> string)
    : (r: LLMProgressResponse)
    requires target != 0.0
    ensures r.overallProgress == Round(Percentage(current, target)) as real
    ensures r.progressIncrease == Round(Max(Percentage(current, target) - previousProgress, 0.0)) as real
    ensures r.reasoning == "Current: $" + fmt(current) + ", Target: $" + fmt(target)
    ensures r.feedback == FinancialFeedback(current, target, Percentage(current, target), entry, fmt)
  {
    var pct := Percentage(current, target);
    var increase := Max(pct - previousProgress, 0.0);
    LLMProgressResponse(
      Round(pct) as real,
      Round(increase) as real,
      "Current: $" + fmt(current) + ", Target: $" + fmt(target),
      FinancialFeedback(current, target, pct, entry, fmt))
  }

  /** `calculateFinancialProgress`: no response without a non-zero target and a current amount. */
  function CalculateFinancialProgress(g: Goal, entry: string, previous: seq<ProgressUpdate>, fmt: real -> string)
    : (r: Option<LLMProgressResponse>)
    ensures r.Some? <==> TargetAmount(g).Some? && TargetAmount(g).value != 0.0 && CurrentAmount(entry).Some?
    ensures r.Some? ==>
      r.value == FinancialResponse(CurrentAmount(entry).value, TargetAmount(g).value, PreviousProgress(previous), entry, fmt)
  {
    var target := TargetAmount(g);
    if target.None? || target.value == 0.0 then None
    else
      var current := CurrentAmount(entry);
      if current.None? then None
      else Some(FinancialResponse(current.value, target.value, PreviousProgress(previous), entry, fmt))
  }

  /**
   * A computed response has a whole-number overall progress in [0, 100] and
   * a whole, non-negative increase, which is 0 when the new percentage does
   * not exceed the previous progress.
   */
  lemma FinancialResponseBounds(current: real, target: real, previousProgress: real, entry: string, fmt: real -> string)
    requires target != 0.0
    ensures var resp := FinancialResponse(current, target, previousProgress, entry, fmt);
      && 0.0 <= resp.overallProgress <= 100.0 && resp.overallProgress == resp.overallProgress.Floor as real
      && 0.0 <= resp.progressIncrease && resp.progressIncrease == resp.progressIncrease.Floor as real
      && (Percentage(current, target) <= previousProgress ==> resp.progressIncrease == 0.0)
  {
    var pct := Percentage(current, target);
    RoundWithin(pct, 0, 100);
    var increase := Max(pct - previousProgress, 0.0);
    RoundMonotone(0.0, increase);
    RoundOfInt(0);
  }

  /** A current amount of the target or more scores 100, and so earns the congratulations template. */
  lemma TargetReachedScoresHundred(current: real, target: real, previousProgress: real, entry: string, fmt: real -> string)
    requires 0.0 < target <= current
    ensures FinancialResponse(current, target, previousProgress, entry, fmt).overallProgress == 100.0
    ensures !IsLoss(entry) ==>
      StartsWith(FinancialResponse(current, target, previousProgress, entry, fmt).feedback,
        PartyPopper + " Congratulations! You've reached your $")
  {
    RoundOfInt(100);
  }

  // --------------------------------------------------------------- prompt

  /** `u.llmResponse?.overall_progress || 0` of one earlier update. */
  function RecordedProgress(u: ProgressUpdate): (r: real)
    ensures r == PreviousProgress([u])
  {
    if u.llmResponse.Some? then u.llmResponse.value.overallProgress else 0.0
  }

  /** The context line of `createProgressAnalysisPrompt`: only the last earlier update, cut to 50 characters. */
  function AnalysisContext(previous: seq<ProgressUpdate>, show: real -> string): (r: string)
    ensures previous == [] ==> r == []
    ensures previous != [] ==>
      var last := previous[|previous| - 1];
      && StartsWith(r, "Previous: " + Prefix(last.journalEntry, 50) + " (")
      && EndsWith(r, show(RecordedProgress(last)) + "%)")
      && |r| == |"Previous: " + Prefix(last.journalEntry, 50) + " ("| + |show(RecordedProgress(last)) + "%)"|
  {
    if previous == [] then []
    else
      var last := previous[|previous| - 1];
      var r := "Previous: " + Prefix(last.journalEntry, 50) + " (" + show(RecordedProgress(last)) + "%)";
      assert r[..|"Previous: " + Prefix(last.journalEntry, 50) + " ("|] == "Previous: " + Prefix(last.journalEntry, 50) + " (";
      assert r[|r| - |show(RecordedProgress(last)) + "%)"|..] == show(RecordedProgress(last)) + "%)";
      r
  }

  /** Earlier updates only enter the prompt through the last one. */
  lemma AnalysisContextUsesLastOnly(a: seq<ProgressUpdate>, b: seq<ProgressUpdate>, show: real -> string)
    requires a != [] && b != [] && a[|a| - 1] == b[|b| - 1]
    ensures AnalysisContext(a, show) == AnalysisContext(b, show)
  {
  }

  /** `createProgressAnalysisPrompt`. */
  function ProgressAnalysisPrompt(g: Goal, entry: string, previous: seq<ProgressUpdate>, show: real -> string): (r: string)
    ensures var head := "Goal: " + g.title + "\nCurrent: " + show(g.overallProgress) + "%\n";
      var tail := "\nEntry: \"" + entry + "\"\nAnalyze progress change.";
      && StartsWith(r, head)
      && EndsWith(r, tail)
      && |r| == |head| + |AnalysisContext(previous, show)| + |tail|
      && r[|head|..|r| - |tail|] == AnalysisContext(previous, show)
  {
    var head := "Goal: " + g.title + "\nCurrent: " + show(g.overallProgress) + "%\n";
    var tail := "\nEntry: \"" + entry + "\"\nAnalyze progress change.";
    var r := head + AnalysisContext(previous, show) + tail;
    assert r[..|head|] == head;
    assert r[|r| - |tail|..] == tail;
    assert r[|head|..|r| - |tail|] == AnalysisContext(previous, show);
    r
  }

  /** Two histories that end in the same update give the same prompt. */
  lemma ProgressAnalysisPromptUsesLastOnly(g: Goal, entry: string, a: seq<ProgressUpdate>, b: seq<ProgressUpdate>, show: real -> string)
    requires a != [] && b != [] && a[|a| - 1] == b[|b| - 1]
    ensures ProgressAnalysisPrompt(g, entry, a, show) == ProgressAnalysisPrompt(g, entry, b, show)
  {
    AnalysisContextUsesLastOnly(a, b, show);
  }

  // ---------------------------------------------------------------- route

  /** How the service answers: computed from the amounts, or by asking the model with a prompt. */
  datatype Route = Computed(response: LLMProgressResponse) | AskModel(prompt: string)

  /** The choice at the top of the service's `POST` handler. */
  function ProgressRoute(g: Goal, entry: string, previous: seq<ProgressUpdate>, fmt: real -> string, show: real -> string)
    : (r: Route)
    ensures r.Computed? <==> IsFinancialGoal(g) && CalculateFinancialProgress(g, entry, previous, fmt).Some?
    ensures r.Computed? ==> r.response == CalculateFinancialProgress(g, entry, previous, fmt).value
    ensures r.AskModel? ==> r.prompt == ProgressAnalysisPrompt(g, entry, previous, show)
  {
    if IsFinancialGoal(g) then
      var financial := CalculateFinancialProgress(g, entry, previous, fmt);
      if financial.Some? then Computed(financial.value)
      else AskModel(ProgressAnalysisPrompt(g, entry, previous, show))
    else AskModel(ProgressAnalysisPrompt(g, entry, previous, show))
  }
}
