/**
 * The nine regular expressions with which src/app/api/progress/route.ts
 * pulls an amount out of free text, and `String.prototype.match` with a
 * non-global pattern over them.
 *
 * Every one of them has the shape  lead (number) trail :
 *
 *   lead   nothing | `\$` | `(?:current|now|at|is|bankroll|balance|total|amount)\s*:?\s*\$?` (flag i)
 *   number `\d+(?:\.\d+)?`  (Decimal)  |  `\d+(?:,\d{3})*(?:\.\d+)?`  (Numeral)
 *   trail  nothing | `\s*k` (flag i) | `\s*dollars?` (flag i) | `\s*\$` | `(?=\s|$)`
 *
 * For each part there is a declarative description of the text it accepts
 * (`LeadSpec`, `BodySpec`, `TrailSpec`, as ghost predicates) and a greedy
 * scanner that makes the choices a backtracking engine makes first
 * (`BodyStart`, `BodyEnd`, `TrailMatches`). The lemmas show that the engine
 * reports the leftmost start position at which the pattern can match at all,
 * and that at that position the captured number is the only one the pattern
 * admits, or, when nothing follows the number, the longest one.
 */
module AmountPatterns {
  import opened JsText
  import opened Types

  // ---------------------------------------------------------------- number

  predicate AllDigits(s: string, i: nat, j: nat)
    requires i <= j <= |s|
  {
    forall k :: i <= k < j ==> IsDigit(s[k])
  }

  /** The end of the longest run of `\d` starting at `i` (a greedy `\d+`). */
  function DigitsEnd(s: string, i: nat): (j: nat)
    requires i <= |s|
    ensures i <= j <= |s| && AllDigits(s, i, j)
    ensures j < |s| ==> !IsDigit(s[j])
    decreases |s| - i
  {
    if i < |s| && IsDigit(s[i]) then DigitsEnd(s, i + 1) else i
  }

  lemma DigitsPrefix(s: string, i: nat, m: nat)
    requires i <= m <= |s| && AllDigits(s, i, m)
    ensures m <= DigitsEnd(s, i)
    ensures m < DigitsEnd(s, i) ==> IsDigit(s[m])
  {
  }

  /** One thousands group `,\d{3}` at position `j`. */
  predicate GroupAt(s: string, j: nat) {
    j + 4 <= |s| && s[j] == ',' && IsDigit(s[j + 1]) && IsDigit(s[j + 2]) && IsDigit(s[j + 3])
  }

  /** `s[j..k]` is in the language of `(?:,\d{3})*`. */
  predicate Groups(s: string, j: nat, k: nat)
    requires j <= k <= |s|
    decreases k - j
  {
    j == k || (j + 4 <= k && GroupAt(s, j) && Groups(s, j + 4, k))
  }

  /** Where a greedy `(?:,\d{3})*` starting at `j` stops. */
  function GroupsEnd(s: string, j: nat): (k: nat)
    requires j <= |s|
    ensures j <= k <= |s| && Groups(s, j, k)
    ensures forall x :: j <= x < k ==> IsDigit(s[x]) || s[x] == ','
    decreases |s| - j
  {
    if GroupAt(s, j) then GroupsEnd(s, j + 4) else j
  }

  lemma {:induction false} GroupsPrefix(s: string, j: nat, k: nat)
    requires j <= k <= |s| && Groups(s, j, k)
    ensures k <= GroupsEnd(s, j)
    ensures k < GroupsEnd(s, j) ==> s[k] == ','
    decreases k - j
  {
    if j < k {
      GroupsPrefix(s, j + 4, k);
    }
  }

  /** `s[k..e]` is in the language of `(?:\.\d+)?`. */
  predicate Fraction(s: string, k: nat, e: nat)
    requires k <= e <= |s|
  {
    k == e || (k + 1 < e && s[k] == '.' && AllDigits(s, k + 1, e))
  }

  /** Where a greedy `(?:\.\d+)?` starting at `k` stops. */
  function FractionEnd(s: string, k: nat): (e: nat)
    requires k <= |s|
    ensures k <= e <= |s| && Fraction(s, k, e)
  {
    if k + 1 < |s| && s[k] == '.' && IsDigit(s[k + 1]) then DigitsEnd(s, k + 1) else k
  }

  lemma FractionPrefix(s: string, k: nat, e: nat)
    requires k <= e <= |s| && Fraction(s, k, e)
    ensures e <= FractionEnd(s, k)
    ensures e < FractionEnd(s, k) ==> IsDigit(s[e]) || s[e] == '.'
  {
    if k < e {
      DigitsPrefix(s, k + 1, e);
    }
  }

  /** The two number shapes the capture groups use. */
  datatype Body =
    | Decimal  // \d+(?:\.\d+)?
    | Numeral  // \d+(?:,\d{3})*(?:\.\d+)?

  /** `s[b..e]` is in the language of the number shape. */
  ghost predicate BodySpec(body: Body, s: string, b: nat, e: nat)
    requires b <= e <= |s|
  {
    match body
    case Decimal =>
      exists j :: b < j <= e && AllDigits(s, b, j) && Fraction(s, j, e)
    case Numeral =>
      exists j, k :: b < j <= k <= e && AllDigits(s, b, j) && Groups(s, j, k) && Fraction(s, k, e)
  }

  /** A character that can occur inside a captured number. */
  predicate IsNumberChar(c: char) {
    IsDigit(c) || c == ',' || c == '.'
  }

  /** Where the greedy number starting with the digit at `b` ends. */
  function BodyEnd(body: Body, s: string, b: nat): (e: nat)
    requires b < |s| && IsDigit(s[b])
    ensures b < e <= |s| && BodySpec(body, s, b, e)
    ensures forall x :: b <= x < e ==> IsNumberChar(s[x])
  {
    var j := DigitsEnd(s, b);
    match body
    case Decimal =>
      var e := FractionEnd(s, j);
      assert AllDigits(s, b, j) && Fraction(s, j, e);
      e
    case Numeral =>
      var k := GroupsEnd(s, j);
      var e := FractionEnd(s, k);
      assert AllDigits(s, b, j) && Groups(s, j, k) && Fraction(s, k, e);
      e
  }

  /**
   * Any number the shape admits at `b` starts with a digit and ends no later
   * than the greedy one; one that ends earlier is followed by a digit, a
   * comma or a point.
   */
  lemma BodyPrefix(body: Body, s: string, b: nat, e: nat)
    requires b <= e <= |s| && BodySpec(body, s, b, e)
    ensures b < e && IsDigit(s[b])
    ensures e <= BodyEnd(body, s, b)
    ensures e < BodyEnd(body, s, b) ==> IsNumberChar(s[e])
  {
    var d := DigitsEnd(s, b);
    match body
    case Decimal =>
      var j :| b < j <= e && AllDigits(s, b, j) && Fraction(s, j, e);
      DigitsPrefix(s, b, j);
      if j == d {
        FractionPrefix(s, d, e);
      }
    case Numeral =>
      var j, k :| b < j <= k <= e && AllDigits(s, b, j) && Groups(s, j, k) && Fraction(s, k, e);
      DigitsPrefix(s, b, j);
      if j == d {
        GroupsPrefix(s, d, k);
        if k == GroupsEnd(s, d) {
          FractionPrefix(s, k, e);
        }
      }
  }

  // ------------------------------------------------------------------ lead

  /** What comes before the capture group. */
  datatype Lead =
    | NoLead      // the pattern starts with the number
    | DollarLead  // \$
    | CueLead     // (?:current|now|at|is|bankroll|balance|total|amount)\s*:?\s*\$?  (flag i)

  /** The alternatives of the cue, in the order the engine tries them. */
  const CueWords: seq<string> := ["current", "now", "at", "is", "bankroll", "balance", "total", "amount"]

  /** `s[p..b]` is in the language of `\s*:?\s*\$?`. */
  ghost predicate CueTailSpec(s: string, p: nat, b: nat)
    requires p <= b <= |s|
  {
    exists m1, c, m2 ::
      && p <= m1 <= c <= m2 <= b
      && AllSpaces(s, p, m1)
      && (c == m1 || (c == m1 + 1 && s[m1] == ':'))
      && AllSpaces(s, c, m2)
      && (b == m2 || (b == m2 + 1 && s[m2] == '$'))
  }

  /** `s[i..b]` is in the language of the lead. */
  ghost predicate LeadSpec(lead: Lead, s: string, i: nat, b: nat)
    requires i <= b <= |s|
  {
    match lead
    case NoLead => b == i
    case DollarLead => b == i + 1 && s[i] == '$'
    case CueLead => CueSpec(CueWords, s, i, b)
  }

  /** The greedy walk of `\s*:?\s*\$?` from `p`. */
  function CueTailEnd(s: string, p: nat): (b: nat)
    requires p <= |s|
    ensures p <= b <= |s| && CueTailSpec(s, p, b)
  {
    var m1 := SpacesEnd(s, p);
    var c := if m1 < |s| && s[m1] == ':' then m1 + 1 else m1;
    var m2 := SpacesEnd(s, c);
    var b := if m2 < |s| && s[m2] == '$' then m2 + 1 else m2;
    assert AllSpaces(s, p, m1) && AllSpaces(s, c, m2);
    b
  }

  /** The spaces of `\s*\$?` before a digit at `b` are the whole run of spaces. */
  lemma DollarTailUnique(s: string, c: nat, m2: nat, b: nat)
    requires c <= m2 <= b < |s| && AllSpaces(s, c, m2) && IsDigit(s[b])
    requires b == m2 || (b == m2 + 1 && s[m2] == '$')
    ensures m2 == SpacesEnd(s, c)
  {
    MarkersAreNotSpaces(s[b]);
    MarkersAreNotSpaces(s[m2]);
    SpacesPrefix(s, c, m2);
  }

  /**
   * `\s*:?\s*\$?` followed by a digit can end only where the greedy walk
   * ends: backtracking into the optional parts never helps.
   */
  lemma CueTailUnique(s: string, p: nat, b: nat)
    requires p <= b < |s| && CueTailSpec(s, p, b) && IsDigit(s[b])
    ensures b == CueTailEnd(s, p)
  {
    var m1, c, m2 :|
      && p <= m1 <= c <= m2 <= b
      && AllSpaces(s, p, m1)
      && (c == m1 || (c == m1 + 1 && s[m1] == ':'))
      && AllSpaces(s, c, m2)
      && (b == m2 || (b == m2 + 1 && s[m2] == '$'));
    SpacesPrefix(s, p, m1);
    if m1 < SpacesEnd(s, p) {
      CueTailWithinSpaces(s, p, m1, c, m2, b);
    } else {
      CueTailAfterSpaces(s, p, c, m2, b);
    }
  }

  /** The case where the optional colon was skipped inside the run of spaces. */
  lemma CueTailWithinSpaces(s: string, p: nat, m1: nat, c: nat, m2: nat, b: nat)
    requires p <= m1 <= c <= m2 <= b < |s| && IsDigit(s[b])
    requires AllSpaces(s, p, m1) && IsSpace(s[m1])
    requires c == m1 || (c == m1 + 1 && s[m1] == ':')
    requires AllSpaces(s, c, m2)
    requires b == m2 || (b == m2 + 1 && s[m2] == '$')
    ensures b == CueTailEnd(s, p)
  {
    MarkersAreNotSpaces(s[m1]);
    assert c == m1;
    assert AllSpaces(s, p, m2);
    DollarTailUnique(s, p, m2, b);
    CueTailEndNoColon(s, p);
  }

  /** The case where the first run of spaces was taken whole. */
  lemma CueTailAfterSpaces(s: string, p: nat, c: nat, m2: nat, b: nat)
    requires p <= |s| && SpacesEnd(s, p) <= c <= m2 <= b < |s| && IsDigit(s[b])
    requires c == SpacesEnd(s, p) || (c == SpacesEnd(s, p) + 1 && s[SpacesEnd(s, p)] == ':')
    requires AllSpaces(s, c, m2)
    requires b == m2 || (b == m2 + 1 && s[m2] == '$')
    ensures b == CueTailEnd(s, p)
  {
    MarkersAreNotSpaces(s[b]);
    DollarTailUnique(s, c, m2, b);
  }

  /** Where the run of spaces is not followed by a colon, the walk does not step over one. */
  lemma CueTailEndNoColon(s: string, p: nat)
    requires p <= |s| && SpacesEnd(s, p) < |s| && s[SpacesEnd(s, p)] != ':'
    ensures CueTailEnd(s, p) == (if s[SpacesEnd(s, p)] == '$' then SpacesEnd(s, p) + 1 else SpacesEnd(s, p))
  {
    var m1 := SpacesEnd(s, p);
    assert !IsSpace(s[m1]);
    assert SpacesEnd(s, m1) == m1;
  }

  lemma MarkersAreNotSpaces(c: char)
    ensures c == ':' || c == '$' || IsDigit(c) ==> !IsSpace(c)
  {
  }

  /** Two ASCII letters that both match one character case-insensitively are equal. */
  lemma CharEqIgnoreCaseUnique(c: char, p: char, q: char)
    requires 'a' <= p <= 'z' && 'a' <= q <= 'z'
    requires CharEqIgnoreCase(c, p) && CharEqIgnoreCase(c, q)
    ensures p == q
  {
  }

  /** No two cue alternatives match at the same position. */
  lemma CueWordsExclusive(s: string, i: nat, v: nat, w: nat)
    requires v < |CueWords| && w < |CueWords|
    ensures WordAtIgnoreCase(s, i, CueWords[v]) && WordAtIgnoreCase(s, i, CueWords[w]) ==> v == w
  {
    if WordAtIgnoreCase(s, i, CueWords[v]) && WordAtIgnoreCase(s, i, CueWords[w]) {
      var a, b := CueWords[v], CueWords[w];
      CharEqIgnoreCaseUnique(s[i], a[0], b[0]);
      CharEqIgnoreCaseUnique(s[i + 1], a[1], b[1]);
      if a[0] == 'b' {
        CharEqIgnoreCaseUnique(s[i + 2], a[2], b[2]);
      }
    }
  }

  /** One cue alternative tried at `i`: the lead end, when a digit follows it. */
  function CueAttempt(s: string, i: nat, word: string): (r: Option<nat>)
    requires i <= |s|
    ensures r.Some? ==> WordAtIgnoreCase(s, i, word) && r.value == CueTailEnd(s, i + |word|)
    ensures r.Some? ==> r.value < |s| && IsDigit(s[r.value])
    ensures !WordAtIgnoreCase(s, i, word) ==> r.None?
  {
    if WordAtIgnoreCase(s, i, word) && CueTailEnd(s, i + |word|) < |s| && IsDigit(s[CueTailEnd(s, i + |word|)])
    then Some(CueTailEnd(s, i + |word|))
    else None
  }

  /** `s[i..b]` is one of the alternatives `ws` followed by `\s*:?\s*\$?`. */
  ghost predicate CueSpec(ws: seq<string>, s: string, i: nat, b: nat)
    requires i <= b <= |s|
  {
    exists w :: 0 <= w < |ws| && WordAtIgnoreCase(s, i, ws[w])
      && i + |ws[w]| <= b && CueTailSpec(s, i + |ws[w]|, b)
  }

  lemma CueSpecIntro(ws: seq<string>, s: string, i: nat, w: nat, b: nat)
    requires w < |ws| && i + |ws[w]| <= b <= |s|
    requires WordAtIgnoreCase(s, i, ws[w]) && CueTailSpec(s, i + |ws[w]|, b)
    ensures CueSpec(ws, s, i, b)
  {
  }

  /** An alternative among the later ones is an alternative of the whole list. */
  lemma CueSpecRest(ws: seq<string>, s: string, i: nat, b: nat)
    requires ws != [] && i <= b <= |s| && CueSpec(ws[1..], s, i, b)
    ensures CueSpec(ws, s, i, b)
  {
    var w :| 0 <= w < |ws[1..]| && WordAtIgnoreCase(s, i, ws[1..][w])
      && i + |ws[1..][w]| <= b && CueTailSpec(s, i + |ws[1..][w]|, b);
    CueSpecIntro(ws, s, i, w + 1, b);
  }

  /** Trying the alternatives `ws` in order, as the engine does. */
  function CueBodyStart(s: string, i: nat, ws: seq<string>): (r: Option<nat>)
    requires i <= |s|
    ensures r.Some? ==> i <= r.value < |s| && IsDigit(s[r.value])
    decreases |ws|
  {
    if ws == [] then None
    else
      var r := CueAttempt(s, i, ws[0]);
      if r.Some? then r else CueBodyStart(s, i, ws[1..])
  }

  /** What the engine finds is a cue: one of the alternatives and the tail after it. */
  lemma {:induction false} CueBodyStartSound(s: string, i: nat, ws: seq<string>)
    requires i <= |s|
    ensures CueBodyStart(s, i, ws).Some? ==> CueSpec(ws, s, i, CueBodyStart(s, i, ws).value)
    decreases |ws|
  {
    if ws != [] {
      var r := CueAttempt(s, i, ws[0]);
      if r.Some? {
        CueSpecIntro(ws, s, i, 0, r.value);
      } else {
        CueBodyStartSound(s, i, ws[1..]);
        var r' := CueBodyStart(s, i, ws[1..]);
        if r'.Some? {
          CueSpecRest(ws, s, i, r'.value);
        }
      }
    }
  }

  /**
   * Where the capture group starts when the engine tries the pattern at
   * `i`: the first end of the lead, in the engine's order, that is followed
   * by a digit (the number needs one).
   */
  function BodyStart(lead: Lead, s: string, i: nat): (r: Option<nat>)
    requires i <= |s|
    ensures r.Some? ==> i <= r.value < |s| && IsDigit(s[r.value]) && LeadSpec(lead, s, i, r.value)
  {
    match lead
    case NoLead => if i < |s| && IsDigit(s[i]) then Some(i) else None
    case DollarLead => if i + 1 < |s| && s[i] == '$' && IsDigit(s[i + 1]) then Some(i + 1) else None
    case CueLead =>
      CueBodyStartSound(s, i, CueWords);
      CueBodyStart(s, i, CueWords)
  }

  /** The engine takes the first alternative whose attempt succeeds. */
  lemma {:induction false} CueBodyStartFinds(s: string, i: nat, ws: seq<string>, w: nat, b: nat)
    requires i <= |s| && w < |ws|
    requires forall v :: 0 <= v < w ==> CueAttempt(s, i, ws[v]).None?
    requires CueAttempt(s, i, ws[w]) == Some(b)
    ensures CueBodyStart(s, i, ws) == Some(b)
    decreases w
  {
    if w > 0 {
      assert CueAttempt(s, i, ws[0]).None?;
      assert forall v :: 0 <= v < w - 1 ==> ws[1..][v] == ws[v + 1];
      assert ws[1..][w - 1] == ws[w];
      CueBodyStartFinds(s, i, ws[1..], w - 1, b);
    }
  }

  /** Every lead end followed by a digit is the one the engine finds. */
  lemma BodyStartComplete(lead: Lead, s: string, i: nat, b: nat)
    requires i <= b < |s| && LeadSpec(lead, s, i, b) && IsDigit(s[b])
    ensures BodyStart(lead, s, i) == Some(b)
  {
    if lead == CueLead {
      CueLeadComplete(s, i, b);
    }
  }

  lemma CueLeadComplete(s: string, i: nat, b: nat)
    requires i <= b < |s| && CueSpec(CueWords, s, i, b) && IsDigit(s[b])
    ensures CueBodyStart(s, i, CueWords) == Some(b)
  {
    var w :| 0 <= w < |CueWords| && WordAtIgnoreCase(s, i, CueWords[w])
      && i + |CueWords[w]| <= b && CueTailSpec(s, i + |CueWords[w]|, b);
    CueTailUnique(s, i + |CueWords[w]|, b);
    assert CueAttempt(s, i, CueWords[w]) == Some(b);
    forall v | 0 <= v < w
      ensures CueAttempt(s, i, CueWords[v]).None?
    {
      CueWordsExclusive(s, i, v, w);
    }
    CueBodyStartFinds(s, i, CueWords, w, b);
  }

  // ----------------------------------------------------------------- trail

  /** What must follow the capture group. */
  datatype Trail =
    | NoTrail     // nothing
    | KSuffix     // \s*k  (flag i)
    | DollarWord  // \s*dollars?  (flag i)
    | DollarSign  // \s*\$
    | SpaceOrEnd  // (?=\s|$)

  /** The text from `e` on begins as the trail demands. */
  ghost predicate TrailSpec(t: Trail, s: string, e: nat)
    requires e <= |s|
  {
    match t
    case NoTrail => true
    case KSuffix => exists m :: e <= m < |s| && AllSpaces(s, e, m) && CharEqIgnoreCase(s[m], 'k')
    case DollarWord => exists m :: e <= m <= |s| && AllSpaces(s, e, m) && WordAtIgnoreCase(s, m, "dollar")
    case DollarSign => exists m :: e <= m < |s| && AllSpaces(s, e, m) && s[m] == '$'
    case SpaceOrEnd => e == |s| || IsSpace(s[e])
  }

  /** The engine's test of the trail at `e`, with a greedy `\s*`. */
  function TrailMatches(t: Trail, s: string, e: nat): bool
    requires e <= |s|
  {
    match t
    case NoTrail => true
    case KSuffix => SpacesEnd(s, e) < |s| && CharEqIgnoreCase(s[SpacesEnd(s, e)], 'k')
    case DollarWord => WordAtIgnoreCase(s, SpacesEnd(s, e), "dollar")
    case DollarSign => SpacesEnd(s, e) < |s| && s[SpacesEnd(s, e)] == '$'
    case SpaceOrEnd => e == |s| || IsSpace(s[e])
  }

  /** The greedy test accepts exactly the texts the trail describes. */
  lemma TrailMatchesIff(t: Trail, s: string, e: nat)
    requires e <= |s|
    ensures TrailMatches(t, s, e) <==> TrailSpec(t, s, e)
  {
    match t
    case NoTrail =>
    case SpaceOrEnd =>
    case KSuffix =>
      if TrailSpec(t, s, e) {
        var m :| e <= m < |s| && AllSpaces(s, e, m) && CharEqIgnoreCase(s[m], 'k');
        SkippedSpacesEnd(s, e, m);
      }
    case DollarWord =>
      if TrailSpec(t, s, e) {
        var m :| e <= m <= |s| && AllSpaces(s, e, m) && WordAtIgnoreCase(s, m, "dollar");
        assert CharEqIgnoreCase(s[m + 0], "dollar"[0]);
        SkippedSpacesEnd(s, e, m);
      }
    case DollarSign =>
      if TrailSpec(t, s, e) {
        var m :| e <= m < |s| && AllSpaces(s, e, m) && s[m] == '$';
        SkippedSpacesEnd(s, e, m);
      }
  }

  /** A run of spaces followed by a character that is not a space is the whole run. */
  lemma SkippedSpacesEnd(s: string, e: nat, m: nat)
    requires e <= m < |s| && AllSpaces(s, e, m) && !IsSpace(s[m])
    ensures SpacesEnd(s, e) == m
  {
    SpacesPrefix(s, e, m);
  }

  /** No trail begins with a character that would continue the number. */
  lemma TrailRejectsNumberChar(t: Trail, s: string, e: nat)
    requires e < |s| && t != NoTrail && TrailSpec(t, s, e)
    ensures !IsNumberChar(s[e])
  {
    if t == DollarWord {
      var m :| e <= m <= |s| && AllSpaces(s, e, m) && WordAtIgnoreCase(s, m, "dollar");
      assert CharEqIgnoreCase(s[m + 0], "dollar"[0]);
    }
  }

  // --------------------------------------------------------------- pattern

  datatype Pattern = Pattern(lead: Lead, body: Body, trail: Trail)

  /** The pattern matches at `i` with its capture group spanning `s[b..e]`. */
  ghost predicate MatchSpec(p: Pattern, s: string, i: nat, b: nat, e: nat) {
    && i <= b <= e <= |s|
    && LeadSpec(p.lead, s, i, b)
    && BodySpec(p.body, s, b, e)
    && TrailSpec(p.trail, s, e)
  }

  /** One attempt of the engine at start position `i`: the bounds of the capture group. */
  function MatchAt(p: Pattern, s: string, i: nat): (r: Option<(nat, nat)>)
    requires i <= |s|
    ensures r.Some? ==> i <= r.value.0 < r.value.1 <= |s| && IsDigit(s[r.value.0])
    ensures r.Some? ==> forall x :: r.value.0 <= x < r.value.1 ==> IsNumberChar(s[x])
  {
    match BodyStart(p.lead, s, i)
    case None => None
    case Some(b) =>
      var e := BodyEnd(p.body, s, b);
      if TrailMatches(p.trail, s, e) then Some((b, e)) else None
  }

  /** What the engine reports at `i` is a match of the pattern. */
  lemma MatchAtSound(p: Pattern, s: string, i: nat)
    requires i <= |s| && MatchAt(p, s, i).Some?
    ensures MatchSpec(p, s, i, MatchAt(p, s, i).value.0, MatchAt(p, s, i).value.1)
  {
    var b := BodyStart(p.lead, s, i).value;
    TrailMatchesIff(p.trail, s, BodyEnd(p.body, s, b));
  }

  /**
   * Whenever the pattern can match at `i`, the engine's attempt there
   * succeeds, with the same group start and with a group end no earlier:
   * it is the only end when the pattern has a trail.
   */
  lemma MatchAtComplete(p: Pattern, s: string, i: nat, b: nat, e: nat)
    requires MatchSpec(p, s, i, b, e)
    ensures MatchAt(p, s, i).Some?
    ensures MatchAt(p, s, i).value.0 == b && e <= MatchAt(p, s, i).value.1
    ensures p.trail != NoTrail ==> e == MatchAt(p, s, i).value.1
  {
    BodyPrefix(p.body, s, b, e);
    BodyStartComplete(p.lead, s, i, b);
    GreedyEndAccepted(p.trail, s, e, BodyEnd(p.body, s, b));
  }

  /**
   * When the trail follows a number that the greedy number extends, it
   * follows the greedy number too, and the two are the same unless the
   * pattern has no trail.
   */
  lemma GreedyEndAccepted(t: Trail, s: string, e: nat, end: nat)
    requires e <= end <= |s| && TrailSpec(t, s, e)
    requires e < end ==> IsNumberChar(s[e])
    ensures TrailMatches(t, s, end)
    ensures t != NoTrail ==> e == end
  {
    if e < end && t != NoTrail {
      TrailRejectsNumberChar(t, s, e);
    }
    TrailMatchesIff(t, s, end);
  }

  /** The position and capture group of a successful match. */
  datatype Match = Match(start: nat, groupStart: nat, groupEnd: nat)

  /** The outcome of the engine's attempt at every start position of `s`. */
  function Attempts(p: Pattern, s: string): (r: seq<Option<(nat, nat)>>)
    ensures |r| == |s| + 1
    ensures forall i :: 0 <= i <= |s| ==> r[i] == MatchAt(p, s, i)
  {
    seq(|s| + 1, i requires 0 <= i <= |s| => MatchAt(p, s, i))
  }

  /** The first index from `from` on whose entry is present. */
  function FirstSome<T>(xs: seq<Option<T>>, from: nat): (r: Option<nat>)
    requires from <= |xs|
    ensures r.Some? ==> from <= r.value < |xs| && xs[r.value].Some?
    ensures r.Some? ==> forall i :: from <= i < r.value ==> xs[i].None?
    ensures r.None? ==> forall i :: from <= i < |xs| ==> xs[i].None?
    decreases |xs| - from
  {
    if from == |xs| then None
    else if xs[from].Some? then Some(from)
    else FirstSome(xs, from + 1)
  }

  /** `s.match(pattern)` for a pattern without the `g` flag: the attempts from the left until one succeeds. */
  function FindMatch(p: Pattern, s: string): (r: Option<Match>)
    ensures r.Some? ==> r.value.start <= |s| && MatchAt(p, s, r.value.start) == Some((r.value.groupStart, r.value.groupEnd))
    ensures r.Some? ==> forall i :: 0 <= i < r.value.start ==> MatchAt(p, s, i).None?
    ensures r.None? ==> forall i :: 0 <= i <= |s| ==> MatchAt(p, s, i).None?
  {
    var a := Attempts(p, s);
    match FirstSome(a, 0)
    case None => None
    case Some(i) => Some(Match(i, a[i].value.0, a[i].value.1))
  }

  /** The captured number of a successful `FindMatch` has the characters a number may have. */
  lemma FindMatchGroup(p: Pattern, s: string)
    requires FindMatch(p, s).Some?
    ensures var m := FindMatch(p, s).value;
      m.groupStart < m.groupEnd <= |s| && IsDigit(s[m.groupStart])
      && forall x :: m.groupStart <= x < m.groupEnd ==> IsNumberChar(s[x])
  {
  }

  /** `FindMatch` fails exactly when the pattern matches nowhere. */
  lemma FindMatchNone(p: Pattern, s: string)
    ensures FindMatch(p, s).None? <==> forall i, b, e :: !MatchSpec(p, s, i, b, e)
  {
    var r := FindMatch(p, s);
    if r.None? {
      forall i, b, e | MatchSpec(p, s, i, b, e)
        ensures false
      {
        MatchAtComplete(p, s, i, b, e);
      }
    } else {
      MatchAtSound(p, s, r.value.start);
    }
  }

  /** A successful `FindMatch` reports a match of the pattern. */
  lemma FindMatchSound(p: Pattern, s: string)
    requires FindMatch(p, s).Some?
    ensures MatchSpec(p, s, FindMatch(p, s).value.start, FindMatch(p, s).value.groupStart, FindMatch(p, s).value.groupEnd)
  {
    MatchAtSound(p, s, FindMatch(p, s).value.start);
  }

  /**
   * Every match of the pattern starts no earlier than the one `FindMatch`
   * reports; one at the same start has the same group start and a group end
   * no later (exactly the same end, when the pattern has a trail).
   */
  lemma FindMatchLeftmost(p: Pattern, s: string, i: nat, b: nat, e: nat)
    requires MatchSpec(p, s, i, b, e)
    ensures FindMatch(p, s).Some? && FindMatch(p, s).value.start <= i
    ensures i == FindMatch(p, s).value.start ==>
      && b == FindMatch(p, s).value.groupStart
      && e <= FindMatch(p, s).value.groupEnd
      && (p.trail != NoTrail ==> e == FindMatch(p, s).value.groupEnd)
  {
    MatchAtComplete(p, s, i, b, e);
  }

  // ------------------------------------------------------- the two lists

  /** The target-amount patterns of `extractTargetAmount`, in order. */
  const TargetPatterns: seq<Pattern> := [
    Pattern(NoLead, Decimal, KSuffix),      // /(\d+(?:\.\d+)?)\s*k/i
    Pattern(DollarLead, Numeral, NoTrail),  // /\$(\d+(?:,\d{3})*(?:\.\d+)?)/
    Pattern(NoLead, Numeral, DollarWord),   // /(\d+(?:,\d{3})*(?:\.\d+)?)\s*dollars?/i
    Pattern(NoLead, Numeral, DollarSign),   // /(\d+(?:,\d{3})*(?:\.\d+)?)\s*\$/
    Pattern(NoLead, Numeral, SpaceOrEnd)    // /(\d+(?:,\d{3})*(?:\.\d+)?)(?=\s|$)/
  ]

  /** The current-amount patterns of `extractCurrentAmount`, in order. */
  const CurrentPatterns: seq<Pattern> := [
    Pattern(CueLead, Numeral, NoTrail),     // /(?:current|now|at|is|bankroll|balance|total|amount)\s*:?\s*\$?(\d+(?:,\d{3})*(?:\.\d+)?)/i
    Pattern(DollarLead, Numeral, NoTrail),  // /\$(\d+(?:,\d{3})*(?:\.\d+)?)/
    Pattern(NoLead, Numeral, DollarWord),   // /(\d+(?:,\d{3})*(?:\.\d+)?)\s*dollars?/i
    Pattern(NoLead, Numeral, DollarSign)    // /(\d+(?:,\d{3})*(?:\.\d+)?)\s*\$/
  ]

  /** The outcome of `FindMatch` for every pattern of the list. */
  function Results(patterns: seq<Pattern>, s: string): (r: seq<Option<Match>>)
    ensures |r| == |patterns|
    ensures forall k :: 0 <= k < |patterns| ==> r[k] == FindMatch(patterns[k], s)
  {
    seq(|patterns|, k requires 0 <= k < |patterns| => FindMatch(patterns[k], s))
  }

  /**
   * The first pattern of the list that matches anywhere in `s`, with its
   * index and its leftmost match.
   */
  function FirstMatch(patterns: seq<Pattern>, s: string): (r: Option<(nat, Match)>)
    ensures r.None? <==> forall k :: 0 <= k < |patterns| ==> FindMatch(patterns[k], s).None?
    ensures r.Some? ==> r.value.0 < |patterns| && FindMatch(patterns[r.value.0], s) == Some(r.value.1)
    ensures r.Some? ==> forall j :: 0 <= j < r.value.0 ==> FindMatch(patterns[j], s).None?
  {
    var rs := Results(patterns, s);
    match FirstSome(rs, 0)
    case None => None
    case Some(k) => Some((k, rs[k].value))
  }

  // ------------------------------------------------------------- parsing

  /** `x` times 10 to the `n`: the decimal point moved `n` places to the right. */
  function Shift(x: real, n: nat): real
    decreases n
  {
    if n == 0 then x else Shift(10.0 * x, n - 1)
  }

  lemma {:induction false} ShiftIsProduct(x: real, n: nat)
    ensures Shift(x, n) == x * (Pow10(n) as real)
    decreases n
  {
    if n > 0 {
      ShiftIsProduct(10.0 * x, n - 1);
      assert (10.0 * x) * (Pow10(n - 1) as real) == x * (10.0 * (Pow10(n - 1) as real));
    }
  }

  lemma {:induction false} ShiftAdd(x: real, y: real, n: nat)
    ensures Shift(x + y, n) == Shift(x, n) + Shift(y, n)
    decreases n
  {
    if n > 0 {
      assert 10.0 * (x + y) == 10.0 * x + 10.0 * y;
      ShiftAdd(10.0 * x, 10.0 * y, n - 1);
    }
  }

  lemma {:induction false} ShiftTen(x: real, n: nat)
    ensures Shift(10.0 * x, n) == 10.0 * Shift(x, n)
    decreases n
  {
    if n > 0 {
      ShiftTen(10.0 * x, n - 1);
    }
  }

  /** Digits written after others move them by one place each. */
  lemma {:induction false} DigitsValueAppend(a: string, b: string)
    requires forall k :: 0 <= k < |a| ==> IsDigit(a[k])
    requires forall k :: 0 <= k < |b| ==> IsDigit(b[k])
    ensures DigitsValue(a + b) as real == Shift(DigitsValue(a) as real, |b|) + DigitsValue(b) as real
    decreases |b|
  {
    if b == [] {
      assert a + b == a;
    } else {
      var b' := b[..|b| - 1];
      assert (a + b)[..|a + b| - 1] == a + b';
      assert (a + b)[|a + b| - 1] == b[|b| - 1];
      DigitsValueAppend(a, b');
      ShiftTen(DigitsValue(a) as real, |b'|);
    }
  }

  /** The leading digit counts for 10 to the number of digits after it. */
  lemma DigitsValueCons(t: string)
    requires 0 < |t| && forall k :: 0 <= k < |t| ==> IsDigit(t[k])
    ensures DigitsValue(t) as real == Shift(DigitValue(t[0]) as real, |t| - 1) + DigitsValue(t[1..]) as real
  {
    var h := [t[0]];
    assert DigitsValue(h) == DigitValue(t[0]) by {
      assert h[..0] == [];
    }
    assert h + t[1..] == t;
    DigitsValueAppend(h, t[1..]);
  }

  /**
   * The value of the digits after a decimal point, `0.d1d2...`: moved back
   * by as many places as there are digits, it is the value of the digits as
   * an integer.
   */
  function FractionValue(t: string): (r: real)
    requires forall k :: 0 <= k < |t| ==> IsDigit(t[k])
    ensures 0.0 <= r < 1.0
    ensures Shift(r, |t|) == DigitsValue(t) as real
    decreases |t|
  {
    if t == [] then 0.0
    else
      var d, rest := DigitValue(t[0]) as real, FractionValue(t[1..]);
      assert 10.0 * ((d + rest) / 10.0) == d + rest;
      ShiftAdd(d, rest, |t| - 1);
      DigitsValueCons(t);
      (d + rest) / 10.0
  }

  /**
   * `parseFloat` on a text made of digits and points that starts with a
   * digit: the value of its longest prefix of the form `\d+(?:\.\d+)?`.
   * That value, moved by as many places as fraction digits were read, is
   * the value of the digits read with the point dropped.
   */
  function ParseFloat(u: string): (r: real)
    requires 0 < |u| && IsDigit(u[0])
    requires forall k :: 0 <= k < |u| ==> IsDigit(u[k]) || u[k] == '.'
    ensures var d := DigitsEnd(u, 0);
      DigitsValue(u[..d]) as real <= r < DigitsValue(u[..d]) as real + 1.0
    ensures var d := DigitsEnd(u, 0);
      var f := if d + 1 < |u| && u[d] == '.' && IsDigit(u[d + 1]) then u[d + 1..DigitsEnd(u, d + 1)] else [];
      Shift(r, |f|) == DigitsValue(u[..d] + f) as real
  {
    var d := DigitsEnd(u, 0);
    var whole := u[..d];
    assert forall k :: 0 <= k < |whole| ==> IsDigit(whole[k]);
    if d + 1 < |u| && u[d] == '.' && IsDigit(u[d + 1]) then
      var f := u[d + 1..DigitsEnd(u, d + 1)];
      assert forall k :: 0 <= k < |f| ==> IsDigit(f[k]);
      DigitsValueAppend(whole, f);
      ShiftAdd(DigitsValue(whole) as real, FractionValue(f), |f|);
      DigitsValue(whole) as real + FractionValue(f)
    else
      assert whole + [] == whole;
      DigitsValue(whole) as real
  }

  predicate NotComma(c: char) {
    c != ','
  }

  /** `text.replace(/,/g, '')`. */
  function RemoveCommas(t: string): (r: string)
    ensures forall k :: 0 <= k < |r| ==> r[k] != ',' && r[k] in t
    ensures forall k :: 0 <= k < |t| && t[k] != ',' ==> t[k] in r
  {
    FilterMembers(t, NotComma);
    Filter(t, NotComma)
  }

  /** Removing commas from two texts one after the other is removing them from the whole. */
  lemma RemoveCommasAppend(a: string, b: string)
    ensures RemoveCommas(a + b) == RemoveCommas(a) + RemoveCommas(b)
  {
    FilterAppend(a, b, NotComma);
  }

  /** One character: a comma goes, anything else stays. */
  lemma RemoveCommasChar(c: char)
    ensures RemoveCommas([c]) == if c == ',' then [] else [c]
  {
    assert [c][1..] == [];
  }

  lemma RemoveCommasKeepsFirst(t: string)
    requires 0 < |t| && t[0] != ','
    ensures 0 < |RemoveCommas(t)| && RemoveCommas(t)[0] == t[0]
  {
  }

  /** The digits of a text, in order, every other character dropped. */
  function Digits(t: string): (r: string)
    ensures forall k :: 0 <= k < |r| ==> IsDigit(r[k]) && r[k] in t
    ensures forall k :: 0 <= k < |t| && IsDigit(t[k]) ==> t[k] in r
  {
    FilterMembers(t, IsDigit);
    Filter(t, IsDigit)
  }

  /** The number of characters after the first decimal point; 0 without one. */
  function FracLen(t: string): nat
    decreases |t|
  {
    if t == [] then 0 else if t[0] == '.' then |t| - 1 else FracLen(t[1..])
  }

  lemma {:induction false} FracLenAt(t: string, p: nat)
    requires p < |t| && t[p] == '.' && forall k :: 0 <= k < p ==> t[k] != '.'
    ensures FracLen(t) == |t| - p - 1
    decreases p
  {
    if p > 0 {
      assert t[1..][p - 1] == t[p];
      FracLenAt(t[1..], p - 1);
    }
  }

  lemma {:induction false} FracLenNone(t: string)
    requires forall k :: 0 <= k < |t| ==> t[k] != '.'
    ensures FracLen(t) == 0
    decreases |t|
  {
    if t != [] {
      assert forall k :: 0 <= k < |t[1..]| ==> t[1..][k] == t[k + 1];
      FracLenNone(t[1..]);
    }
  }

  /**
   * A captured number: a digit first, digits, commas and points only, no
   * point last, and nothing but digits after a point.
   */
  predicate NumberText(t: string) {
    && 0 < |t| && IsDigit(t[0]) && t[|t| - 1] != '.'
    && (forall k :: 0 <= k < |t| ==> IsNumberChar(t[k]))
    && (forall i, k :: 0 <= i < k < |t| && t[i] == '.' ==> IsDigit(t[k]))
  }

  /** Every number the two shapes admit is a number text. */
  lemma MatchedNumberText(body: Body, s: string, b: nat, e: nat)
    requires b <= e <= |s| && BodySpec(body, s, b, e)
    ensures NumberText(s[b..e])
  {
    var t := s[b..e];
    var j, k;
    match body {
      case Decimal =>
        j :| b < j <= e && AllDigits(s, b, j) && Fraction(s, j, e);
        k := j;
      case Numeral =>
        j, k :| b < j <= k <= e && AllDigits(s, b, j) && Groups(s, j, k) && Fraction(s, k, e);
        GroupsChars(s, j, k);
    }
    assert forall x :: b <= x < k ==> IsDigit(s[x]) || s[x] == ',';
    assert forall x :: 0 <= x < |t| ==> t[x] == s[b + x];
    if k < e {
      assert t[|t| - 1] == s[e - 1];
    }
  }

  /** The characters of a run of thousands groups are digits and commas. */
  lemma {:induction false} GroupsChars(s: string, j: nat, k: nat)
    requires j <= k <= |s| && Groups(s, j, k)
    ensures forall x :: j <= x < k ==> IsDigit(s[x]) || s[x] == ','
    decreases k - j
  {
    if j < k {
      GroupsChars(s, j + 4, k);
    }
  }

  /** A number text without a point is its digits and commas. */
  lemma WholeParts(t: string) returns (whole: string)
    requires NumberText(t) && forall k :: 0 <= k < |t| ==> t[k] != '.'
    ensures 0 < |whole| && whole[0] == t[0]
    ensures forall k :: 0 <= k < |whole| ==> IsDigit(whole[k])
    ensures RemoveCommas(t) == whole && Digits(t) == whole && FracLen(t) == 0
  {
    assert forall k :: 0 <= k < |t| ==> NotComma(t[k]) == IsDigit(t[k]);
    FilterAgree(t, NotComma, IsDigit);
    FracLenNone(t);
    whole := Digits(t);
  }

  /** Dropping the commas of digits and commas, a point and digits keeps the digits, the point and the digits. */
  lemma PointCommas(a: string, f: string)
    requires forall k :: 0 <= k < |a| ==> IsDigit(a[k]) || a[k] == ','
    requires forall k :: 0 <= k < |f| ==> IsDigit(f[k])
    ensures RemoveCommas(a + (['.'] + f)) == Digits(a) + (['.'] + f)
  {
    assert forall k :: 0 <= k < |a| ==> NotComma(a[k]) == IsDigit(a[k]);
    FilterAgree(a, NotComma, IsDigit);
    FilterAppend(a, ['.'] + f, NotComma);
    assert forall k :: 0 <= k < |['.'] + f| ==> NotComma((['.'] + f)[k]);
    FilterAll(['.'] + f, NotComma);
  }

  /** The digits of a text, a point and digits are the text's digits and those after the point. */
  lemma PointDigits(a: string, f: string)
    requires forall k :: 0 <= k < |f| ==> IsDigit(f[k])
    ensures Digits(a + (['.'] + f)) == Digits(a) + f
  {
    FilterAppend(['.'], f, IsDigit);
    FilterAll(f, IsDigit);
    assert ['.'][1..] == [];
    FilterAppend(a, ['.'] + f, IsDigit);
  }

  /** A number text with its first point at `p`. */
  lemma PointParts(t: string, p: nat) returns (whole: string, frac: string)
    requires NumberText(t) && p < |t| && t[p] == '.'
    requires forall k :: 0 <= k < p ==> t[k] != '.'
    ensures 0 < |whole| && whole[0] == t[0] && frac != []
    ensures forall k :: 0 <= k < |whole| ==> IsDigit(whole[k])
    ensures forall k :: 0 <= k < |frac| ==> IsDigit(frac[k])
    ensures RemoveCommas(t) == whole + "." + frac
    ensures Digits(t) == whole + frac
    ensures FracLen(t) == |frac|
  {
    var a, f := t[..p], t[p + 1..];
    assert t == a + (['.'] + f);
    assert forall k :: 0 <= k < |f| ==> IsDigit(f[k]) by {
      forall k | 0 <= k < |f| ensures IsDigit(f[k]) {
        assert f[k] == t[p + 1 + k];
      }
    }
    assert forall k :: 0 <= k < |a| ==> IsDigit(a[k]) || a[k] == ',' by {
      forall k | 0 <= k < |a| ensures IsDigit(a[k]) || a[k] == ',' {
        assert a[k] == t[k];
      }
    }
    PointCommas(a, f);
    PointDigits(a, f);
    assert Digits(a) == [t[0]] + Filter(a[1..], IsDigit) by {
      assert p > 0 && a[0] == t[0];
    }
    FracLenAt(t, p);
    whole, frac := Digits(a), f;
    assert whole + "." + frac == whole + (['.'] + f);
  }

  /**
   * A number text splits at its point into the digits before it and the
   * digits after it: dropping the commas leaves the two joined by the point.
   */
  lemma NumberTextParts(t: string) returns (whole: string, frac: string)
    requires NumberText(t)
    ensures 0 < |whole| && whole[0] == t[0]
    ensures forall k :: 0 <= k < |whole| ==> IsDigit(whole[k])
    ensures forall k :: 0 <= k < |frac| ==> IsDigit(frac[k])
    ensures RemoveCommas(t) == if frac == [] then whole else whole + "." + frac
    ensures Digits(t) == whole + frac
    ensures FracLen(t) == |frac|
  {
    match IndexOf(t, '.')
    case None =>
      whole := WholeParts(t);
      frac := [];
      assert whole + frac == whole;
    case Some(p) =>
      whole, frac := PointParts(t, p);
  }

  /** `parseFloat` of digits alone is their value. */
  lemma ParseWhole(whole: string)
    requires 0 < |whole| && forall k :: 0 <= k < |whole| ==> IsDigit(whole[k])
    ensures ParseFloat(whole) == DigitsValue(whole) as real
  {
    DigitsPrefix(whole, 0, |whole|);
    assert whole[..|whole|] == whole && whole + [] == whole;
  }

  /** `parseFloat` of digits, a point and digits, moved by the fraction's length, is the value of all the digits. */
  lemma ParsePoint(whole: string, frac: string)
    requires 0 < |whole| && forall k :: 0 <= k < |whole| ==> IsDigit(whole[k])
    requires 0 < |frac| && forall k :: 0 <= k < |frac| ==> IsDigit(frac[k])
    ensures var u := whole + "." + frac;
      && (forall k :: 0 <= k < |u| ==> IsDigit(u[k]) || u[k] == '.')
      && Shift(ParseFloat(u), |frac|) == DigitsValue(whole + frac) as real
  {
    var u := whole + "." + frac;
    assert forall k :: 0 <= k < |u| ==> IsDigit(u[k]) || u[k] == '.' by {
      forall k | 0 <= k < |u|
        ensures IsDigit(u[k]) || u[k] == '.'
      {
        if k < |whole| {
          assert u[k] == whole[k];
        } else if k > |whole| {
          assert u[k] == frac[k - |whole| - 1];
        }
      }
    }
    var d := DigitsEnd(u, 0);
    assert d == |whole| && u[..d] == whole by {
      assert AllDigits(u, 0, |whole|) by {
        assert forall k :: 0 <= k < |whole| ==> u[k] == whole[k];
      }
      DigitsPrefix(u, 0, |whole|);
      assert u[|whole|] == '.';
    }
    assert u[d + 1..DigitsEnd(u, d + 1)] == frac by {
      assert AllDigits(u, d + 1, |u|) by {
        forall x | d + 1 <= x < |u|
          ensures IsDigit(u[x])
        {
          assert u[x] == frac[x - d - 1];
        }
      }
      DigitsPrefix(u, d + 1, |u|);
      assert u[d + 1..] == frac;
    }
  }

  /**
   * `parseFloat` reads a number text whole once its commas are gone: the
   * value, moved by as many places as it has fraction digits, is the value
   * of all its digits.
   */
  lemma NumberTextValue(t: string)
    requires NumberText(t)
    ensures var u := RemoveCommas(t);
      && 0 < |u| && IsDigit(u[0])
      && (forall k :: 0 <= k < |u| ==> IsDigit(u[k]) || u[k] == '.')
      && Shift(ParseFloat(u), FracLen(t)) == DigitsValue(Digits(t)) as real
  {
    var whole, frac := NumberTextParts(t);
    if frac == [] {
      ParseWhole(whole);
      assert whole + frac == whole;
    } else {
      ParsePoint(whole, frac);
    }
  }

  /**
   * `parseFloat(match[1].replace(/,/g, ''))` for a match of one of the
   * patterns. For a number text, the amount moved by as many places as it
   * has fraction digits is the value of all the digits of the capture.
   */
  function CapturedAmount(s: string, m: Match): (r: real)
    requires m.groupStart < m.groupEnd <= |s| && IsDigit(s[m.groupStart])
    requires forall x :: m.groupStart <= x < m.groupEnd ==> IsNumberChar(s[x])
    ensures r >= 0.0
    ensures var t := s[m.groupStart..m.groupEnd];
      NumberText(t) ==> Shift(r, FracLen(t)) == DigitsValue(Digits(t)) as real
  {
    var t := s[m.groupStart..m.groupEnd];
    RemoveCommasKeepsFirst(t);
    var u := RemoveCommas(t);
    assert forall k :: 0 <= k < |u| ==> IsDigit(u[k]) || u[k] == '.' by {
      forall k | 0 <= k < |u|
        ensures IsDigit(u[k]) || u[k] == '.'
      {
        var j :| 0 <= j < |t| && t[j] == u[k];
        assert IsNumberChar(s[m.groupStart + j]);
      }
    }
    assert NumberText(t) ==> Shift(ParseFloat(u), FracLen(t)) == DigitsValue(Digits(t)) as real by {
      if NumberText(t) {
        NumberTextValue(t);
      }
    }
    ParseFloat(u)
  }

  /** The amount `FindMatch` captures is the value its digits spell, with the point put back. */
  lemma FindMatchAmount(p: Pattern, s: string)
    requires FindMatch(p, s).Some?
    ensures var m := FindMatch(p, s).value; var t := s[m.groupStart..m.groupEnd];
      && NumberText(t)
      && Shift(CapturedAmount(s, m), FracLen(t)) == DigitsValue(Digits(t)) as real
  {
    FindMatchSound(p, s);
    var m := FindMatch(p, s).value;
    MatchedNumberText(p.body, s, m.groupStart, m.groupEnd);
  }

  /** `"3,000"` is captured as three thousand. */
  lemma CapturedThousands(t: string)
    requires t == "3,000"
    ensures CapturedAmount(t, Match(0, 0, 5)) == 3000.0
  {
    assert t[0..5] == t;
    assert NumberText(t) by {
      assert forall k :: 0 <= k < |t| ==> t[k] != '.';
    }
    assert FracLen(t) == 0 by {
      FracLenNone(t);
    }
    assert DigitsValue(Digits(t)) == 3000 by {
      assert Digits(t) == "3000" by {
        assert t == "3," + "000";
        FilterAppend("3,", "000", IsDigit);
        assert Filter("3,", IsDigit) == "3" by {
          assert "3,"[1..] == ",";
          assert ","[1..] == [];
        }
        FilterAll("000", IsDigit);
      }
      assert "3000"[..3] == "300" && "300"[..2] == "30" && "30"[..1] == "3" && "3"[..0] == [];
    }
  }

  /** `"2.5"` is captured as two and a half. */
  lemma CapturedFraction(t: string)
    requires t == "2.5"
    ensures CapturedAmount(t, Match(0, 0, 3)) == 2.5
  {
    assert t[0..3] == t;
    assert NumberText(t);
    assert FracLen(t) == 1 by {
      FracLenAt(t, 1);
    }
    assert DigitsValue(Digits(t)) == 25 by {
      assert Digits(t) == "25" by {
        assert t == "2." + "5";
        FilterAppend("2.", "5", IsDigit);
        assert Filter("2.", IsDigit) == "2" by {
          assert "2."[1..] == ".";
          assert "."[1..] == [];
        }
        FilterAll("5", IsDigit);
      }
      assert "25"[..1] == "2" && "2"[..0] == [];
    }
  }
}
