/**
 * The records the goal tracker stores and exchanges (src/types/index.ts),
 * and the array built-ins applied to lists of them.
 *
 * An optional field (`description?: string`) is an `Option`. A goal's status
 * is kept as the string the application stores, so that a record loaded
 * from storage may carry a status outside the three the type names; a
 * missing or otherwise falsy stored status is the empty string.
 */
module Types {

  datatype Option<+T> = None | Some(value: T)

  const InProgress: string := "in-progress"
  const Paused: string := "paused"
  const Completed: string := "completed"

  /**
   * The party popper that opens every congratulation, as the source files
   * spell it: the UTF-8 bytes of U+1F389 read as Windows-1252.
   */
  const PartyPopper: string := "\U{00F0}\U{0178}\U{017D}\U{2030}"

  datatype Goal = Goal(
    id: string,
    title: string,
    description: Option<string>,
    initialProgress: Option<string>,
    context: Option<string>,
    overallProgress: real,
    status: string,
    createdAt: string,
    updatedAt: string)

  /** The analysis the progress service returns for one journal entry. */
  datatype LLMProgressResponse = LLMProgressResponse(
    overallProgress: real,
    progressIncrease: real,
    reasoning: string,
    feedback: string)

  datatype ProgressUpdate = ProgressUpdate(
    id: string,
    goalId: string,
    journalEntry: string,
    timestamp: string,
    llmResponse: Option<LLMProgressResponse>)

  datatype Milestone = Milestone(title: string, description: string, timeline: string, priority: string)

  datatype Habit = Habit(name: string, description: string, frequency: string, impact: string)

  datatype LLMCoachingResponse = LLMCoachingResponse(milestones: seq<Milestone>, habits: seq<Habit>, advice: string)

  /** `value || ''`: an absent or empty optional string reads as the empty string. */
  function OrEmpty(o: Option<string>): (r: string)
    ensures o.Some? ==> r == o.value
    ensures o.None? ==> r == []
  {
    match o
    case Some(s) => s
    case None => []
  }

  /** `value || fallback` on an optional string: absent and empty are both falsy. */
  function OrDefault(o: Option<string>, fallback: string): (r: string)
    ensures o.Some? && o.value != [] ==> r == o.value
    ensures o.None? || o.value == [] ==> r == fallback
  {
    if o.Some? && o.value != [] then o.value else fallback
  }

  /** `Array.prototype.filter`: the elements satisfying `p`, in their original order. */
  function Filter<T>(s: seq<T>, p: T -> bool): (r: seq<T>)
    ensures |r| <= |s|
    decreases |s|
  {
    if s == [] then [] else (if p(s[0]) then [s[0]] else []) + Filter(s[1..], p)
  }

  /** What `Filter` keeps: elements of the input that pass the test, and every such element. */
  lemma {:induction false} FilterMembers<T>(s: seq<T>, p: T -> bool)
    ensures forall i :: 0 <= i < |Filter(s, p)| ==> Filter(s, p)[i] in s && p(Filter(s, p)[i])
    ensures forall i :: 0 <= i < |s| && p(s[i]) ==> s[i] in Filter(s, p)
    decreases |s|
  {
    if s != [] {
      FilterMembers(s[1..], p);
      var head := if p(s[0]) then [s[0]] else [];
      var r := Filter(s, p);
      assert r == head + Filter(s[1..], p);
      forall i | 0 <= i < |r|
        ensures r[i] in s && p(r[i])
      {
        if i >= |head| {
          assert r[i] == Filter(s[1..], p)[i - |head|];
        }
      }
      forall i | 0 <= i < |s| && p(s[i])
        ensures s[i] in r
      {
        if i > 0 {
          assert s[i] == s[1..][i - 1];
        }
      }
    }
  }

  /** Filtering distributes over concatenation, so it keeps the relative order. */
  lemma {:induction false} FilterAppend<T>(a: seq<T>, b: seq<T>, p: T -> bool)
    ensures Filter(a + b, p) == Filter(a, p) + Filter(b, p)
    decreases |a|
  {
    if a == [] {
      assert a + b == b;
    } else {
      var head := if p(a[0]) then [a[0]] else [];
      var fa, fb, fa1 := Filter(a, p), Filter(b, p), Filter(a[1..], p);
      assert Filter(a + b, p) == head + Filter(a[1..] + b, p) by {
        assert a + b != [] && (a + b)[0] == a[0] && (a + b)[1..] == a[1..] + b;
      }
      assert Filter(a[1..] + b, p) == fa1 + fb by {
        FilterAppend(a[1..], b, p);
      }
      assert fa == head + fa1;
      SeqAssoc(head, fa1, fb);
    }
  }

  /** A list whose every element passes the test is kept whole. */
  lemma {:induction false} FilterAll<T>(s: seq<T>, p: T -> bool)
    requires forall k :: 0 <= k < |s| ==> p(s[k])
    ensures Filter(s, p) == s
    decreases |s|
  {
    if s != [] {
      assert forall k :: 0 <= k < |s[1..]| ==> s[1..][k] == s[k + 1];
      FilterAll(s[1..], p);
      assert [s[0]] + s[1..] == s;
    }
  }

  /** Two tests that agree on every element keep the same elements. */
  lemma {:induction false} FilterAgree<T>(s: seq<T>, p: T -> bool, q: T -> bool)
    requires forall k :: 0 <= k < |s| ==> p(s[k]) == q(s[k])
    ensures Filter(s, p) == Filter(s, q)
    decreases |s|
  {
    if s != [] {
      assert forall k :: 0 <= k < |s[1..]| ==> s[1..][k] == s[k + 1];
      FilterAgree(s[1..], p, q);
    }
  }

  lemma SeqAssoc<T>(x: seq<T>, y: seq<T>, z: seq<T>)
    ensures x + (y + z) == (x + y) + z
  {
  }
}
