/**
 * The progress file scrobble_progress.json and the choice of the next chunk:
 * the merge save_progress performs, the `remaining` list check_progress and
 * main compute, and main's default pick remaining[0].
 */
module ProgressState {

  import opened Wrappers
  import opened PyBuiltins

  /** `last_run`: the chunk file, ISO date and epoch seconds of the latest
      save; `{}` before the first one. */
  datatype LastRun = NeverRun | Ran(file: string, date: string, timestamp: int)

  /** The content of the progress file. */
  datatype Progress = Progress(completed: seq<int>, lastRun: LastRun)

  /** What save_progress and check_progress start from when there is no progress file. */
  const Fresh: Progress := Progress([], NeverRun)

  predicate NoDuplicates(s: seq<int>) {
    forall i, j :: 0 <= i < j < |s| ==> s[i] != s[j]
  }

  /** The `completed` list after save_progress(n): the old list, in order,
      with n added at the end if it was not there; nothing is removed. */
  function MarkCompleted(completed: seq<int>, n: int): (r: seq<int>)
    ensures forall x :: x in r <==> x in completed || x == n
    ensures |completed| <= |r| <= |completed| + 1 && r[..|completed|] == completed
    ensures NoDuplicates(completed) ==> NoDuplicates(r)
    ensures n in completed ==> r == completed
    ensures n !in completed ==> |r| == |completed| + 1 && r[|completed|] == n
  {
    if n in completed then completed else completed + [n]
  }

  /** Saving the same chunk twice is the same as saving it once. */
  lemma MarkIdempotent(completed: seq<int>, n: int)
    ensures MarkCompleted(MarkCompleted(completed, n), n) == MarkCompleted(completed, n)
  {
  }

  /** `[i for i in available if i not in completed]`. */
  function Remaining(available: seq<int>, completed: seq<int>): (r: seq<int>)
    ensures forall x :: x in r <==> x in available && x !in completed
    ensures |r| <= |available|
    ensures Ascending(available) ==> Ascending(r)
  {
    if available == [] then []
    else
      var rest := Remaining(available[1..], completed);
      assert forall x :: x in rest ==> x in available[1..];
      if available[0] in completed then rest
      else
        assert Ascending(available) ==> forall k :: 0 <= k < |rest| ==> available[0] <= rest[k] by {
          if Ascending(available) {
            forall k | 0 <= k < |rest| ensures available[0] <= rest[k] {
              assert rest[k] in available[1..];
            }
          }
        }
        [available[0]] + rest
  }

  /** The comprehension is an exact filter: each chunk occurs in the result
      as often as in `available`, unless it is completed, and then not at all. */
  lemma {:induction false} RemainingCounts(available: seq<int>, completed: seq<int>)
    ensures forall x :: multiset(Remaining(available, completed))[x] == (if x in completed then 0 else multiset(available)[x])
  {
    if available != [] {
      RemainingCounts(available[1..], completed);
      assert available == [available[0]] + available[1..];
    }
  }

  /** Only membership in `completed` matters: check_progress's
      sorted(set(completed)) leaves the same chunks remaining. */
  lemma {:induction false} RemainingBySet(available: seq<int>, completed: seq<int>)
    ensures Remaining(available, SortedSet(completed)) == Remaining(available, completed)
  {
    if available != [] {
      RemainingBySet(available[1..], completed);
    }
  }

  /** The chunk main proposes by default: the first remaining one. */
  function NextChunk(available: seq<int>, completed: seq<int>): (next: Option<int>)
    ensures next.Some? ==> next.value in available && next.value !in completed
    ensures next.None? ==> forall x :: x in available ==> x in completed
  {
    var remaining := Remaining(available, completed);
    if remaining == [] then None else Some(remaining[0])
  }

  /** With the available indices ascending, the default pick is the lowest
      index not yet completed, and there is none exactly when every available
      chunk is completed. */
  lemma NextIsLowestPending(available: seq<int>, completed: seq<int>)
    requires Ascending(available)
    ensures NextChunk(available, completed).None? <==> forall x :: x in available ==> x in completed
    ensures NextChunk(available, completed).Some? ==>
      var n := NextChunk(available, completed).value;
      n in available && n !in completed && forall x :: x in available && x !in completed ==> n <= x
  {
    var remaining := Remaining(available, completed);
    if remaining == [] {
      forall x | x in available ensures x in completed {
        assert x !in remaining;
      }
    } else {
      assert remaining[0] in remaining;
      assert remaining[0] in available && remaining[0] !in completed;
      forall x | x in available && x !in completed ensures remaining[0] <= x {
        assert x in remaining;
        var k :| 0 <= k < |remaining| && remaining[k] == x;
      }
    }
  }

  /** Once chunk n is saved as completed it is never the default pick again,
      and nothing that was completed becomes pending. */
  lemma SavedNeverReselected(available: seq<int>, completed: seq<int>, n: int)
    ensures n !in Remaining(available, MarkCompleted(completed, n))
    ensures NextChunk(available, MarkCompleted(completed, n)) != Some(n)
    ensures forall x :: x in Remaining(available, MarkCompleted(completed, n)) ==> x in Remaining(available, completed)
  {
  }
}
