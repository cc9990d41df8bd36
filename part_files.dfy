/**
 * Discovery of the chunk files `part<n>.csv` in the chunk directory
 * (LastFMScrobbler.list_part_indices). The directory listing is a parameter:
 * the basenames of its entries, in whatever order the system returns them.
 */
module PartFiles {

  import opened Wrappers
  import opened PyBuiltins

  /** The basename under which chunk n is stored: f"part{n}.csv". */
  function PartFileName(n: int): (name: string)
    ensures |name| >= 9 && StartsWith(name, "part") && EndsWith(name, ".csv")
    ensures name[4] == '-' <==> n < 0
  {
    "part" + IntToDecimal(n) + ".csv"
  }

  /** The chunk index a basename names, when it is exactly `part<digits>.csv`:
      the names that both glob("part*.csv") lists and r"^part(\d+)\.csv$"
      matches, with int() of the digits. */
  function PartIndexOf(name: string): (index: Option<nat>)
    ensures index.Some? ==> StartsWith(name, "part") && EndsWith(name, ".csv") && |name| >= 9
  {
    if |name| >= 9 && name[..4] == "part" && name[|name| - 4..] == ".csv" && AllDigits(name[4..|name| - 4])
    then Some(DigitsValue(name[4..|name| - 4]))
    else None
  }

  /** A basename yields index i exactly when it is "part", a non-empty run of
      digits whose value is i, and ".csv" -- nothing else contributes. */
  lemma PartIndexShape(name: string, i: nat)
    ensures PartIndexOf(name) == Some(i) <==>
      exists digits :: digits != [] && AllDigits(digits) && name == "part" + digits + ".csv" && DigitsValue(digits) == i
  {
    if PartIndexOf(name) == Some(i) {
      var digits := name[4..|name| - 4];
      assert name == "part" + digits + ".csv";
    }
    if exists digits :: digits != [] && AllDigits(digits) && name == "part" + digits + ".csv" && DigitsValue(digits) == i {
      var digits :| digits != [] && AllDigits(digits) && name == "part" + digits + ".csv" && DigitsValue(digits) == i;
      assert name[..4] == "part";
      assert name[|name| - 4..] == ".csv";
      assert name[4..|name| - 4] == digits;
    }
  }

  /** The file written for chunk n >= 0 is discovered as chunk n again. */
  lemma PartNameRoundTrip(n: nat)
    ensures PartIndexOf(PartFileName(n)) == Some(n)
  {
    DecimalRoundTrip(n);
    PartIndexShape(PartFileName(n), n);
  }

  /** A negative chunk number names a file ("part-3.csv") that discovery never lists. */
  lemma NegativeNameNotListed(n: int)
    requires n < 0
    ensures PartIndexOf(PartFileName(n)) == None
  {
    var name := PartFileName(n);
    assert name[4] == '-';
    assert name[4..|name| - 4][0] == '-';
  }

  /** The indices the loop of list_part_indices appends, in listing order. */
  function MatchedIndices(names: seq<string>): (indices: seq<int>)
    ensures |indices| <= |names|
    ensures forall k :: 0 <= k < |indices| ==> indices[k] >= 0
  {
    if names == [] then []
    else
      var front := MatchedIndices(names[..|names| - 1]);
      match PartIndexOf(names[|names| - 1])
      case Some(i) => front + [i]
      case None => front
  }

  /** An index is collected exactly when some listed basename names it. */
  lemma {:induction false} MatchedMembers(names: seq<string>)
    ensures forall i :: i in MatchedIndices(names) <==>
      exists k :: 0 <= k < |names| && PartIndexOf(names[k]) == Some(i)
  {
    if names != [] {
      var front := names[..|names| - 1];
      MatchedMembers(front);
      forall i ensures i in MatchedIndices(names) <==>
        exists k :: 0 <= k < |names| && PartIndexOf(names[k]) == Some(i)
      {
        if exists k :: 0 <= k < |names| && PartIndexOf(names[k]) == Some(i) {
          var k :| 0 <= k < |names| && PartIndexOf(names[k]) == Some(i);
          if k < |front| { assert front[k] == names[k]; }
        }
        if i in MatchedIndices(front) {
          var k :| 0 <= k < |front| && PartIndexOf(front[k]) == Some(i);
          assert names[k] == front[k];
        }
      }
    }
  }

  /** list_part_indices: the chunk indices present in the directory, ascending;
      every matching basename contributes its index once (so two names such as
      part1.csv and part01.csv give 1 twice), and no other basename contributes. */
  method ListPartIndices(names: seq<string>) returns (indices: seq<int>)
    ensures indices == Sorted(MatchedIndices(names))
    ensures Ascending(indices)
    ensures multiset(indices) == multiset(MatchedIndices(names))
    ensures forall i :: i in indices <==> exists k :: 0 <= k < |names| && PartIndexOf(names[k]) == Some(i)
  {
    var found: seq<int> := [];
    for k := 0 to |names|
      invariant found == MatchedIndices(names[..k])
    {
      assert names[..k + 1][..k] == names[..k];
      match PartIndexOf(names[k]) {
        case Some(i) => found := found + [i];
        case None =>
      }
    }
    assert names[..|names|] == names;
    indices := Sorted(found);
    MatchedMembers(names);
    assert forall i :: i in indices <==> i in multiset(found);
  }
}
