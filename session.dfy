/**
 * One run of the program's `main`: list the chunks, read the progress, pick
 * the next chunk, and act on the menu choice.  The console answers are
 * parameters: `choice` is the menu line, `typed` the file number after int()
 * (None when int() raises ValueError), `confirm` process_file's question.
 */
module Session {

  import opened Wrappers
  import opened PyBuiltins
  import opened PartFiles
  import opened ChunkParsing
  import opened ProgressState
  import opened Submission

  /** How the run ends. */
  datatype Outcome =
    | NoPartFiles
    | AllProcessed
    | Processed(file: int, ok: bool)
    | InvalidNumber
    | InvalidFileNumber
    | Inspected(file: int, songs: seq<Song>)
    | Goodbye
    | InvalidChoice

  /** The menu of `main` once a next chunk exists: process it, process a
      chosen one, inspect a chosen one, or leave. */
  method Choose(s: Scrobbler, available: seq<int>, next: int, files: map<string, seq<seq<string>>>,
                choice: string, typed: Option<int>, confirm: string) returns (outcome: Outcome)
    requires next in available
    modifies s
    ensures choice == "1" ==> outcome.Processed? && outcome.file == next
    ensures choice == "2" || choice == "3" ==>
      (typed.None? <==> outcome == InvalidNumber)
      && (typed.Some? && typed.value !in available <==> outcome == InvalidFileNumber)
    ensures choice == "2" && typed.Some? && typed.value in available ==>
      outcome.Processed? && outcome.file == typed.value
    ensures choice == "3" && typed.Some? && typed.value in available ==>
      outcome == Inspected(typed.value, ChunkSongs(files, typed.value))
    ensures choice == "4" <==> outcome == Goodbye
    ensures choice !in {"1", "2", "3", "4"} <==> outcome == InvalidChoice
    ensures outcome.Processed? ==> outcome.file in available && outcome.ok == Proceeds(files, outcome.file, confirm)
    ensures outcome != NoPartFiles && outcome != AllProcessed
    ensures !(outcome.Processed? && outcome.ok) ==>
      s.log == old(s.log) && s.progress == old(s.progress) && s.failedReports == old(s.failedReports)
    ensures outcome.Processed? && outcome.ok ==>
      var songs := ChunkSongs(files, outcome.file);
      && s.log == old(s.log) + RunEvents(s.remote, s.clock, songs, BatchCount(|songs|))
      && s.failedReports == Reported(old(s.failedReports), outcome.file, FailedSongs(s.remote, songs, BatchCount(|songs|)))
      && s.progress == Saved(old(s.progress), outcome.file, s.clock)
  {
    if choice == "1" {
      var ok := s.ProcessFile(next, files, confirm);
      outcome := Processed(next, ok);
    } else if choice == "2" {
      if typed.None? {
        return InvalidNumber;
      }
      var n := typed.value;
      if n in available {
        var ok := s.ProcessFile(n, files, confirm);
        outcome := Processed(n, ok);
      } else {
        outcome := InvalidFileNumber;
      }
    } else if choice == "3" {
      if typed.None? {
        return InvalidNumber;
      }
      var n := typed.value;
      if n in available {
        var name := PartFileName(n);
        var songs := ReadCsvFile(if name in files then Some(files[name]) else None);
        outcome := Inspected(n, songs);
      } else {
        outcome := InvalidFileNumber;
      }
    } else if choice == "4" {
      outcome := Goodbye;
    } else {
      outcome := InvalidChoice;
    }
  }

  /** `main`: stop when there is no chunk or none is pending; otherwise
      offer the lowest pending chunk and act on the menu choice. */
  method RunSession(s: Scrobbler, names: seq<string>, files: map<string, seq<seq<string>>>,
                    choice: string, typed: Option<int>, confirm: string) returns (outcome: Outcome)
    modifies s
    ensures var available := Sorted(MatchedIndices(names));
      var remaining := Remaining(available, old(s.progress.completed));
      && (available == [] <==> outcome == NoPartFiles)
      && (available != [] && remaining == [] <==> outcome == AllProcessed)
      && (available != [] && remaining != [] && choice == "1" ==>
           outcome.Processed? && outcome.file == remaining[0])
      && (outcome.Processed? ==> outcome.file in available)
      && (outcome.Processed? && choice == "1" ==>
           outcome.file !in old(s.progress.completed)
           && forall x :: x in available && x !in old(s.progress.completed) ==> outcome.file <= x)
    ensures !(outcome.Processed? && outcome.ok) ==>
      s.log == old(s.log) && s.progress == old(s.progress) && s.failedReports == old(s.failedReports)
    ensures outcome.Processed? && outcome.ok ==>
      var songs := ChunkSongs(files, outcome.file);
      && s.log == old(s.log) + RunEvents(s.remote, s.clock, songs, BatchCount(|songs|))
      && s.failedReports == Reported(old(s.failedReports), outcome.file, FailedSongs(s.remote, songs, BatchCount(|songs|)))
      && s.progress == Saved(old(s.progress), outcome.file, s.clock)
  {
    var available := ListPartIndices(names);
    if available == [] {
      return NoPartFiles;
    }
    var completed := s.CheckProgress();
    var remaining := Remaining(available, completed);
    RemainingBySet(available, s.progress.completed);
    NextIsLowestPending(available, s.progress.completed);
    if remaining == [] {
      return AllProcessed;
    }
    assert remaining[0] in remaining;
    outcome := Choose(s, available, remaining[0], files, choice, typed, confirm);
  }
}
