/**
 * Submitting a chunk to Last.fm: scrobble_batch, scrobble_individually and
 * the batch loop of process_file, plus save_progress and check_progress, as
 * the methods of a `Scrobbler` object whose state is the calls it has made,
 * the progress file and the failed-songs files.
 *
 * The service and the clock are inputs: `Remote` says which calls the
 * service accepts and `Clock` what int(time.time()) returns at each reading.
 */
module Submission {

  import opened Wrappers
  import opened PyBuiltins
  import opened PartFiles
  import opened ChunkParsing
  import opened ProgressState

  /** Songs per scrobble_many call. */
  const BatchSize: nat := 50
  /** Seconds between the synthetic play times of consecutive songs. */
  const Spacing: int := 180
  /** time.sleep(3) between batches, in milliseconds. */
  const BatchPauseMs: nat := 3000
  /** time.sleep(0.5) after each accepted single scrobble, in milliseconds. */
  const RetryPauseMs: nat := 500

  /** One play as sent to the service. */
  datatype Scrobble = Scrobble(artist: string, title: string, timestamp: int)

  /** What the scrobbler does to the outside world, in order. */
  datatype Event =
    | ScrobbleMany(scrobbles: seq<Scrobble>)
    | ScrobbleOne(scrobble: Scrobble)
    | Sleep(millis: nat)

  /** Whether the service accepts the scrobble_many call for batch b
      (0-based), and the single call for song i of batch b. */
  datatype Remote = Remote(batchOk: nat -> bool, singleOk: (nat, nat) -> bool)

  /** int(time.time()) as read by scrobble_batch and by scrobble_individually
      for batch b, and by save_progress, with the ISO date it records. */
  datatype Clock = Clock(batchTime: nat -> int, retryTime: nat -> int, saveTime: int, saveDate: string)

  // ---------------------------------------------------------------- batching

  function Min(a: int, b: int): int {
    if a <= b then a else b
  }

  /** total_batches = (len(songs) + 49) // 50. */
  function BatchCount(n: nat): (count: nat)
    ensures n <= count * BatchSize < n + BatchSize
  {
    (n + BatchSize - 1) / BatchSize
  }

  /** The count is the ceiling of n / 50: b is a batch number exactly when
      batch b starts inside the list. */
  lemma BatchCountCeiling(n: nat, b: nat)
    ensures b < BatchCount(n) <==> b * BatchSize < n
  {
  }

  /** songs[50b : min(50b + 50, n)], the b-th batch (0-based). */
  function Batch(songs: seq<Song>, b: nat): (batch: seq<Song>)
    requires b < BatchCount(|songs|)
    ensures 1 <= |batch| <= BatchSize
  {
    BatchCountCeiling(|songs|, b);
    songs[b * BatchSize .. Min(b * BatchSize + BatchSize, |songs|)]
  }

  /** The first k batches, concatenated. */
  function Batched(songs: seq<Song>, k: nat): seq<Song>
    requires k <= BatchCount(|songs|)
  {
    if k == 0 then [] else Batched(songs, k - 1) + Batch(songs, k - 1)
  }

  /** The first k batches are the first min(50k, n) songs, in order. */
  lemma {:induction false} BatchedPrefix(songs: seq<Song>, k: nat)
    requires k <= BatchCount(|songs|)
    ensures Batched(songs, k) == songs[..Min(k * BatchSize, |songs|)]
  {
    if k > 0 {
      BatchedPrefix(songs, k - 1);
      BatchCountCeiling(|songs|, k - 1);
      assert songs[..Min(k * BatchSize, |songs|)]
        == songs[..(k - 1) * BatchSize] + songs[(k - 1) * BatchSize .. Min(k * BatchSize, |songs|)];
    }
  }

  /** The batches cover the song list exactly: nothing dropped, nothing
      repeated, order kept. */
  lemma BatchesCoverSongs(songs: seq<Song>)
    ensures Batched(songs, BatchCount(|songs|)) == songs
  {
    BatchedPrefix(songs, BatchCount(|songs|));
    BatchCountCeiling(|songs|, BatchCount(|songs|));
    assert songs[..|songs|] == songs;
  }

  // -------------------------------------------------------------- timestamps

  /** The scrobbles built for a batch read at time `now`: song i is played at
      now - 180 * i. */
  function Stamped(batch: seq<Song>, now: int): (scrobbles: seq<Scrobble>)
    ensures |scrobbles| == |batch|
    ensures forall i :: 0 <= i < |batch| ==>
      scrobbles[i].artist == batch[i].artist && scrobbles[i].title == batch[i].track
    ensures |batch| > 0 ==> scrobbles[0].timestamp == now
    ensures forall i :: 0 < i < |batch| ==> scrobbles[i].timestamp == scrobbles[i - 1].timestamp - Spacing
  {
    if batch == [] then []
    else
      var last := batch[|batch| - 1];
      Stamped(batch[..|batch| - 1], now) + [Scrobble(last.artist, last.track, now - (|batch| - 1) * Spacing)]
  }

  /** The play times go strictly back in time, 180 seconds per position. */
  lemma {:induction false} StampsDescend(batch: seq<Song>, now: int)
    ensures forall i :: 0 <= i < |batch| ==> Stamped(batch, now)[i].timestamp == now - i * Spacing
    ensures forall i, j :: 0 <= i < j < |batch| ==> Stamped(batch, now)[i].timestamp > Stamped(batch, now)[j].timestamp
  {
    var r := Stamped(batch, now);
    forall i | 0 <= i < |batch| ensures r[i].timestamp == now - i * Spacing {
      StampAt(batch, now, i);
    }
  }

  lemma {:induction false} StampAt(batch: seq<Song>, now: int, i: nat)
    requires i < |batch|
    ensures Stamped(batch, now)[i].timestamp == now - i * Spacing
  {
    if i > 0 {
      StampAt(batch, now, i - 1);
    }
  }

  // ------------------------------------------------------ individual fallback

  /** The events of scrobble_individually over the first k songs of batch b,
      with the clock read as `now`. */
  function RetryEvents(remote: Remote, b: nat, batch: seq<Song>, now: int, k: nat): (events: seq<Event>)
    requires k <= |batch|
    ensures k <= |events| <= 2 * k
  {
    if k == 0 then []
    else
      var song := batch[k - 1];
      RetryEvents(remote, b, batch, now, k - 1)
        + [ScrobbleOne(Scrobble(song.artist, song.track, now - (k - 1) * Spacing))]
        + (if remote.singleOk(b, k - 1) then [Sleep(RetryPauseMs)] else [])
  }

  /** success_count after the first k songs of batch b. */
  function Successes(remote: Remote, b: nat, k: nat): (count: nat)
    ensures count <= k
  {
    if k == 0 then 0 else Successes(remote, b, k - 1) + (if remote.singleOk(b, k - 1) then 1 else 0)
  }

  /** 0 <= success_count <= len(batch), and it is positive exactly when some
      single scrobble of the batch was accepted. */
  lemma {:induction false} SuccessesBounds(remote: Remote, b: nat, k: nat)
    ensures Successes(remote, b, k) <= k
    ensures Successes(remote, b, k) > 0 <==> exists i :: 0 <= i < k && remote.singleOk(b, i)
  {
    if k > 0 {
      SuccessesBounds(remote, b, k - 1);
    }
  }

  /** The single scrobbles among a list of events. */
  function SingleCalls(events: seq<Event>): seq<Scrobble> {
    if events == [] then []
    else
      var front := SingleCalls(events[..|events| - 1]);
      match events[|events| - 1]
      case ScrobbleOne(s) => front + [s]
      case _ => front
  }

  lemma {:induction false} SingleCallsAppend(a: seq<Event>, c: seq<Event>)
    ensures SingleCalls(a + c) == SingleCalls(a) + SingleCalls(c)
  {
    if c == [] {
      assert a + c == a;
    } else {
      SingleCallsAppend(a, c[..|c| - 1]);
      assert (a + c)[..|a + c| - 1] == a + c[..|c| - 1];
      assert (a + c)[|a + c| - 1] == c[|c| - 1];
    }
  }

  /** The fallback tries every song of the batch exactly once, in order, with
      the same timestamp rule as the batch call. */
  lemma {:induction false} RetryTriesEverySong(remote: Remote, b: nat, batch: seq<Song>, now: int, k: nat)
    requires k <= |batch|
    ensures SingleCalls(RetryEvents(remote, b, batch, now, k)) == Stamped(batch[..k], now)
  {
    if k > 0 {
      RetryTriesEverySong(remote, b, batch, now, k - 1);
      var prev := RetryEvents(remote, b, batch, now, k - 1);
      var scrobble := Scrobble(batch[k - 1].artist, batch[k - 1].track, now - (k - 1) * Spacing);
      var pause: seq<Event> := if remote.singleOk(b, k - 1) then [Sleep(RetryPauseMs)] else [];
      RetryStep(remote, b, batch, now, k);
      StampedStep(batch, now, k);
      SingleCallsAppend(prev + [ScrobbleOne(scrobble)], pause);
      SingleCallsAppend(prev, [ScrobbleOne(scrobble)]);
      assert SingleCalls([ScrobbleOne(scrobble)]) == [scrobble];
      assert SingleCalls(pause) == [];
    }
  }

  lemma RetryStep(remote: Remote, b: nat, batch: seq<Song>, now: int, k: nat)
    requires 0 < k <= |batch|
    ensures RetryEvents(remote, b, batch, now, k) == RetryEvents(remote, b, batch, now, k - 1)
      + [ScrobbleOne(Scrobble(batch[k - 1].artist, batch[k - 1].track, now - (k - 1) * Spacing))]
      + (if remote.singleOk(b, k - 1) then [Sleep(RetryPauseMs)] else [])
  {
  }

  lemma StampedStep(batch: seq<Song>, now: int, k: nat)
    requires 0 < k <= |batch|
    ensures Stamped(batch[..k], now) == Stamped(batch[..k - 1], now)
      + [Scrobble(batch[k - 1].artist, batch[k - 1].track, now - (k - 1) * Spacing)]
  {
    assert batch[..k][..k - 1] == batch[..k - 1];
  }

  // ------------------------------------------------------------------ batches

  /** scrobble_batch's return value: the batch call was accepted, or at least
      one single scrobble of the fallback was. */
  predicate BatchSucceeded(remote: Remote, b: nat, size: nat)
    ensures remote.batchOk(b) ==> BatchSucceeded(remote, b, size)
    ensures !remote.batchOk(b) && size == 0 ==> !BatchSucceeded(remote, b, size)
  {
    remote.batchOk(b) || Successes(remote, b, size) > 0
  }

  /** The events of scrobble_batch for batch b. */
  function BatchEvents(remote: Remote, clock: Clock, b: nat, batch: seq<Song>): (events: seq<Event>)
    ensures events != [] && events[0] == ScrobbleMany(Stamped(batch, clock.batchTime(b)))
    ensures |events| == 1 <==> remote.batchOk(b) || batch == []
  {
    [ScrobbleMany(Stamped(batch, clock.batchTime(b)))]
      + (if remote.batchOk(b) then [] else RetryEvents(remote, b, batch, clock.retryTime(b), |batch|))
  }

  /** A batch the service accepted is never retried one by one; a rejected
      one is retried song by song with the fallback's own clock reading. */
  lemma RetryOnlyAfterRejection(remote: Remote, clock: Clock, b: nat, batch: seq<Song>)
    ensures remote.batchOk(b) ==> SingleCalls(BatchEvents(remote, clock, b, batch)) == []
    ensures !remote.batchOk(b) ==>
      SingleCalls(BatchEvents(remote, clock, b, batch)) == Stamped(batch, clock.retryTime(b))
  {
    var many := [ScrobbleMany(Stamped(batch, clock.batchTime(b)))];
    assert SingleCalls(many) == [];
    if !remote.batchOk(b) {
      SingleCallsAppend(many, RetryEvents(remote, b, batch, clock.retryTime(b), |batch|));
      RetryTriesEverySong(remote, b, batch, clock.retryTime(b), |batch|);
      assert batch[..|batch|] == batch;
    }
  }

  /** The events of the first k iterations of process_file's batch loop. */
  function RunEvents(remote: Remote, clock: Clock, songs: seq<Song>, k: nat): (events: seq<Event>)
    requires k <= BatchCount(|songs|)
    ensures |events| >= k
    ensures k > 0 ==> events[0] == ScrobbleMany(Stamped(Batch(songs, 0), clock.batchTime(0)))
  {
    if k == 0 then []
    else
      RunEvents(remote, clock, songs, k - 1)
        + BatchEvents(remote, clock, k - 1, Batch(songs, k - 1))
        + (if k - 1 < BatchCount(|songs|) - 1 then [Sleep(BatchPauseMs)] else [])
  }

  lemma RunStep(remote: Remote, clock: Clock, songs: seq<Song>, b: nat)
    requires b < BatchCount(|songs|)
    ensures RunEvents(remote, clock, songs, b + 1) == RunEvents(remote, clock, songs, b)
      + BatchEvents(remote, clock, b, Batch(songs, b))
      + (if b < BatchCount(|songs|) - 1 then [Sleep(BatchPauseMs)] else [])
  {
  }

  lemma AppendAssoc(prior: seq<Event>, a: seq<Event>, c: seq<Event>, d: seq<Event>)
    ensures prior + a + c + d == prior + (a + c + d)
  {
  }

  /** failed_songs after k iterations: the failed batches, concatenated in order. */
  function FailedSongs(remote: Remote, songs: seq<Song>, k: nat): (failed: seq<Song>)
    requires k <= BatchCount(|songs|)
    ensures |failed| <= k * BatchSize
  {
    if k == 0 then []
    else
      var batch := Batch(songs, k - 1);
      FailedSongs(remote, songs, k - 1) + (if BatchSucceeded(remote, k - 1, |batch|) then [] else batch)
  }

  lemma FailedStep(remote: Remote, songs: seq<Song>, b: nat)
    requires b < BatchCount(|songs|)
    ensures FailedSongs(remote, songs, b + 1) == FailedSongs(remote, songs, b)
      + (if BatchSucceeded(remote, b, |Batch(songs, b)|) then [] else Batch(songs, b))
  {
  }

  /** Every failed song is one of the songs read, and there are never more
      failed songs than songs read. */
  lemma {:induction false} FailedWithinBatched(remote: Remote, songs: seq<Song>, k: nat)
    requires k <= BatchCount(|songs|)
    ensures |FailedSongs(remote, songs, k)| <= |Batched(songs, k)|
    ensures forall s :: s in FailedSongs(remote, songs, k) ==> s in Batched(songs, k)
  {
    if k > 0 {
      var batch := Batch(songs, k - 1);
      var added := if BatchSucceeded(remote, k - 1, |batch|) then [] else batch;
      FailedWithinBatched(remote, songs, k - 1);
      FailedStep(remote, songs, k - 1);
      BatchedStep(songs, k - 1);
      WithinGrows(FailedSongs(remote, songs, k - 1), Batched(songs, k - 1), batch, added);
    }
  }

  lemma BatchedStep(songs: seq<Song>, b: nat)
    requires b < BatchCount(|songs|)
    ensures Batched(songs, b + 1) == Batched(songs, b) + Batch(songs, b)
  {
  }

  lemma WithinGrows(failed: seq<Song>, read: seq<Song>, batch: seq<Song>, added: seq<Song>)
    requires |failed| <= |read| && forall s :: s in failed ==> s in read
    requires added == [] || added == batch
    ensures |failed + added| <= |read + batch| && forall s :: s in failed + added ==> s in read + batch
  {
  }

  /** No song fails exactly when every batch succeeds (batches are never
      empty, so a failed batch always leaves songs behind). */
  lemma {:induction false} NoneFailed(remote: Remote, songs: seq<Song>, k: nat)
    requires k <= BatchCount(|songs|)
    ensures FailedSongs(remote, songs, k) == [] <==> forall b :: 0 <= b < k ==> BatchSucceeded(remote, b, |Batch(songs, b)|)
  {
    if k > 0 {
      NoneFailed(remote, songs, k - 1);
      FailedStep(remote, songs, k - 1);
      assert |Batch(songs, k - 1)| >= 1;
    }
  }

  /** Every song fails when no batch succeeds. */
  lemma {:induction false} AllFailed(remote: Remote, songs: seq<Song>, k: nat)
    requires k <= BatchCount(|songs|)
    requires forall b :: 0 <= b < k ==> !BatchSucceeded(remote, b, |Batch(songs, b)|)
    ensures FailedSongs(remote, songs, k) == Batched(songs, k)
  {
    if k > 0 {
      AllFailed(remote, songs, k - 1);
    }
  }

  /** Only a run in which no batch succeeds fails as many songs as it read. */
  lemma {:induction false} OnlyAllFailed(remote: Remote, songs: seq<Song>, k: nat)
    requires k <= BatchCount(|songs|)
    requires |FailedSongs(remote, songs, k)| == |Batched(songs, k)|
    ensures forall b: nat :: b < k ==> !BatchSucceeded(remote, b, |Batch(songs, b)|)
  {
    if k > 0 {
      var batch := Batch(songs, k - 1);
      var added := if BatchSucceeded(remote, k - 1, |batch|) then [] else batch;
      assert FailedSongs(remote, songs, k) == FailedSongs(remote, songs, k - 1) + added by {
        FailedStep(remote, songs, k - 1);
      }
      assert Batched(songs, k) == Batched(songs, k - 1) + batch by {
        BatchedStep(songs, k - 1);
      }
      assert |FailedSongs(remote, songs, k - 1)| <= |Batched(songs, k - 1)| by {
        FailedWithinBatched(remote, songs, k - 1);
      }
      TightGrows(FailedSongs(remote, songs, k - 1), Batched(songs, k - 1), batch, added);
      OnlyAllFailed(remote, songs, k - 1);
    }
  }

  lemma TightGrows(failed: seq<Song>, read: seq<Song>, batch: seq<Song>, added: seq<Song>)
    requires |failed| <= |read| && batch != []
    requires added == [] || added == batch
    requires |failed + added| == |read + batch|
    ensures added == batch && |failed| == |read|
  {
  }

  /** The whole run: the failed songs come from the file, and are all of it
      exactly when every batch failed. */
  lemma FailedWithinSongs(remote: Remote, songs: seq<Song>)
    ensures |FailedSongs(remote, songs, BatchCount(|songs|))| <= |songs|
    ensures forall s :: s in FailedSongs(remote, songs, BatchCount(|songs|)) ==> s in songs
    ensures FailedSongs(remote, songs, BatchCount(|songs|)) == songs <==>
      forall b :: 0 <= b < BatchCount(|songs|) ==> !BatchSucceeded(remote, b, |Batch(songs, b)|)
  {
    FailedWithinBatched(remote, songs, BatchCount(|songs|));
    BatchesCoverSongs(songs);
    if forall b :: 0 <= b < BatchCount(|songs|) ==> !BatchSucceeded(remote, b, |Batch(songs, b)|) {
      AllFailed(remote, songs, BatchCount(|songs|));
    }
    if FailedSongs(remote, songs, BatchCount(|songs|)) == songs {
      OnlyAllFailed(remote, songs, BatchCount(|songs|));
    }
  }

  /** How many scrobble_many calls a list of events holds. */
  function BatchCalls(events: seq<Event>): nat {
    if events == [] then 0
    else BatchCalls(events[..|events| - 1]) + (if events[|events| - 1].ScrobbleMany? then 1 else 0)
  }

  lemma {:induction false} BatchCallsAppend(a: seq<Event>, c: seq<Event>)
    ensures BatchCalls(a + c) == BatchCalls(a) + BatchCalls(c)
  {
    if c == [] {
      assert a + c == a;
    } else {
      BatchCallsAppend(a, c[..|c| - 1]);
      assert (a + c)[..|a + c| - 1] == a + c[..|c| - 1];
      assert (a + c)[|a + c| - 1] == c[|c| - 1];
    }
  }

  lemma {:induction false} NoBatchCallInRetry(remote: Remote, b: nat, batch: seq<Song>, now: int, k: nat)
    requires k <= |batch|
    ensures BatchCalls(RetryEvents(remote, b, batch, now, k)) == 0
  {
    if k > 0 {
      NoBatchCallInRetry(remote, b, batch, now, k - 1);
      var prev := RetryEvents(remote, b, batch, now, k - 1);
      var song := batch[k - 1];
      var one: seq<Event> := [ScrobbleOne(Scrobble(song.artist, song.track, now - (k - 1) * Spacing))];
      var pause: seq<Event> := if remote.singleOk(b, k - 1) then [Sleep(RetryPauseMs)] else [];
      RetryStep(remote, b, batch, now, k);
      assert RetryEvents(remote, b, batch, now, k) == prev + one + pause;
      BatchCallsAppend(prev + one, pause);
      BatchCallsAppend(prev, one);
      assert BatchCalls(one) == 0;
      assert BatchCalls(pause) == 0;
    }
  }

  /** scrobble_batch makes exactly one scrobble_many call, whether or not the
      fallback follows. */
  lemma OneBatchCall(remote: Remote, clock: Clock, b: nat, batch: seq<Song>)
    ensures BatchCalls(BatchEvents(remote, clock, b, batch)) == 1
  {
    var many := [ScrobbleMany(Stamped(batch, clock.batchTime(b)))];
    assert BatchCalls(many) == 1;
    var rest := if remote.batchOk(b) then [] else RetryEvents(remote, b, batch, clock.retryTime(b), |batch|);
    BatchCallsAppend(many, rest);
    if !remote.batchOk(b) {
      NoBatchCallInRetry(remote, b, batch, clock.retryTime(b), |batch|);
    }
  }

  /** The loop makes exactly one scrobble_many call per batch: after k
      batches it has made k of them, whatever the service answered. */
  lemma {:induction false} OneBatchCallPerBatch(remote: Remote, clock: Clock, songs: seq<Song>, k: nat)
    requires 0 < k <= BatchCount(|songs|)
    ensures BatchCalls(RunEvents(remote, clock, songs, k)) == k
  {
    var total := BatchCount(|songs|);
    var prev := RunEvents(remote, clock, songs, k - 1);
    var batchEvents := BatchEvents(remote, clock, k - 1, Batch(songs, k - 1));
    var pause: seq<Event> := if k - 1 < total - 1 then [Sleep(BatchPauseMs)] else [];
    var before: nat := k - 1;
    if k > 1 {
      OneBatchCallPerBatch(remote, clock, songs, k - 1);
    } else {
      assert prev == [];
    }
    assert BatchCalls(prev) == before;
    RunStep(remote, clock, songs, k - 1);
    BatchCallsAppend(prev + batchEvents, pause);
    BatchCallsAppend(prev, batchEvents);
    OneBatchCall(remote, clock, k - 1, Batch(songs, k - 1));
    assert BatchCalls(pause) == 0;
    assert BatchCalls(RunEvents(remote, clock, songs, k)) == before + 1;
  }

  /** A whole run makes total_batches scrobble_many calls, and none when the
      file gave no song. */
  lemma RunBatchCalls(remote: Remote, clock: Clock, songs: seq<Song>)
    ensures BatchCalls(RunEvents(remote, clock, songs, BatchCount(|songs|))) == BatchCount(|songs|)
  {
    if songs != [] {
      BatchCountCeiling(|songs|, 0);
      OneBatchCallPerBatch(remote, clock, songs, BatchCount(|songs|));
    }
  }

  /** How many 3-second pauses a list of events holds. */
  function BatchPauses(events: seq<Event>): nat {
    if events == [] then 0
    else BatchPauses(events[..|events| - 1]) + (if events[|events| - 1] == Sleep(BatchPauseMs) then 1 else 0)
  }

  lemma {:induction false} BatchPausesAppend(a: seq<Event>, c: seq<Event>)
    ensures BatchPauses(a + c) == BatchPauses(a) + BatchPauses(c)
  {
    if c == [] {
      assert a + c == a;
    } else {
      BatchPausesAppend(a, c[..|c| - 1]);
      assert (a + c)[..|a + c| - 1] == a + c[..|c| - 1];
      assert (a + c)[|a + c| - 1] == c[|c| - 1];
    }
  }

  lemma {:induction false} NoBatchPauseInRetry(remote: Remote, b: nat, batch: seq<Song>, now: int, k: nat)
    requires k <= |batch|
    ensures BatchPauses(RetryEvents(remote, b, batch, now, k)) == 0
  {
    if k > 0 {
      NoBatchPauseInRetry(remote, b, batch, now, k - 1);
      var prev := RetryEvents(remote, b, batch, now, k - 1);
      var song := batch[k - 1];
      var one: seq<Event> := [ScrobbleOne(Scrobble(song.artist, song.track, now - (k - 1) * Spacing))];
      var pause: seq<Event> := if remote.singleOk(b, k - 1) then [Sleep(RetryPauseMs)] else [];
      RetryStep(remote, b, batch, now, k);
      assert RetryEvents(remote, b, batch, now, k) == prev + one + pause;
      BatchPausesAppend(prev + one, pause);
      BatchPausesAppend(prev, one);
      assert BatchPauses(one) == 0;
      assert BatchPauses(pause) == 0;
    }
  }

  lemma NoBatchPauseInBatch(remote: Remote, clock: Clock, b: nat, batch: seq<Song>)
    ensures BatchPauses(BatchEvents(remote, clock, b, batch)) == 0
  {
    var many := [ScrobbleMany(Stamped(batch, clock.batchTime(b)))];
    assert BatchPauses(many) == 0;
    var rest := if remote.batchOk(b) then [] else RetryEvents(remote, b, batch, clock.retryTime(b), |batch|);
    BatchPausesAppend(many, rest);
    if !remote.batchOk(b) {
      NoBatchPauseInRetry(remote, b, batch, clock.retryTime(b), |batch|);
    }
  }

  /** The loop pauses after every batch but the last: after k batches it has
      paused min(k, total - 1) times. */
  lemma {:induction false} PausesBetweenBatches(remote: Remote, clock: Clock, songs: seq<Song>, k: nat)
    requires 0 < k <= BatchCount(|songs|)
    ensures BatchPauses(RunEvents(remote, clock, songs, k)) == if k < BatchCount(|songs|) then k else k - 1
  {
    var total := BatchCount(|songs|);
    var prev := RunEvents(remote, clock, songs, k - 1);
    var batchEvents := BatchEvents(remote, clock, k - 1, Batch(songs, k - 1));
    var pause: seq<Event> := if k - 1 < total - 1 then [Sleep(BatchPauseMs)] else [];
    var before: nat := k - 1;
    if k > 1 {
      PausesBetweenBatches(remote, clock, songs, k - 1);
    } else {
      assert prev == [];
    }
    assert BatchPauses(prev) == before;
    RunStep(remote, clock, songs, k - 1);
    BatchPausesAppend(prev + batchEvents, pause);
    BatchPausesAppend(prev, batchEvents);
    NoBatchPauseInBatch(remote, clock, k - 1, Batch(songs, k - 1));
    assert BatchPauses(pause) == |pause|;
    assert BatchPauses(RunEvents(remote, clock, songs, k)) == before + |pause|;
  }

  /** A whole run over n songs pauses max(total_batches - 1, 0) times. */
  lemma RunPauses(remote: Remote, clock: Clock, songs: seq<Song>)
    ensures BatchPauses(RunEvents(remote, clock, songs, BatchCount(|songs|)))
      == if songs == [] then 0 else BatchCount(|songs|) - 1
  {
    if songs != [] {
      BatchCountCeiling(|songs|, 0);
      PausesBetweenBatches(remote, clock, songs, BatchCount(|songs|));
    }
  }

  // ----------------------------------------------------------- process_file

  /** The songs process_file reads for chunk n; none when the file is missing. */
  function ChunkSongs(files: map<string, seq<seq<string>>>, n: int): (songs: seq<Song>)
    ensures AllAcceptable(songs)
    ensures PartFileName(n) !in files ==> songs == []
    ensures PartFileName(n) in files ==> |songs| <= |files[PartFileName(n)]|
  {
    var name := PartFileName(n);
    if name in files then RowSongs(files[name]) else []
  }

  /** process_file goes past its three early returns: the chunk file exists,
      it holds at least one song, and the answer lower-cases to "yes". */
  predicate Proceeds(files: map<string, seq<seq<string>>>, n: int, confirm: string)
    ensures Proceeds(files, n, confirm) ==> |confirm| == 3 && |ChunkSongs(files, n)| >= 1
  {
    PartFileName(n) in files && ChunkSongs(files, n) != [] && LowerEquals(confirm, "yes")
  }

  /** The progress file after save_progress(n). */
  function Saved(progress: Progress, n: int, clock: Clock): (saved: Progress)
    ensures forall x :: x in saved.completed <==> x in progress.completed || x == n
    ensures saved.lastRun.Ran? && PartIndexOf(saved.lastRun.file) == (if n < 0 then None else Some(n))
  {
    assert PartIndexOf(PartFileName(n)) == (if n < 0 then None else Some(n)) by {
      if n < 0 { NegativeNameNotListed(n); } else { PartNameRoundTrip(n); }
    }
    Progress(MarkCompleted(progress.completed, n), Ran(PartFileName(n), clock.saveDate, clock.saveTime))
  }

  /** The failed-songs files after a run of chunk n: failed_songs_part{n}.json
      is (re)written only when some song failed. */
  function Reported(reports: map<int, seq<Song>>, n: int, failed: seq<Song>): (written: map<int, seq<Song>>)
    ensures written.Keys == if failed == [] then reports.Keys else reports.Keys + {n}
    ensures forall m :: m in reports && m != n ==> written[m] == reports[m]
    ensures failed != [] ==> written[n] == failed
    ensures failed == [] ==> written == reports
  {
    if failed == [] then reports else reports[n := failed]
  }

  class Scrobbler {
    const remote: Remote
    const clock: Clock
    /** Every call and pause so far, in order. */
    var log: seq<Event>
    /** The content of scrobble_progress.json. */
    var progress: Progress
    /** The content of each failed_songs_part{n}.json, by n. */
    var failedReports: map<int, seq<Song>>

    constructor (remote: Remote, clock: Clock, stored: Progress)
      ensures this.remote == remote && this.clock == clock
      ensures log == [] && progress == stored && failedReports == map[]
    {
      this.remote := remote;
      this.clock := clock;
      log := [];
      progress := stored;
      failedReports := map[];
    }

    /** scrobble_individually: one call per song, song i stamped
        now - 180 * i, a half-second pause after each accepted one; true
        exactly when at least one was accepted. */
    method ScrobbleIndividually(batch: seq<Song>, b: nat) returns (ok: bool)
      modifies this`log
      ensures ok == (Successes(remote, b, |batch|) > 0)
      ensures log == old(log) + RetryEvents(remote, b, batch, clock.retryTime(b), |batch|)
    {
      var successCount := 0;
      var now := clock.retryTime(b);
      for i := 0 to |batch|
        invariant successCount == Successes(remote, b, i)
        invariant log == old(log) + RetryEvents(remote, b, batch, now, i)
      {
        var timestamp := now - i * Spacing;
        log := log + [ScrobbleOne(Scrobble(batch[i].artist, batch[i].track, timestamp))];
        if remote.singleOk(b, i) {
          successCount := successCount + 1;
          log := log + [Sleep(RetryPauseMs)];
        }
      }
      ok := successCount > 0;
    }

    /** scrobble_batch: build the stamped batch, send it in one call, and
        fall back to single calls when the service rejects it. */
    method ScrobbleBatch(batch: seq<Song>, b: nat) returns (ok: bool)
      modifies this`log
      ensures ok == BatchSucceeded(remote, b, |batch|)
      ensures log == old(log) + BatchEvents(remote, clock, b, batch)
    {
      var now := clock.batchTime(b);
      var scrobbles: seq<Scrobble> := [];
      for i := 0 to |batch|
        invariant scrobbles == Stamped(batch[..i], now)
      {
        assert batch[..i + 1][..i] == batch[..i];
        scrobbles := scrobbles + [Scrobble(batch[i].artist, batch[i].track, now - i * Spacing)];
      }
      assert batch[..|batch|] == batch;
      log := log + [ScrobbleMany(scrobbles)];
      if remote.batchOk(b) {
        ok := true;
      } else {
        ok := ScrobbleIndividually(batch, b);
      }
    }

    /** save_progress: record chunk n as completed (once) and as the last run. */
    method SaveProgress(n: int)
      modifies this`progress
      ensures progress == Saved(old(progress), n, clock)
    {
      var completed := progress.completed;
      if n !in completed {
        completed := completed + [n];
      }
      progress := Progress(completed, Ran(PartFileName(n), clock.saveDate, clock.saveTime));
    }

    /** check_progress: the completed chunks, ascending and without repeats. */
    method CheckProgress() returns (completed: seq<int>)
      ensures StrictlyAscending(completed)
      ensures forall x :: x in completed <==> x in progress.completed
    {
      completed := SortedSet(progress.completed);
    }

    /** The batch loop of process_file: batch b is songs[50b : 50b + 50],
        submitted in order, with a pause after every batch but the last;
        the result is failed_songs. */
    method SubmitBatches(songs: seq<Song>) returns (failed: seq<Song>)
      modifies this`log
      ensures log == old(log) + RunEvents(remote, clock, songs, BatchCount(|songs|))
      ensures failed == FailedSongs(remote, songs, BatchCount(|songs|))
    {
      var total := BatchCount(|songs|);
      failed := [];
      for b := 0 to total
        invariant log == old(log) + RunEvents(remote, clock, songs, b)
        invariant failed == FailedSongs(remote, songs, b)
      {
        var batch := Batch(songs, b);
        var success := ScrobbleBatch(batch, b);
        failed := failed + (if success then [] else batch);
        // the pause before the next batch; none after the last one
        var pause: seq<Event> := if b < total - 1 then [Sleep(BatchPauseMs)] else [];
        log := log + pause;
        RunStep(remote, clock, songs, b);
        FailedStep(remote, songs, b);
        AppendAssoc(old(log), RunEvents(remote, clock, songs, b), BatchEvents(remote, clock, b, batch), pause);
      }
    }

    /** process_file: on the three early returns nothing changes; otherwise
        every batch is submitted in order with a pause between batches, the
        failed songs are reported when there are some, and then the chunk is
        saved. */
    method ProcessFile(n: int, files: map<string, seq<seq<string>>>, confirm: string) returns (ok: bool)
      modifies this
      ensures ok == Proceeds(files, n, confirm)
      ensures !ok ==> log == old(log) && progress == old(progress) && failedReports == old(failedReports)
      ensures ok ==>
        var songs := ChunkSongs(files, n);
        var total := BatchCount(|songs|);
        && log == old(log) + RunEvents(remote, clock, songs, total)
        && failedReports == Reported(old(failedReports), n, FailedSongs(remote, songs, total))
        && progress == Saved(old(progress), n, clock)
    {
      var name := PartFileName(n);
      if name !in files {
        return false;
      }
      var songs := ReadCsvFile(Some(files[name]));
      if songs == [] {
        return false;
      }
      if !LowerEquals(confirm, "yes") {
        return false;
      }
      Submit(n, songs);
      ok := true;
    }

    /** The part of process_file after the confirmation: the batch loop,
        the failed-songs report when some song failed, then the progress save. */
    method Submit(n: int, songs: seq<Song>)
      modifies this
      ensures log == old(log) + RunEvents(remote, clock, songs, BatchCount(|songs|))
      ensures failedReports == Reported(old(failedReports), n, FailedSongs(remote, songs, BatchCount(|songs|)))
      ensures progress == Saved(old(progress), n, clock)
    {
      var failed := SubmitBatches(songs);
      failedReports := Reported(failedReports, n, failed);
      SaveProgress(n);
    }
  }
}
