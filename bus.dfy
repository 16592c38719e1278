/**
 * The message bus of `download_tracks`: each worker puts its track's
 * status events on a shared queue, and the parent process reads the queue,
 * relays WORKER_STATUS payloads to its own callback, and stops at the
 * pool's POOL_DONE or POOL_ERROR message.
 */
module Bus {
  import opened Wrappers
  import opened Track
  import opened Status
  import opened Files
  import opened Pipeline

  datatype MessageType = POOL_DONE | POOL_ERROR | WORKER_STATUS

  /** The `(track, status, args)` triple a worker reports; the status and its
      arguments are one `StatusEvent`. */
  datatype Payload = Payload(track: TrackInfo, event: StatusEvent)

  /** A dictionary on the queue: its 'type' entry and its 'payload' entry, either of which may be missing. */
  datatype QueueMessage = QueueMessage(kind: Option<MessageType>, payload: Option<Payload>)

  /** `Exception(f"Error for track: {track}")`, raised from what `download_track` raised. */
  datatype WorkerError = WorkerError(track: TrackInfo, cause: Raised)

  /** What `download_tracks` ends with: `work.get()` returned or re-raised a
      worker's error; an unknown message raised "Internal error (unknown
      message)"; or the queue ran dry without a pool message, where the
      blocking `get` would wait for ever. */
  datatype Outcome = Finished(work: Result<(), WorkerError>) | UnknownMessage(msg: QueueMessage) | Blocked

  // ---------------------------------------------------------------------
  // `_track_download_worker`

  function StatusMessage(track: TrackInfo, e: StatusEvent): QueueMessage {
    QueueMessage(Some(WORKER_STATUS), Some(Payload(track, e)))
  }

  /** The queue messages of one worker: one WORKER_STATUS message per event, in order. */
  function StatusMessages(track: TrackInfo, events: seq<StatusEvent>): (r: seq<QueueMessage>)
    ensures |r| == |events|
    ensures forall i :: 0 <= i < |r| ==> Relayed(r[i]) && r[i].payload.value == Payload(track, events[i])
  {
    if events == [] then [] else [StatusMessage(track, events[0])] + StatusMessages(track, events[1..])
  }

  /** The worker runs `download_track` with a callback that puts each event
      on the queue; what the track raised is re-raised, naming the track. */
  method TrackDownloadWorker(fs: FileSystem, track: TrackInfo, outDir: string, outName: string, overwrite: bool,
                             cover: CoverInfo, env: Collaborators) returns (sent: seq<QueueMessage>, result: Result<(), WorkerError>)
    modifies fs
    ensures var run := DownloadTrackRun(track, outDir, outName, overwrite, cover, env, old(fs.files));
      sent == StatusMessages(track, run.events) && fs.files == run.files &&
      (result.Err? <==> run.raised.Some?) &&
      (result.Err? ==> result.error == WorkerError(track, run.raised.value))
  {
    var events, raised := DownloadTrack(fs, track, outDir, outName, overwrite, cover, env);
    sent := StatusMessages(track, events);
    result := if raised.Some? then Err(WorkerError(track, raised.value)) else Ok(());
  }

  // ---------------------------------------------------------------------
  // The consumer loop of `download_tracks`

  /** Matched by the `WORKER_STATUS` case: typed WORKER_STATUS and carrying a payload. */
  predicate Relayed(m: QueueMessage) {
    m.kind == Some(WORKER_STATUS) && m.payload.Some?
  }

  function Payloads(ms: seq<QueueMessage>): (r: seq<Payload>)
    requires forall i :: 0 <= i < |ms| ==> Relayed(ms[i])
    ensures |r| == |ms|
    ensures forall i :: 0 <= i < |r| ==> Relayed(ms[i]) && r[i] == ms[i].payload.value
  {
    if ms == [] then [] else assert Relayed(ms[0]); [ms[0].payload.value] + Payloads(ms[1..])
  }

  /** The position of the first message that ends the loop, or the queue's length if none does. */
  function FirstStop(queue: seq<QueueMessage>): (k: nat)
    ensures k <= |queue|
    ensures forall i :: 0 <= i < k ==> Relayed(queue[i])
    ensures k < |queue| ==> !Relayed(queue[k])
  {
    if queue == [] || !Relayed(queue[0]) then 0 else 1 + FirstStop(queue[1..])
  }

  /** The loop reads messages in queue order and relays every WORKER_STATUS
      payload up to the first other message, which it reads last: POOL_DONE
      ends it, POOL_ERROR ends it after terminating the pool, anything else
      terminates the pool and raises. After the loop, `work.get()` returns
      or re-raises, as `work` says. */
  method ConsumeQueue(queue: seq<QueueMessage>, work: Result<(), WorkerError>)
    returns (relayed: seq<Payload>, read: nat, terminated: bool, outcome: Outcome)
    ensures var k := FirstStop(queue);
      relayed == Payloads(queue[..k]) &&
      (k == |queue| ==> read == k && outcome == Blocked && !terminated) &&
      (k < |queue| ==> read == k + 1) &&
      (k < |queue| && queue[k].kind == Some(POOL_DONE) ==> outcome == Finished(work) && !terminated) &&
      (k < |queue| && queue[k].kind == Some(POOL_ERROR) ==> outcome == Finished(work) && terminated) &&
      (k < |queue| && queue[k].kind != Some(POOL_DONE) && queue[k].kind != Some(POOL_ERROR) ==>
        outcome == UnknownMessage(queue[k]) && terminated)
  {
    relayed := [];
    read := 0;
    terminated := false;
    while true
      invariant read <= FirstStop(queue)
      invariant relayed == Payloads(queue[..read])
      decreases |queue| - read
    {
      if read == |queue| {
        return relayed, read, false, Blocked;
      }
      var msg := queue[read];
      read := read + 1;
      if msg.kind == Some(POOL_DONE) {
        outcome := Finished(work);
        break;
      } else if msg.kind == Some(POOL_ERROR) {
        terminated := true;
        outcome := Finished(work);
        break;
      } else if msg.kind == Some(WORKER_STATUS) && msg.payload.Some? {
        assert queue[..read] == queue[..read - 1] + [msg];
        relayed := relayed + [msg.payload.value];
      } else {
        return relayed, read, true, UnknownMessage(msg);
      }
    }
  }

  // ---------------------------------------------------------------------
  // What the bus delivers

  /** A run of status messages followed by a stopping message stops the loop
      right after the run. */
  lemma {:induction false} FirstStopAfter(ms: seq<QueueMessage>, rest: seq<QueueMessage>)
    requires forall i :: 0 <= i < |ms| ==> Relayed(ms[i])
    requires rest != [] && !Relayed(rest[0])
    ensures FirstStop(ms + rest) == |ms|
    decreases |ms|
  {
    if ms == [] {
      assert ms + rest == rest;
    } else {
      assert (ms + rest)[1..] == ms[1..] + rest;
      FirstStopAfter(ms[1..], rest);
    }
  }

  /** One worker's messages followed by POOL_DONE: the parent relays exactly
      that track's events, in order, then stops. */
  lemma WorkerThenDone(track: TrackInfo, events: seq<StatusEvent>)
    ensures var queue := StatusMessages(track, events) + [QueueMessage(Some(POOL_DONE), None)];
      var k := FirstStop(queue);
      k == |events| && |Payloads(queue[..k])| == |events| &&
      forall i :: 0 <= i < |events| ==> Payloads(queue[..k])[i] == Payload(track, events[i])
  {
    var ms := StatusMessages(track, events);
    var queue := ms + [QueueMessage(Some(POOL_DONE), None)];
    FirstStopAfter(ms, [QueueMessage(Some(POOL_DONE), None)]);
    assert queue[..|events|] == ms;
  }
}
