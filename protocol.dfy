/**
 * What `download_track` promises its status callback: START first, exactly
 * one DONE last whatever raised, the phases in order, CACHED without any
 * work, and SUCCESS only when every step returned normally.
 */
module Protocol {
  import opened Wrappers
  import opened Track
  import opened Status
  import opened Files
  import opened Pipeline
  import opened Naming

  /** The events other than MESSAGE, in order. */
  function Phases(events: seq<StatusEvent>): (r: seq<StatusEvent>)
    ensures forall i :: 0 <= i < |r| ==> !r[i].Message? && r[i] in events
  {
    if events == [] then []
    else if events[0].Message? then Phases(events[1..])
    else [events[0]] + Phases(events[1..])
  }

  predicate FetchPhase(e: StatusEvent) { e.Downloading? || e.Converting? }

  lemma {:induction false} PhasesAppend(a: seq<StatusEvent>, b: seq<StatusEvent>)
    ensures Phases(a + b) == Phases(a) + Phases(b)
    decreases |a|
  {
    if a == [] {
      assert a + b == b;
    } else {
      PhasesAppend(a[1..], b);
      assert (a + b)[0] == a[0] && (a + b)[1..] == a[1..] + b;
    }
  }

  lemma {:induction false} PhasesOfMessages(s: seq<StatusEvent>)
    requires forall i :: 0 <= i < |s| ==> s[i].Message?
    ensures Phases(s) == []
    decreases |s|
  {
    if s != [] {
      PhasesOfMessages(s[1..]);
    }
  }

  lemma {:induction false} PhasesOfFetch(s: seq<StatusEvent>)
    requires forall i :: 0 <= i < |s| ==> s[i].Downloading? || s[i].Converting? || s[i].Message?
    ensures forall i :: 0 <= i < |Phases(s)| ==> FetchPhase(Phases(s)[i])
    decreases |s|
  {
    if s != [] {
      PhasesOfFetch(s[1..]);
    }
  }

  /** The download reports all its progress before any postprocessing. */
  predicate HooksOrdered(steps: seq<DownloadStep>) {
    forall i, j :: 0 <= i < j < |steps| && steps[i].PostprocessorHook? ==> !steps[j].ProgressHook?
  }

  /** No DOWNLOADING event follows a CONVERTING one. */
  predicate ConvertingLast(p: seq<StatusEvent>) {
    forall i, j :: 0 <= i < j < |p| && p[i].Converting? ==> !p[j].Downloading?
  }

  lemma ConvertingLastAppend(a: seq<StatusEvent>, b: seq<StatusEvent>)
    requires ConvertingLast(a) && ConvertingLast(b)
    requires (forall i :: 0 <= i < |a| ==> !a[i].Converting?) || (forall j :: 0 <= j < |b| ==> !b[j].Downloading?)
    ensures ConvertingLast(a + b)
  {
    forall i, j | 0 <= i < j < |a + b| && (a + b)[i].Converting?
      ensures !(a + b)[j].Downloading?
    {
      if j < |a| {
        assert (a + b)[i] == a[i] && (a + b)[j] == a[j];
      } else if i >= |a| {
        assert (a + b)[i] == b[i - |a|] && (a + b)[j] == b[j - |a|];
      } else {
        assert (a + b)[i] == a[i] && (a + b)[j] == b[j - |a|];
      }
    }
  }

  lemma {:induction false} ConvertingLastPhases(s: seq<StatusEvent>)
    requires ConvertingLast(s)
    ensures ConvertingLast(Phases(s))
    decreases |s|
  {
    if s != [] {
      assert ConvertingLast(s[1..]) by {
        forall i, j | 0 <= i < j < |s[1..]| && s[1..][i].Converting? ensures !s[1..][j].Downloading? {
          assert s[1..][i] == s[i + 1] && s[1..][j] == s[j + 1];
        }
      }
      ConvertingLastPhases(s[1..]);
      if !s[0].Message? {
        var rest := Phases(s[1..]);
        assert Phases(s) == [s[0]] + rest;
        if s[0].Converting? {
          forall j | 0 <= j < |rest| ensures !rest[j].Downloading? {
            var k :| 0 <= k < |s[1..]| && s[1..][k] == rest[j];
            assert s[k + 1] == rest[j];
          }
        }
        ConvertingLastAppend([s[0]], rest);
      }
    }
  }

  /** A download with no progress call emits no DOWNLOADING event. */
  lemma {:induction false} NoProgressNoDownloading(steps: seq<DownloadStep>)
    requires forall j :: 0 <= j < |steps| ==> !steps[j].ProgressHook?
    ensures forall i :: 0 <= i < |DownloadEvents(steps)| ==> !DownloadEvents(steps)[i].Downloading?
    decreases |steps|
  {
    if steps != [] {
      NoProgressNoDownloading(steps[1..]);
    }
  }

  lemma {:induction false} DownloadEventsOrdered(steps: seq<DownloadStep>)
    requires HooksOrdered(steps)
    ensures ConvertingLast(DownloadEvents(steps))
    decreases |steps|
  {
    if steps != [] {
      var head := StepEvents(steps[0]);
      var rest := DownloadEvents(steps[1..]);
      assert HooksOrdered(steps[1..]) by {
        forall i, j | 0 <= i < j < |steps[1..]| && steps[1..][i].PostprocessorHook?
          ensures !steps[1..][j].ProgressHook?
        {
          assert steps[1..][i] == steps[i + 1] && steps[1..][j] == steps[j + 1];
        }
      }
      DownloadEventsOrdered(steps[1..]);
      match steps[0] {
        case PostprocessorHook => assert head == [Converting];
        case DownloadLog(_) => assert forall i :: 0 <= i < |head| ==> head[i].Message?;
        case ProgressHook(_) =>
      }
      if steps[0].PostprocessorHook? {
        assert forall j :: 0 <= j < |steps[1..]| ==> !steps[1..][j].ProgressHook? by {
          forall j | 0 <= j < |steps[1..]| ensures !steps[1..][j].ProgressHook? {
            assert steps[1..][j] == steps[j + 1];
          }
        }
        NoProgressNoDownloading(steps[1..]);
      }
      ConvertingLastAppend(head, rest);
    }
  }

  lemma Framed(mid: seq<StatusEvent>, s: DoneStatus)
    requires forall i :: 0 <= i < |mid| ==> Interior(mid[i])
    ensures var events := [Start] + mid + [Done(s)];
      |events| >= 2 && events[0] == Start && events[|events| - 1] == Done(s) &&
      (forall i :: 0 <= i < |events| - 1 ==> !events[i].Done?) &&
      (forall i :: 0 < i < |events| ==> !events[i].Start?)
  {
    var events := [Start] + mid + [Done(s)];
    forall i | 0 < i < |events| - 1 ensures Interior(events[i]) {
      assert events[i] == mid[i - 1];
    }
  }

  // ---------------------------------------------------------------------
  // The promises of `download_track`

  /** START comes first and exactly one DONE comes last, whichever step
      raised; a raised exception leaves the state at ERROR. */
  lemma DoneExactlyOnceLast(track: TrackInfo, outDir: string, outName: string, overwrite: bool, cover: CoverInfo,
                            env: Collaborators, files: map<Path, Bytes>)
    ensures var r := DownloadTrackRun(track, outDir, outName, overwrite, cover, env, files);
      |r.events| >= 2 && r.events[0] == Start && r.events[|r.events| - 1].Done? &&
      (forall i :: 0 <= i < |r.events| - 1 ==> !r.events[i].Done?) &&
      (forall i :: 0 < i < |r.events| ==> !r.events[i].Start?) &&
      (r.raised.Some? ==> r.events[|r.events| - 1] == Done(DoneStatus.ERROR))
  {
    var a := TryBlock(track, outDir, outName, overwrite, cover, env, files);
    Framed(a.events, a.state);
  }

  /** What a step raises is what the run raises, after its DONE: the
      claim's failure, the download's failure, or `_process_video`'s; a run
      raises nothing else. */
  lemma RaisedPropagates(track: TrackInfo, outDir: string, outName: string, overwrite: bool, cover: CoverInfo,
                         env: Collaborators, files: map<Path, Bytes>)
    ensures var r := DownloadTrackRun(track, outDir, outName, overwrite, cover, env, files);
      var found := Truthy(LookupSong(env.search(SearchQuery(track))).videoId);
      r.raised.Some? <==>
        env.lock.LockRaised? ||
        (env.lock == Acquired && found &&
         (env.download.result.Err? ||
          ProcessVideo(track, outDir, outName, overwrite, cover, env.tag,
                       files[TempPath(outDir, track.id) := env.download.result.value]).raised.Some?))
    ensures var r := DownloadTrackRun(track, outDir, outName, overwrite, cover, env, files);
      var found := Truthy(LookupSong(env.search(SearchQuery(track))).videoId);
      (env.lock.LockRaised? ==> r.raised == Some(LockFailed(env.lock.reason))) &&
      (env.lock == Acquired && found && env.download.result.Err? ==>
        r.raised == Some(DownloadFailed(env.download.result.error))) &&
      (env.lock == Acquired && found && env.download.result.Ok? ==>
        r.raised == ProcessVideo(track, outDir, outName, overwrite, cover, env.tag,
                                 files[TempPath(outDir, track.id) := env.download.result.value]).raised)
  {
  }

  /** An unclaimed lock ends the run at once: START, then DONE with CACHED,
      whatever the other collaborators would have answered, and no file
      changes. Only this case ends with CACHED. */
  lemma CachedDoesNothing(track: TrackInfo, outDir: string, outName: string, overwrite: bool, cover: CoverInfo,
                          env: Collaborators, files: map<Path, Bytes>)
    ensures env.lock == AlreadyClaimed ==>
      DownloadTrackRun(track, outDir, outName, overwrite, cover, env, files) == TrackRun([Start, Done(CACHED)], None, files)
    ensures var r := DownloadTrackRun(track, outDir, outName, overwrite, cover, env, files);
      r.events[|r.events| - 1] == Done(CACHED) ==> env.lock == AlreadyClaimed
  {
    DoneExactlyOnceLast(track, outDir, outName, overwrite, cover, env, files);
  }

  /** A search that finds no usable id (it raised, the entry had no id, or
      the id is empty) ends the run with DONE/ERROR right after the search's
      messages: nothing is downloaded, no file changes and nothing is raised.
      A search that raised adds exactly one ERROR message to the logger's. */
  lemma SearchFailureEndsRun(track: TrackInfo, outDir: string, outName: string, overwrite: bool, cover: CoverInfo,
                             env: Collaborators, files: map<Path, Bytes>)
    requires env.lock == Acquired
    requires !Truthy(LookupSong(env.search(SearchQuery(track))).videoId)
    ensures var r := DownloadTrackRun(track, outDir, outName, overwrite, cover, env, files);
      var reply := env.search(SearchQuery(track));
      r.raised.None? && r.files == files &&
      (forall i :: 0 <= i < |r.events| ==> !r.events[i].Downloading? && !r.events[i].MetaData? && !r.events[i].Converting?) &&
      r.events[|r.events| - 1] == Done(DoneStatus.ERROR) &&
      (reply.outcome.SearchRaised? ==>
        r.events == [Start, Searching] + LoggerEvents(reply.logs) +
                    [Message(SearchErrorText(reply.outcome.reason), MessageSeverity.ERROR), Done(DoneStatus.ERROR)]) &&
      (reply.outcome == FirstEntry(Some("")) ==>
        r.events == [Start, Searching] + LoggerEvents(reply.logs) + [Done(DoneStatus.ERROR)])
  {
  }

  /** DONE carries SUCCESS exactly when the lock was taken, the search gave an
      id, the download returned and `_process_video` returned; and then
      nothing was raised. */
  lemma SuccessOnlyWhenAllReturned(track: TrackInfo, outDir: string, outName: string, overwrite: bool, cover: CoverInfo,
                                   env: Collaborators, files: map<Path, Bytes>)
    ensures var r := DownloadTrackRun(track, outDir, outName, overwrite, cover, env, files);
      r.events[|r.events| - 1] == Done(SUCCESS) <==>
        env.lock == Acquired && Truthy(LookupSong(env.search(SearchQuery(track))).videoId) && env.download.result.Ok? &&
        ProcessVideo(track, outDir, outName, overwrite, cover, env.tag,
                     files[TempPath(outDir, track.id) := env.download.result.value]).raised.None?
    ensures var r := DownloadTrackRun(track, outDir, outName, overwrite, cover, env, files);
      r.events[|r.events| - 1] == Done(SUCCESS) ==> r.raised.None?
  {
  }

  /** The tagging stage shows only META_DATA among its messages. */
  lemma TaggingPhases(track: TrackInfo, outDir: string, outName: string, overwrite: bool, cover: CoverInfo,
                      env: Collaborators, files: map<Path, Bytes>)
    ensures Phases(Tagging(track, outDir, outName, overwrite, cover, env, files).events) == [MetaData]
  {
    var p := ProcessVideo(track, outDir, outName, overwrite, cover, env.tag, files);
    PhasesOfMessages(p.messages);
    PhasesAppend([MetaData], p.messages);
  }

  /** The download stage: DOWNLOADING{0}, the hooks' events, and META_DATA
      exactly when the download returned. */
  lemma FetchingPhases(track: TrackInfo, outDir: string, outName: string, overwrite: bool, cover: CoverInfo,
                       env: Collaborators, files: map<Path, Bytes>)
    ensures var dl := Phases(DownloadEvents(env.download.steps));
      (forall i :: 0 <= i < |dl| ==> FetchPhase(dl[i])) &&
      Phases(Fetching(track, outDir, outName, overwrite, cover, env, files).events) ==
        [Downloading(0.0)] + dl + (if env.download.result.Ok? then [MetaData] else [])
  {
    var steps := DownloadEvents(env.download.steps);
    PhasesOfFetch(steps);
    PhasesAppend([Downloading(0.0)], steps);
    match env.download.result {
      case Err(_) =>
        PhasesAppend([Downloading(0.0)] + steps, []);
        assert [Downloading(0.0)] + steps + [] == [Downloading(0.0)] + steps;
      case Ok(mp3) =>
        var t := Tagging(track, outDir, outName, overwrite, cover, env, files[TempPath(outDir, track.id) := mp3]);
        TaggingPhases(track, outDir, outName, overwrite, cover, env, files[TempPath(outDir, track.id) := mp3]);
        PhasesAppend([Downloading(0.0)] + steps, t.events);
    }
  }

  /** Ordered hooks leave the download stage with no DOWNLOADING after a CONVERTING. */
  lemma FetchingOrdered(track: TrackInfo, outDir: string, outName: string, overwrite: bool, cover: CoverInfo,
                        env: Collaborators, files: map<Path, Bytes>)
    requires HooksOrdered(env.download.steps)
    ensures ConvertingLast(Phases(Fetching(track, outDir, outName, overwrite, cover, env, files).events))
  {
    FetchingPhases(track, outDir, outName, overwrite, cover, env, files);
    var steps := DownloadEvents(env.download.steps);
    var dl := Phases(steps);
    var tail: seq<StatusEvent> := if env.download.result.Ok? then [MetaData] else [];
    DownloadEventsOrdered(env.download.steps);
    ConvertingLastPhases(steps);
    ConvertingLastAppend([Downloading(0.0)], dl);
    ConvertingLastAppend([Downloading(0.0)] + dl, tail);
  }

  /** The claimed stage: SEARCHING, then the download stage if an id was found. */
  lemma ClaimedPhases(track: TrackInfo, outDir: string, outName: string, overwrite: bool, cover: CoverInfo,
                      env: Collaborators, files: map<Path, Bytes>)
    ensures Phases(Claimed(track, outDir, outName, overwrite, cover, env, files).events) ==
      [Searching] + (if Truthy(LookupSong(env.search(SearchQuery(track))).videoId)
                     then Phases(Fetching(track, outDir, outName, overwrite, cover, env, files).events) else [])
  {
    var found := LookupSong(env.search(SearchQuery(track)));
    var pre := [Searching] + found.messages;
    PhasesOfMessages(found.messages);
    PhasesAppend([Searching], found.messages);
    assert Phases(pre) == [Searching];
    if Truthy(found.videoId) {
      var f := Fetching(track, outDir, outName, overwrite, cover, env, files);
      assert Claimed(track, outDir, outName, overwrite, cover, env, files).events == pre + f.events;
      PhasesAppend(pre, f.events);
    } else {
      assert Claimed(track, outDir, outName, overwrite, cover, env, files).events == pre;
    }
  }

  /** The shape of a run that got as far as the download. */
  predicate DownloadShape(p: seq<StatusEvent>, ok: bool) {
    |p| >= 4 && p[..3] == [Start, Searching, Downloading(0.0)] && p[|p| - 1].Done? &&
    (forall i :: 3 <= i < |p| - 1 ==> FetchPhase(p[i]) || (i == |p| - 2 && p[i] == MetaData)) &&
    (ok <==> p[|p| - 2] == MetaData)
  }

  lemma DownloadShapeOf(dl: seq<StatusEvent>, ok: bool, d: StatusEvent)
    requires forall i :: 0 <= i < |dl| ==> FetchPhase(dl[i])
    requires d.Done?
    ensures DownloadShape([Start, Searching, Downloading(0.0)] + dl + (if ok then [MetaData] else []) + [d], ok)
  {
    var p := [Start, Searching, Downloading(0.0)] + dl + (if ok then [MetaData] else []) + [d];
    forall i | 3 <= i < |p| - 1 ensures FetchPhase(p[i]) || (i == |p| - 2 && p[i] == MetaData) {
      if i < 3 + |dl| {
        assert p[i] == dl[i - 3];
      }
    }
    if !ok {
      if dl == [] {
        assert p[|p| - 2] == Downloading(0.0);
      } else {
        assert p[|p| - 2] == dl[|dl| - 1];
      }
    }
  }

  lemma ConsTwo(x: StatusEvent, y: StatusEvent, s: seq<StatusEvent>)
    ensures [x] + ([y] + s) == [x, y] + s
  {
    assert |[x] + ([y] + s)| == |[x, y] + s|;
    forall i | 0 <= i < |[x, y] + s| ensures ([x] + ([y] + s))[i] == ([x, y] + s)[i] {
    }
  }

  lemma Regroup(x: StatusEvent, y: StatusEvent, s: seq<StatusEvent>, z: StatusEvent)
    ensures [x] + ([y] + s) + [z] == [x, y] + s + [z]
  {
    assert |[x] + ([y] + s) + [z]| == |[x, y] + s + [z]|;
    forall i | 0 <= i < |[x, y] + s + [z]| ensures ([x] + ([y] + s) + [z])[i] == ([x, y] + s + [z])[i] {
    }
  }

  lemma RegroupFetch(x: StatusEvent, y: StatusEvent, w: StatusEvent, dl: seq<StatusEvent>, t: seq<StatusEvent>, z: StatusEvent)
    ensures [x, y] + ([w] + dl + t) + [z] == [x, y, w] + dl + t + [z]
  {
    assert |[x, y] + ([w] + dl + t) + [z]| == |[x, y, w] + dl + t + [z]|;
    forall i | 0 <= i < |[x, y, w] + dl + t + [z]| ensures ([x, y] + ([w] + dl + t) + [z])[i] == ([x, y, w] + dl + t + [z])[i] {
    }
  }

  lemma ConvertingLastFramed(pre: seq<StatusEvent>, f: seq<StatusEvent>, mid: seq<StatusEvent>, d: StatusEvent)
    requires ConvertingLast(f) && !d.Downloading?
    requires forall i :: 0 <= i < |pre| ==> !pre[i].Converting? && !pre[i].Downloading?
    requires [Start] + mid == pre + f
    ensures ConvertingLast([Start] + mid + [d])
  {
    ConvertingLastAppend(pre, f);
    ConvertingLastAppend(pre + f, [d]);
  }

  /** The run's phases are START, the `try` block's phases, and DONE. */
  lemma RunPhases(track: TrackInfo, outDir: string, outName: string, overwrite: bool, cover: CoverInfo,
                  env: Collaborators, files: map<Path, Bytes>)
    ensures var a := TryBlock(track, outDir, outName, overwrite, cover, env, files);
      Phases(DownloadTrackRun(track, outDir, outName, overwrite, cover, env, files).events) ==
        [Start] + Phases(a.events) + [Done(a.state)]
  {
    var a := TryBlock(track, outDir, outName, overwrite, cover, env, files);
    PhasesAppend([Start], a.events);
    PhasesAppend([Start] + a.events, [Done(a.state)]);
  }

  /** Leaving the messages aside, a run is one of: START, DONE (lock raised
      or not acquired); START, SEARCHING, DONE (no video); or START,
      SEARCHING, DOWNLOADING{0}, then DOWNLOADING and CONVERTING events,
      then META_DATA exactly when the download returned, then DONE. */
  lemma PhaseOrder(track: TrackInfo, outDir: string, outName: string, overwrite: bool, cover: CoverInfo,
                   env: Collaborators, files: map<Path, Bytes>)
    ensures var p := Phases(DownloadTrackRun(track, outDir, outName, overwrite, cover, env, files).events);
      p == [Start, Done(CACHED)] || p == [Start, Done(DoneStatus.ERROR)] || p == [Start, Searching, Done(DoneStatus.ERROR)] ||
      DownloadShape(p, env.download.result.Ok?)
  {
    if env.lock.Acquired? && Truthy(LookupSong(env.search(SearchQuery(track))).videoId) {
      FetchedPhaseOrder(track, outDir, outName, overwrite, cover, env, files);
    } else if env.lock.Acquired? {
      NotFoundPhaseOrder(track, outDir, outName, overwrite, cover, env, files);
    } else {
      UnclaimedPhaseOrder(track, outDir, outName, overwrite, cover, env, files);
    }
  }

  /** The case of `PhaseOrder` where the track was not claimed. */
  lemma UnclaimedPhaseOrder(track: TrackInfo, outDir: string, outName: string, overwrite: bool, cover: CoverInfo,
                            env: Collaborators, files: map<Path, Bytes>)
    requires !env.lock.Acquired?
    ensures var p := Phases(DownloadTrackRun(track, outDir, outName, overwrite, cover, env, files).events);
      p == [Start, Done(CACHED)] || p == [Start, Done(DoneStatus.ERROR)]
  {
    var a := TryBlock(track, outDir, outName, overwrite, cover, env, files);
    RunPhases(track, outDir, outName, overwrite, cover, env, files);
    TryPhases(track, outDir, outName, overwrite, cover, env, files);
    assert [Start] + Phases(a.events) + [Done(a.state)] == [Start, Done(a.state)];
  }

  /** The case of `PhaseOrder` where the track was claimed and no video found. */
  lemma NotFoundPhaseOrder(track: TrackInfo, outDir: string, outName: string, overwrite: bool, cover: CoverInfo,
                           env: Collaborators, files: map<Path, Bytes>)
    requires env.lock.Acquired? && !Truthy(LookupSong(env.search(SearchQuery(track))).videoId)
    ensures Phases(DownloadTrackRun(track, outDir, outName, overwrite, cover, env, files).events) ==
      [Start, Searching, Done(DoneStatus.ERROR)]
  {
    var a := TryBlock(track, outDir, outName, overwrite, cover, env, files);
    RunPhases(track, outDir, outName, overwrite, cover, env, files);
    TryPhases(track, outDir, outName, overwrite, cover, env, files);
    assert [Start] + Phases(a.events) + [Done(a.state)] == [Start, Searching, Done(a.state)];
  }

  /** The case of `PhaseOrder` where the track was claimed and a video found. */
  lemma FetchedPhaseOrder(track: TrackInfo, outDir: string, outName: string, overwrite: bool, cover: CoverInfo,
                          env: Collaborators, files: map<Path, Bytes>)
    requires env.lock.Acquired? && Truthy(LookupSong(env.search(SearchQuery(track))).videoId)
    ensures DownloadShape(Phases(DownloadTrackRun(track, outDir, outName, overwrite, cover, env, files).events),
                          env.download.result.Ok?)
  {
    var a := TryBlock(track, outDir, outName, overwrite, cover, env, files);
    var mid := Phases(a.events);
    RunPhases(track, outDir, outName, overwrite, cover, env, files);
    ClaimedPhases(track, outDir, outName, overwrite, cover, env, files);
    FetchingPhases(track, outDir, outName, overwrite, cover, env, files);
    var f := Phases(Fetching(track, outDir, outName, overwrite, cover, env, files).events);
    var dl := Phases(DownloadEvents(env.download.steps));
    var ok := env.download.result.Ok?;
    assert mid == [Searching] + f;
    Regroup(Start, Searching, f, Done(a.state));
    RegroupFetch(Start, Searching, Downloading(0.0), dl, if ok then [MetaData] else [], Done(a.state));
    DownloadShapeOf(dl, ok, Done(a.state));
  }

  /** The phases of the `try` block: SEARCHING and the download stage's,
      when the track was claimed and an id found; SEARCHING alone, when it
      was claimed and no id found; none otherwise. */
  lemma TryPhases(track: TrackInfo, outDir: string, outName: string, overwrite: bool, cover: CoverInfo,
                  env: Collaborators, files: map<Path, Bytes>)
    ensures var mid := Phases(TryBlock(track, outDir, outName, overwrite, cover, env, files).events);
      if !env.lock.Acquired? then mid == []
      else if !Truthy(LookupSong(env.search(SearchQuery(track))).videoId) then mid == [Searching]
      else mid == [Searching] + Phases(Fetching(track, outDir, outName, overwrite, cover, env, files).events)
  {
    if env.lock.Acquired? {
      ClaimedPhases(track, outDir, outName, overwrite, cover, env, files);
    }
  }

  lemma OrderedRun(mid: seq<StatusEvent>, f: seq<StatusEvent>, d: StatusEvent, claimed: bool, found: bool)
    requires ConvertingLast(f) && d.Done?
    requires if !claimed then mid == [] else if !found then mid == [Searching] else mid == [Searching] + f
    ensures ConvertingLast([Start] + mid + [d])
  {
    if !claimed {
      ConvertingLastFramed([Start], [], mid, d);
    } else if !found {
      ConvertingLastFramed([Start, Searching], [], mid, d);
    } else {
      ConsTwo(Start, Searching, f);
      ConvertingLastFramed([Start, Searching], f, mid, d);
    }
  }

  /** Ordered hooks leave the `try` block, framed by START and DONE, with no
      DOWNLOADING after a CONVERTING. */
  lemma TryOrdered(track: TrackInfo, outDir: string, outName: string, overwrite: bool, cover: CoverInfo,
                   env: Collaborators, files: map<Path, Bytes>)
    requires HooksOrdered(env.download.steps)
    ensures var a := TryBlock(track, outDir, outName, overwrite, cover, env, files);
      ConvertingLast([Start] + Phases(a.events) + [Done(a.state)])
  {
    var a := TryBlock(track, outDir, outName, overwrite, cover, env, files);
    TryPhases(track, outDir, outName, overwrite, cover, env, files);
    var f := Phases(Fetching(track, outDir, outName, overwrite, cover, env, files).events);
    FetchingOrdered(track, outDir, outName, overwrite, cover, env, files);
    OrderedRun(Phases(a.events), f, Done(a.state), env.lock.Acquired?, Truthy(LookupSong(env.search(SearchQuery(track))).videoId));
  }

  /** When the downloader reports all its progress before postprocessing,
      no DOWNLOADING event of the run follows a CONVERTING one. */
  lemma ConvertingAfterDownloading(track: TrackInfo, outDir: string, outName: string, overwrite: bool, cover: CoverInfo,
                                   env: Collaborators, files: map<Path, Bytes>)
    requires HooksOrdered(env.download.steps)
    ensures ConvertingLast(Phases(DownloadTrackRun(track, outDir, outName, overwrite, cover, env, files).events))
  {
    RunPhases(track, outDir, outName, overwrite, cover, env, files);
    TryOrdered(track, outDir, outName, overwrite, cover, env, files);
  }
}
