/**
 * One track's run through the pipeline (`download_track`): the claim, the
 * search, the download, the tagging and the placement, each collaborator
 * given as the reply it makes, and the status events the run emits.
 */
module Pipeline {
  import opened Wrappers
  import opened PyStr
  import opened Track
  import opened Naming
  import opened Status
  import opened Files

  // ---------------------------------------------------------------------
  // Collaborators, as the replies they give

  /** A line the downloader library hands to its logger. */
  datatype LogRecord = LogDebug(msg: string) | LogWarning(msg: string) | LogError(msg: string)

  /** `Store().insert_track_cache_if_new(track)`: claimed, already claimed, or raised. */
  datatype LockReply = Acquired | AlreadyClaimed | LockRaised(reason: string)

  /** `ydl.extract_info(...)['entries'][0]["id"]`: the search raised (no network,
      no entries, ...), or its first entry was found with or without an "id" key. */
  datatype SearchOutcome = SearchRaised(reason: string) | FirstEntry(id: Option<string>)

  datatype SearchReply = SearchReply(logs: seq<LogRecord>, outcome: SearchOutcome)

  /** One call the downloader library makes into the hooks it was given. A
      progress hook whose data lacks a byte count carries no fraction. */
  datatype DownloadStep = ProgressHook(fraction: Option<real>) | PostprocessorHook | DownloadLog(record: LogRecord)

  /** `ydl.download(...)`: the hook calls it makes, then the mp3 it leaves
      behind or the reason it raised. */
  datatype DownloadReply = DownloadReply(steps: seq<DownloadStep>, result: Result<Bytes, string>)

  /** The three calls of the tagging stage that can raise: `eyed3.load`, the
      cover fetch through urlopen and PIL, and `tag.save()`. `Some(reason)`
      means that call raises when it is made. */
  datatype TagReply = TagReply(load: Option<string>, fetch: Option<string>, save: Option<string>)

  datatype CoverInfo = CoverInfo(embedded: bool, format: Option<string>)

  /** The collaborators of one run; the search answers per query string. */
  datatype Collaborators = Collaborators(lock: LockReply, search: string -> SearchReply, download: DownloadReply, tag: TagReply)

  /** What a run can raise. */
  datatype Raised =
    | LockFailed(reason: string)
    | DownloadFailed(reason: string)
    | TagFailed(reason: string)
    | CoverIndexError
    | NameFailed(naming: NamingError)
    | PlaceFailed(os: OsError)

  // ---------------------------------------------------------------------
  // `_YoutubeDLNullLogger`

  /** Debug lines are dropped, warnings and errors become messages of that severity. */
  function LoggerEvents(logs: seq<LogRecord>): (r: seq<StatusEvent>)
    ensures forall i :: 0 <= i < |r| ==> r[i].Message? && r[i].severity != DEBUG
  {
    if logs == [] then []
    else
      var head := match logs[0]
        case LogDebug(_) => []
        case LogWarning(m) => [Message(m, WARNING)]
        case LogError(m) => [Message(m, MessageSeverity.ERROR)];
      head + LoggerEvents(logs[1..])
  }

  /** The lines that are not debug lines, in order. */
  function NonDebug(logs: seq<LogRecord>): seq<LogRecord> {
    if logs == [] then []
    else if logs[0].LogDebug? then NonDebug(logs[1..])
    else [logs[0]] + NonDebug(logs[1..])
  }

  /** Exactly the warning and error lines come through, in order, with their
      text, a warning as WARNING and an error as ERROR. */
  lemma {:induction false} LoggerKeepsNonDebug(logs: seq<LogRecord>)
    ensures |LoggerEvents(logs)| == |NonDebug(logs)|
    ensures forall i :: 0 <= i < |NonDebug(logs)| ==>
      LoggerEvents(logs)[i] == Message(NonDebug(logs)[i].msg, if NonDebug(logs)[i].LogWarning? then WARNING else MessageSeverity.ERROR)
    decreases |logs|
  {
    if logs != [] {
      LoggerKeepsNonDebug(logs[1..]);
    }
  }

  // ---------------------------------------------------------------------
  // `_lookup_song`

  /** The search text: the name, " by ", and the artists joined by commas. */
  function SearchArgument(name: string, artists: seq<string>): string {
    name + " by " + Join(",", artists)
  }

  function SearchQuery(track: TrackInfo): string {
    "ytsearch:" + SearchArgument(track.name, track.artists)
  }

  function SearchErrorText(reason: string): string {
    "An error occurred searching for the video: [red]" + reason + "[/red]." +
    " [yellow]Check your internet connection.[/yellow]"
  }

  datatype Lookup = Lookup(messages: seq<StatusEvent>, videoId: Option<string>)

  /** The logger's messages and, when the lookup raised, one error message;
      and the video id, or None. A missing "id" key raises `KeyError('id')`,
      which the same handler catches. */
  function LookupSong(reply: SearchReply): (r: Lookup)
    ensures forall i :: 0 <= i < |r.messages| ==> r.messages[i].Message?
    // The id comes back exactly when the first entry has one.
    ensures r.videoId.Some? <==> reply.outcome.FirstEntry? && reply.outcome.id.Some?
    ensures r.videoId.Some? ==> r.videoId == reply.outcome.id
    // The logger's lines come first; a failed lookup adds exactly one ERROR
    // message, which names the search's reason or the missing 'id' key.
    ensures |r.messages| == |LoggerEvents(reply.logs)| + (if r.videoId.Some? then 0 else 1)
    ensures r.messages[..|LoggerEvents(reply.logs)|] == LoggerEvents(reply.logs)
    ensures r.videoId.None? ==>
      r.messages[|r.messages| - 1] ==
        Message(SearchErrorText(if reply.outcome.SearchRaised? then reply.outcome.reason else "'id'"), MessageSeverity.ERROR)
  {
    match reply.outcome
    case FirstEntry(Some(id)) => Lookup(LoggerEvents(reply.logs), Some(id))
    case FirstEntry(None) => Lookup(LoggerEvents(reply.logs) + [Message(SearchErrorText("'id'"), MessageSeverity.ERROR)], None)
    case SearchRaised(reason) => Lookup(LoggerEvents(reply.logs) + [Message(SearchErrorText(reason), MessageSeverity.ERROR)], None)
  }

  /** `if video_id:` — None and the empty string are both false. */
  predicate Truthy(videoId: Option<string>) {
    videoId.Some? && videoId.value != ""
  }

  /** The artists can be read back from the search text when no artist name holds a comma. */
  lemma SearchArgumentArtists(name: string, artists: seq<string>)
    requires artists != []
    requires forall i :: 0 <= i < |artists| ==> ',' !in artists[i]
    ensures SearchArgument(name, artists)[..|name|] == name
    ensures Split(SearchArgument(name, artists)[|name| + 4..], ',') == artists
  {
    var arg := SearchArgument(name, artists);
    assert arg[|name| + 4..] == Join(",", artists);
    SplitJoin(artists, ',');
  }

  // ---------------------------------------------------------------------
  // `_download_youtube_video`

  function StepEvents(step: DownloadStep): (r: seq<StatusEvent>)
    ensures forall i :: 0 <= i < |r| ==> r[i].Downloading? || r[i].Converting? || r[i].Message?
    // A progress call with a byte count reports that fraction; one without reports nothing.
    ensures step.ProgressHook? ==> r == if step.fraction.Some? then [Downloading(step.fraction.value)] else []
    ensures step.PostprocessorHook? ==> r == [Converting]
    ensures step.DownloadLog? ==> r == LoggerEvents([step.record])
  {
    match step
    case ProgressHook(Some(f)) => [Downloading(f)]
    case ProgressHook(None) => []
    case PostprocessorHook => [Converting]
    case DownloadLog(record) => LoggerEvents([record])
  }

  /** The events the hooks emit: progress as DOWNLOADING, each postprocessor call as CONVERTING. */
  function DownloadEvents(steps: seq<DownloadStep>): (r: seq<StatusEvent>)
    ensures forall i :: 0 <= i < |r| ==> r[i].Downloading? || r[i].Converting? || r[i].Message?
  {
    if steps == [] then [] else StepEvents(steps[0]) + DownloadEvents(steps[1..])
  }

  /** The download's events are each hook call's events, in the order of the calls. */
  lemma {:induction false} DownloadEventsAppend(a: seq<DownloadStep>, b: seq<DownloadStep>)
    ensures DownloadEvents(a + b) == DownloadEvents(a) + DownloadEvents(b)
    ensures DownloadEvents([]) == [] && forall s :: DownloadEvents([s]) == StepEvents(s)
    decreases |a|
  {
    forall s ensures DownloadEvents([s]) == StepEvents(s) {
      assert [s][1..] == [];
    }
    if a == [] {
      assert a + b == b;
    } else {
      assert (a + b)[0] == a[0] && (a + b)[1..] == a[1..] + b;
      DownloadEventsAppend(a[1..], b);
    }
  }

  // ---------------------------------------------------------------------
  // `_process_video`

  datatype Processed = Processed(messages: seq<StatusEvent>, raised: Option<Raised>, files: map<Path, Bytes>)

  /** Tagging, naming, and placement. Tagging raises at the first of its
      calls that fails: the load, `track.images[0]` when a cover is wanted and
      the track has no image, the cover fetch, the save. */
  function ProcessVideo(track: TrackInfo, outDir: string, outName: string, overwrite: bool, cover: CoverInfo,
                        tag: TagReply, files: map<Path, Bytes>): (p: Processed)
    ensures forall i :: 0 <= i < |p.messages| ==> p.messages[i].Message?
    // The tagging stage raises in the order of its calls: the load, then
    // `track.images[0]`, then the cover fetch, then the save.
    ensures tag.load.Some? ==> p.raised == Some(TagFailed(tag.load.value))
    ensures tag.load.None? && cover.embedded && track.images == [] ==> p.raised == Some(CoverIndexError)
    ensures tag.load.None? && cover.embedded && track.images != [] && tag.fetch.Some? ==>
      p.raised == Some(TagFailed(tag.fetch.value))
    ensures tag.load.None? && !(cover.embedded && (track.images == [] || tag.fetch.Some?)) && tag.save.Some? ==>
      p.raised == Some(TagFailed(tag.save.value))
    // A tagging error or an empty field raises before anything is placed:
    // no message and no file change.
    ensures TagFails(track, cover, tag) || Substitute(Fields(track), outName).Err? ==>
      p.raised.Some? && p.messages == [] && p.files == files
    ensures !TagFails(track, cover, tag) && Substitute(Fields(track), outName).Err? ==>
      p.raised == Some(NameFailed(Substitute(Fields(track), outName).error))
    // Otherwise the file is placed at the substituted name.
    ensures !TagFails(track, cover, tag) && Substitute(Fields(track), outName).Ok? ==>
      var placed := Place(files, TempPath(outDir, track.id), DestinationPath(outDir, Substitute(Fields(track), outName).value), overwrite);
      p.messages == placed.messages && p.files == placed.files &&
      (p.raised.None? <==> placed.raised.None?) &&
      (p.raised.Some? ==> p.raised.value == PlaceFailed(placed.raised.value))
  {
    if tag.load.Some? then Processed([], Some(TagFailed(tag.load.value)), files)
    else if cover.embedded && track.images == [] then Processed([], Some(CoverIndexError), files)
    else if cover.embedded && tag.fetch.Some? then Processed([], Some(TagFailed(tag.fetch.value)), files)
    else if tag.save.Some? then Processed([], Some(TagFailed(tag.save.value)), files)
    else
      match Substitute(Fields(track), outName)
      case Err(e) => Processed([], Some(NameFailed(e)), files)
      case Ok(name) =>
        var placed := Place(files, TempPath(outDir, track.id), DestinationPath(outDir, name), overwrite);
        Processed(placed.messages, if placed.raised.Some? then Some(PlaceFailed(placed.raised.value)) else None, placed.files)
  }

  /** Some call of the tagging stage raises: the load, the image index or the
      cover fetch when a cover is embedded, or the save. */
  predicate TagFails(track: TrackInfo, cover: CoverInfo, tag: TagReply) {
    tag.load.Some? || (cover.embedded && (track.images == [] || tag.fetch.Some?)) || tag.save.Some?
  }

  method ProcessVideoFile(fs: FileSystem, track: TrackInfo, outDir: string, outName: string, overwrite: bool,
                          cover: CoverInfo, tag: TagReply) returns (messages: seq<StatusEvent>, raised: Option<Raised>)
    modifies fs
    ensures Processed(messages, raised, fs.files) == ProcessVideo(track, outDir, outName, overwrite, cover, tag, old(fs.files))
  {
    messages := [];
    if tag.load.Some? {
      return [], Some(TagFailed(tag.load.value));
    }
    if cover.embedded {
      if track.images == [] {
        return [], Some(CoverIndexError);
      }
      if tag.fetch.Some? {
        return [], Some(TagFailed(tag.fetch.value));
      }
    }
    if tag.save.Some? {
      return [], Some(TagFailed(tag.save.value));
    }
    var name := SubstituteName(track, outName);
    if name.Err? {
      return [], Some(NameFailed(name.error));
    }
    var path := DestinationPath(outDir, name.value);
    var placeRaised;
    messages, placeRaised := PlaceFile(fs, TempPath(outDir, track.id), path, overwrite);
    raised := if placeRaised.Some? then Some(PlaceFailed(placeRaised.value)) else None;
  }

  // ---------------------------------------------------------------------
  // `download_track`

  datatype TrackRun = TrackRun(events: seq<StatusEvent>, raised: Option<Raised>, files: map<Path, Bytes>)

  /** What the `try` block of `download_track` leaves: the events it emitted,
      the `state` variable, what it raised, and the files. */
  datatype Attempt = Attempt(events: seq<StatusEvent>, state: DoneStatus, raised: Option<Raised>, files: map<Path, Bytes>)

  /** Neither START nor DONE. */
  predicate Interior(e: StatusEvent) { !e.Start? && !e.Done? }

  predicate AllInterior(events: seq<StatusEvent>) {
    forall i :: 0 <= i < |events| ==> Interior(events[i])
  }

  /** The attempt `a`, with `pre` emitted before it. */
  function Prefixed(pre: seq<StatusEvent>, a: Attempt): (r: Attempt)
    requires AllInterior(pre) && AllInterior(a.events)
    ensures AllInterior(r.events)
    ensures r.events == pre + a.events && r.state == a.state && r.raised == a.raised && r.files == a.files
  {
    a.(events := pre + a.events)
  }

  /** After the mp3 is in place: META_DATA, then `_process_video`; SUCCESS only when it returns. */
  function Tagging(track: TrackInfo, outDir: string, outName: string, overwrite: bool, cover: CoverInfo,
                   env: Collaborators, files: map<Path, Bytes>): (a: Attempt)
    ensures AllInterior(a.events)
    ensures a.raised.Some? <==> a.state == DoneStatus.ERROR
    ensures a.state == DoneStatus.ERROR || a.state == SUCCESS
  {
    var p := ProcessVideo(track, outDir, outName, overwrite, cover, env.tag, files);
    Attempt([MetaData] + p.messages, if p.raised.None? then SUCCESS else DoneStatus.ERROR, p.raised, p.files)
  }

  /** Once a video id is found: the download's events, then tagging if the download returned. */
  function Fetching(track: TrackInfo, outDir: string, outName: string, overwrite: bool, cover: CoverInfo,
                    env: Collaborators, files: map<Path, Bytes>): (a: Attempt)
    ensures AllInterior(a.events)
    ensures a.raised.Some? ==> a.state == DoneStatus.ERROR
    ensures a.state == DoneStatus.ERROR || a.state == SUCCESS
  {
    var pre := [Downloading(0.0)] + DownloadEvents(env.download.steps);
    match env.download.result
    case Err(reason) => Prefixed(pre, Attempt([], DoneStatus.ERROR, Some(DownloadFailed(reason)), files))
    case Ok(mp3) => Prefixed(pre, Tagging(track, outDir, outName, overwrite, cover, env, files[TempPath(outDir, track.id) := mp3]))
  }

  /** Once the track is claimed: SEARCHING and the lookup's messages, then the
      download if a video id was found; without one the state stays ERROR. */
  function Claimed(track: TrackInfo, outDir: string, outName: string, overwrite: bool, cover: CoverInfo,
                   env: Collaborators, files: map<Path, Bytes>): (a: Attempt)
    ensures AllInterior(a.events)
    ensures a.raised.Some? ==> a.state == DoneStatus.ERROR
    ensures a.state == DoneStatus.ERROR || a.state == SUCCESS
  {
    var found := LookupSong(env.search(SearchQuery(track)));
    var pre := [Searching] + found.messages;
    if !Truthy(found.videoId) then Attempt(pre, DoneStatus.ERROR, None, files)
    else Prefixed(pre, Fetching(track, outDir, outName, overwrite, cover, env, files))
  }

  /** The `try` block: it emits neither START nor DONE, and whatever it
      raises leaves `state` at its initial ERROR. */
  function TryBlock(track: TrackInfo, outDir: string, outName: string, overwrite: bool, cover: CoverInfo,
                    env: Collaborators, files: map<Path, Bytes>): (a: Attempt)
    ensures AllInterior(a.events)
    ensures a.raised.Some? ==> a.state == DoneStatus.ERROR
    ensures a.state != DRY
  {
    match env.lock
    case LockRaised(reason) => Attempt([], DoneStatus.ERROR, Some(LockFailed(reason)), files)
    case AlreadyClaimed => Attempt([], CACHED, None, files)
    case Acquired => Claimed(track, outDir, outName, overwrite, cover, env, files)
  }

  /** The run: START, the `try` block, and DONE with the final state from the `finally`. */
  function DownloadTrackRun(track: TrackInfo, outDir: string, outName: string, overwrite: bool, cover: CoverInfo,
                            env: Collaborators, files: map<Path, Bytes>): TrackRun
  {
    var a := TryBlock(track, outDir, outName, overwrite, cover, env, files);
    TrackRun([Start] + a.events + [Done(a.state)], a.raised, a.files)
  }

  /** `download_track`: START first; DONE with the current `state` in the
      `finally`, after which whatever was raised propagates. */
  method DownloadTrack(fs: FileSystem, track: TrackInfo, outDir: string, outName: string, overwrite: bool,
                       cover: CoverInfo, env: Collaborators) returns (events: seq<StatusEvent>, raised: Option<Raised>)
    modifies fs
    ensures TrackRun(events, raised, fs.files) == DownloadTrackRun(track, outDir, outName, overwrite, cover, env, old(fs.files))
  {
    ghost var before := fs.files;
    // what the `try` block emits, between START and DONE
    var emitted: seq<StatusEvent> := [];
    var state := DoneStatus.ERROR;
    raised := None;
    match env.lock {
      case LockRaised(reason) =>
        raised := Some(LockFailed(reason));
      case AlreadyClaimed =>
        state := CACHED;
      case Acquired =>
        var found := LookupSong(env.search(SearchQuery(track)));
        emitted := [Searching] + found.messages;
        if Truthy(found.videoId) {
          var fetched := [Downloading(0.0)] + DownloadEvents(env.download.steps);
          match env.download.result {
            case Err(reason) =>
              raised := Some(DownloadFailed(reason));
            case Ok(mp3) =>
              fs.Write(TempPath(outDir, track.id), mp3);
              ghost var written := fs.files;
              var messages;
              messages, raised := ProcessVideoFile(fs, track, outDir, outName, overwrite, cover, env.tag);
              if raised.None? {
                state := SUCCESS;
              }
              assert Attempt([MetaData] + messages, state, raised, fs.files)
                  == Tagging(track, outDir, outName, overwrite, cover, env, written);
              fetched := fetched + [MetaData] + messages;
          }
          assert Attempt(fetched, state, raised, fs.files) == Fetching(track, outDir, outName, overwrite, cover, env, before);
          emitted := emitted + fetched;
        }
        assert Attempt(emitted, state, raised, fs.files) == Claimed(track, outDir, outName, overwrite, cover, env, before);
    }
    assert Attempt(emitted, state, raised, fs.files) == TryBlock(track, outDir, outName, overwrite, cover, env, before);
    events := [Start] + emitted + [Done(state)];
  }
}
