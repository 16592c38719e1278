# spotify-downloader track pipeline, in Dafny

This project models the core of spotify-downloader: the per-track download
pipeline, the bus that relays worker status to the parent process, the
persistent settings store, the plugin registry, and the legacy playlist
ingestion of `main.py`.

- **Track** (`track.dfy`). `TrackInfo` is a nine-field record whose
  equality and hash look at `id` only. `Fields` gives the `_fields`
  order that drives name substitution.
- **Status** (`status.dfy`). The `TrackStatus`, `DoneStatus` and
  `MessageSeverity` enumerations. Each status event carries what its
  callback `args` dictionary carries.
- **PyStr** (`pystr.dfy`). The Python `str` operations the code relies on:
  `replace`, `join`, `split`, `strip`, ASCII `lower`, and `str()` of an
  `int`.
- **Slug** (`slug.dfy`). `_slugify` with `allow_unicode=False`.
- **Naming** (`naming.dfy`). The `{field}` / `{field[0]}` substitution
  loop of `_process_video`, and the destination and temporary paths.
- **Files** (`files.dfy`). The output directory as a map from path to
  bytes, held in a `FileSystem` class that `os.rename`/`os.replace`
  update. It also holds the overwrite / keep-with-warning / move rule.
- **Pipeline** (`pipeline.dfy`). `download_track`, with its collaborators
  given as the replies they make:
  - the claim in the song cache;
  - the video search;
  - the download with its progress and postprocessor hooks;
  - the tagging.

  `DownloadTrack` is the imperative method. It is proved equal to the
  staged specification `TryBlock` / `Claimed` / `Fetching` / `Tagging` /
  `DownloadTrackRun`.
- **Protocol** (`protocol.dfy`). What the status callback sees:
  - START first, and exactly one DONE last, whichever step raised;
  - CACHED only when the claim failed, with nothing else done;
  - ERROR after a failed search;
  - SUCCESS only when every step returned;
  - the order of the phases.
- **Bus** (`bus.dfy`). The worker wrapper `_track_download_worker` and the
  consumer loop of `download_tracks`. The queue is a finite sequence.
- **Storage** (`storage.dfy`). `Store`, with the `app` and `login` tables
  as maps in a `Database` object that the methods update.
- **Plugins** (`plugins.dfy`):
  - `register`, as `bisect.insort` by name; `BisectRight` is proved
    against the reference `InsortRight`;
  - `flag`, `is_plugin_enabled` and the base option list;
  - `as_click_option`;
  - the `RequiredIf` help text and parse check;
  - `list_plugin_specific_options`.
- **Playlist** (`playlist.dfy`). `lookup_song`, `add_page_to_list`,
  the new-song filter of `download_songs` and `song_missing`.

The search text `name + " by " + ",".join(artists)` is shared by
`_lookup_song` (downloader.py:170) and `lookup_song` (main.py:56), and is
defined once as `Pipeline.SearchArgument`.

## Where the documentation and the code differ

The model follows the code in each case below.

- **The `_slugify` docstring** (downloader.py:250-255) promises that
  spaces and repeated dashes become single dashes, and that leading and
  trailing dashes and underscores are stripped. The code at line 261 only
  lower-cases, drops punctuation and strips whitespace. So spaces stay
  spaces, and dashes and underscores at either end stay.
  `Slug.SlugifyTitle` proves the slug of "Master of Puppets" is
  "master of puppets", not "master-of-puppets".
- **Empty video id.** `download_track` tests `if video_id:`, so an empty
  id counts as not found: no download happens and DONE carries ERROR.
  `main.lookup_song` returns the empty id as it is.
- **A search entry without an "id" key.** In `_lookup_song` (line 174)
  the resulting `KeyError` is caught by the same handler as a failed
  search, so it logs one ERROR message and gives None. In
  `main.lookup_song` (line 62) the key is read after the `try`, so the
  `KeyError` escapes `add_page_to_list`.

## Model

| member | source | states |
|---|---|---|
| Track.Fields | track.py:4 | The nine fields come in declaration order. Exactly `disc_number` and `track_number` are not Sequences. |
| Track.SameIgnoresOtherFields | track.py:5-6 | Two tracks are equal iff their ids are, whatever their other fields hold. |
| Track.SameIsEquivalence | track.py:5-6 | Track equality is reflexive, symmetric and transitive. |
| Track.SameHashAlike | track.py:5-9 | Equal tracks have equal hashes, for any string hash. |
| Slug.AsciiFold | downloader.py:260 | The ASCII fold leaves only ASCII characters. |
| Slug.AsciiFoldAppend | downloader.py:260 | The fold works character by character: it distributes over concatenation, and a single character survives exactly when it is ASCII. So it keeps every ASCII character, in order, and drops the rest. |
| Slug.DropPunctuation | downloader.py:261 | The regex substitution keeps only word characters, whitespace and '-', and never lengthens. |
| Slug.DropPunctuationAppend | downloader.py:261 | `re.sub(r'[^\w\s-]', '', s)` works character by character: it distributes over concatenation, and a single character survives exactly when it is a word character, whitespace or '-'. So every such character is kept, in order. |
| Slug.DropPunctuationExample | downloader.py:261 | "ac/dc!" loses only its '/' and '!', giving "acdc". |
| Slug.SlugifyIsSlug | downloader.py:256-261 | A slug holds only lower-case ASCII letters, digits, '_', whitespace and '-'. It has no whitespace at either end and no brace. |
| Slug.SlugifySlug | downloader.py:256-261 | A string that is already a slug is its own slug. |
| Slug.SlugifyIdempotent | downloader.py:256-261 | Slugifying twice equals slugifying once. |
| Slug.SlugifyPlainWords | downloader.py:261 | On ASCII words separated by spaces, the slug is the lower-cased text. Spaces stay exactly where they were. |
| Slug.SlugifyTitle | downloader.py:261 | The slug of "Master of Puppets" is "master of puppets". |
| Naming.SubstituteName | downloader.py:229-232 | The in-place loop over the fields gives the result of the field-by-field substitution `Substitute`, in `_fields` order, error included. |
| Naming.SubstituteFailsOnEmpty | downloader.py:229-232 | Substitution raises iff some Sequence-valued field is empty, whether or not the template mentions it. The error names the first such field. |
| Naming.TrackNameFails | downloader.py:229-232 | For a track, naming raises iff the id, name, album or release date is "" or a list field is empty. |
| Naming.SubstituteAddsNoBraces | downloader.py:229-232 | A successful substitution holds no more '{' and no more '}' than the template. |
| Naming.SubstituteKeepsUnknown | downloader.py:229-232 | A template that names no field comes back verbatim when no field is empty. |
| Naming.ReplaceAround | downloader.py:231-232 | Replacing a placeholder in a text that holds a different placeholder `t` never matches across `t`: the result is the replaced text before `t`, then `t`, then the replaced text after. |
| Naming.SubstituteAround | downloader.py:229-232 | A placeholder that names no field survives the whole substitution loop in place, with the text on each side substituted on its own. |
| Naming.TrackKeepsUnknown | downloader.py:229-232 | In a track's name template, an unknown `{...}` placeholder mixed with known ones is kept verbatim. The parts before and after it are substituted as if apart. |
| Naming.ReplacePieces | downloader.py:231-232 | On a template of plain text and placeholders, `str.replace` of a placeholder acts piece by piece. Only pieces equal to the placeholder change, and no match spans two pieces. |
| Naming.SubstitutePieces | downloader.py:229-232 | With no empty field, substitution acts piece by piece. `{f}` becomes the slug of field f's value, and `{f[0]}` of a sequence field the slug of its first item, decided by the first field naming it. Plain text and unknown placeholders stay. |
| Naming.TrackPieces | downloader.py:229-232 | For a track whose name can be built, each piece of the template is substituted on its own, by the track's own fields. |
| Naming.TrackNameExample | downloader.py:229-232 | `{artists[0]}/{name}.mp3` can be built iff no str or list field is empty. It then gives the first artist's slug, '/', the name's slug and ".mp3". |
| Naming.DestinationPathSeparators | downloader.py:234-237 | The destination path holds no backslash. It is the joined path with each backslash turned into '/'. |
| Files.FileSystem.Exists | downloader.py:241 | True iff the path holds a file. |
| Files.FileSystem.Rename | downloader.py:240 | A missing source raises FileNotFound and changes nothing. Otherwise the content moves to the destination, replacing it. |
| Files.Place | downloader.py:239-245 | Only the temp path and the destination can change. An existing destination without overwrite is kept, with exactly one WARNING naming both paths. Otherwise the temp file moves there, or a missing temp file raises. |
| Files.PlaceFile | downloader.py:239-245 | The overwrite / exists / rename branches give exactly `Place`'s messages, error and files. |
| Pipeline.LoggerEvents | downloader.py:264-277 | The null logger only emits MESSAGE events, never of DEBUG severity. |
| Pipeline.LoggerKeepsNonDebug | downloader.py:269-277 | Exactly the warning and error lines come through, in order and with their text: warning as WARNING, error as ERROR. |
| Pipeline.LookupSong | downloader.py:166-178 | A video id comes back iff the search gave a first entry that has an id, and it is that id. The events are the logger's MESSAGE lines in order, then, when no id comes back, exactly one ERROR naming the search's exception (`'id'` for a missing key). |
| Pipeline.SearchArgumentArtists | downloader.py:170 | The search text starts with the name. When no artist holds a comma, the artists split back out of the text after " by ". |
| Pipeline.StepEvents | downloader.py:185-197 | A progress hook call gives one DOWNLOADING event with its fraction, or none when the byte count is missing. A postprocessor hook gives one CONVERTING event. A logger line gives that line's MESSAGE event. |
| Pipeline.DownloadEvents | downloader.py:181-201 | The download emits only DOWNLOADING, CONVERTING or MESSAGE events. |
| Pipeline.DownloadEventsAppend | downloader.py:181-201 | The download's events are each hook call's events, concatenated in call order. |
| Pipeline.ProcessVideo | downloader.py:204-245 | `_process_video` emits only MESSAGE events. It raises at the first failing step, in the source's order: `eyed3.load`, `track.images[0]` for a wanted cover, the cover fetch, `tag.save()`, then an empty field in the name template. Each of these raises that exact error, with no message and no file moved. Otherwise its messages, files and error are exactly those of placing the temporary mp3 at `<out_dir>/<name>`. |
| Pipeline.ProcessVideoFile | downloader.py:204-245 | The imperative tagging, naming and placement give exactly `ProcessVideo`'s messages, error and files. |
| Pipeline.Tagging | downloader.py:148-151 | No START or DONE. The state is SUCCESS iff `_process_video` returned, else ERROR. |
| Pipeline.Fetching | downloader.py:142-151 | No START or DONE. Anything raised leaves ERROR, and the state is ERROR or SUCCESS. |
| Pipeline.Claimed | downloader.py:137-151 | The same as `Fetching`, for the part after the claim, including when no video id is found. |
| Pipeline.TryBlock | downloader.py:134-153 | No START or DONE. Anything raised leaves the initial ERROR, and the state is never DRY. |
| Pipeline.DownloadTrack | downloader.py:127-155 | The imperative run gives exactly the events, the exception and the files of `DownloadTrackRun`: START, the try block, then DONE with the state at the `finally`. |
| Protocol.DoneExactlyOnceLast | downloader.py:127-155 | START is first and the only START. Exactly one DONE comes, and it is last. A raised run ends with DONE/ERROR. |
| Protocol.CachedDoesNothing | downloader.py:137-153 | An unclaimed track gives exactly START, DONE/CACHED, with nothing raised and no file changed. DONE/CACHED happens only then. |
| Protocol.SearchFailureEndsRun | downloader.py:138-178 | A search without a usable id gives no DOWNLOADING, CONVERTING or META_DATA, no file change, no exception, and DONE/ERROR. A raised search adds exactly one ERROR message after the logger's. |
| Protocol.SuccessOnlyWhenAllReturned | downloader.py:141-151 | DONE/SUCCESS iff the claim, the search, the download and `_process_video` all succeeded. SUCCESS implies nothing was raised. |
| Protocol.PhaseOrder | downloader.py:129-155 | Leaving out MESSAGE events, a run has one of four shapes: START, DONE; START, SEARCHING, DONE; or START, SEARCHING, DOWNLOADING{0}, DOWNLOADING/CONVERTING*, then META_DATA iff the download returned, then DONE. |
| Protocol.DownloadEventsOrdered | downloader.py:185-197 | If the downloader calls no progress hook after a postprocessor hook, no DOWNLOADING event follows a CONVERTING one. |
| Protocol.RaisedPropagates | downloader.py:127-155 | A run raises iff claiming the song raised, or the claimed and found track's download failed, or `_process_video` raised. It raises that exact exception, after DONE. |
| Protocol.ConvertingAfterDownloading | downloader.py:142-148 | With such hooks, no DOWNLOADING event of the whole run follows a CONVERTING one. |
| Bus.StatusMessages | downloader.py:119-122 | One WORKER_STATUS message per event, in order, each carrying the track and the event. |
| Bus.TrackDownloadWorker | downloader.py:110-124 | The worker puts exactly the run's events on the queue. It changes the files as the run does, and fails iff the run raised, naming the track and the cause. |
| Bus.FirstStop | downloader.py:90-102 | The index of the first message that is not a relayed status. Everything before it is relayed. |
| Bus.ConsumeQueue | downloader.py:90-104 | The loop relays exactly the payloads before the first non-status message and reads nothing after it. POOL_DONE returns `work`'s outcome. POOL_ERROR terminates the pool and does the same. Any other message terminates and raises. A queue without a stop blocks. |
| Bus.FirstStopAfter | downloader.py:90-102 | Status messages followed by a stopping message stop the loop right after them. |
| Bus.WorkerThenDone | downloader.py:79-99 | One worker's messages then POOL_DONE: the parent relays exactly that track's events, in order. |
| Storage.Store.constructor | storage.py:15-35 | Each table is created only if absent. Existing rows are kept. |
| Storage.Store.AddAppClientData | storage.py:40-46 | The row with key (id, secret) is inserted or replaced, with the new time. Other rows and the login table are unchanged. |
| Storage.Store.GetAppClientData | storage.py:48-53 | None iff the app table is empty. Otherwise a client with the greatest insertion time. |
| Storage.Store.GetCachedLoginToken | storage.py:55-59 | None iff no login row. Otherwise its token. |
| Storage.Store.StoreCachedLoginToken | storage.py:61-67 | The login table becomes exactly the one row login_id 1 with the token. |
| Storage.Store.DeleteCachedLoginToken | storage.py:69-71 | The login table becomes empty. The app table is unchanged. |
| Storage.TokenRoundTrip | storage.py:55-71 | A stored token reads back. After a delete, None reads back. |
| Storage.AddThenGet | storage.py:40-53 | Client data added later than every existing row is the client read back. |
| Plugins.Flag | plugins/__init__.py:90-92 | The flag is "enable_" followed by the class name. |
| Plugins.PluginOptions | plugins/__init__.py:79-88 | A class's options end with the base switch: one option named by the flag, with pattern `--plugin-<name>/--no-plugin-<name>`, default False and the docstring as help. |
| Plugins.IsPluginEnabled | plugins/__init__.py:94-96 | Truthy iff the flag was passed with a truthy value. When passed, the result is that value. |
| Plugins.AsClickOption | plugins/__init__.py:21-41 | The name and pattern are the declarations, with type, default and show_default kept. A required option becomes RequiredIf for the flag, with the note appended to its help. |
| Plugins.RequiredIfHelpBlank | plugins/__init__.py:48-51 | A missing or blank help leaves just "NOTE: This argument is required for <flag>". |
| Plugins.RequiredIfHelpKept | plugins/__init__.py:48-51 | A help starting with a printable character is kept whole, followed by the note. |
| Plugins.HandleParseResult | plugins/__init__.py:54-67 | A usage error, with its exact text, iff the required-if flag is among the options and the option's own name is not. When it passes, the prompt is cleared iff the flag was present. |
| Plugins.BaseSwitchNeverRaises | plugins/__init__.py:54-62 | A plugin's own on/off switch never raises the usage error. |
| Plugins.BisectRight | plugins/__init__.py:112 | The binary search returns the point after every name not above the key and before every name above it. |
| Plugins.InsortAt | plugins/__init__.py:112 | Inserting at that point is the reference insert-right. |
| Plugins.InsortRightElements | plugins/__init__.py:112 | The insertion keeps every class and adds the new one. |
| Plugins.InsortRightSorted | plugins/__init__.py:112 | The insertion keeps the list sorted by name. |
| Plugins.Registry.Register | plugins/__init__.py:111-113 | The registry stays sorted. The class goes after the ones with a name not above its own, as a multiset it is the old list plus the class, and the class is returned unchanged. |
| Plugins.Registry.ListPluginSpecificOptions | plugins/__init__.py:102-108 | The accumulating loop gives `Listed`: each class's options in registry order, each with that class's flag. |
| Plugins.ListedSwitches | plugins/__init__.py:102-108 | With only base options, there is one switch per class, in registry order, each required for its own flag. |
| Plugins.ListedFromClasses | plugins/__init__.py:102-108 | Every listed option is one of some registered class's options, made with that class's flag. |
| Playlist.LookupSong | main.py:55-62 | None iff the search raised. The id when the first entry has one. KeyError('id') iff the entry has none. |
| Playlist.PageRecordsExact | main.py:78-99 | When every lookup returns, one record per found item, in page order. Each holds the name, album, images, artists, the id, and `downloaded` False. Nothing is raised. |
| Playlist.PageRecordsStops | main.py:79-98 | A KeyError at item k stops the page. The records are those of the items before k. |
| Playlist.SongList.AddPageToList | main.py:78-99 | The page's records are appended after the existing entries, which are unchanged. A KeyError stops it part-way. |
| Playlist.Distilled | main.py:116 | `distilled_list` holds the (name, artists) pair of each listed song, in order. |
| Playlist.NewSongs | main.py:121 | A song is kept iff it is in the playlist and its pair is not listed. Never longer than the playlist. |
| Playlist.NewSongsInOrder | main.py:121 | The filter keeps exactly the unlisted songs, each occurrence, in playlist order. What it keeps is the playlist at increasing positions that include every unlisted song's position. |
| Playlist.NewSongsSettled | main.py:116-122 | Once the new songs are added to the list, the filter finds nothing new in the same playlist. |
| Playlist.SongMissing | main.py:48-52 | True iff no file is at `<directory>/<name>.mp3`. |
| Playlist.SongMissingAfterWrite | main.py:48-52 | Writing a song's file makes it present. Songs with other names stay as missing as they were. |

## Left out

- **Collaborators as given replies.** The search, the download, the
  tagging, the cover fetch and the song-cache claim are each given as the
  reply they make. This covers yt_dlp, eyed3, PIL, urlopen and
  `Store().insert_track_cache_if_new`, whose store is not part of this
  model. Their internals, and the bytes of a tagged mp3, are not modelled.
- **Concurrency.** The process pool, the manager queue, the
  `starmap_async` callbacks and `pool.close`/`join` are not modelled.
  - The consumer reads a given finite sequence.
  - `work.get()` is the given `work` outcome.
  - A queue without a stop message is reported as `Blocked`, not as waiting forever.
- **Progress.** The progress value is a given real. The float division
  by `total_bytes` is not modelled, and a missing byte count skips the
  event.
- **Unicode in `_slugify`.**
  - NFKD normalisation is taken as the identity, so every non-ASCII
    character is dropped.
  - `\w`, `\s` and `lower` are their ASCII meanings.
  - `allow_unicode=True` is not modelled.
- **PyStr.IsSpace and PyStr.Strip are ASCII-only.** Python's `str.strip`
  also removes non-ASCII whitespace. This matters in `_slugify` and in
  `RequiredIfHelp` (plugins/__init__.py:51): a help text ending in a
  non-ASCII space is stripped differently there.
- **Naming.Render: `str()` of a list.** It quotes each item with single
  quotes and does not model `repr`'s escaping of quotes, backslashes and
  control characters.
- **`os.makedirs`.** It creates directories at downloader.py:182-183 and
  238. Directories are not modelled; paths are plain keys.
- **`os.sep` is taken to be '/'.**
- **Storage.Timestamp.** `CURRENT_TIMESTAMP` is a parameter. SQLite's
  one-second resolution and its tie order are not modelled: among rows
  with the same time, any one may be returned.
- **`__del__` and the connection.** Neither is modelled.
- Storage.Store.constructor: requires that an existing login table hold
  no login_id other than 1. The code (storage.py:15-35) opens any
  database. The store itself only ever writes login_id 1, so the
  requirement only excludes a login table written by some other program.
  Such a table is not modelled.
- **Plugins.HandleParseResult.**
  - `self.prompt = None` is reported as a `promptCleared` flag.
  - What click's own `handle_parse_result` then does is not modelled.
  - The `assert self.required_if` at line 47 is the precondition `flag != ""` of `AsClickOption`.
- **Plugin loading.** The glob and `import *` autoload and `get_plugins`
  are not modelled. Nor are the `filebrowser_upload` and `clean` plugins,
  or `on_track_done`.
- **Playlist page dictionaries.** A page dictionary missing a key would
  raise `KeyError`. Items are modelled as well-formed records. The console
  lines `add_page_to_list` prints are not modelled.
- **The rest of `main.py`.** Spotify authentication and pagination, the
  JSON songs file, `download_song` and the `download_songs` orchestration
  around the filter are not modelled. Neither is the pool that downloads
  the new songs.
- **Track.Hash.** Python's per-process string hash is a parameter.
