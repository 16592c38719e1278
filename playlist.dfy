/**
 * The legacy playlist ingestion of main.py: looking up each playlist track
 * on the video site, collecting a record for every track found, keeping
 * only songs not already listed, and checking which songs lack a file.
 */
module Playlist {
  import opened Wrappers
  import opened PyStr
  import opened Files
  import Pipeline

  /** A playlist page item: the track's name, its album's name, the album's
      image URLs and the artists' names, in the order the page lists them. */
  datatype PageItem = PageItem(name: string, album: string, images: seq<string>, artists: seq<string>)

  /** One entry of the songs list. */
  datatype SongRecord = SongRecord(name: string, album: string, images: seq<string>, artists: seq<string>,
                                   youtubeVideoId: string, downloaded: bool)

  /** The `KeyError('id')` of a search entry without an id. */
  datatype KeyError = KeyError(key: string)

  // ---------------------------------------------------------------------
  // `lookup_song`

  function LookupQuery(name: string, artists: seq<string>): string {
    "ytsearch:" + Pipeline.SearchArgument(name, artists)
  }

  /** A search that raised gives None (the bare `except`); a first entry
      gives its id; reading the id of an entry without one happens outside
      the `try`, so the KeyError escapes. */
  function LookupSong(outcome: Pipeline.SearchOutcome): (r: Result<Option<string>, KeyError>)
    ensures r.Ok? && r.value.None? <==> outcome.SearchRaised?
    ensures r.Err? <==> outcome == Pipeline.FirstEntry(None)
    ensures outcome.FirstEntry? && outcome.id.Some? ==> r == Ok(outcome.id)
  {
    match outcome
    case SearchRaised(_) => Ok(None)
    case FirstEntry(Some(id)) => Ok(Some(id))
    case FirstEntry(None) => Err(KeyError("id"))
  }

  // ---------------------------------------------------------------------
  // `add_page_to_list`

  function Record(item: PageItem, id: string): SongRecord {
    SongRecord(item.name, item.album, item.images, item.artists, id, false)
  }

  function ItemLookup(item: PageItem, search: string -> Pipeline.SearchOutcome): Result<Option<string>, KeyError> {
    LookupSong(search(LookupQuery(item.name, item.artists)))
  }

  /** The records a page yields, and whether a lookup raised part-way. */
  datatype PageResult = PageResult(records: seq<SongRecord>, raised: Option<KeyError>)

  function PageRecords(items: seq<PageItem>, search: string -> Pipeline.SearchOutcome): PageResult {
    if items == [] then PageResult([], None)
    else
      match ItemLookup(items[0], search)
      case Err(e) => PageResult([], Some(e))
      case Ok(None) => PageRecords(items[1..], search)
      case Ok(Some(id)) =>
        var rest := PageRecords(items[1..], search);
        PageResult([Record(items[0], id)] + rest.records, rest.raised)
  }

  /** Every lookup returned. */
  predicate AllAnswered(items: seq<PageItem>, search: string -> Pipeline.SearchOutcome) {
    forall i :: 0 <= i < |items| ==> ItemLookup(items[i], search).Ok?
  }

  predicate Found(item: PageItem, search: string -> Pipeline.SearchOutcome) {
    ItemLookup(item, search).Ok? && ItemLookup(item, search).value.Some?
  }

  predicate Increasing(idx: seq<nat>) {
    forall k, l :: 0 <= k < l < |idx| ==> idx[k] < idx[l]
  }

  function Shift(idx: seq<nat>): (r: seq<nat>)
    ensures |r| == |idx| && forall k :: 0 <= k < |idx| ==> r[k] == idx[k] + 1
  {
    seq(|idx|, k requires 0 <= k < |idx| => idx[k] + 1)
  }

  lemma ShiftIncreasing(idx: seq<nat>)
    requires Increasing(idx)
    ensures Increasing(Shift(idx)) && Increasing([0] + Shift(idx))
  {
    var full := [0] + Shift(idx);
    forall k, l | 0 <= k < l < |full| ensures full[k] < full[l] {
      if k > 0 {
        assert full[k] == idx[k - 1] + 1 && full[l] == idx[l - 1] + 1;
      }
    }
  }

  /** Position `i - 1` listed in `idx` is position `i` after the shift. */
  lemma ShiftMember(idx: seq<nat>, i: nat)
    requires i > 0 && i - 1 in idx
    ensures i in Shift(idx) && i in [0] + Shift(idx)
  {
    var k :| 0 <= k < |idx| && idx[k] == i - 1;
    assert Shift(idx)[k] == i;
    assert ([0] + Shift(idx))[k + 1] == i;
  }

  /** `idx` lists, in increasing order, exactly the items whose lookup found
      an id, and `records[k]` is the record of item `idx[k]`. */
  predicate RecordsOf(records: seq<SongRecord>, items: seq<PageItem>, search: string -> Pipeline.SearchOutcome, idx: seq<nat>) {
    |idx| == |records| && Increasing(idx) &&
    (forall k :: 0 <= k < |idx| ==>
       (idx[k] < |items| && Found(items[idx[k]], search) &&
        records[k] == Record(items[idx[k]], ItemLookup(items[idx[k]], search).value.value))) &&
    (forall i :: 0 <= i < |items| && Found(items[i], search) ==> i in idx)
  }

  lemma RecordsOfSkip(items: seq<PageItem>, search: string -> Pipeline.SearchOutcome, rest: seq<SongRecord>, idx: seq<nat>)
    requires items != [] && !Found(items[0], search) && RecordsOf(rest, items[1..], search, idx)
    ensures RecordsOf(rest, items, search, Shift(idx))
  {
    var shifted := Shift(idx);
    ShiftIncreasing(idx);
    forall k | 0 <= k < |shifted| ensures items[shifted[k]] == items[1..][idx[k]] {
    }
    forall i | 0 <= i < |items| && Found(items[i], search) ensures i in shifted {
      assert items[1..][i - 1] == items[i];
      ShiftMember(idx, i);
    }
  }

  lemma RecordsOfTake(items: seq<PageItem>, search: string -> Pipeline.SearchOutcome, rest: seq<SongRecord>, idx: seq<nat>)
    requires items != [] && Found(items[0], search) && RecordsOf(rest, items[1..], search, idx)
    ensures RecordsOf([Record(items[0], ItemLookup(items[0], search).value.value)] + rest, items, search, [0] + Shift(idx))
  {
    var full := [0] + Shift(idx);
    var records := [Record(items[0], ItemLookup(items[0], search).value.value)] + rest;
    ShiftIncreasing(idx);
    forall k | 0 <= k < |full|
      ensures full[k] < |items| && Found(items[full[k]], search) &&
              records[k] == Record(items[full[k]], ItemLookup(items[full[k]], search).value.value)
    {
      if k > 0 {
        assert full[k] == idx[k - 1] + 1 && records[k] == rest[k - 1];
        assert items[full[k]] == items[1..][idx[k - 1]];
      }
    }
    forall i | 0 <= i < |items| && Found(items[i], search) ensures i in full {
      if i > 0 {
        assert items[1..][i - 1] == items[i];
        ShiftMember(idx, i);
      }
    }
  }

  /** When every lookup returns, the page yields one record per item whose
      lookup found an id, in page order, none for the others, and each
      record carries the item's fields, the id, and `downloaded` False. */
  lemma {:induction false} PageRecordsExact(items: seq<PageItem>, search: string -> Pipeline.SearchOutcome)
    requires AllAnswered(items, search)
    ensures PageRecords(items, search).raised.None?
    ensures exists idx :: RecordsOf(PageRecords(items, search).records, items, search, idx)
    decreases |items|
  {
    if items == [] {
      assert RecordsOf([], items, search, []);
    } else {
      assert AllAnswered(items[1..], search) by {
        forall i | 0 <= i < |items[1..]| ensures ItemLookup(items[1..][i], search).Ok? {
          assert items[1..][i] == items[i + 1];
        }
      }
      PageRecordsExact(items[1..], search);
      var rest := PageRecords(items[1..], search);
      var idx :| RecordsOf(rest.records, items[1..], search, idx);
      var here := ItemLookup(items[0], search);
      assert here.Ok?;
      if here.value.Some? {
        RecordsOfTake(items, search, rest.records, idx);
        assert PageRecords(items, search) == PageResult([Record(items[0], here.value.value)] + rest.records, rest.raised);
        assert RecordsOf(PageRecords(items, search).records, items, search, [0] + Shift(idx));
      } else {
        RecordsOfSkip(items, search, rest.records, idx);
        assert PageRecords(items, search) == rest;
        assert RecordsOf(PageRecords(items, search).records, items, search, Shift(idx));
      }
    }
  }

  /** A lookup that raises stops the page there: the records are those of
      the items before it, and the KeyError escapes. */
  lemma {:induction false} PageRecordsStops(items: seq<PageItem>, search: string -> Pipeline.SearchOutcome, k: nat)
    requires k < |items| && ItemLookup(items[k], search).Err? && AllAnswered(items[..k], search)
    ensures PageRecords(items, search) == PageResult(PageRecords(items[..k], search).records, Some(KeyError("id")))
    decreases k
  {
    if k > 0 {
      assert items[1..][..k - 1] == items[..k][1..];
      assert AllAnswered(items[..k][1..], search) by {
        forall i | 0 <= i < |items[..k][1..]| ensures ItemLookup(items[..k][1..][i], search).Ok? {
          assert items[..k][1..][i] == items[..k][i + 1];
        }
      }
      assert items[1..][k - 1] == items[k];
      PageRecordsStops(items[1..], search, k - 1);
      assert items[..k][0] == items[0] && items[..k][1..] == items[1..][..k - 1];
      PageRecordsExact(items[..k], search);
    }
  }

  /** The caller's list, which `add_page_to_list` appends to. */
  class SongList {
    var songs: seq<SongRecord>

    constructor (songs: seq<SongRecord>)
      ensures this.songs == songs
    {
      this.songs := songs;
    }

    /** `add_page_to_list`: appends the page's records after the existing
        entries, which stay as they were; a KeyError stops it part-way. */
    method AddPageToList(items: seq<PageItem>, search: string -> Pipeline.SearchOutcome) returns (raised: Option<KeyError>)
      modifies this
      ensures songs == old(songs) + PageRecords(items, search).records
      ensures raised == PageRecords(items, search).raised
    {
      var i := 0;
      while i < |items|
        invariant 0 <= i <= |items|
        invariant old(songs) + PageRecords(items, search).records == songs + PageRecords(items[i..], search).records
        invariant PageRecords(items, search).raised == PageRecords(items[i..], search).raised
        decreases |items| - i
      {
        assert items[i..][0] == items[i] && items[i..][1..] == items[i + 1..];
        var id := ItemLookup(items[i], search);
        match id {
          case Err(e) =>
            return Some(e);
          case Ok(None) =>
          case Ok(Some(v)) =>
            songs := songs + [Record(items[i], v)];
        }
        i := i + 1;
      }
      raised := None;
    }
  }

  // ---------------------------------------------------------------------
  // The new-song filter of `download_songs`

  /** The `[name, artists]` pair the filter compares. */
  datatype SongKey = SongKey(name: string, artists: seq<string>)

  function Key(s: SongRecord): SongKey {
    SongKey(s.name, s.artists)
  }

  /** `distilled_list`. */
  function Distilled(listed: seq<SongRecord>): (r: seq<SongKey>)
    ensures |r| == |listed| && forall i :: 0 <= i < |r| ==> r[i] == Key(listed[i])
  {
    if listed == [] then [] else [Key(listed[0])] + Distilled(listed[1..])
  }

  /** The playlist songs whose `[name, artists]` is not among the listed songs, in playlist order. */
  function NewSongs(listed: seq<SongRecord>, playlist: seq<SongRecord>): (r: seq<SongRecord>)
    ensures |r| <= |playlist|
    ensures forall s :: s in r <==> s in playlist && Key(s) !in Distilled(listed)
  {
    if playlist == [] then []
    else if Key(playlist[0]) in Distilled(listed) then NewSongs(listed, playlist[1..])
    else [playlist[0]] + NewSongs(listed, playlist[1..])
  }

  /** `a` is `b` at the increasing positions `idx`. */
  predicate SubsequenceAt(a: seq<SongRecord>, b: seq<SongRecord>, idx: seq<nat>) {
    |idx| == |a| && Increasing(idx) &&
    forall k :: 0 <= k < |idx| ==> idx[k] < |b| && a[k] == b[idx[k]]
  }

  /** `kept` is the playlist at the increasing positions `idx`, and `idx`
      holds every position whose song is not listed. */
  predicate FilteredAt(listed: seq<SongRecord>, playlist: seq<SongRecord>, kept: seq<SongRecord>, idx: seq<nat>) {
    SubsequenceAt(kept, playlist, idx) &&
    forall i :: 0 <= i < |playlist| && Key(playlist[i]) !in Distilled(listed) ==> i in idx
  }

  lemma FilteredSkip(listed: seq<SongRecord>, playlist: seq<SongRecord>, kept: seq<SongRecord>, idx: seq<nat>)
    requires playlist != [] && Key(playlist[0]) in Distilled(listed)
    requires FilteredAt(listed, playlist[1..], kept, idx)
    ensures FilteredAt(listed, playlist, kept, Shift(idx))
  {
    ShiftIncreasing(idx);
    var shifted := Shift(idx);
    forall k | 0 <= k < |shifted| ensures shifted[k] < |playlist| && kept[k] == playlist[shifted[k]] {
      assert playlist[shifted[k]] == playlist[1..][idx[k]];
    }
    forall i | 0 <= i < |playlist| && Key(playlist[i]) !in Distilled(listed) ensures i in shifted {
      assert playlist[1..][i - 1] == playlist[i];
      ShiftMember(idx, i);
    }
  }

  lemma FilteredTake(listed: seq<SongRecord>, playlist: seq<SongRecord>, kept: seq<SongRecord>, idx: seq<nat>)
    requires playlist != [] && Key(playlist[0]) !in Distilled(listed)
    requires FilteredAt(listed, playlist[1..], kept, idx)
    ensures FilteredAt(listed, playlist, [playlist[0]] + kept, [0] + Shift(idx))
  {
    ShiftIncreasing(idx);
    var full := [0] + Shift(idx);
    var taken := [playlist[0]] + kept;
    forall k | 0 <= k < |full| ensures full[k] < |playlist| && taken[k] == playlist[full[k]] {
      if k > 0 {
        assert full[k] == idx[k - 1] + 1 && taken[k] == kept[k - 1];
        assert playlist[full[k]] == playlist[1..][idx[k - 1]];
      }
    }
    forall i | 0 <= i < |playlist| && Key(playlist[i]) !in Distilled(listed) ensures i in full {
      if i > 0 {
        assert playlist[1..][i - 1] == playlist[i];
        ShiftMember(idx, i);
      }
    }
  }

  /** The filter keeps the playlist's order and every unlisted song, repeats
      included: what it keeps is the playlist at exactly the increasing
      positions of the unlisted songs. */
  lemma {:induction false} NewSongsInOrder(listed: seq<SongRecord>, playlist: seq<SongRecord>)
    ensures exists idx :: FilteredAt(listed, playlist, NewSongs(listed, playlist), idx)
    decreases |playlist|
  {
    if playlist == [] {
      assert FilteredAt(listed, playlist, NewSongs(listed, playlist), []);
    } else {
      NewSongsInOrder(listed, playlist[1..]);
      var rest := NewSongs(listed, playlist[1..]);
      var idx :| FilteredAt(listed, playlist[1..], rest, idx);
      if Key(playlist[0]) in Distilled(listed) {
        FilteredSkip(listed, playlist, rest, idx);
        assert NewSongs(listed, playlist) == rest;
        assert FilteredAt(listed, playlist, NewSongs(listed, playlist), Shift(idx));
      } else {
        FilteredTake(listed, playlist, rest, idx);
        assert NewSongs(listed, playlist) == [playlist[0]] + rest;
        assert FilteredAt(listed, playlist, NewSongs(listed, playlist), [0] + Shift(idx));
      }
    }
  }

  /** A playlist whose every song is listed yields nothing new. */
  lemma {:induction false} NewSongsNone(listed: seq<SongRecord>, playlist: seq<SongRecord>)
    requires forall i :: 0 <= i < |playlist| ==> Key(playlist[i]) in Distilled(listed)
    ensures NewSongs(listed, playlist) == []
    decreases |playlist|
  {
    if playlist != [] {
      assert forall i :: 0 <= i < |playlist[1..]| ==> playlist[1..][i] == playlist[i + 1];
      NewSongsNone(listed, playlist[1..]);
    }
  }

  /** Once the new songs are appended to the listed ones, filtering the
      same playlist again finds nothing new. */
  lemma NewSongsSettled(listed: seq<SongRecord>, playlist: seq<SongRecord>)
    ensures NewSongs(listed + NewSongs(listed, playlist), playlist) == []
  {
    var newSongs := NewSongs(listed, playlist);
    var added := listed + newSongs;
    forall j | 0 <= j < |playlist| ensures Key(playlist[j]) in Distilled(added) {
      var s := playlist[j];
      if Key(s) in Distilled(listed) {
        var i :| 0 <= i < |listed| && Distilled(listed)[i] == Key(s);
        assert Distilled(added)[i] == Key(s);
      } else {
        assert s in newSongs;
        var i :| 0 <= i < |newSongs| && newSongs[i] == s;
        assert Distilled(added)[|listed| + i] == Key(s);
      }
    }
    NewSongsNone(added, playlist);
  }

  // ---------------------------------------------------------------------
  // `song_missing`

  function SongPath(directory: string, name: string): Path {
    directory + "/" + name + ".mp3"
  }

  /** `song_missing`: no file at `<directory>/<name>.mp3`. */
  function SongMissing(song: SongRecord, directory: string, files: map<Path, Bytes>): (r: bool)
    ensures r <==> SongPath(directory, song.name) !in files
  {
    !(SongPath(directory, song.name) in files)
  }

  /** Writing a song's file makes it present, and leaves every song of another
      name as missing as it was. */
  lemma SongMissingAfterWrite(song: SongRecord, other: SongRecord, directory: string, files: map<Path, Bytes>, data: Bytes)
    requires other.name != song.name
    ensures !SongMissing(song, directory, files[SongPath(directory, song.name) := data])
    ensures SongMissing(other, directory, files[SongPath(directory, song.name) := data]) == SongMissing(other, directory, files)
  {
    var p := SongPath(directory, song.name);
    var q := SongPath(directory, other.name);
    assert p[|directory| + 1..|p| - 4] == song.name;
    assert q[|directory| + 1..|q| - 4] == other.name;
  }
}
