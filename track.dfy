/**
 * The track record every other part of the pipeline passes around: a named
 * tuple of nine fields whose equality and hash look at `id` alone.
 */
module Track {

  datatype TrackInfo = TrackInfo(
    id: string,
    name: string,
    album: string,
    albumArtists: seq<string>,
    images: seq<string>,
    artists: seq<string>,
    discNumber: int,
    trackNumber: int,
    releaseDate: string)

  /** The namedtuple's `_fields`, in declaration order. */
  const FieldNames: seq<string> :=
    ["id", "name", "album", "album_artists", "images", "artists",
     "disc_number", "track_number", "release_date"]

  /** The dynamic value held in one field: a `str`, a `list` of `str`, or an `int`. */
  datatype FieldValue = Text(s: string) | TextList(items: seq<string>) | Number(n: int)

  /** `isinstance(v, collections.abc.Sequence)`: strings and lists are, ints are not. */
  predicate IsSequence(v: FieldValue) {
    !v.Number?
  }

  function Length(v: FieldValue): nat
    requires IsSequence(v)
  {
    match v
    case Text(s) => |s|
    case TextList(xs) => |xs|
  }

  /** The pairs `(track._fields[i], track[i])` for `i` in `range(len(track._fields))`. */
  function Fields(t: TrackInfo): (r: seq<(string, FieldValue)>)
    ensures |r| == |FieldNames|
    ensures forall i :: 0 <= i < |r| ==> r[i].0 == FieldNames[i]
    ensures forall i :: 0 <= i < |r| ==> (IsSequence(r[i].1) <==> i != 6 && i != 7)
  {
    [("id", Text(t.id)), ("name", Text(t.name)), ("album", Text(t.album)),
     ("album_artists", TextList(t.albumArtists)), ("images", TextList(t.images)),
     ("artists", TextList(t.artists)), ("disc_number", Number(t.discNumber)),
     ("track_number", Number(t.trackNumber)), ("release_date", Text(t.releaseDate))]
  }

  /** `TrackInfo.__eq__`: two tracks are equal when their ids are. */
  predicate Same(a: TrackInfo, b: TrackInfo) {
    a.id == b.id
  }

  /** `TrackInfo.__hash__`: the hash of the id. Python's string hash is salted
      per process, so it is a parameter. */
  function Hash(t: TrackInfo, strHash: string -> int): int {
    strHash(t.id)
  }

  /** Equality ignores every field but `id`. */
  lemma SameIgnoresOtherFields(a: TrackInfo, b: TrackInfo)
    ensures Same(a, b) <==> a.id == b.id
    ensures Same(a, b) <==> Same(a.(name := b.name, album := b.album, albumArtists := b.albumArtists,
                                     images := b.images, artists := b.artists, discNumber := b.discNumber,
                                     trackNumber := b.trackNumber, releaseDate := b.releaseDate), b)
  {
  }

  /** Equality is an equivalence relation. */
  lemma SameIsEquivalence(a: TrackInfo, b: TrackInfo, c: TrackInfo)
    ensures Same(a, a)
    ensures Same(a, b) ==> Same(b, a)
    ensures Same(a, b) && Same(b, c) ==> Same(a, c)
  {
  }

  /** Equal tracks hash alike, whatever the string hash is. */
  lemma SameHashAlike(a: TrackInfo, b: TrackInfo, strHash: string -> int)
    requires Same(a, b)
    ensures Hash(a, strHash) == Hash(b, strHash)
  {
  }
}
