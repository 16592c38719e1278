/**
 * The output directory as a map from path to content, and the placement
 * rule that ends `_process_video`: overwrite, skip with a warning, or move.
 */
module Files {
  import opened Wrappers
  import opened Status

  type Path = string
  type Bytes = seq<bv8>

  /** The `FileNotFoundError` of a rename whose source is missing. */
  datatype OsError = FileNotFound(path: Path)

  /** `os.rename(src, dst)` / `os.replace(src, dst)` on POSIX: the content moves
      to `dst`, replacing whatever was there; renaming a file onto itself does nothing. */
  function Renamed(files: map<Path, Bytes>, src: Path, dst: Path): Result<map<Path, Bytes>, OsError> {
    if src !in files then Err(FileNotFound(src))
    else if src == dst then Ok(files)
    else Ok((files - {src})[dst := files[src]])
  }

  class FileSystem {
    var files: map<Path, Bytes>

    constructor (initial: map<Path, Bytes>)
      ensures files == initial
    {
      files := initial;
    }

    /** `os.path.exists(p)`. */
    method Exists(p: Path) returns (b: bool)
      ensures b <==> p in files
    {
      b := p in files;
    }

    /** A collaborator writes a whole file. */
    method Write(p: Path, content: Bytes)
      modifies this
      ensures files == old(files)[p := content]
    {
      files := files[p := content];
    }

    /** `os.rename` and `os.replace`. */
    method Rename(src: Path, dst: Path) returns (raised: Option<OsError>)
      modifies this
      ensures raised.None? <==> Renamed(old(files), src, dst).Ok?
      ensures raised.Some? ==> raised.value == Renamed(old(files), src, dst).error && files == old(files)
      ensures raised.None? ==> files == Renamed(old(files), src, dst).value
    {
      match Renamed(files, src, dst)
      case Err(e) =>
        raised := Some(e);
      case Ok(next) =>
        files := next;
        raised := None;
    }
  }

  /** The warning emitted when an existing destination is kept. */
  function KeptWarning(tmp: Path, dest: Path): StatusEvent {
    Message("Stored as " + tmp + " because " + dest + " already existed. See the '[cyan]--overwrite[/cyan]' "
            + "option to overwrite already existing files.", WARNING)
  }

  datatype Placement = Placement(messages: seq<StatusEvent>, raised: Option<OsError>, files: map<Path, Bytes>)

  /** Placing the freshly made file `tmp` at `dest`. */
  function Place(files: map<Path, Bytes>, tmp: Path, dest: Path, overwrite: bool): (p: Placement)
    // Only `tmp` and `dest` can change.
    ensures forall q :: q != tmp && q != dest ==> (q in p.files <==> q in files) && (q in p.files ==> p.files[q] == files[q])
    // Without overwrite an existing destination is never touched, and the
    // new file stays where it was, with exactly one warning naming both paths.
    ensures !overwrite && dest in files ==> p.files == files && p.raised.None? && p.messages == [KeptWarning(tmp, dest)]
    // Otherwise the new file moves to the destination, replacing it.
    ensures (overwrite || dest !in files) && tmp in files ==>
      p.raised.None? && p.messages == [] && dest in p.files && p.files[dest] == files[tmp] &&
      (tmp != dest ==> tmp !in p.files)
    // A missing temporary file raises and changes nothing.
    ensures (overwrite || dest !in files) && tmp !in files ==>
      p.raised == Some(FileNotFound(tmp)) && p.messages == [] && p.files == files
  {
    if !overwrite && dest in files then Placement([KeptWarning(tmp, dest)], None, files)
    else
      match Renamed(files, tmp, dest)
      case Err(e) => Placement([], Some(e), files)
      case Ok(next) => Placement([], None, next)
  }

  /** The placement step as the source runs it: `os.replace` when overwriting,
      else an existence check and then either a warning or `os.rename`. */
  method PlaceFile(fs: FileSystem, tmp: Path, dest: Path, overwrite: bool) returns (messages: seq<StatusEvent>, raised: Option<OsError>)
    modifies fs
    ensures Placement(messages, raised, fs.files) == Place(old(fs.files), tmp, dest, overwrite)
  {
    messages := [];
    if overwrite {
      raised := fs.Rename(tmp, dest);
    } else {
      var present := fs.Exists(dest);
      if present {
        messages := [KeptWarning(tmp, dest)];
        raised := None;
      } else {
        raised := fs.Rename(tmp, dest);
      }
    }
  }
}
