/**
 * The output name of a track: the `{field}` / `{field[0]}` template
 * substitution and the destination path built from it (the naming half of
 * `_process_video`).
 */
module Naming {
  import opened Wrappers
  import opened PyStr
  import opened Track
  import opened Slug

  /** The `IndexError` raised by `track[i][0]` on an empty string or list. */
  datatype NamingError = IndexError(field: string)

  /** `repr` of one list item, for items without quotes, backslashes or control characters. */
  function Quoted(s: string): string {
    "'" + s + "'"
  }

  function QuoteAll(xs: seq<string>): (r: seq<string>)
    ensures |r| == |xs| && forall i :: 0 <= i < |xs| ==> r[i] == Quoted(xs[i])
  {
    if xs == [] then [] else [Quoted(xs[0])] + QuoteAll(xs[1..])
  }

  /** `str(value)` for the value of a field. */
  function Render(v: FieldValue): string {
    match v
    case Text(s) => s
    case Number(n) => IntToString(n)
    case TextList(xs) => "[" + Join(", ", QuoteAll(xs)) + "]"
  }

  /** `value[0]`, a one-character string for a `str` and the first item for a list. */
  function First(v: FieldValue): string
    requires IsSequence(v) && Length(v) > 0
  {
    match v
    case Text(s) => [s[0]]
    case TextList(xs) => xs[0]
  }

  function IndexedPlaceholder(field: string): string { "{" + field + "[0]}" }

  function Placeholder(field: string): string { "{" + field + "}" }

  /** One step of the loop: for a sequence-valued field, `{f[0]}` is replaced
      first, then `{f}`; indexing an empty sequence raises. */
  function SubstituteField(field: string, v: FieldValue, template: string): Result<string, NamingError> {
    if IsSequence(v) && Length(v) == 0 then Err(IndexError(field))
    else
      var indexed := if IsSequence(v) then Replace(template, IndexedPlaceholder(field), Slugify(First(v))) else template;
      Ok(Replace(indexed, Placeholder(field), Slugify(Render(v))))
  }

  /** The whole loop over the fields, in the order given. */
  function Substitute(fields: seq<(string, FieldValue)>, template: string): Result<string, NamingError>
    decreases |fields|
  {
    if fields == [] then Ok(template)
    else
      match SubstituteField(fields[0].0, fields[0].1, template)
      case Err(e) => Err(e)
      case Ok(next) => Substitute(fields[1..], next)
  }

  /** The loop of `_process_video` that rewrites `out_name` field by field. */
  method SubstituteName(track: TrackInfo, outName: string) returns (r: Result<string, NamingError>)
    ensures r == Substitute(Fields(track), outName)
  {
    var fields := Fields(track);
    var name := outName;
    for i := 0 to |fields|
      invariant Substitute(fields, outName) == Substitute(fields[i..], name)
    {
      var (field, value) := fields[i];
      assert fields[i..][1..] == fields[i + 1..];
      if IsSequence(value) {
        if Length(value) == 0 {
          return Err(IndexError(field));
        }
        name := Replace(name, IndexedPlaceholder(field), Slugify(First(value)));
      }
      name := Replace(name, Placeholder(field), Slugify(Render(value)));
    }
    r := Ok(name);
  }

  /** POSIX `os.sep`. */
  const Sep := "/"

  /** `'{}/{}'.format(out_dir, out_name).replace("\\", os.sep).replace("/", os.sep)`. */
  function DestinationPath(outDir: string, outName: string): string {
    Replace(Replace(outDir + "/" + outName, "\\", Sep), "/", Sep)
  }

  /** `'{}/{}.mp3'.format(out_dir, track.id)`: where the download leaves the file. */
  function TempPath(outDir: string, id: string): string {
    outDir + "/" + id + ".mp3"
  }

  // ---------------------------------------------------------------------
  // Lemmas

  predicate EmptySequenceAt(fields: seq<(string, FieldValue)>, i: int)
    requires 0 <= i < |fields|
  {
    IsSequence(fields[i].1) && Length(fields[i].1) == 0
  }

  /** Substitution raises exactly when some sequence-valued field is empty,
      whether or not the template mentions it, and names the first such field. */
  lemma {:induction false} SubstituteFailsOnEmpty(fields: seq<(string, FieldValue)>, template: string)
    ensures Substitute(fields, template).Err? <==> exists i :: 0 <= i < |fields| && EmptySequenceAt(fields, i)
    ensures Substitute(fields, template).Err? ==>
      exists i :: 0 <= i < |fields| && EmptySequenceAt(fields, i) &&
        Substitute(fields, template).error == IndexError(fields[i].0) &&
        forall j :: 0 <= j < i ==> !EmptySequenceAt(fields, j)
    decreases |fields|
  {
    if fields != [] {
      match SubstituteField(fields[0].0, fields[0].1, template)
      case Err(e) =>
        assert EmptySequenceAt(fields, 0);
      case Ok(next) =>
        SubstituteFailsOnEmpty(fields[1..], next);
        assert !EmptySequenceAt(fields, 0);
        forall i | 1 <= i < |fields| ensures EmptySequenceAt(fields, i) == EmptySequenceAt(fields[1..], i - 1) {}
        if Substitute(fields, template).Err? {
          var i :| 0 <= i < |fields[1..]| && EmptySequenceAt(fields[1..], i) &&
            Substitute(fields[1..], next).error == IndexError(fields[1..][i].0) &&
            forall j :: 0 <= j < i ==> !EmptySequenceAt(fields[1..], j);
          assert EmptySequenceAt(fields, i + 1);
        } else {
          forall i | 0 <= i < |fields| ensures !EmptySequenceAt(fields, i) {
            if i > 0 { assert !EmptySequenceAt(fields[1..], i - 1); }
          }
        }
    }
  }

  /** For a track: the name cannot be built when the id, name, album or
      release date is the empty string or a list field is empty. */
  lemma TrackNameFails(track: TrackInfo, template: string)
    ensures Substitute(Fields(track), template).Err? <==>
      track.id == "" || track.name == "" || track.album == "" || track.albumArtists == [] ||
      track.images == [] || track.artists == [] || track.releaseDate == ""
  {
    var fields := Fields(track);
    SubstituteFailsOnEmpty(fields, template);
    if Substitute(fields, template).Err? {
      var i :| 0 <= i < |fields| && EmptySequenceAt(fields, i);
      assert i in {0, 1, 2, 3, 4, 5, 8};
    } else {
      assert !EmptySequenceAt(fields, 0) && !EmptySequenceAt(fields, 1) && !EmptySequenceAt(fields, 2);
      assert !EmptySequenceAt(fields, 3) && !EmptySequenceAt(fields, 4) && !EmptySequenceAt(fields, 5);
      assert !EmptySequenceAt(fields, 8);
    }
  }

  /** Substitution never introduces a brace: slugs contain none. */
  lemma {:induction false} SubstituteAddsNoBraces(fields: seq<(string, FieldValue)>, template: string)
    requires Substitute(fields, template).Ok?
    ensures multiset(Substitute(fields, template).value)['{'] <= multiset(template)['{']
    ensures multiset(Substitute(fields, template).value)['}'] <= multiset(template)['}']
    decreases |fields|
  {
    if fields != [] {
      var (f, v) := fields[0];
      var next := SubstituteField(f, v, template).value;
      var indexed := if IsSequence(v) then Replace(template, IndexedPlaceholder(f), Slugify(First(v))) else template;
      if IsSequence(v) {
        SlugifyIsSlug(First(v));
        ReplaceCount(template, IndexedPlaceholder(f), Slugify(First(v)), '{');
        ReplaceCount(template, IndexedPlaceholder(f), Slugify(First(v)), '}');
      }
      SlugifyIsSlug(Render(v));
      ReplaceCount(indexed, Placeholder(f), Slugify(Render(v)), '{');
      ReplaceCount(indexed, Placeholder(f), Slugify(Render(v)), '}');
      SubstituteAddsNoBraces(fields[1..], next);
    }
  }

  /** None of the fields' placeholders occurs in the template. */
  predicate NoPlaceholders(fields: seq<(string, FieldValue)>, template: string) {
    forall i :: 0 <= i < |fields| ==>
      !Occurs(Placeholder(fields[i].0), template) && !Occurs(IndexedPlaceholder(fields[i].0), template)
  }

  /** A template that names no field, such as one whose only placeholders are
      unknown ones, comes back verbatim (unless a field is empty). */
  lemma {:induction false} SubstituteKeepsUnknown(fields: seq<(string, FieldValue)>, template: string)
    requires NoPlaceholders(fields, template)
    requires forall i :: 0 <= i < |fields| ==> !EmptySequenceAt(fields, i)
    ensures Substitute(fields, template) == Ok(template)
    decreases |fields|
  {
    if fields != [] {
      var (f, v) := fields[0];
      assert !EmptySequenceAt(fields, 0);
      if IsSequence(v) {
        ReplaceNoOccurrence(template, IndexedPlaceholder(f), Slugify(First(v)));
      }
      ReplaceNoOccurrence(template, Placeholder(f), Slugify(Render(v)));
      assert SubstituteField(f, v, template) == Ok(template);
      assert forall i :: 0 <= i < |fields[1..]| ==> !EmptySequenceAt(fields[1..], i) by {
        forall i | 0 <= i < |fields[1..]| ensures !EmptySequenceAt(fields[1..], i) {
          assert !EmptySequenceAt(fields, i + 1);
        }
      }
      SubstituteKeepsUnknown(fields[1..], template);
    }
  }

  predicate NoBrace(s: string) {
    '{' !in s && '}' !in s
  }

  /** `{` + brace-free text + `}`: the shape of every placeholder. */
  predicate Token(t: string) {
    |t| >= 2 && t[0] == '{' && t[|t| - 1] == '}' && NoBrace(t[1..|t| - 1])
  }

  lemma PlaceholdersAreTokens(field: string)
    requires NoBrace(field)
    ensures Token(Placeholder(field)) && Token(IndexedPlaceholder(field))
  {
    assert Placeholder(field)[1..|Placeholder(field)| - 1] == field;
    assert IndexedPlaceholder(field)[1..|IndexedPlaceholder(field)| - 1] == field + "[0]";
  }

  /** Two different placeholders never start at the same place, and one
      cannot start inside the other. */
  lemma TokensApart(s: string, pat: string, t: string, i: nat)
    requires Token(pat) && Token(t) && t != pat
    requires i < |pat| <= |s| && i + |t| <= |s| && s[i..i + |t|] == t
    ensures s[..|pat|] != pat
  {
    var head := s[..|pat|];
    if i > 0 {
      assert s[i] == t[0] == '{';
      if i < |pat| - 1 {
        assert pat[1..|pat| - 1][i - 1] == pat[i];
      }
      assert head[i] != pat[i];
    } else if |t| < |pat| {
      assert s[|t| - 1] == t[|t| - 1] == '}';
      assert pat[1..|pat| - 1][|t| - 2] == pat[|t| - 1];
      assert head[|t| - 1] != pat[|t| - 1];
    } else if |t| > |pat| {
      assert t[1..|t| - 1][|pat| - 2] == t[|pat| - 1];
      assert head[|pat| - 1] == t[|pat| - 1] != pat[|pat| - 1];
    } else {
      assert head == t;
    }
  }

  /** `replace` moves past a first character that does not start the pattern. */
  lemma ReplaceStep(s: string, pat: string, rep: string)
    requires |pat| > 0 && s != [] && s[0] != pat[0]
    ensures Replace(s, pat, rep) == [s[0]] + Replace(s[1..], pat, rep)
  {
    if |s| < |pat| {
      ReplaceShort(s[1..], pat, rep);
    } else {
      assert s[..|pat|][0] != pat[0];
    }
  }

  lemma ReplaceShort(s: string, pat: string, rep: string)
    requires 0 < |pat| && |s| < |pat|
    ensures Replace(s, pat, rep) == s
  {
  }

  /** Replacing a pattern that starts with a brace leaves a brace-free prefix alone. */
  lemma {:induction false} ReplaceAfterPlain(u: string, w: string, pat: string, rep: string)
    requires |pat| > 0 && pat[0] == '{' && '{' !in u
    ensures Replace(u + w, pat, rep) == u + Replace(w, pat, rep)
    decreases |u|
  {
    if u == [] {
      assert u + w == w;
    } else {
      var s := u + w;
      assert s[0] == u[0] && s[1..] == u[1..] + w;
      ReplaceStep(s, pat, rep);
      ReplaceAfterPlain(u[1..], w, pat, rep);
      assert u == [u[0]] + u[1..];
    }
  }

  /** `replace` moves past the opening brace of a placeholder other than the pattern. */
  lemma ReplaceTokenHead(t: string, b: string, pat: string, rep: string)
    requires Token(pat) && Token(t) && t != pat
    ensures Replace(t + b, pat, rep) == [t[0]] + Replace(t[1..] + b, pat, rep)
  {
    var s := t + b;
    if |pat| <= |s| {
      assert s[0..|t|] == t;
      TokensApart(s, pat, t, 0);
    }
    ReplaceNoMatch(s, pat, rep);
    assert s[0] == t[0] && s[1..] == t[1..] + b;
  }

  /** A placeholder at the very start is kept, and the rest is replaced. */
  lemma ReplaceTokenFirst(t: string, b: string, pat: string, rep: string)
    requires Token(pat) && Token(t) && t != pat
    ensures Replace(t + b, pat, rep) == t + Replace(b, pat, rep)
  {
    ReplaceTokenHead(t, b, pat, rep);
    TokenTail(t);
    ReplaceAfterPlain(t[1..], b, pat, rep);
    var rb := Replace(b, pat, rep);
    assert [t[0]] + (t[1..] + rb) == ([t[0]] + t[1..]) + rb;
    assert [t[0]] + t[1..] == t;
  }

  /** Past its opening brace, a placeholder holds no other opening brace. */
  lemma TokenTail(t: string)
    requires Token(t)
    ensures '{' !in t[1..]
  {
    assert t[1..] == t[1..|t| - 1] + [t[|t| - 1]];
  }

  lemma ReplaceMatch(s: string, pat: string, rep: string)
    requires 0 < |pat| <= |s| && s[..|pat|] == pat
    ensures Replace(s, pat, rep) == rep + Replace(s[|pat|..], pat, rep)
  {
  }

  lemma ReplaceNoMatch(s: string, pat: string, rep: string)
    requires 0 < |pat| && s != [] && (|s| < |pat| || s[..|pat|] != pat)
    ensures Replace(s, pat, rep) == [s[0]] + Replace(s[1..], pat, rep)
  {
    if |s| < |pat| {
      ReplaceShort(s, pat, rep);
      ReplaceShort(s[1..], pat, rep);
      assert s == [s[0]] + s[1..];
    }
  }

  /** The string starts with the pattern: the placeholder lies beyond it. */
  lemma AroundMatch(a: string, t: string, b: string, pat: string, rep: string)
    requires Token(pat) && Token(t) && t != pat && a != []
    requires |a + t + b| >= |pat| && (a + t + b)[..|pat|] == pat
    ensures |a| >= |pat| && a[..|pat|] == pat && (a + t + b)[|pat|..] == a[|pat|..] + t + b
  {
    var s := a + t + b;
    assert s[|a|..|a| + |t|] == t;
    if |a| < |pat| {
      TokensApart(s, pat, t, |a|);
    }
    assert a[..|pat|] == s[..|pat|];
  }

  lemma AroundNoMatch(a: string, t: string, b: string, pat: string, rep: string)
    requires 0 < |pat| && a != []
    requires |a + t + b| < |pat| || (a + t + b)[..|pat|] != pat
    ensures Replace(a + t + b, pat, rep) == [a[0]] + Replace(a[1..] + t + b, pat, rep)
    ensures Replace(a, pat, rep) == [a[0]] + Replace(a[1..], pat, rep)
  {
    var s := a + t + b;
    assert s[0] == a[0] && s[1..] == a[1..] + t + b;
    if |a| >= |pat| {
      assert a[..|pat|] == s[..|pat|];
    }
    ReplaceNoMatch(s, pat, rep);
    ReplaceNoMatch(a, pat, rep);
  }

  /** One step of `ReplaceAround` when the text starts with the pattern. */
  lemma AroundMatchStep(a: string, t: string, b: string, pat: string, rep: string)
    requires Token(pat) && Token(t) && t != pat && a != []
    requires |a + t + b| >= |pat| && (a + t + b)[..|pat|] == pat
    requires |a| >= |pat| ==>
      Replace(a[|pat|..] + t + b, pat, rep) == Replace(a[|pat|..], pat, rep) + t + Replace(b, pat, rep)
    ensures Replace(a + t + b, pat, rep) == Replace(a, pat, rep) + t + Replace(b, pat, rep)
  {
    AroundMatch(a, t, b, pat, rep);
    ReplaceMatch(a + t + b, pat, rep);
    ReplaceMatch(a, pat, rep);
    var ra, rb := Replace(a[|pat|..], pat, rep), Replace(b, pat, rep);
    assert rep + (ra + t + rb) == (rep + ra) + t + rb;
  }

  /** One step of `ReplaceAround` when the text does not start with the pattern. */
  lemma AroundNoMatchStep(a: string, t: string, b: string, pat: string, rep: string)
    requires 0 < |pat| && a != []
    requires |a + t + b| < |pat| || (a + t + b)[..|pat|] != pat
    requires Replace(a[1..] + t + b, pat, rep) == Replace(a[1..], pat, rep) + t + Replace(b, pat, rep)
    ensures Replace(a + t + b, pat, rep) == Replace(a, pat, rep) + t + Replace(b, pat, rep)
  {
    AroundNoMatch(a, t, b, pat, rep);
    var ra, rb := Replace(a[1..], pat, rep), Replace(b, pat, rep);
    assert [a[0]] + (ra + t + rb) == ([a[0]] + ra) + t + rb;
  }

  /** A placeholder other than the pattern splits `replace`: both sides are
      replaced on their own and the placeholder stays between them. */
  lemma {:induction false} ReplaceAround(a: string, t: string, b: string, pat: string, rep: string)
    requires Token(pat) && Token(t) && t != pat
    ensures Replace(a + t + b, pat, rep) == Replace(a, pat, rep) + t + Replace(b, pat, rep)
    decreases |a|
  {
    if a == [] {
      assert a + t + b == t + b;
      ReplaceTokenFirst(t, b, pat, rep);
    } else if |a + t + b| >= |pat| && (a + t + b)[..|pat|] == pat {
      if |a| >= |pat| {
        ReplaceAround(a[|pat|..], t, b, pat, rep);
      }
      AroundMatchStep(a, t, b, pat, rep);
    } else {
      ReplaceAround(a[1..], t, b, pat, rep);
      AroundNoMatchStep(a, t, b, pat, rep);
    }
  }

  /** `t` is none of the fields' placeholders. */
  predicate NamesNoField(fields: seq<(string, FieldValue)>, t: string) {
    forall i :: 0 <= i < |fields| ==> t != Placeholder(fields[i].0) && t != IndexedPlaceholder(fields[i].0)
  }

  /** A placeholder that names no field is kept verbatim wherever it stands,
      and splits the substitution: the text on each side of it is
      substituted on its own. */
  lemma {:induction false} SubstituteAround(fields: seq<(string, FieldValue)>, a: string, t: string, b: string)
    requires Token(t) && NamesNoField(fields, t)
    requires forall i :: 0 <= i < |fields| ==> NoBrace(fields[i].0)
    ensures Substitute(fields, a + t + b).Ok? <==> Substitute(fields, a).Ok?
    ensures Substitute(fields, a + t + b).Ok? <==> Substitute(fields, b).Ok?
    ensures Substitute(fields, a + t + b).Ok? ==>
      Substitute(fields, a + t + b).value == Substitute(fields, a).value + t + Substitute(fields, b).value
    decreases |fields|
  {
    if fields != [] {
      var (f, v) := fields[0];
      PlaceholdersAreTokens(f);
      assert NamesNoField(fields[1..], t) && forall i :: 0 <= i < |fields[1..]| ==> NoBrace(fields[1..][i].0) by {
        forall i | 0 <= i < |fields[1..]| ensures fields[1..][i] == fields[i + 1] {}
      }
      if !(IsSequence(v) && Length(v) == 0) {
        var ia := if IsSequence(v) then Replace(a, IndexedPlaceholder(f), Slugify(First(v))) else a;
        var ib := if IsSequence(v) then Replace(b, IndexedPlaceholder(f), Slugify(First(v))) else b;
        if IsSequence(v) {
          ReplaceAround(a, t, b, IndexedPlaceholder(f), Slugify(First(v)));
        }
        ReplaceAround(ia, t, ib, Placeholder(f), Slugify(Render(v)));
        var na := Replace(ia, Placeholder(f), Slugify(Render(v)));
        var nb := Replace(ib, Placeholder(f), Slugify(Render(v)));
        assert SubstituteField(f, v, a + t + b) == Ok(na + t + nb);
        SubstituteAround(fields[1..], na, t, nb);
      }
    }
  }

  /** For a track: any placeholder that is not `{f}` or `{f[0]}` for one of
      its nine fields is kept, with the template around it substituted. */
  lemma TrackKeepsUnknown(track: TrackInfo, a: string, u: string, b: string)
    requires NoBrace(u)
    requires forall n :: n in FieldNames ==> u != n && u != n + "[0]"
    ensures var t := "{" + u + "}";
      Substitute(Fields(track), a + t + b).Ok? ==>
        Substitute(Fields(track), a).Ok? && Substitute(Fields(track), b).Ok? &&
        Substitute(Fields(track), a + t + b).value == Substitute(Fields(track), a).value + t + Substitute(Fields(track), b).value
  {
    var t := "{" + u + "}";
    var fields := Fields(track);
    assert t[1..|t| - 1] == u;
    forall i | 0 <= i < |fields| ensures t != Placeholder(fields[i].0) && t != IndexedPlaceholder(fields[i].0) {
      var n := fields[i].0;
      assert n in FieldNames;
      assert Placeholder(n)[1..|Placeholder(n)| - 1] == n;
      assert IndexedPlaceholder(n)[1..|IndexedPlaceholder(n)| - 1] == n + "[0]";
    }
    assert forall i :: 0 <= i < |fields| ==> NoBrace(fields[i].0);
    SubstituteAround(fields, a, t, b);
  }


  /** A template cut into pieces, each plain brace-free text or one placeholder. */
  predicate Pieces(ps: seq<string>) {
    forall i :: 0 <= i < |ps| ==> NoBrace(ps[i]) || Token(ps[i])
  }

  function Concat(ps: seq<string>): string {
    if ps == [] then "" else ps[0] + Concat(ps[1..])
  }

  function ReplaceEach(ps: seq<string>, pat: string, rep: string): seq<string> {
    seq(|ps|, i requires 0 <= i < |ps| => if ps[i] == pat then rep else ps[i])
  }

  /** What one piece becomes: the slug of the first field whose `{f[0]}` or
      `{f}` it is, or the piece itself when it names no field. */
  function PieceValue(fields: seq<(string, FieldValue)>, p: string): string
    decreases |fields|
  {
    if fields == [] then p
    else
      var (f, v) := fields[0];
      if IsSequence(v) && Length(v) > 0 && p == IndexedPlaceholder(f) then Slugify(First(v))
      else if p == Placeholder(f) then Slugify(Render(v))
      else PieceValue(fields[1..], p)
  }

  function PieceValues(fields: seq<(string, FieldValue)>, ps: seq<string>): seq<string> {
    seq(|ps|, i requires 0 <= i < |ps| => PieceValue(fields, ps[i]))
  }

  /** `replace` of a placeholder acts piece by piece: it never matches across
      pieces, and only a piece equal to the pattern changes. */
  lemma {:induction false} ReplacePieces(ps: seq<string>, pat: string, rep: string)
    requires Token(pat) && Pieces(ps)
    ensures Replace(Concat(ps), pat, rep) == Concat(ReplaceEach(ps, pat, rep))
    decreases |ps|
  {
    if ps == [] {
      ReplaceShort("", pat, rep);
    } else {
      var p, rest := ps[0], Concat(ps[1..]);
      ReplacePieces(ps[1..], pat, rep);
      assert ReplaceEach(ps, pat, rep)[1..] == ReplaceEach(ps[1..], pat, rep);
      if p == pat {
        assert (p + rest)[..|pat|] == pat && (p + rest)[|pat|..] == rest;
        ReplaceMatch(p + rest, pat, rep);
      } else if NoBrace(p) {
        ReplaceAfterPlain(p, rest, pat, rep);
      } else {
        ReplaceTokenFirst(p, rest, pat, rep);
      }
    }
  }

  /** Text without braces names no field. */
  lemma {:induction false} PieceValuePlain(fields: seq<(string, FieldValue)>, p: string)
    requires NoBrace(p)
    ensures PieceValue(fields, p) == p
    decreases |fields|
  {
    if fields != [] {
      var f := fields[0].0;
      assert Placeholder(f)[0] == '{' && IndexedPlaceholder(f)[0] == '{';
      PieceValuePlain(fields[1..], p);
    }
  }

  /** The pieces after one step of the loop. */
  function FieldPieces(f: string, v: FieldValue, ps: seq<string>): seq<string>
    requires !(IsSequence(v) && Length(v) == 0)
  {
    var indexed := if IsSequence(v) then ReplaceEach(ps, IndexedPlaceholder(f), Slugify(First(v))) else ps;
    ReplaceEach(indexed, Placeholder(f), Slugify(Render(v)))
  }

  /** One step of the loop acts piece by piece, and leaves plain text and placeholders. */
  lemma SubstituteFieldPieces(f: string, v: FieldValue, ps: seq<string>)
    requires Pieces(ps) && NoBrace(f) && !(IsSequence(v) && Length(v) == 0)
    ensures Pieces(FieldPieces(f, v, ps))
    ensures SubstituteField(f, v, Concat(ps)) == Ok(Concat(FieldPieces(f, v, ps)))
  {
    PlaceholdersAreTokens(f);
    var ps1 := ps;
    if IsSequence(v) {
      SlugifyIsSlug(First(v));
      ReplacePieces(ps, IndexedPlaceholder(f), Slugify(First(v)));
      ps1 := ReplaceEach(ps, IndexedPlaceholder(f), Slugify(First(v)));
    }
    SlugifyIsSlug(Render(v));
    ReplacePieces(ps1, Placeholder(f), Slugify(Render(v)));
  }

  /** What a piece finally becomes is decided by the first field that names it. */
  lemma FieldPiecesValues(fields: seq<(string, FieldValue)>, ps: seq<string>)
    requires fields != [] && !EmptySequenceAt(fields, 0)
    ensures PieceValues(fields[1..], FieldPieces(fields[0].0, fields[0].1, ps)) == PieceValues(fields, ps)
  {
    var (f, v) := fields[0];
    var ps2 := FieldPieces(f, v, ps);
    forall i | 0 <= i < |ps| ensures PieceValue(fields[1..], ps2[i]) == PieceValue(fields, ps[i]) {
      assert Placeholder(f)[0] == '{';
      if IsSequence(v) && ps[i] == IndexedPlaceholder(f) {
        SlugifyIsSlug(First(v));
        PieceValuePlain(fields[1..], Slugify(First(v)));
      } else if ps[i] == Placeholder(f) {
        assert |Placeholder(f)| != |IndexedPlaceholder(f)|;
        SlugifyIsSlug(Render(v));
        PieceValuePlain(fields[1..], Slugify(Render(v)));
      }
    }
  }

  /** A template of plain text and placeholders is substituted piece by
      piece: `{f}` becomes the slug of field f's value, `{f[0]}` of a
      sequence-valued field the slug of its first item, and everything else
      stays as it is. */
  lemma {:induction false} SubstitutePieces(fields: seq<(string, FieldValue)>, ps: seq<string>)
    requires Pieces(ps)
    requires forall i :: 0 <= i < |fields| ==> NoBrace(fields[i].0) && !EmptySequenceAt(fields, i)
    ensures Substitute(fields, Concat(ps)) == Ok(Concat(PieceValues(fields, ps)))
    decreases |fields|
  {
    if fields == [] {
      assert PieceValues(fields, ps) == ps;
    } else {
      var (f, v) := fields[0];
      assert NoBrace(f) && !EmptySequenceAt(fields, 0);
      SubstituteFieldPieces(f, v, ps);
      assert forall i :: 0 <= i < |fields[1..]| ==> NoBrace(fields[1..][i].0) && !EmptySequenceAt(fields[1..], i) by {
        forall i | 0 <= i < |fields[1..]| ensures fields[1..][i] == fields[i + 1] {}
      }
      SubstitutePieces(fields[1..], FieldPieces(f, v, ps));
      FieldPiecesValues(fields, ps);
    }
  }

  /** For a track whose name can be built: each piece of the template is
      substituted on its own. */
  lemma TrackPieces(track: TrackInfo, ps: seq<string>)
    requires Pieces(ps)
    ensures Substitute(Fields(track), Concat(ps)).Ok? ==>
      Substitute(Fields(track), Concat(ps)) == Ok(Concat(PieceValues(Fields(track), ps)))
  {
    var fields := Fields(track);
    SubstituteFailsOnEmpty(fields, Concat(ps));
    if Substitute(fields, Concat(ps)).Ok? {
      FieldNamesBraceFree(track);
      SubstitutePieces(fields, ps);
    }
  }

  /** `{artists[0]}` is the slug of the first artist. */
  lemma ArtistsPiece(track: TrackInfo)
    requires track.artists != []
    ensures PieceValue(Fields(track), "{artists[0]}") == Slugify(track.artists[0])
  {
    var fields := Fields(track);
    forall j | 0 <= j < 5
      ensures "{artists[0]}" != Placeholder(fields[j].0) && "{artists[0]}" != IndexedPlaceholder(fields[j].0)
    {
      assert |fields[j].0| !in {7, 10};
    }
    PieceValueFrom(fields, 5, "{artists[0]}");
    assert fields[5..][0] == ("artists", TextList(track.artists));
    assert IndexedPlaceholder("artists") == "{artists[0]}";
  }

  /** `{name}` is the slug of the name. */
  lemma NamePiece(track: TrackInfo)
    ensures PieceValue(Fields(track), "{name}") == Slugify(track.name)
  {
    var fields := Fields(track);
    assert "{name}" != Placeholder(fields[0].0) && "{name}" != IndexedPlaceholder(fields[0].0);
    PieceValueFrom(fields, 1, "{name}");
    assert fields[1..][0] == ("name", Text(track.name));
    assert "{name}" != IndexedPlaceholder("name");
  }

  /** Fields that do not name the piece are passed over. */
  lemma {:induction false} PieceValueFrom(fields: seq<(string, FieldValue)>, k: nat, p: string)
    requires k <= |fields|
    requires forall j :: 0 <= j < k ==> p != Placeholder(fields[j].0) && p != IndexedPlaceholder(fields[j].0)
    ensures PieceValue(fields, p) == PieceValue(fields[k..], p)
    decreases k
  {
    if k > 0 {
      assert fields[1..][k - 1..] == fields[k..];
      PieceValueFrom(fields[1..], k - 1, p);
    }
  }

  lemma FieldNamesBraceFree(track: TrackInfo)
    ensures forall i :: 0 <= i < |Fields(track)| ==> NoBrace(Fields(track)[i].0)
  {
  }

  /** The usual template: `{artists[0]}/{name}.mp3` gives the first artist's
      slug as directory and the name's slug as file name. */
  lemma TrackNameExample(track: TrackInfo)
    ensures Substitute(Fields(track), "{artists[0]}/{name}.mp3").Ok? <==>
      track.id != "" && track.name != "" && track.album != "" && track.albumArtists != [] &&
      track.images != [] && track.artists != [] && track.releaseDate != ""
    ensures Substitute(Fields(track), "{artists[0]}/{name}.mp3").Ok? ==>
      Substitute(Fields(track), "{artists[0]}/{name}.mp3") == Ok(Slugify(track.artists[0]) + "/" + Slugify(track.name) + ".mp3")
  {
    var ps := ["{artists[0]}", "/", "{name}", ".mp3"];
    ExamplePieces();
    TrackNameFails(track, Concat(ps));
    TrackPieces(track, ps);
    if track.artists != [] {
      ExampleValues(track);
    }
  }

  lemma ExamplePieces()
    ensures Pieces(["{artists[0]}", "/", "{name}", ".mp3"])
    ensures Concat(["{artists[0]}", "/", "{name}", ".mp3"]) == "{artists[0]}/{name}.mp3"
  {
    Concat4("{artists[0]}", "/", "{name}", ".mp3");
    assert "{artists[0]}"[1..11] == "artists[0]" && "{name}"[1..5] == "name";
  }

  lemma ExampleValues(track: TrackInfo)
    requires track.artists != []
    ensures Concat(PieceValues(Fields(track), ["{artists[0]}", "/", "{name}", ".mp3"])) ==
      Slugify(track.artists[0]) + "/" + Slugify(track.name) + ".mp3"
  {
    var fields := Fields(track);
    var artist, name := Slugify(track.artists[0]), Slugify(track.name);
    ArtistsPiece(track);
    NamePiece(track);
    PieceValuePlain(fields, "/");
    PieceValuePlain(fields, ".mp3");
    assert PieceValues(fields, ["{artists[0]}", "/", "{name}", ".mp3"]) == [artist, "/", name, ".mp3"];
    Concat4(artist, "/", name, ".mp3");
  }

  lemma Concat4(a: string, b: string, c: string, d: string)
    ensures Concat([a, b, c, d]) == a + b + c + d
  {
    assert [a, b, c, d][1..] == [b, c, d] && [b, c, d][1..] == [c, d] && [c, d][1..] == [d];
    assert Concat([d]) == d + Concat([]) == d;
    assert Concat([c, d]) == c + d;
    assert Concat([b, c, d]) == b + (c + d);
    assert Concat([a, b, c, d]) == a + (b + (c + d));
    assert a + (b + (c + d)) == a + b + c + d;
  }

  /** The destination path holds no backslash: both separators become `os.sep`. */
  lemma DestinationPathSeparators(outDir: string, outName: string)
    ensures '\\' !in DestinationPath(outDir, outName)
    ensures DestinationPath(outDir, outName) == Replace(outDir + "/" + outName, "\\", "/")
  {
    var p := Replace(outDir + "/" + outName, "\\", Sep);
    ReplaceRemovesChar(outDir + "/" + outName, '\\', Sep);
    ReplaceIdentity(p, '/');
  }

  lemma {:induction false} ReplaceIdentity(s: string, c: char)
    ensures Replace(s, [c], [c]) == s
    decreases |s|
  {
    if |s| >= 1 {
      ReplaceIdentity(s[1..], c);
      if s[..1] == [c] {
        assert s == [c] + s[1..];
      }
    }
  }
}
