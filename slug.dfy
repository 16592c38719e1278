/**
 * `_slugify(value)` with its default `allow_unicode=False`, on the string
 * `str(value)`: fold to ASCII, lower-case, drop every character that is not
 * a word character, whitespace or '-', and strip the ends.
 */
module Slug {
  import opened PyStr

  predicate IsAscii(c: char) { c as int < 128 }

  /** `unicodedata.normalize('NFKD', s).encode('ascii', 'ignore').decode('ascii')`
      with the normalisation taken as the identity: every non-ASCII character is dropped. */
  function AsciiFold(s: string): (r: string)
    ensures forall i :: 0 <= i < |r| ==> IsAscii(r[i])
  {
    if s == [] then []
    else if IsAscii(s[0]) then [s[0]] + AsciiFold(s[1..])
    else AsciiFold(s[1..])
  }

  /** Python's `\w` on an ASCII character. */
  predicate IsWord(c: char) {
    'a' <= c <= 'z' || 'A' <= c <= 'Z' || '0' <= c <= '9' || c == '_'
  }

  /** What `[^\w\s-]` does not match. */
  predicate Kept(c: char) {
    IsWord(c) || IsSpace(c) || c == '-'
  }

  /** `re.sub(r'[^\w\s-]', '', s)`. */
  function DropPunctuation(s: string): (r: string)
    ensures forall i :: 0 <= i < |r| ==> Kept(r[i])
    ensures |r| <= |s|
  {
    if s == [] then []
    else if Kept(s[0]) then [s[0]] + DropPunctuation(s[1..])
    else DropPunctuation(s[1..])
  }

  /** The characters a slug is made of: lower-case ASCII letters, digits,
      '_', ASCII whitespace and '-'. */
  predicate SlugChar(c: char) {
    'a' <= c <= 'z' || '0' <= c <= '9' || c == '_' || IsSpace(c) || c == '-'
  }

  predicate IsSlug(s: string) {
    (forall i :: 0 <= i < |s| ==> SlugChar(s[i])) && Trimmed(s)
  }

  function Slugify(value: string): string {
    Strip(DropPunctuation(LowerAscii(AsciiFold(value))))
  }

  // ---------------------------------------------------------------------
  // Lemmas

  /** A slug holds only slug characters and has no whitespace at either end;
      in particular it holds no brace. */
  lemma SlugifyIsSlug(value: string)
    ensures IsSlug(Slugify(value))
    ensures '{' !in Slugify(value) && '}' !in Slugify(value)
  {
    var folded := AsciiFold(value);
    var lowered := LowerAscii(folded);
    var kept := DropPunctuation(lowered);
    assert forall i :: 0 <= i < |lowered| ==> !IsUpperAscii(lowered[i]);
    assert forall i :: 0 <= i < |kept| ==> SlugChar(kept[i]) by {
      DropPunctuationFrom(lowered);
    }
    StripTrims(kept);
    var i, j :| 0 <= i <= j <= |kept| && Strip(kept) == kept[i..j];
    assert forall k :: 0 <= k < |Strip(kept)| ==> Strip(kept)[k] == kept[i + k];
  }

  /** Dropping punctuation keeps only characters of the input. */
  lemma {:induction false} DropPunctuationFrom(s: string)
    requires forall i :: 0 <= i < |s| ==> !IsUpperAscii(s[i])
    ensures forall i :: 0 <= i < |DropPunctuation(s)| ==> SlugChar(DropPunctuation(s)[i])
    decreases |s|
  {
    if s != [] {
      DropPunctuationFrom(s[1..]);
    }
  }

  lemma {:induction false} AsciiFoldAscii(s: string)
    requires forall i :: 0 <= i < |s| ==> IsAscii(s[i])
    ensures AsciiFold(s) == s
    decreases |s|
  {
    if s != [] {
      AsciiFoldAscii(s[1..]);
    }
  }

  /** The fold works character by character: a character is kept exactly
      when it is ASCII, and the kept ones stay in order. */
  lemma {:induction false} AsciiFoldAppend(a: string, b: string)
    ensures AsciiFold(a + b) == AsciiFold(a) + AsciiFold(b)
    ensures forall c :: AsciiFold([c]) == if IsAscii(c) then [c] else []
    decreases |a|
  {
    if a == [] {
      assert a + b == b;
    } else {
      assert (a + b)[0] == a[0] && (a + b)[1..] == a[1..] + b;
      AsciiFoldAppend(a[1..], b);
      if IsAscii(a[0]) {
        assert [a[0]] + (AsciiFold(a[1..]) + AsciiFold(b)) == [a[0]] + AsciiFold(a[1..]) + AsciiFold(b);
      }
    }
  }

  lemma {:induction false} LowerAsciiLower(s: string)
    requires forall i :: 0 <= i < |s| ==> !IsUpperAscii(s[i])
    ensures LowerAscii(s) == s
    decreases |s|
  {
    if s != [] {
      LowerAsciiLower(s[1..]);
    }
  }

  lemma {:induction false} DropPunctuationKept(s: string)
    requires forall i :: 0 <= i < |s| ==> Kept(s[i])
    ensures DropPunctuation(s) == s
    decreases |s|
  {
    if s != [] {
      DropPunctuationKept(s[1..]);
    }
  }

  /** Dropping punctuation works character by character: a character is
      kept exactly when `[^\w\s-]` does not match it, and the kept ones stay
      in order. */
  lemma {:induction false} DropPunctuationAppend(a: string, b: string)
    ensures DropPunctuation(a + b) == DropPunctuation(a) + DropPunctuation(b)
    ensures forall c :: DropPunctuation([c]) == if Kept(c) then [c] else []
    decreases |a|
  {
    if a == [] {
      assert a + b == b;
    } else {
      assert (a + b)[0] == a[0] && (a + b)[1..] == a[1..] + b;
      DropPunctuationAppend(a[1..], b);
      if Kept(a[0]) {
        assert [a[0]] + (DropPunctuation(a[1..]) + DropPunctuation(b)) == [a[0]] + DropPunctuation(a[1..]) + DropPunctuation(b);
      }
    }
  }

  /** Only the punctuation goes: "ac/dc!" loses its '/' and '!'. */
  lemma DropPunctuationExample()
    ensures DropPunctuation("ac/dc!") == "acdc"
  {
    assert DropPunctuation("!") == "";
    assert DropPunctuation("c!") == "c";
    assert DropPunctuation("dc!") == "dc";
    assert DropPunctuation("/dc!") == "dc";
    assert DropPunctuation("c/dc!") == "cdc";
  }

  /** A slug is its own slug. */
  lemma SlugifySlug(s: string)
    requires IsSlug(s)
    ensures Slugify(s) == s
  {
    assert forall i :: 0 <= i < |s| ==> IsAscii(s[i]) && !IsUpperAscii(s[i]) && Kept(s[i]);
    AsciiFoldAscii(s);
    LowerAsciiLower(s);
    DropPunctuationKept(s);
    StripTrimmed(s);
  }

  /** Slugifying twice gives what slugifying once gives. */
  lemma SlugifyIdempotent(value: string)
    ensures Slugify(Slugify(value)) == Slugify(value)
  {
    SlugifyIsSlug(value);
    SlugifySlug(Slugify(value));
  }

  /** Text of ASCII letters and spaces (runs of them allowed) that neither starts nor ends with a space. */
  predicate PlainWords(s: string) {
    s != [] && s[0] != ' ' && s[|s| - 1] != ' ' && forall i :: 0 <= i < |s| ==> LetterOrSpace(s[i])
  }

  predicate LetterOrSpace(c: char) {
    'a' <= c <= 'z' || 'A' <= c <= 'Z' || c == ' '
  }

  lemma PlainWordsLowered(s: string)
    requires PlainWords(s)
    ensures IsSlug(LowerAscii(s))
    ensures AsciiFold(s) == s
  {
    assert forall i :: 0 <= i < |s| ==> IsAscii(s[i]);
    AsciiFoldAscii(s);
  }

  lemma SlugKeptWhole(l: string)
    requires IsSlug(l)
    ensures Strip(DropPunctuation(l)) == l
  {
    assert forall i :: 0 <= i < |l| ==> Kept(l[i]);
    DropPunctuationKept(l);
    StripTrimmed(l);
  }

  /** On plain words the slug is only the lower-cased text: the spaces stay
      spaces, none becomes a dash. */
  lemma SlugifyPlainWords(s: string)
    requires PlainWords(s)
    ensures Slugify(s) == LowerAscii(s)
    ensures forall i :: 0 <= i < |s| ==> (Slugify(s)[i] == ' ' <==> s[i] == ' ')
  {
    PlainWordsLowered(s);
    SlugKeptWhole(LowerAscii(s));
  }

  /** The slug of a track title. */
  lemma SlugifyTitle(s: string)
    requires s == "Master of Puppets"
    ensures Slugify(s) == "master of puppets"
  {
    TitleWords(s);
    SlugifyPlainWords(s);
  }

  lemma TitleWords(s: string)
    requires s == "Master of Puppets"
    ensures PlainWords(s) && LowerAscii(s) == "master of puppets"
  {
    assert PlainWords(s);
    var l := LowerAscii(s);
    assert l == "master of puppets";
  }
}
