/**
 * The upload and URL helpers of project.py: the image allow-list
 * (`permitted_file`), the `\W` stripper (`strip_string`), the name under which an
 * uploaded poster is stored, and the rewrite of a YouTube trailer link into an
 * embeddable URL (`show_movie_details`).
 */
module Uploads {
  import opened Wrappers
  import opened PyStr

  /** `ALLOWED_EXTENSIONS` */
  const AllowedExtensions: set<string> := {"png", "jpg", "jpeg", "gif"}

  /** `permitted_file(filename)`: a dot, and the text after the last dot is allowed. */
  function PermittedFile(filename: string): (ok: bool)
    ensures ok ==> '.' in filename
  {
    '.' in filename && RSplitOnce(filename, '.')[1] in AllowedExtensions
  }

  /** The last dot of `f` is at index `i`. */
  lemma LastDotAt(f: string, i: nat)
    requires i < |f| && f[i] == '.' && '.' !in f[i + 1..]
    ensures LastIndexOf(f, '.') == Some(i)
  {
  }

  /**
   * The allow-list holds exactly when some dot has no dot after it and the text
   * after it is one of the four extensions, spelled in lower case.
   */
  lemma PermittedFileIff(f: string)
    ensures PermittedFile(f) <==>
      exists i :: 0 <= i < |f| && f[i] == '.' && '.' !in f[i + 1..] && f[i + 1..] in AllowedExtensions
  {
    if PermittedFile(f) {
      var i := LastIndexOf(f, '.').value;
      assert f[i] == '.' && '.' !in f[i + 1..] && f[i + 1..] in AllowedExtensions;
    }
    if exists i :: 0 <= i < |f| && f[i] == '.' && '.' !in f[i + 1..] && f[i + 1..] in AllowedExtensions {
      var i :| 0 <= i < |f| && f[i] == '.' && '.' !in f[i + 1..] && f[i + 1..] in AllowedExtensions;
      LastDotAt(f, i);
    }
  }

  /** A name ending in `.ext` passes exactly when `ext` is on the list; `PNG` is not. */
  lemma PermittedFileByExtension(base: string, ext: string)
    requires '.' !in ext
    ensures PermittedFile(base + "." + ext) <==> ext in AllowedExtensions
  {
    var f := base + "." + ext;
    assert f[|base|] == '.';
    assert f[|base| + 1..] == ext;
    LastDotAt(f, |base|);
  }

  /** Python 2's `\w` without the UNICODE flag: `[A-Za-z0-9_]`. */
  predicate IsWordChar(c: char) {
    ('A' <= c <= 'Z') || ('a' <= c <= 'z') || ('0' <= c <= '9') || c == '_'
  }

  /** `strip_string(s)`: `re.sub('\W', '', s)` deletes every non-word character. */
  function StripString(s: string): (r: string)
    ensures forall k :: 0 <= k < |r| ==> IsWordChar(r[k])
    ensures |r| <= |s|
  {
    if s == [] then []
    else (if IsWordChar(s[0]) then [s[0]] else []) + StripString(s[1..])
  }

  /** `a` is obtained from `b` by deleting characters. */
  ghost predicate IsSubsequence(a: string, b: string)
    decreases |b|
  {
    if a == [] then true
    else if b == [] then false
    else (a[0] == b[0] && IsSubsequence(a[1..], b[1..])) || IsSubsequence(a, b[1..])
  }

  /** Stripping only deletes characters: the result is a subsequence of the input. */
  lemma {:induction false} StripIsSubsequence(s: string)
    ensures IsSubsequence(StripString(s), s)
  {
    if s != [] {
      StripIsSubsequence(s[1..]);
      var r := StripString(s);
      if IsWordChar(s[0]) {
        assert r[0] == s[0] && r[1..] == StripString(s[1..]);
      } else {
        assert r == StripString(s[1..]);
      }
    }
  }

  /** Every word character survives as often as it occurs; no other character survives. */
  lemma {:induction false} StripCounts(s: string, c: char)
    ensures multiset(StripString(s))[c] == if IsWordChar(c) then multiset(s)[c] else 0
  {
    if s != [] {
      StripCounts(s[1..], c);
      assert s == [s[0]] + s[1..];
      assert multiset(s) == multiset([s[0]]) + multiset(s[1..]);
    }
  }

  /** A string made only of word characters is left as it is. */
  lemma {:induction false} StripKeepsWordString(s: string)
    requires forall k :: 0 <= k < |s| ==> IsWordChar(s[k])
    ensures StripString(s) == s
  {
    if s != [] {
      StripKeepsWordString(s[1..]);
      assert s == [s[0]] + s[1..];
    }
  }

  /** Stripping twice is stripping once. */
  lemma StripIdempotent(s: string)
    ensures StripString(StripString(s)) == StripString(s)
  {
    StripKeepsWordString(StripString(s));
  }

  /** The literal pieces added after the stripped prefix. */
  const GenreTag := "-genre."
  const MovieTag := "-movie."

  /**
   * The stored poster name: `strip_string(prefix) + pieces[0] + tag + pieces[1]`
   * with `pieces = secured.split(".")`. None stands for the IndexError raised when
   * the secured name has no dot.
   */
  function PosterFileName(prefix: string, secured: string, tag: string): (r: Option<string>)
    ensures r.Some? <==> '.' in secured
  {
    SplitHasSecondPiece(secured, ".");
    OccursChar(secured, '.');
    var pieces := Split(secured, ".");
    if |pieces| < 2 then None
    else Some(StripString(prefix) + pieces[0] + tag + pieces[1])
  }

  /** For `base.ext` with one dot the poster is `strip(prefix) + base + tag + ext`. */
  lemma PosterNameOneDot(prefix: string, base: string, ext: string, tag: string)
    requires '.' !in base && '.' !in ext
    ensures PosterFileName(prefix, base + "." + ext, tag) == Some(StripString(prefix) + base + tag + ext)
  {
    SplitAfterFirst(base, ".", ext);
    OccursChar(ext, '.');
    SplitWithoutSeparator(ext, ".");
  }

  /**
   * With two or more dots the poster keeps only the piece between the first two
   * dots, so `a.b.png` is stored as `strip(prefix) + "a" + tag + "b"`.
   */
  lemma PosterNameDropsLaterPieces(prefix: string, base: string, mid: string, rest: string, tag: string)
    requires '.' !in base && '.' !in mid
    ensures PosterFileName(prefix, base + "." + mid + "." + rest, tag)
            == Some(StripString(prefix) + base + tag + mid)
  {
    assert base + "." + mid + "." + rest == base + "." + (mid + "." + rest);
    SplitAfterFirst(base, ".", mid + "." + rest);
    SplitAfterFirst(mid, ".", rest);
  }

  /**
   * A one-dot name whose extension is on the list gives a poster name that is on
   * the list too, with the same extension.
   */
  lemma PosterNameOneDotPermitted(prefix: string, base: string, ext: string, tag: string)
    requires tag == GenreTag || tag == MovieTag
    requires '.' !in base && '.' !in ext && ext in AllowedExtensions
    ensures PosterFileName(prefix, base + "." + ext, tag).Some?
    ensures PermittedFile(PosterFileName(prefix, base + "." + ext, tag).value)
  {
    PosterNameOneDot(prefix, base, ext, tag);
    var stem := StripString(prefix) + base + tag[..6];
    assert StripString(prefix) + base + tag + ext == stem + "." + ext;
    PermittedFileByExtension(stem, ext);
  }

  const ShortPrefix := "https://youtu.be/"
  const WatchPrefix := "https://www.youtube.com/watch?v="
  const EmbedBase := "https://www.youtube.com/embed/"

  /** The two trailer link forms, cut just before their separators. */
  lemma TrailerPrefixes()
    ensures ShortPrefix == "https://youtu" + ".be/" && '.' !in "https://youtu"
    ensures WatchPrefix == "https://www.youtube.com/watch" + "?v=" && '?' !in "https://www.youtube.com/watch"
  {
  }

  /** A link starting with `prefix` is `prefix` followed by the rest. */
  lemma StartsWithSplit(s: string, prefix: string)
    requires StartsWith(s, prefix)
    ensures s == prefix + s[|prefix|..]
  {
  }

  /**
   * The embed URL shown for a trailer (`youtube_url` in `show_movie_details`):
   * a `youtu.be` link or a `watch?v=` link keeps its second split piece after the
   * embed base; any other link gives "".
   */
  function EmbedUrl(trailerUrl: string): (r: string)
    ensures r != "" <==> StartsWith(trailerUrl, ShortPrefix) || StartsWith(trailerUrl, WatchPrefix)
    ensures r != "" ==> StartsWith(r, EmbedBase)
  {
    TrailerPrefixes();
    if StartsWith(trailerUrl, ShortPrefix) then
      StartsWithSplit(trailerUrl, ShortPrefix);
      SplitAfterFirst("https://youtu", ".be/", trailerUrl[|ShortPrefix|..]);
      EmbedBase + Split(trailerUrl, ".be/")[1]
    else if StartsWith(trailerUrl, WatchPrefix) then
      StartsWithSplit(trailerUrl, WatchPrefix);
      SplitAfterFirst("https://www.youtube.com/watch", "?v=", trailerUrl[|WatchPrefix|..]);
      EmbedBase + Split(trailerUrl, "?v=")[1]
    else ""
  }

  /**
   * `https://youtu.be/` + rest embeds the part of rest before any further `.be/`.
   */
  lemma EmbedShortLink(rest: string)
    ensures var id := Split(rest, ".be/")[0];
      && EmbedUrl(ShortPrefix + rest) == EmbedBase + id
      && StartsWith(rest, id) && !Occurs(id, ".be/")
      && (id == rest || StartsWith(rest[|id|..], ".be/"))
  {
    TrailerPrefixes();
    var url := ShortPrefix + rest;
    assert StartsWith(url, ShortPrefix) && url[|ShortPrefix|..] == rest;
    SplitAfterFirst("https://youtu", ".be/", rest);
    SplitFirstPiece(rest, ".be/");
  }

  /**
   * `https://www.youtube.com/watch?v=` + rest embeds the part of rest before any
   * further `?v=`.
   */
  lemma EmbedWatchLink(rest: string)
    ensures var id := Split(rest, "?v=")[0];
      && EmbedUrl(WatchPrefix + rest) == EmbedBase + id
      && StartsWith(rest, id) && !Occurs(id, "?v=")
      && (id == rest || StartsWith(rest[|id|..], "?v="))
  {
    TrailerPrefixes();
    var url := WatchPrefix + rest;
    assert StartsWith(url, WatchPrefix) && url[|WatchPrefix|..] == rest;
    assert !StartsWith(url, ShortPrefix) by {
      assert url[8] == 'w' != ShortPrefix[8];
    }
    SplitAfterFirst("https://www.youtube.com/watch", "?v=", rest);
    SplitFirstPiece(rest, "?v=");
  }
}
