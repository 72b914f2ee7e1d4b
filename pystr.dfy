/**
 * The few Python 2 string operations the catalogue relies on, over `string`:
 * `s.startswith(p)`, `s.split(sep)` (left to right, non-overlapping) and the
 * position of the last occurrence of a character, used by `s.rsplit(c, 1)`.
 */
module PyStr {
  import opened Wrappers

  /** `s.startswith(p)` */
  predicate StartsWith(s: string, p: string) {
    |p| <= |s| && s[..|p|] == p
  }

  /** `sep` occurs in `s` starting at index `i`. */
  predicate OccursAt(s: string, sep: string, i: int) {
    0 <= i && i + |sep| <= |s| && s[i..i + |sep|] == sep
  }

  /** `sep in s` for a separator string. */
  predicate Occurs(s: string, sep: string) {
    exists i | 0 <= i <= |s| :: OccursAt(s, sep, i)
  }

  /** `s.find(sep, i)`: the first occurrence of `sep` at or after `i`. */
  function IndexFrom(s: string, sep: string, i: nat): (r: Option<nat>)
    requires sep != []
    requires i <= |s|
    decreases |s| - i
    ensures r.Some? ==> i <= r.value && OccursAt(s, sep, r.value)
    ensures r.Some? ==> forall j :: i <= j < r.value ==> !OccursAt(s, sep, j)
    ensures r.None? ==> forall j :: i <= j ==> !OccursAt(s, sep, j)
  {
    if i + |sep| > |s| then None
    else if s[i..i + |sep|] == sep then Some(i)
    else IndexFrom(s, sep, i + 1)
  }

  /** `s.split(sep)`: the pieces between successive non-overlapping occurrences. */
  function Split(s: string, sep: string): (r: seq<string>)
    requires sep != []
    decreases |s|
    ensures |r| >= 1
  {
    match IndexFrom(s, sep, 0)
    case None => [s]
    case Some(i) => [s[..i]] + Split(s[i + |sep|..], sep)
  }

  /** `sep.join(parts)` */
  function Join(parts: seq<string>, sep: string): string
    requires |parts| >= 1
  {
    if |parts| == 1 then parts[0] else parts[0] + sep + Join(parts[1..], sep)
  }

  /** Joining the pieces of a split with the same separator gives back the string. */
  lemma {:induction false} JoinSplit(s: string, sep: string)
    requires sep != []
    decreases |s|
    ensures Join(Split(s, sep), sep) == s
  {
    match IndexFrom(s, sep, 0)
    case None =>
    case Some(i) =>
      var rest := s[i + |sep|..];
      var pieces := Split(s, sep);
      assert pieces == [s[..i]] + Split(rest, sep);
      assert pieces[1..] == Split(rest, sep);
      JoinSplit(rest, sep);
      calc {
        Join(pieces, sep);
        s[..i] + sep + Join(Split(rest, sep), sep);
        s[..i] + sep + rest;
        { assert s[i..i + |sep|] == sep; }
        s;
      }
  }

  /** No piece of a split contains the separator. */
  lemma {:induction false} SplitPiecesFree(s: string, sep: string)
    requires sep != []
    decreases |s|
    ensures forall k :: 0 <= k < |Split(s, sep)| ==> !Occurs(Split(s, sep)[k], sep)
  {
    match IndexFrom(s, sep, 0)
    case None =>
    case Some(i) =>
      var rest := s[i + |sep|..];
      SplitPiecesFree(rest, sep);
      forall j | 0 <= j <= i ensures !OccursAt(s[..i], sep, j) {
        if j + |sep| <= i {
          assert !OccursAt(s, sep, j);
          assert s[..i][j..j + |sep|] == s[j..j + |sep|];
        }
      }
      var r := Split(s, sep);
      assert r == [s[..i]] + Split(rest, sep);
      forall k | 0 <= k < |r| ensures !Occurs(r[k], sep) {
        if k > 0 { assert r[k] == Split(rest, sep)[k - 1]; }
      }
  }

  /** A split has a second piece exactly when the separator occurs. */
  lemma SplitHasSecondPiece(s: string, sep: string)
    requires sep != []
    ensures |Split(s, sep)| >= 2 <==> Occurs(s, sep)
  {
    match IndexFrom(s, sep, 0)
    case None =>
    case Some(i) =>
  }

  /** A string without the separator splits into itself alone. */
  lemma SplitWithoutSeparator(s: string, sep: string)
    requires sep != [] && !Occurs(s, sep)
    ensures Split(s, sep) == [s]
  {
    match IndexFrom(s, sep, 0)
    case None =>
    case Some(i) =>
  }

  /**
   * When the first character of `sep` does not occur in `q`, the first occurrence
   * of `sep` in `q + sep + rest` is right after `q`, so `q` is the first piece.
   */
  lemma SplitAfterFirst(q: string, sep: string, rest: string)
    requires sep != [] && sep[0] !in q
    ensures Split(q + sep + rest, sep) == [q] + Split(rest, sep)
  {
    var s := q + sep + rest;
    assert OccursAt(s, sep, |q|) by { assert s[|q|..|q| + |sep|] == sep; }
    forall j | 0 <= j < |q| ensures !OccursAt(s, sep, j) {
      assert s[j] == q[j] != sep[0];
      if j + |sep| <= |s| {
        assert s[j..j + |sep|][0] == s[j];
      }
    }
    var found := IndexFrom(s, sep, 0);
    assert found == Some(|q|);
    assert s[..|q|] == q;
    assert s[|q| + |sep|..] == rest;
  }

  /** The position of the last `c` in `s`, as `s.rsplit(c, 1)` cuts there. */
  function LastIndexOf(s: string, c: char): (r: Option<nat>)
    decreases |s|
    ensures r.None? <==> c !in s
    ensures r.Some? ==> r.value < |s| && s[r.value] == c && c !in s[r.value + 1..]
  {
    if s == [] then None
    else if s[|s| - 1] == c then Some(|s| - 1)
    else
      var r := LastIndexOf(s[..|s| - 1], c);
      assert s == s[..|s| - 1] + [s[|s| - 1]];
      if r.Some? then
        assert s[r.value + 1..] == s[..|s| - 1][r.value + 1..] + [s[|s| - 1]];
        r
      else r
  }

  /** `s.rsplit(c, 1)`: cut at the last `c`, or `[s]` when there is none. */
  function RSplitOnce(s: string, c: char): (r: seq<string>)
    ensures |r| == 1 || |r| == 2
    ensures |r| == 2 <==> c in s
    ensures |r| == 1 ==> r[0] == s
    ensures |r| == 2 ==> r[0] + [c] + r[1] == s && c !in r[1]
  {
    match LastIndexOf(s, c)
    case None => [s]
    case Some(i) =>
      assert s == s[..i] + [c] + s[i + 1..];
      [s[..i], s[i + 1..]]
  }

  /** For a one-character separator, occurring is plain membership. */
  lemma OccursChar(s: string, c: char)
    ensures Occurs(s, [c]) <==> c in s
  {
    if c in s {
      var i :| 0 <= i < |s| && s[i] == c;
      assert s[i..i + 1] == [c];
      assert OccursAt(s, [c], i);
    }
    if Occurs(s, [c]) {
      var i :| 0 <= i <= |s| && OccursAt(s, [c], i);
      assert s[i] == s[i..i + 1][0] == c;
    }
  }

  /**
   * The first piece of a split is the text before the first occurrence of the
   * separator: no occurrence starts inside it, and it is the whole string or
   * the separator follows it.
   */
  lemma SplitFirstPiece(s: string, sep: string)
    requires sep != []
    ensures StartsWith(s, Split(s, sep)[0])
    ensures forall j :: 0 <= j < |Split(s, sep)[0]| ==> !OccursAt(s, sep, j)
    ensures !Occurs(Split(s, sep)[0], sep)
    ensures Split(s, sep)[0] == s || StartsWith(s[|Split(s, sep)[0]|..], sep)
  {
    SplitPiecesFree(s, sep);
    match IndexFrom(s, sep, 0)
    case None =>
    case Some(i) =>
      assert s[i..][..|sep|] == s[i..i + |sep|];
  }
}
