/**
 * The few java.lang.String and Spring StringUtils operations the services
 * rely on, over Dafny strings (sequences of UTF-16 code units are modelled
 * as sequences of chars).
 */
module Text {
  import opened Wrappers

  /** String.trim() strips every leading and trailing char at or below U+0020. */
  predicate IsTrimmable(c: char) {
    c <= ' '
  }

  /**
   * Character.isWhitespace: the ASCII controls TAB..CR and FS..US, and the
   * Unicode space, line and paragraph separators except the non-breaking ones.
   */
  predicate IsJavaWhitespace(c: char) {
    ('\U{9}' <= c <= '\U{D}') || ('\U{1C}' <= c <= ' ')
    || c == '\U{1680}' || ('\U{2000}' <= c <= '\U{2006}') || ('\U{2008}' <= c <= '\U{200A}')
    || c == '\U{2028}' || c == '\U{2029}' || c == '\U{205F}' || c == '\U{3000}'
  }

  /** StringUtils.hasText: not null and holding some non-whitespace char. */
  predicate HasText(s: Option<string>) {
    s.Some? && exists i :: 0 <= i < |s.value| && !IsJavaWhitespace(s.value[i])
  }

  function TrimStart(s: string): (r: string)
    ensures |r| <= |s| && r == s[|s| - |r|..]
    ensures forall k :: 0 <= k < |s| - |r| ==> IsTrimmable(s[k])
    ensures r == [] || !IsTrimmable(r[0])
  {
    if s != [] && IsTrimmable(s[0]) then TrimStart(s[1..]) else s
  }

  function TrimEnd(s: string): (r: string)
    ensures |r| <= |s| && r == s[..|r|]
    ensures forall k :: |r| <= k < |s| ==> IsTrimmable(s[k])
    ensures r == [] || !IsTrimmable(r[|r| - 1])
  {
    if s != [] && IsTrimmable(s[|s| - 1]) then TrimEnd(s[..|s| - 1]) else s
  }

  /** String.trim(). */
  function Trim(s: string): (r: string)
    ensures |r| <= |s|
    ensures r == [] || (!IsTrimmable(r[0]) && !IsTrimmable(r[|r| - 1]))
  {
    TrimEnd(TrimStart(s))
  }

  /** r is s[i..i + |r|], with only trimmable chars before and after it. */
  predicate IsMiddleSlice(s: string, r: string, i: int) {
    0 <= i <= |s| - |r| && r == s[i..i + |r|]
    && (forall k :: 0 <= k < i ==> IsTrimmable(s[k]))
    && (forall k :: i + |r| <= k < |s| ==> IsTrimmable(s[k]))
  }

  /**
   * trim() returns a middle slice of its input: everything before the slice
   * and everything after it is at or below U+0020.
   */
  lemma TrimIsMiddle(s: string)
    ensures exists i :: IsMiddleSlice(s, Trim(s), i)
  {
    var t := TrimStart(s);
    var r := Trim(s);
    var i := |s| - |t|;
    assert t == s[i..];
    assert r == t[..|r|];
    assert r == s[i..i + |r|];
    forall k | i + |r| <= k < |s|
      ensures IsTrimmable(s[k])
    {
      assert s[k] == t[k - i];
    }
    assert IsMiddleSlice(s, r, i);
  }

  /** `s.trim().isEmpty()`: every char of s is at or below U+0020. */
  predicate IsBlank(s: string) {
    Trim(s) == []
  }

  lemma {:induction false} TrimStartKeepsNonBlank(s: string)
    requires s != [] && !IsTrimmable(s[0])
    ensures TrimStart(s) == s
  {
  }

  lemma {:induction false} BlankIffAllTrimmable(s: string)
    ensures IsBlank(s) <==> forall k :: 0 <= k < |s| ==> IsTrimmable(s[k])
  {
    var t := TrimStart(s);
    if t == [] {
      assert forall k :: 0 <= k < |s| ==> IsTrimmable(s[k]);
    } else {
      assert s[|s| - |t|] == t[0];
    }
  }

  /** A string that trim() leaves alone. */
  predicate IsTrimmed(s: string) {
    s == [] || (!IsTrimmable(s[0]) && !IsTrimmable(s[|s| - 1]))
  }

  lemma TrimOfTrimmed(s: string)
    requires IsTrimmed(s)
    ensures Trim(s) == s
  {
    if s != [] {
      TrimStartKeepsNonBlank(s);
    }
  }

  /** trim() drops a leading space before a trimmed string. */
  lemma TrimAfterSpace(s: string)
    requires IsTrimmed(s)
    ensures Trim(" " + s) == s
  {
    var t := " " + s;
    assert t != [] && IsTrimmable(t[0]) && t[1..] == s;
    assert TrimStart(t) == TrimStart(s);
    TrimOfTrimmed(s);
  }

  /** Whether t occurs in s starting at position k. */
  predicate OccursAt(s: string, t: string, k: int) {
    0 <= k && k + |t| <= |s| && s[k..k + |t|] == t
  }

  /** The first position at or after `from` at which t occurs in s. */
  function IndexOfFrom(s: string, t: string, from: nat): (r: Option<nat>)
    ensures r.Some? ==> from <= r.value && OccursAt(s, t, r.value)
    decreases |s| - from
  {
    if from + |t| > |s| then None
    else if OccursAt(s, t, from) then Some(from)
    else IndexOfFrom(s, t, from + 1)
  }

  /** String.indexOf: the first position at which t occurs in s (see IndexOfSpec). */
  function IndexOf(s: string, t: string): (r: Option<nat>)
    ensures r.Some? ==> OccursAt(s, t, r.value)
  {
    IndexOfFrom(s, t, 0)
  }

  lemma {:induction false} IndexOfFromSpec(s: string, t: string, from: nat)
    ensures IndexOfFrom(s, t, from).Some? ==> forall k :: from <= k < IndexOfFrom(s, t, from).value ==> !OccursAt(s, t, k)
    ensures IndexOfFrom(s, t, from).None? ==> forall k :: from <= k ==> !OccursAt(s, t, k)
    decreases |s| - from
  {
    if from + |t| <= |s| && !OccursAt(s, t, from) {
      IndexOfFromSpec(s, t, from + 1);
    }
  }

  /** IndexOf finds the first occurrence, and finds none only when there is none. */
  lemma IndexOfSpec(s: string, t: string)
    ensures IndexOf(s, t).Some? ==> forall k :: 0 <= k < IndexOf(s, t).value ==> !OccursAt(s, t, k)
    ensures IndexOf(s, t).None? ==> forall k :: !OccursAt(s, t, k)
  {
    IndexOfFromSpec(s, t, 0);
  }

  /** String.contains. */
  predicate Contains(s: string, t: string) {
    IndexOf(s, t).Some?
  }

  lemma ContainsIff(s: string, t: string)
    ensures Contains(s, t) <==> exists k :: OccursAt(s, t, k)
  {
    IndexOfSpec(s, t);
  }

  predicate StartsWith(s: string, p: string) {
    |p| <= |s| && s[..|p|] == p
  }

  predicate EndsWith(s: string, p: string) {
    |p| <= |s| && s[|s| - |p|..] == p
  }

  /** String.join / Collectors.joining(sep). */
  function Join(xs: seq<string>, sep: string): string {
    if |xs| == 0 then ""
    else if |xs| == 1 then xs[0]
    else xs[0] + sep + Join(xs[1..], sep)
  }

  /**
   * A piece followed by a separator is cut exactly there: no occurrence of
   * the separator starts inside the piece or straddles its end.
   */
  predicate CutsCleanly(x: string, sep: string) {
    forall k :: 0 <= k < |x| ==> !OccursAt(x + sep, sep, k)
  }

  /** A piece without the one-character separator cuts cleanly. */
  lemma NoCharCutsCleanly(x: string, c: char)
    requires c !in x
    ensures CutsCleanly(x, [c])
  {
    forall k | 0 <= k < |x|
      ensures !OccursAt(x + [c], [c], k)
    {
      assert (x + [c])[k..k + 1][0] == x[k];
    }
  }

  /** A piece that cuts cleanly does not contain the separator. */
  lemma CleanPieceHasNoSeparator(x: string, sep: string)
    requires |sep| > 0 && CutsCleanly(x, sep)
    ensures !Contains(x, sep)
  {
    IndexOfSpec(x, sep);
    if Contains(x, sep) {
      var k := IndexOf(x, sep).value;
      assert (x + sep)[k..k + |sep|] == x[k..k + |sep|];
      assert OccursAt(x + sep, sep, k);
    }
  }

  lemma {:induction false} FirstOccurrenceAfterCleanPiece(x: string, sep: string, rest: string)
    requires |sep| > 0 && CutsCleanly(x, sep)
    ensures IndexOf(x + sep + rest, sep) == Some(|x|)
  {
    var s := x + sep + rest;
    IndexOfSpec(s, sep);
    assert OccursAt(s, sep, |x|) by {
      assert s[|x|..|x| + |sep|] == sep;
    }
    forall k | 0 <= k < |x|
      ensures !OccursAt(s, sep, k)
    {
      assert s[k..k + |sep|] == (x + sep)[k..k + |sep|];
      assert !OccursAt(x + sep, sep, k);
    }
  }

  /** The text before the first occurrence of a separator does not contain it. */
  lemma PrefixBeforeFirst(s: string, sep: string)
    requires |sep| > 0 && IndexOf(s, sep).Some?
    ensures !Contains(s[..IndexOf(s, sep).value], sep)
    ensures s == s[..IndexOf(s, sep).value] + sep + s[IndexOf(s, sep).value + |sep|..]
  {
    var i := IndexOf(s, sep).value;
    var head := s[..i];
    IndexOfSpec(s, sep);
    if Contains(head, sep) {
      var k := IndexOf(head, sep).value;
      assert s[k..k + |sep|] == head[k..k + |sep|];
      assert OccursAt(s, sep, k);
    }
  }

  lemma JoinCons(x: string, xs: seq<string>, sep: string)
    requires |xs| >= 1
    ensures Join([x] + xs, sep) == x + sep + Join(xs, sep)
  {
    assert ([x] + xs)[1..] == xs;
  }

  /** String.split(sep, n) for a literal separator and a positive limit n. */
  function SplitN(s: string, sep: string, n: nat): (r: seq<string>)
    requires |sep| > 0 && n >= 1
    ensures 1 <= |r| <= n
    decreases n
  {
    if n == 1 then [s]
    else match IndexOf(s, sep)
      case None => [s]
      case Some(i) => [s[..i]] + SplitN(s[i + |sep|..], sep, n - 1)
  }

  /** A string is the text before an occurrence, the occurrence, and the text after it. */
  lemma CutAt(s: string, sep: string, i: nat)
    requires OccursAt(s, sep, i)
    ensures s == s[..i] + sep + s[i + |sep|..]
  {
  }

  /** The pieces of split(sep, n) join back to the input. */
  lemma {:induction false} SplitNJoinsBack(s: string, sep: string, n: nat)
    requires |sep| > 0 && n >= 1
    ensures Join(SplitN(s, sep, n), sep) == s
    decreases n
  {
    if n > 1 && IndexOf(s, sep).Some? {
      var i := IndexOf(s, sep).value;
      SplitNJoinsBack(s[i + |sep|..], sep, n - 1);
      SplitNJoinsBackStep(s, sep, n, i);
    } else {
      assert SplitN(s, sep, n) == [s];
    }
  }

  /** When the pieces after the first cut join back to the rest, all pieces join back to the whole. */
  lemma SplitNJoinsBackStep(s: string, sep: string, n: nat, i: nat)
    requires |sep| > 0 && n > 1 && IndexOf(s, sep) == Some(i)
    requires Join(SplitN(s[i + |sep|..], sep, n - 1), sep) == s[i + |sep|..]
    ensures Join(SplitN(s, sep, n), sep) == s
  {
    var tail := SplitN(s[i + |sep|..], sep, n - 1);
    assert SplitN(s, sep, n) == [s[..i]] + tail;
    JoinCons(s[..i], tail, sep);
    CutAt(s, sep, i);
  }

  /** Only the last piece of split(sep, n) may contain the separator, and it does not when the limit was not reached. */
  lemma {:induction false} SplitNPiecesClean(s: string, sep: string, n: nat)
    requires |sep| > 0 && n >= 1
    ensures forall k :: 0 <= k < |SplitN(s, sep, n)| - 1 ==> !Contains(SplitN(s, sep, n)[k], sep)
    ensures |SplitN(s, sep, n)| < n ==> !Contains(SplitN(s, sep, n)[|SplitN(s, sep, n)| - 1], sep)
    decreases n
  {
    if n > 1 && IndexOf(s, sep).Some? {
      var i := IndexOf(s, sep).value;
      SplitNPiecesClean(s[i + |sep|..], sep, n - 1);
      SplitNPiecesCleanStep(s, sep, n, i);
    } else {
      assert SplitN(s, sep, n) == [s];
    }
  }

  /** The piece before the first cut is clean, so the pieces are clean when the pieces after it are. */
  lemma SplitNPiecesCleanStep(s: string, sep: string, n: nat, i: nat)
    requires |sep| > 0 && n > 1 && IndexOf(s, sep) == Some(i)
    requires var tail := SplitN(s[i + |sep|..], sep, n - 1);
      && (forall k :: 0 <= k < |tail| - 1 ==> !Contains(tail[k], sep))
      && (|tail| < n - 1 ==> !Contains(tail[|tail| - 1], sep))
    ensures forall k :: 0 <= k < |SplitN(s, sep, n)| - 1 ==> !Contains(SplitN(s, sep, n)[k], sep)
    ensures |SplitN(s, sep, n)| < n ==> !Contains(SplitN(s, sep, n)[|SplitN(s, sep, n)| - 1], sep)
  {
    var r := SplitN(s, sep, n);
    var head, tail := s[..i], SplitN(s[i + |sep|..], sep, n - 1);
    assert r == [head] + tail;
    assert !Contains(head, sep) by {
      PrefixBeforeFirst(s, sep);
    }
    assert forall k :: 0 < k < |r| ==> r[k] == tail[k - 1];
    assert r[0] == head;
  }

  /**
   * The pieces of split(sep, n) join back to the input; only the last may
   * contain the separator, and it does not when the limit was not reached.
   */
  lemma SplitNParts(s: string, sep: string, n: nat)
    requires |sep| > 0 && n >= 1
    ensures Join(SplitN(s, sep, n), sep) == s
    ensures forall k :: 0 <= k < |SplitN(s, sep, n)| - 1 ==> !Contains(SplitN(s, sep, n)[k], sep)
    ensures |SplitN(s, sep, n)| < n ==> !Contains(SplitN(s, sep, n)[|SplitN(s, sep, n)| - 1], sep)
  {
    SplitNJoinsBack(s, sep, n);
    SplitNPiecesClean(s, sep, n);
  }

  /** A piece ending where the separator first occurs is split off there. */
  lemma SplitNCons(x: string, sep: string, rest: string, n: nat)
    requires |sep| > 0 && n >= 2 && IndexOf(x + sep + rest, sep) == Some(|x|)
    ensures SplitN(x + sep + rest, sep, n) == [x] + SplitN(rest, sep, n - 1)
  {
    var s := x + sep + rest;
    assert s[..|x|] == x;
    assert s[|x| + |sep|..] == rest;
  }

  /** Every piece but the last cuts cleanly. */
  predicate PiecesCutCleanly(xs: seq<string>, sep: string)
    requires |sep| > 0
    decreases |xs|
  {
    |xs| <= 1 || (CutsCleanly(xs[0], sep) && PiecesCutCleanly(xs[1..], sep))
  }

  lemma {:induction false} PiecesCutCleanlyOf(xs: seq<string>, sep: string)
    requires |sep| > 0
    requires forall k :: 0 <= k < |xs| - 1 ==> CutsCleanly(xs[k], sep)
    ensures PiecesCutCleanly(xs, sep)
    decreases |xs|
  {
    if |xs| > 1 {
      forall k | 0 <= k < |xs[1..]| - 1
        ensures CutsCleanly(xs[1..][k], sep)
      {
        assert xs[1..][k] == xs[k + 1];
      }
      PiecesCutCleanlyOf(xs[1..], sep);
    }
  }

  /** The first piece of a joined list is split off when it cuts cleanly. */
  lemma SplitNJoinStep(xs: seq<string>, sep: string, n: nat)
    requires |sep| > 0 && n == |xs| >= 2 && CutsCleanly(xs[0], sep)
    ensures SplitN(Join(xs, sep), sep, n) == [xs[0]] + SplitN(Join(xs[1..], sep), sep, n - 1)
  {
    FirstOccurrenceAfterCleanPiece(xs[0], sep, Join(xs[1..], sep));
    assert Join(xs, sep) == xs[0] + sep + Join(xs[1..], sep);
    SplitNCons(xs[0], sep, Join(xs[1..], sep), n);
  }

  /** When the tail splits back into its pieces, so does the whole list. */
  lemma SplitNJoinStepBack(xs: seq<string>, sep: string, n: nat)
    requires |sep| > 0 && n == |xs| >= 2 && CutsCleanly(xs[0], sep)
    requires SplitN(Join(xs[1..], sep), sep, n - 1) == xs[1..]
    ensures SplitN(Join(xs, sep), sep, n) == xs
  {
    SplitNJoinStep(xs, sep, n);
    assert xs == [xs[0]] + xs[1..];
  }

  lemma {:induction false} SplitNJoinPieces(xs: seq<string>, sep: string, n: nat)
    requires |sep| > 0 && n == |xs| >= 1 && PiecesCutCleanly(xs, sep)
    ensures SplitN(Join(xs, sep), sep, n) == xs
    decreases n
  {
    if n == 1 {
      assert xs == [xs[0]];
    } else {
      var rest := xs[1..];
      assert PiecesCutCleanly(rest, sep);
      SplitNJoinPieces(rest, sep, n - 1);
      SplitNJoinStepBack(xs, sep, n);
    }
  }

  /** Splitting a joined list at its first n-1 separators gives the list back. */
  lemma SplitNJoin(xs: seq<string>, sep: string)
    requires |sep| > 0 && |xs| >= 1
    requires forall k :: 0 <= k < |xs| - 1 ==> CutsCleanly(xs[k], sep)
    ensures SplitN(Join(xs, sep), sep, |xs|) == xs
  {
    PiecesCutCleanlyOf(xs, sep);
    SplitNJoinPieces(xs, sep, |xs|);
  }

  /** Splitting at every occurrence of a literal separator, keeping empty pieces. */
  function SplitAll(s: string, sep: string): (r: seq<string>)
    requires |sep| > 0
    ensures |r| >= 1
    ensures Join(r, sep) == s
    ensures forall k :: 0 <= k < |r| ==> !Contains(r[k], sep)
    decreases |s|
  {
    match IndexOf(s, sep)
    case None => [s]
    case Some(i) =>
      var tail := SplitAll(s[i + |sep|..], sep);
      PrefixBeforeFirst(s, sep);
      JoinCons(s[..i], tail, sep);
      [s[..i]] + tail
  }

  lemma {:induction false} SplitAllJoin(xs: seq<string>, sep: string)
    requires |sep| > 0 && |xs| >= 1
    requires forall k :: 0 <= k < |xs| ==> CutsCleanly(xs[k], sep)
    ensures SplitAll(Join(xs, sep), sep) == xs
  {
    if |xs| == 1 {
      CleanPieceHasNoSeparator(xs[0], sep);
    } else {
      var rest := Join(xs[1..], sep);
      FirstOccurrenceAfterCleanPiece(xs[0], sep, rest);
      var s := xs[0] + sep + rest;
      assert s[..|xs[0]|] == xs[0];
      assert s[|xs[0]| + |sep|..] == rest;
      SplitAllJoin(xs[1..], sep);
    }
  }

  /** Drops the empty strings at the end of a list. */
  function DropTrailingEmpty(xs: seq<string>): (r: seq<string>)
    ensures |r| <= |xs| && r == xs[..|r|]
    ensures r == [] || r[|r| - 1] != ""
    ensures forall k :: |r| <= k < |xs| ==> xs[k] == ""
  {
    if xs != [] && xs[|xs| - 1] == "" then DropTrailingEmpty(xs[..|xs| - 1]) else xs
  }

  /**
   * String.split(sep) with the default limit 0: a string without the
   * separator comes back whole; otherwise trailing empty pieces are dropped.
   */
  function Split(s: string, sep: string): (r: seq<string>)
    requires |sep| > 0
    ensures forall k :: 0 <= k < |r| ==> !Contains(r[k], sep)
    ensures IndexOf(s, sep).None? ==> r == [s]
    ensures IndexOf(s, sep).Some? ==> |r| <= |SplitAll(s, sep)| && r == SplitAll(s, sep)[..|r|]
    ensures IndexOf(s, sep).Some? ==> r == [] || r[|r| - 1] != ""
    ensures IndexOf(s, sep).Some? ==> forall k :: |r| <= k < |SplitAll(s, sep)| ==> SplitAll(s, sep)[k] == ""
  {
    if IndexOf(s, sep).None? then [s] else DropTrailingEmpty(SplitAll(s, sep))
  }

  /** Splitting a joined list whose last piece is not empty gives the list back. */
  lemma SplitJoin(xs: seq<string>, sep: string)
    requires |sep| > 0 && |xs| >= 1 && xs[|xs| - 1] != ""
    requires forall k :: 0 <= k < |xs| ==> CutsCleanly(xs[k], sep)
    ensures Split(Join(xs, sep), sep) == xs
  {
    SplitAllJoin(xs, sep);
  }

  /** Case-insensitive equality restricted to ASCII letters. */
  function ToLowerAscii(c: char): char {
    if 'A' <= c <= 'Z' then (c as int + 32) as char else c
  }

  /** String.equalsIgnoreCase, with case folding for ASCII letters only. */
  predicate EqualsIgnoreCase(a: string, b: string) {
    |a| == |b| && forall i :: 0 <= i < |a| ==> ToLowerAscii(a[i]) == ToLowerAscii(b[i])
  }

  /** Java's `"" + x` for a possibly-null string: null prints as "null". */
  function Shown(s: Option<string>): string {
    match s
    case Some(v) => v
    case None => "null"
  }

  /** The decimal digit for 0..9. */
  function DigitChar(d: int): char
    requires 0 <= d < 10
  {
    ('0' as int + d) as char
  }

  /** `"" + n` for a Java long: its decimal notation. */
  function Decimal(n: int): string
    decreases if n < 0 then 1 - n else n
  {
    if n < 0 then "-" + Decimal(-n)
    else if n < 10 then [DigitChar(n)]
    else Decimal(n / 10) + [DigitChar(n % 10)]
  }
}
