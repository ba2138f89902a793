/** The string operations of JavaScript that the application relies on,
    restricted to what the model needs: ASCII case mapping, `includes`,
    `indexOf`, `split`/`join`, `trim` and `charAt(0)`. */
module Text {
  import opened Common

  // ---------------------------------------------------------------------
  // Case mapping (ASCII range only)

  predicate IsUpperAscii(c: char) {
    'A' <= c <= 'Z'
  }

  predicate IsLowerAscii(c: char) {
    'a' <= c <= 'z'
  }

  function LowerChar(c: char): (r: char)
    ensures !IsUpperAscii(r)
    ensures IsUpperAscii(c) ==> r as int == c as int + 32
    ensures !IsUpperAscii(c) ==> r == c
  {
    if IsUpperAscii(c) then (c as int + 32) as char else c
  }

  function UpperChar(c: char): (r: char)
    ensures !IsLowerAscii(r)
    ensures IsLowerAscii(c) ==> r as int == c as int - 32
    ensures !IsLowerAscii(c) ==> r == c
  {
    if IsLowerAscii(c) then (c as int - 32) as char else c
  }

  /** `s.toLowerCase()` on the ASCII range. */
  function Lower(s: string): (r: string)
    ensures |r| == |s|
    ensures forall i :: 0 <= i < |s| ==> r[i] == LowerChar(s[i])
  {
    seq(|s|, i requires 0 <= i < |s| => LowerChar(s[i]))
  }

  /** `s.toUpperCase()` on the ASCII range. */
  function Upper(s: string): (r: string)
    ensures |r| == |s|
    ensures forall i :: 0 <= i < |s| ==> r[i] == UpperChar(s[i])
  {
    seq(|s|, i requires 0 <= i < |s| => UpperChar(s[i]))
  }

  predicate HasNoUpper(s: string) {
    forall i :: 0 <= i < |s| ==> !IsUpperAscii(s[i])
  }

  lemma LowerFixesLowercase(s: string)
    requires HasNoUpper(s)
    ensures Lower(s) == s
  {
  }

  lemma LowerIdempotent(s: string)
    ensures Lower(Lower(s)) == Lower(s)
  {
    LowerFixesLowercase(Lower(s));
  }

  // ---------------------------------------------------------------------
  // Substrings: `hay.includes(needle)`

  /** `needle` occurs in `hay` starting at position `i`. */
  predicate OccursAt(hay: string, needle: string, i: int) {
    0 <= i && i + |needle| <= |hay| && hay[i..i + |needle|] == needle
  }

  /** `needle` occurs nowhere in `hay`. */
  ghost predicate NoOccurrence(hay: string, needle: string) {
    forall j :: !OccursAt(hay, needle, j)
  }

  /** Characters `k..` of `needle` match `hay` from position `i + k` on. */
  predicate MatchFrom(hay: string, needle: string, i: nat, k: nat)
    requires i + |needle| <= |hay|
    decreases |needle| - k
  {
    if k >= |needle| then true
    else if hay[i + k] != needle[k] then false
    else MatchFrom(hay, needle, i, k + 1)
  }

  /** Some occurrence of `needle` in `hay` starts at position `i` or later. */
  predicate ContainsFrom(hay: string, needle: string, i: nat)
    decreases |hay| - i
  {
    if i + |needle| > |hay| then false
    else if MatchFrom(hay, needle, i, 0) then true
    else ContainsFrom(hay, needle, i + 1)
  }

  /** `hay.includes(needle)`, computed by scanning left to right. */
  predicate Contains(hay: string, needle: string) {
    ContainsFrom(hay, needle, 0)
  }

  lemma {:induction false} MatchFromMeansSlice(hay: string, needle: string, i: nat, k: nat)
    requires i + |needle| <= |hay|
    requires k <= |needle|
    ensures MatchFrom(hay, needle, i, k) <==> hay[i + k..i + |needle|] == needle[k..]
    decreases |needle| - k
  {
    if k < |needle| {
      MatchFromMeansSlice(hay, needle, i, k + 1);
      assert hay[i + k..i + |needle|] == [hay[i + k]] + hay[i + k + 1..i + |needle|];
      assert needle[k..] == [needle[k]] + needle[k + 1..];
    }
  }

  lemma {:induction false} ContainsFromMeansOccurrence(hay: string, needle: string, i: nat)
    ensures ContainsFrom(hay, needle, i) <==> exists j :: i <= j && OccursAt(hay, needle, j)
    decreases |hay| - i
  {
    if i + |needle| <= |hay| {
      MatchFromMeansSlice(hay, needle, i, 0);
      assert needle[0..] == needle;
      assert MatchFrom(hay, needle, i, 0) <==> OccursAt(hay, needle, i);
      ContainsFromMeansOccurrence(hay, needle, i + 1);
      if exists j :: i <= j && OccursAt(hay, needle, j) {
        var j :| i <= j && OccursAt(hay, needle, j);
        if j > i {
          assert i + 1 <= j && OccursAt(hay, needle, j);
        }
      }
    }
  }

  /** The scanning definition of `Contains` agrees with the existence of an occurrence. */
  lemma ContainsMeansOccurrence(hay: string, needle: string)
    ensures Contains(hay, needle) <==> exists j :: OccursAt(hay, needle, j)
  {
    ContainsFromMeansOccurrence(hay, needle, 0);
  }

  lemma ContainsAt(hay: string, needle: string, j: int)
    requires OccursAt(hay, needle, j)
    ensures Contains(hay, needle)
  {
    ContainsMeansOccurrence(hay, needle);
  }

  lemma NotContainsMeansNoOccurrence(hay: string, needle: string)
    ensures !Contains(hay, needle) <==> NoOccurrence(hay, needle)
  {
    ContainsMeansOccurrence(hay, needle);
  }

  /** Every string contains itself. */
  lemma ContainsSelf(s: string)
    ensures Contains(s, s)
  {
    ContainsAt(s, s, 0);
  }

  /** Substring containment is transitive. */
  lemma ContainsTransitive(a: string, b: string, c: string)
    requires Contains(a, b) && Contains(b, c)
    ensures Contains(a, c)
  {
    ContainsMeansOccurrence(a, b);
    ContainsMeansOccurrence(b, c);
    var i :| OccursAt(a, b, i);
    var j :| OccursAt(b, c, j);
    forall k | 0 <= k < |c| ensures a[i + j + k] == c[k] {
      assert c[k] == b[j..j + |c|][k] == b[j + k];
      assert b[j + k] == a[i..i + |b|][j + k];
    }
    assert a[i + j..i + j + |c|] == c;
    ContainsAt(a, c, i + j);
  }

  /** Lower-casing both sides preserves an occurrence. */
  lemma LowerPreservesContains(a: string, b: string)
    requires Contains(a, b)
    ensures Contains(Lower(a), Lower(b))
  {
    ContainsMeansOccurrence(a, b);
    var i :| OccursAt(a, b, i);
    assert Lower(a)[i..i + |b|] == Lower(b);
    ContainsAt(Lower(a), Lower(b), i);
  }

  /** A needle with a character the haystack lacks is not a substring of it. */
  lemma MissingCharNotContained(hay: string, needle: string, k: nat)
    requires k < |needle| && needle[k] !in hay
    ensures !Contains(hay, needle)
  {
    forall j | 0 <= j && j + |needle| <= |hay| ensures !OccursAt(hay, needle, j) {
      assert hay[j..j + |needle|][k] == hay[j + k];
    }
    NotContainsMeansNoOccurrence(hay, needle);
  }

  // ---------------------------------------------------------------------
  // `indexOf`, `split` and `join`

  lemma OccursAtTail(s: string, sep: string, j: int)
    requires |s| > 0 && 0 <= j
    ensures OccursAt(s[1..], sep, j) <==> OccursAt(s, sep, j + 1)
  {
    if 0 <= j && j + |sep| <= |s| - 1 {
      assert s[1..][j..j + |sep|] == s[j + 1..j + 1 + |sep|];
    }
  }

  /** `s.indexOf(sep)`: the first position at which `sep` occurs, if any. */
  function IndexOf(s: string, sep: string): (r: Option<nat>)
    requires |sep| > 0
    ensures r.Some? ==> OccursAt(s, sep, r.value)
    ensures r.Some? ==> forall j :: 0 <= j < r.value ==> !OccursAt(s, sep, j)
    ensures r.None? <==> NoOccurrence(s, sep)
    decreases |s|
  {
    if |s| < |sep| then None
    else if s[..|sep|] == sep then Some(0)
    else match IndexOf(s[1..], sep)
      case None => (
        assert forall j :: 1 <= j ==> !OccursAt(s, sep, j) by {
          forall j | 1 <= j ensures !OccursAt(s, sep, j) {
            OccursAtTail(s, sep, j - 1);
          }
        }
        None)
      case Some(j) => (
        OccursAtTail(s, sep, j);
        assert forall k :: 1 <= k <= j ==> !OccursAt(s, sep, k) by {
          forall k | 1 <= k <= j ensures !OccursAt(s, sep, k) {
            OccursAtTail(s, sep, k - 1);
          }
        }
        Some(j + 1))
  }

  /** The first occurrence of `sep` in `s` is at position `i`. */
  lemma IndexOfIs(s: string, sep: string, i: nat)
    requires |sep| > 0
    requires OccursAt(s, sep, i)
    requires forall j :: 0 <= j < i ==> !OccursAt(s, sep, j)
    ensures IndexOf(s, sep) == Some(i)
  {
    var r := IndexOf(s, sep);
    assert r.Some?;
    assert !(r.value < i) && !(i < r.value);
  }

  /** `pieces.join(sep)`. */
  /** The total length of the pieces. */
  function TotalLength(pieces: seq<string>): nat
    decreases |pieces|
  {
    if |pieces| == 0 then 0 else |pieces[0]| + TotalLength(pieces[1..])
  }

  /** `pieces.join(sep)`: the pieces with one separator between each two;
      no pieces give "". */
  function Join(pieces: seq<string>, sep: string): (r: string)
    ensures |pieces| == 0 ==> r == ""
    ensures |pieces| == 1 ==> r == pieces[0]
    decreases |pieces|
  {
    if |pieces| == 0 then ""
    else if |pieces| == 1 then pieces[0]
    else pieces[0] + sep + Join(pieces[1..], sep)
  }

  /** A join of some pieces starts with the first piece. */
  lemma JoinStartsWithFirst(pieces: seq<string>, sep: string)
    requires |pieces| > 0
    ensures var r := Join(pieces, sep); |r| >= |pieces[0]| && r[..|pieces[0]|] == pieces[0]
  {
    if |pieces| > 1 {
      var r := Join(pieces, sep);
      assert r == pieces[0] + (sep + Join(pieces[1..], sep));
    }
  }

  /** A join is as long as its pieces plus one separator between each two. */
  lemma {:induction false} JoinLength(pieces: seq<string>, sep: string)
    requires |pieces| > 0
    ensures |Join(pieces, sep)| == TotalLength(pieces) + (|pieces| - 1) * |sep|
    decreases |pieces|
  {
    if |pieces| > 1 {
      JoinLength(pieces[1..], sep);
      assert (|pieces| - 1) * |sep| == |sep| + (|pieces[1..]| - 1) * |sep|;
    }
  }

  /** `s.split(sep)` for a non-empty separator: the pieces between the
      occurrences of `sep`, scanned left to right. */
  function Split(s: string, sep: string): (r: seq<string>)
    requires |sep| > 0
    ensures |r| >= 1
    ensures forall k :: 0 <= k < |r| ==> NoOccurrence(r[k], sep)
    decreases |s|
  {
    match IndexOf(s, sep)
    case None => [s]
    case Some(i) => (
      assert NoOccurrence(s[..i], sep) by {
        forall j | 0 <= j && j + |sep| <= i ensures !OccursAt(s[..i], sep, j) {
          assert !OccursAt(s, sep, j);
          assert s[..i][j..j + |sep|] == s[j..j + |sep|];
        }
      }
      [s[..i]] + Split(s[i + |sep|..], sep))
  }

  /** Joining the pieces of a split with the same separator gives back the input. */
  lemma {:induction false} JoinSplit(s: string, sep: string)
    requires |sep| > 0
    ensures Join(Split(s, sep), sep) == s
    decreases |s|
  {
    match IndexOf(s, sep)
    case None =>
    case Some(i) =>
      var rest := s[i + |sep|..];
      var tail := Split(rest, sep);
      assert Join(Split(s, sep), sep) == s[..i] + sep + Join(tail, sep) by {
        var pieces := Split(s, sep);
        assert pieces == [s[..i]] + tail;
        assert pieces[1..] == tail;
      }
      JoinSplit(rest, sep);
      assert s == s[..i] + sep + rest by {
        assert s[i..i + |sep|] == sep;
      }
  }

  /** Splitting on a separator that does not occur gives the whole string. */
  lemma SplitWithoutSeparator(s: string, sep: string)
    requires |sep| > 0
    requires NoOccurrence(s, sep)
    ensures Split(s, sep) == [s]
  {
  }

  /** The first piece of a split is the text before the first occurrence. */
  lemma SplitFirstPiece(s: string, sep: string, i: nat)
    requires |sep| > 0
    requires OccursAt(s, sep, i)
    requires forall j :: 0 <= j < i ==> !OccursAt(s, sep, j)
    ensures Split(s, sep)[0] == s[..i]
    ensures |Split(s, sep)| >= 2
    ensures Split(s, sep)[1..] == Split(s[i + |sep|..], sep)
  {
    IndexOfIs(s, sep, i);
    var rest := Split(s[i + |sep|..], sep);
    var r := Split(s, sep);
    assert r == [s[..i]] + rest;
    assert r[1..] == rest;
  }

  /** Without a character of the separator, `s` has no occurrence of it. */
  lemma NoOccurrenceWithoutChar(s: string, sep: string)
    requires |sep| > 0
    requires forall k :: 0 <= k < |s| ==> s[k] != sep[0]
    ensures NoOccurrence(s, sep)
  {
    forall j | 0 <= j && j + |sep| <= |s| ensures !OccursAt(s, sep, j) {
      assert s[j..j + |sep|][0] == s[j];
    }
  }

  /** Splitting a string without the separator's first character gives
      the whole string. */
  lemma SplitWithoutChar(s: string, sep: string)
    requires |sep| > 0 && sep[0] !in s
    ensures Split(s, sep) == [s]
  {
    NoOccurrenceWithoutChar(s, sep);
  }

  /** When the text before a separator lacks its first character, that text
      is the first piece and the rest is split on its own. */
  lemma SplitLeading(a: string, sep: string, t: string)
    requires |sep| > 0 && sep[0] !in a
    ensures Split(a + sep + t, sep)[0] == a
    ensures Split(a + sep + t, sep)[1..] == Split(t, sep)
  {
    var s := a + sep + t;
    assert OccursAt(s, sep, |a|) by { assert s[|a|..|a| + |sep|] == sep; }
    forall j | 0 <= j < |a| ensures !OccursAt(s, sep, j) {
      assert s[j] == a[j];
      if j + |sep| <= |s| {
        assert s[j..j + |sep|][0] == s[j];
      }
    }
    SplitFirstPiece(s, sep, |a|);
    assert s[..|a|] == a;
    assert s[|a| + |sep|..] == t;
  }

  /** Joining with one more piece at the end adds a separator and that piece. */
  lemma {:induction false} JoinSnoc(pieces: seq<string>, x: string, sep: string)
    requires |pieces| >= 1
    ensures Join(pieces + [x], sep) == Join(pieces, sep) + sep + x
    decreases |pieces|
  {
    if |pieces| == 1 {
      assert pieces + [x] == [pieces[0], x];
      assert (pieces + [x])[1..] == [x];
    } else {
      assert (pieces + [x])[1..] == pieces[1..] + [x];
      JoinSnoc(pieces[1..], x, sep);
    }
  }

  /** `ext` is the extension of `fileName` as `split('.').pop()` finds it:
      a dot-free suffix of the name that follows its last dot, or the whole
      name when it has no dot. */
  ghost predicate IsExtension(ext: string, fileName: string) {
    && NoOccurrence(ext, ".")
    && |ext| <= |fileName| && fileName[|fileName| - |ext|..] == ext
    && (NoOccurrence(fileName, ".") ==> ext == fileName)
    && (!NoOccurrence(fileName, ".") ==> OccursAt(fileName, ".", |fileName| - |ext| - 1))
  }

  /** `s.split(sep).pop()`: the text after the last occurrence of `sep`,
      or all of `s` when `sep` does not occur. */
  function AfterLast(s: string, sep: string): (r: string)
    requires |sep| > 0
    ensures NoOccurrence(r, sep)
    ensures |r| <= |s| && r == s[|s| - |r|..]
    ensures NoOccurrence(s, sep) ==> r == s
    ensures !NoOccurrence(s, sep) ==> |r| + |sep| <= |s| && OccursAt(s, sep, |s| - |r| - |sep|)
  {
    var pieces := Split(s, sep);
    if |pieces| == 1 then
      OnePieceIsWhole(s, sep);
      pieces[0]
    else
      LastPieceFollowsSeparator(s, sep);
      pieces[|pieces| - 1]
  }

  /** A split into one piece returns the whole text. */
  lemma OnePieceIsWhole(s: string, sep: string)
    requires |sep| > 0 && |Split(s, sep)| == 1
    ensures Split(s, sep)[0] == s
  {
    JoinSplit(s, sep);
  }

  /** With two or more pieces, the last one is a suffix of the text that
      directly follows an occurrence of the separator. */
  lemma LastPieceFollowsSeparator(s: string, sep: string)
    requires |sep| > 0 && |Split(s, sep)| >= 2
    ensures var pieces := Split(s, sep);
            var r := pieces[|pieces| - 1];
            |r| + |sep| <= |s| && r == s[|s| - |r|..] && OccursAt(s, sep, |s| - |r| - |sep|)
  {
    var pieces := Split(s, sep);
    var n := |pieces|;
    JoinSplit(s, sep);
    assert pieces == pieces[..n - 1] + [pieces[n - 1]];
    JoinSnoc(pieces[..n - 1], pieces[n - 1], sep);
    var front := Join(pieces[..n - 1], sep);
    assert s == front + sep + pieces[n - 1];
    assert s[|front|..|front| + |sep|] == sep;
  }

  /** No occurrence of a one-character needle means no such character. */
  lemma NoOccurrenceOfChar(s: string, c: char)
    requires NoOccurrence(s, [c])
    ensures forall k :: 0 <= k < |s| ==> s[k] != c
  {
    forall k | 0 <= k < |s| ensures s[k] != c {
      assert !OccursAt(s, [c], k);
      assert s[k..k + 1] == [s[k]];
    }
  }

  /** When the last piece after a one-character separator holds no such
      character, `AfterLast` returns exactly that piece. */
  lemma AfterLastChar(front: string, c: char, e: string)
    requires forall k :: 0 <= k < |e| ==> e[k] != c
    ensures AfterLast(front + [c] + e, [c]) == e
  {
    var s := front + [c] + e;
    var r := AfterLast(s, [c]);
    assert OccursAt(s, [c], |front|) by { assert s[|front|..|front| + 1] == [c]; }
    NoOccurrenceOfChar(r, c);
    assert forall k :: 0 <= k < |r| ==> r[k] == s[|s| - |r| + k];
    assert forall k :: 0 <= k < |e| ==> s[|front| + 1 + k] == e[k];
    assert s[|front|] == c;
    assert |r| == |e| by {
      var i := |s| - |r| - 1;
      assert OccursAt(s, [c], i) ==> s[i] == c by {
        if OccursAt(s, [c], i) { assert s[i..i + 1][0] == s[i]; }
      }
    }
    assert r == s[|s| - |e|..] == e;
  }

  // ---------------------------------------------------------------------
  // Whitespace and `trim`

  /** The characters `String.prototype.trim` removes: the WhiteSpace and
      LineTerminator code points of ECMAScript. */
  predicate IsSpace(c: char) {
    || c == '\t' || c == '\n' || c == '\U{000B}' || c == '\U{000C}' || c == '\r' || c == ' '
    || c == '\U{00A0}' || c == '\U{1680}' || ('\U{2000}' <= c <= '\U{200A}')
    || c == '\U{2028}' || c == '\U{2029}' || c == '\U{202F}' || c == '\U{205F}'
    || c == '\U{3000}' || c == '\U{FEFF}'
  }

  predicate IsBlank(s: string) {
    forall i :: 0 <= i < |s| ==> IsSpace(s[i])
  }

  /** Every character of `s` from `lo` up to `hi` is white space. */
  predicate BlankBetween(s: string, lo: nat, hi: nat)
    requires hi <= |s|
  {
    forall k :: lo <= k < hi ==> IsSpace(s[k])
  }

  function TrimStart(s: string): (r: string)
    ensures |r| <= |s| && r == s[|s| - |r|..]
    ensures r == "" || !IsSpace(r[0])
    decreases |s|
  {
    if |s| > 0 && IsSpace(s[0]) then TrimStart(s[1..]) else s
  }

  /** What `TrimStart` drops is white space. */
  lemma {:induction false} TrimStartDropsBlank(s: string)
    ensures BlankBetween(s, 0, |s| - |TrimStart(s)|)
    decreases |s|
  {
    if |s| > 0 && IsSpace(s[0]) {
      TrimStartDropsBlank(s[1..]);
      BlankShifted(s, s[1..], 1, 0, |s| - 1 - |TrimStart(s)|);
    }
  }

  function TrimEnd(s: string): (r: string)
    ensures |r| <= |s| && r == s[..|r|]
    ensures r == "" || !IsSpace(r[|r| - 1])
    decreases |s|
  {
    if |s| > 0 && IsSpace(s[|s| - 1]) then TrimEnd(s[..|s| - 1]) else s
  }

  /** What `TrimEnd` drops is white space. */
  lemma {:induction false} TrimEndDropsBlank(s: string)
    ensures BlankBetween(s, |TrimEnd(s)|, |s|)
    decreases |s|
  {
    if |s| > 0 && IsSpace(s[|s| - 1]) {
      var front := s[..|s| - 1];
      TrimEndDropsBlank(front);
      forall k | |TrimEnd(s)| <= k < |s|
        ensures IsSpace(s[k])
      {
        if k < |s| - 1 {
          assert s[k] == front[k];
        }
      }
    }
  }

  /** `s.trim()`: `s` without its leading and trailing whitespace. The
      result is the slice of `s` that starts after the leading white space
      (whose length `TrimStart` fixes). */
  function Trim(s: string): (r: string)
    ensures r == "" || (!IsSpace(r[0]) && !IsSpace(r[|r| - 1]))
    ensures var i := |s| - |TrimStart(s)|; i + |r| <= |s| && r == s[i..i + |r|]
  {
    var t := TrimStart(s);
    var r := TrimEnd(t);
    SuffixSlice(s, t, r, |s| - |t|);
    r
  }

  /** What `Trim` drops on either side is white space. */
  lemma TrimDropsBlank(s: string)
    ensures var i := |s| - |TrimStart(s)|;
            BlankBetween(s, 0, i) && BlankBetween(s, i + |Trim(s)|, |s|)
  {
    var t := TrimStart(s);
    TrimStartDropsBlank(s);
    TrimEndDropsBlank(t);
    BlankShifted(s, t, |s| - |t|, |TrimEnd(t)|, |t|);
  }

  /** A prefix `r` of the suffix `t == s[i..]` is the slice of `s` at `i`. */
  lemma SuffixSlice(s: string, t: string, r: string, i: nat)
    requires i <= |s| && t == s[i..] && |r| <= |t| && r == t[..|r|]
    ensures r == s[i..i + |r|]
  {
  }

  /** White space between `lo` and `hi` in the suffix `t == s[i..]` is
      white space between `i + lo` and `i + hi` in `s`. */
  lemma BlankShifted(s: string, t: string, i: nat, lo: nat, hi: nat)
    requires i <= |s| && t == s[i..] && lo <= hi <= |t| && BlankBetween(t, lo, hi)
    ensures BlankBetween(s, i + lo, i + hi)
  {
    forall k | i + lo <= k < i + hi
      ensures IsSpace(s[k])
    {
      assert s[k] == t[k - i];
    }
  }

  /** The trimmed string is empty exactly when the input is all whitespace. */
  lemma TrimEmptyIffBlank(s: string)
    ensures Trim(s) == "" <==> IsBlank(s)
  {
    var t := TrimStart(s);
    TrimDropsBlank(s);
    if Trim(s) != "" {
      assert t[0] == s[|s| - |t|];
    }
  }

  lemma TrimOfTrimmed(s: string)
    requires s == "" || (!IsSpace(s[0]) && !IsSpace(s[|s| - 1]))
    ensures Trim(s) == s
  {
  }

  // ---------------------------------------------------------------------
  // `charAt(0)` and `filter(piece => piece)`

  /** `s.charAt(0)`: the first character, or "" for the empty string. */
  function FirstChar(s: string): (r: string)
    ensures |s| > 0 ==> r == [s[0]]
    ensures |s| == 0 ==> r == ""
  {
    if |s| > 0 then s[..1] else ""
  }

  /** `a` can be obtained from `b` by deleting elements. */
  predicate IsSubsequence<T(==)>(a: seq<T>, b: seq<T>)
    decreases |b|
  {
    if a == [] then true
    else if b == [] then false
    else if a[0] == b[0] then IsSubsequence(a[1..], b[1..])
    else IsSubsequence(a, b[1..])
  }

  /** `pieces.filter(p => p)`: the non-empty pieces, in order, each as
      often as it occurs. */
  function NonEmpty(pieces: seq<string>): (r: seq<string>)
    ensures forall k :: 0 <= k < |r| ==> r[k] != ""
    ensures forall p :: p in r <==> p in pieces && p != ""
    ensures IsSubsequence(r, pieces)
    ensures multiset(r) == multiset(pieces)["" := 0]
    decreases |pieces|
  {
    if |pieces| == 0 then []
    else
      var rest := NonEmpty(pieces[1..]);
      assert multiset(pieces) == multiset([pieces[0]]) + multiset(pieces[1..]) by {
        assert pieces == [pieces[0]] + pieces[1..];
      }
      if pieces[0] == "" then rest
      else [pieces[0]] + rest
  }
}
