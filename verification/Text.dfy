/** The string handling of the Go code: trimming, letter case and splitting into fields. White space
    is the Unicode White_Space property. */
module Text {
  predicate IsSpace(c: char) {
    || '\U{0009}' <= c <= '\U{000d}' || c == ' ' || c == '\U{0085}' || c == '\U{00a0}' || c == '\U{1680}'
    || '\U{2000}' <= c <= '\U{200a}' || c == '\U{2028}' || c == '\U{2029}' || c == '\U{202f}'
    || c == '\U{205f}' || c == '\U{3000}'
  }

  function TrimLeft(s: string): string {
    if s != [] && IsSpace(s[0]) then TrimLeft(s[1..]) else s
  }

  function TrimRight(s: string): string {
    if s != [] && IsSpace(s[|s| - 1]) then TrimRight(s[..|s| - 1]) else s
  }

  /** strings.TrimSpace */
  function Trim(s: string): string {
    TrimRight(TrimLeft(s))
  }

  predicate Trimmed(s: string) {
    s != [] ==> !IsSpace(s[0]) && !IsSpace(s[|s| - 1])
  }

  predicate Blank(s: string) {
    Trim(s) == ""
  }

  lemma {:induction false} TrimLeftStarts(s: string)
    ensures TrimLeft(s) != [] ==> !IsSpace(TrimLeft(s)[0])
  {
    if s != [] && IsSpace(s[0]) {
      TrimLeftStarts(s[1..]);
    }
  }

  lemma {:induction false} TrimRightEnds(s: string)
    ensures var r := TrimRight(s);
      r <= s && (r != [] ==> !IsSpace(r[|r| - 1]))
  {
    if s != [] && IsSpace(s[|s| - 1]) {
      TrimRightEnds(s[..|s| - 1]);
    }
  }

  lemma TrimIsTrimmed(s: string)
    ensures Trimmed(Trim(s))
  {
    TrimLeftStarts(s);
    TrimRightEnds(TrimLeft(s));
  }

  lemma TrimmedStays(s: string)
    requires Trimmed(s)
    ensures Trim(s) == s
  {
  }

  lemma TrimTwice(s: string)
    ensures Trim(Trim(s)) == Trim(s)
  {
    TrimIsTrimmed(s);
    TrimmedStays(Trim(s));
  }

  ghost predicate AllSpace(s: string) {
    forall i :: 0 <= i < |s| ==> IsSpace(s[i])
  }

  lemma {:induction false} TrimLeftMeans(s: string) returns (a: string)
    ensures s == a + TrimLeft(s) && AllSpace(a)
  {
    if s != [] && IsSpace(s[0]) {
      var rest := TrimLeftMeans(s[1..]);
      a := [s[0]] + rest;
    } else {
      a := [];
    }
  }

  lemma {:induction false} TrimRightMeans(s: string) returns (b: string)
    ensures s == TrimRight(s) + b && AllSpace(b)
  {
    if s != [] && IsSpace(s[|s| - 1]) {
      var rest := TrimRightMeans(s[..|s| - 1]);
      b := rest + [s[|s| - 1]];
      assert s == s[..|s| - 1] + [s[|s| - 1]];
    } else {
      b := [];
    }
  }

  /** Trimming takes white space off both ends, all of it and nothing else. */
  lemma TrimMeans(s: string) returns (a: string, b: string)
    ensures s == a + Trim(s) + b && AllSpace(a) && AllSpace(b) && Trimmed(Trim(s))
  {
    a := TrimLeftMeans(s);
    b := TrimRightMeans(TrimLeft(s));
    TrimIsTrimmed(s);
  }

  /** Blank text is white space only. */
  lemma BlankMeans(s: string)
    ensures Blank(s) <==> AllSpace(s)
  {
    var a, b := TrimMeans(s);
    if Trim(s) != "" {
      assert s[|a|] == Trim(s)[0];
    }
  }

  // ---------------------------------------------------------------------------------------
  // Letter case
  // ---------------------------------------------------------------------------------------

  function AsciiLower(c: char): char {
    if 'A' <= c <= 'Z' then c - 'A' + 'a' else c
  }

  function AsciiUpper(c: char): char {
    if 'a' <= c <= 'z' then c - 'a' + 'A' else c
  }

  predicate IsAscii(c: char) {
    c < '\U{0080}'
  }

  /** A mapping of characters to one letter case: mapping twice is mapping once, white space and nothing
      else becomes white space, and it is the known one on ASCII. */
  ghost predicate MapsCase(m: char -> char, ascii: char -> char) {
    forall c :: m(m(c)) == m(c) && (IsSpace(m(c)) <==> IsSpace(c)) && (IsAscii(c) ==> m(c) == ascii(c))
  }

  type LowerMapping = m: char -> char | MapsCase(m, AsciiLower) witness AsciiLower
  type UpperMapping = m: char -> char | MapsCase(m, AsciiUpper) witness AsciiUpper

  /** The mappings of the Unicode version in use: everything here holds of any. */
  const LOWER: LowerMapping
  const UPPER: UpperMapping

  function LowerChar(c: char): (r: char)
    ensures LOWER(r) == r && (IsSpace(r) <==> IsSpace(c)) && (IsAscii(c) ==> r == AsciiLower(c))
  {
    LOWER(c)
  }

  function UpperChar(c: char): (r: char)
    ensures UPPER(r) == r && (IsSpace(r) <==> IsSpace(c)) && (IsAscii(c) ==> r == AsciiUpper(c))
  {
    UPPER(c)
  }

  /** strings.ToLower */
  function Lower(s: string): (r: string)
    ensures |r| == |s|
  {
    seq(|s|, i requires 0 <= i < |s| => LowerChar(s[i]))
  }

  /** strings.ToUpper */
  function Upper(s: string): (r: string)
    ensures |r| == |s|
  {
    seq(|s|, i requires 0 <= i < |s| => UpperChar(s[i]))
  }

  lemma UpperOfTrimmed(s: string)
    requires Trimmed(s)
    ensures Trimmed(Upper(s)) && Upper(Upper(s)) == Upper(s)
  {
  }

  lemma LowerTwice(s: string)
    ensures Lower(Lower(s)) == Lower(s)
  {
  }

  lemma LowerAppend(a: string, b: string)
    ensures Lower(a + b) == Lower(a) + Lower(b)
  {
  }

  // ---------------------------------------------------------------------------------------
  // Fields
  // ---------------------------------------------------------------------------------------

  /** The number of leading characters that are no separator. */
  function WordLength(s: string, sep: char -> bool): (n: nat)
    ensures n <= |s|
    ensures forall i :: 0 <= i < n ==> !sep(s[i])
    ensures n < |s| ==> sep(s[n])
  {
    if s == [] || sep(s[0]) then 0 else 1 + WordLength(s[1..], sep)
  }

  /** strings.FieldsFunc */
  function Fields(s: string, sep: char -> bool): seq<string>
    decreases |s|
  {
    if s == [] then []
    else if sep(s[0]) then Fields(s[1..], sep)
    else
      var n := WordLength(s, sep);
      [s[..n]] + Fields(s[n..], sep)
  }

  lemma {:induction false} WordLengthOf(a: string, b: string, sep: char -> bool)
    requires a != [] && !sep(a[0])
    ensures WordLength(a + b, sep) == if WordLength(a, sep) == |a| then |a| + WordLength(b, sep) else WordLength(a, sep)
  {
    assert (a + b)[1..] == a[1..] + b;
    if a[1..] == [] {
      assert a[1..] + b == b;
    } else if !sep(a[1]) {
      WordLengthOf(a[1..], b, sep);
    }
  }

  /** What splitting means, together with `Fields("") == []` and `OneField`: a separator separates. */
  lemma {:induction false} FieldsSplit(a: string, c: char, b: string, sep: char -> bool)
    requires sep(c)
    ensures Fields(a + [c] + b, sep) == Fields(a, sep) + Fields(b, sep)
    decreases |a|
  {
    var s := a + [c] + b;
    if a == [] {
      assert s[1..] == b;
    } else if sep(a[0]) {
      assert s[1..] == a[1..] + [c] + b;
      FieldsSplit(a[1..], c, b, sep);
    } else {
      var n := WordLength(a, sep);
      assert s == a + ([c] + b);
      WordLengthOf(a, [c] + b, sep);
      assert s[..n] == a[..n] && s[n..] == a[n..] + [c] + b;
      FieldsSplit(a[n..], c, b, sep);
      assert [a[..n]] + (Fields(a[n..], sep) + Fields(b, sep)) == [a[..n]] + Fields(a[n..], sep) + Fields(b, sep);
    }
  }

  /** A text without separators is one field. */
  lemma OneField(s: string, sep: char -> bool)
    requires s != "" && forall i :: 0 <= i < |s| ==> !sep(s[i])
    ensures Fields(s, sep) == [s]
  {
    var n := WordLength(s, sep);
    assert s[..n] == s && s[n..] == [];
  }

  /** White space at the ends makes no difference. */
  lemma {:induction false} FieldsOfTrimLeft(s: string)
    ensures Fields(Lower(TrimLeft(s)), IsSpace) == Fields(Lower(s), IsSpace)
  {
    if s != [] && IsSpace(s[0]) {
      assert Lower(s)[1..] == Lower(s[1..]);
      FieldsOfTrimLeft(s[1..]);
    }
  }

  lemma {:induction false} FieldsOfTrimRight(s: string)
    ensures Fields(Lower(TrimRight(s)), IsSpace) == Fields(Lower(s), IsSpace)
  {
    if s != [] && IsSpace(s[|s| - 1]) {
      var a, c := Lower(s[..|s| - 1]), Lower(s)[|s| - 1];
      FieldsOfTrimRight(s[..|s| - 1]);
      FieldsSplit(a, c, [], IsSpace);
      assert Lower(s) == a + [c] + [];
    }
  }

  lemma FieldsOfTrim(s: string)
    ensures Fields(Lower(Trim(s)), IsSpace) == Fields(Lower(s), IsSpace)
  {
    FieldsOfTrimLeft(s);
    FieldsOfTrimRight(TrimLeft(s));
  }

  /** strings.Join */
  function Join(words: seq<string>, glue: string): string {
    if words == [] then ""
    else if |words| == 1 then words[0]
    else words[0] + glue + Join(words[1..], glue)
  }

  ghost predicate IsWord(w: string, sep: char -> bool) {
    w != [] && Lower(w) == w && forall i :: 0 <= i < |w| ==> !sep(w[i])
  }

  ghost predicate AreWords(words: seq<string>, sep: char -> bool) {
    forall i :: 0 <= i < |words| ==> IsWord(words[i], sep)
  }

  lemma {:induction false} FieldsAreWords(s: string, sep: char -> bool)
    requires Lower(s) == s
    ensures AreWords(Fields(s, sep), sep)
    decreases |s|
  {
    if s == [] {
    } else if sep(s[0]) {
      LowerSlice(s, 1, |s|);
      FieldsAreWords(s[1..], sep);
    } else {
      var n := WordLength(s, sep);
      LowerSlice(s, 0, n);
      LowerSlice(s, n, |s|);
      FieldsAreWords(s[n..], sep);
    }
  }

  lemma LowerSlice(s: string, lo: nat, hi: nat)
    requires lo <= hi <= |s| && Lower(s) == s
    ensures Lower(s[lo..hi]) == s[lo..hi]
  {
    forall i | 0 <= i < hi - lo
      ensures LowerChar(s[lo..hi][i]) == s[lo..hi][i]
    {
      assert Lower(s)[lo + i] == s[lo + i];
    }
  }

  lemma {:induction false} FieldsOfJoin(words: seq<string>, sep: char -> bool, glue: char)
    requires AreWords(words, sep) && sep(glue)
    ensures Fields(Join(words, [glue]), sep) == words
  {
    if words != [] {
      var w, rest := words[0], words[1..];
      var s := Join(words, [glue]);
      FieldsOfJoin(rest, sep, glue);
      if rest == [] {
        FirstField(w, [], sep);
        assert s == w + [];
      } else {
        var tail := [glue] + Join(rest, [glue]);
        assert s == w + tail;
        FirstField(w, tail, sep);
        assert tail[1..] == Join(rest, [glue]);
      }
    }
  }

  lemma FirstField(w: string, tail: string, sep: char -> bool)
    requires IsWord(w, sep) && (tail != [] ==> sep(tail[0]))
    ensures Fields(w + tail, sep) == [w] + Fields(tail, sep)
  {
    var s := w + tail;
    var n := WordLength(s, sep);
    assert forall i :: 0 <= i < |w| ==> s[i] == w[i];
    assert tail != [] ==> s[|w|] == tail[0];
    assert n == |w|;
    assert s[..n] == w && s[n..] == tail;
  }

  /** Trim, lower, split, join: the shape of both loose-text and payment-cycle normalisation. */
  function Canonical(s: string, sep: char -> bool, glue: char): string {
    Join(Fields(Lower(Trim(s)), sep), [glue])
  }

  ghost predicate Splits(sep: char -> bool, glue: char) {
    sep(glue) && LowerChar(glue) == glue && forall c :: IsSpace(c) ==> sep(c)
  }

  lemma {:induction false} JoinShape(words: seq<string>, sep: char -> bool, glue: char)
    requires AreWords(words, sep) && Splits(sep, glue)
    ensures var s := Join(words, [glue]);
      && Lower(s) == s
      && (words == [] <==> s == [])
      && (s != [] ==> !sep(s[0]) && !sep(s[|s| - 1]))
  {
    if |words| > 1 {
      JoinShape(words[1..], sep, glue);
      LowerAppend(words[0], [glue]);
      LowerAppend(words[0] + [glue], Join(words[1..], [glue]));
    }
  }

  lemma CanonicalTwice(s: string, sep: char -> bool, glue: char)
    requires Splits(sep, glue)
    ensures var c := Canonical(s, sep, glue);
      && Canonical(c, sep, glue) == c && Trimmed(c)
      && Fields(c, sep) == Fields(Lower(Trim(s)), sep)
  {
    var words := Fields(Lower(Trim(s)), sep);
    var c := Canonical(s, sep, glue);
    LowerTwice(Trim(s));
    FieldsAreWords(Lower(Trim(s)), sep);
    JoinShape(words, sep, glue);
    TrimmedStays(c);
    FieldsOfJoin(words, sep, glue);
  }
}
