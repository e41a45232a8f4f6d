/** Text helpers shared by the model: whitespace trimming (JavaScript `trim`,
    Python `strip`), splitting and joining, prefix and suffix tests, ASCII case
    mapping, and decimal rendering of integers. */
module Strings {

  /** The whitespace both `String.prototype.trim` and `str.strip` remove
      (the ASCII part of their Unicode whitespace sets). */
  const Spaces: set<char> := {' ', '\t', '\n', '\r', '\U{000B}', '\U{000C}'}

  predicate IsSpace(c: char) {
    c in Spaces
  }

  predicate AllSpace(s: string) {
    forall i :: 0 <= i < |s| ==> IsSpace(s[i])
  }

  /** The index of the first non-whitespace character of `s` at or after `i`,
      or `|s|` when there is none. */
  function SkipSpaces(s: string, i: nat): (j: nat)
    requires i <= |s|
    ensures i <= j <= |s|
    ensures forall k :: i <= k < j ==> IsSpace(s[k])
    ensures j == |s| || !IsSpace(s[j])
    decreases |s| - i
  {
    if i == |s| || !IsSpace(s[i]) then i else SkipSpaces(s, i + 1)
  }

  /** The index just after the last non-whitespace character of `s` before
      `j`, or 0 when there is none. */
  function SkipSpacesBack(s: string, j: nat): (i: nat)
    requires j <= |s|
    ensures i <= j
    ensures forall k :: i <= k < j ==> IsSpace(s[k])
    ensures i == 0 || !IsSpace(s[i - 1])
  {
    if j == 0 || !IsSpace(s[j - 1]) then j else SkipSpacesBack(s, j - 1)
  }

  /** `s` with its leading whitespace removed. */
  function TrimStart(s: string): (r: string)
    ensures |r| <= |s| && r == s[|s| - |r|..]
    ensures forall k :: 0 <= k < |s| - |r| ==> IsSpace(s[k])
    ensures r == [] || !IsSpace(r[0])
  {
    s[SkipSpaces(s, 0)..]
  }

  /** Neither end of `s` is whitespace. */
  predicate Unpadded(s: string) {
    s == [] || (!IsSpace(s[0]) && !IsSpace(s[|s| - 1]))
  }

  /** `s` with whitespace removed from both ends: JavaScript `trim()`, Python `strip()`. */
  function Trim(s: string): (r: string)
    ensures |r| <= |s|
    ensures Unpadded(r)
    ensures r == [] <==> AllSpace(s)
  {
    var a := SkipSpaces(s, 0);
    var b := SkipSpacesBack(s, |s|);
    if a == |s| then ""
    else
      assert a < b;
      s[a..b]
  }

  /** The trim of `s` is the stretch of `s` between its leading and its
      trailing whitespace. */
  lemma TrimIsMiddle(s: string)
    requires !AllSpace(s)
    ensures var a := SkipSpaces(s, 0);
      a < |s| && Trim(s) == s[a..SkipSpacesBack(s, |s|)]
  {
  }

  /** A string that trims to nothing. */
  predicate IsBlank(s: string) {
    Trim(s) == []
  }

  /** Trimming is idempotent. */
  lemma TrimIdempotent(s: string)
    ensures Trim(Trim(s)) == Trim(s)
  {
    TrimUnpadded(Trim(s));
  }

  /** A string without surrounding whitespace is its own trim. */
  lemma TrimUnpadded(s: string)
    requires Unpadded(s)
    ensures Trim(s) == s
  {
    if s != [] {
      assert SkipSpaces(s, 0) == 0;
      assert SkipSpacesBack(s, |s|) == |s|;
      assert s[0..|s|] == s;
    }
  }

  /** A string is its own trim exactly when neither end is whitespace. */
  lemma UnpaddedIsTrimmed(s: string)
    ensures Unpadded(s) <==> Trim(s) == s
  {
    if Unpadded(s) {
      TrimUnpadded(s);
    }
  }

  /** Skipping forward over a run of whitespace stops at the first
      non-whitespace character after it. */
  lemma {:induction false} SkipSpacesTo(s: string, i: nat, m: nat)
    requires i <= m < |s|
    requires forall k :: i <= k < m ==> IsSpace(s[k])
    requires !IsSpace(s[m])
    ensures SkipSpaces(s, i) == m
    decreases m - i
  {
    if i < m {
      SkipSpacesTo(s, i + 1, m);
    }
  }

  /** Skipping backward over a run of whitespace stops just after the last
      non-whitespace character before it. */
  lemma {:induction false} SkipSpacesBackTo(s: string, j: nat, m: nat)
    requires 0 < m <= j <= |s|
    requires forall k :: m <= k < j ==> IsSpace(s[k])
    requires !IsSpace(s[m - 1])
    ensures SkipSpacesBack(s, j) == m
    decreases j
  {
    if m < j {
      SkipSpacesBackTo(s, j - 1, m);
    }
  }

  /** Whitespace added around an unpadded string is exactly what trimming removes. */
  lemma TrimPadding(a: string, s: string, b: string)
    requires AllSpace(a) && AllSpace(b)
    requires s != [] && !IsSpace(s[0]) && !IsSpace(s[|s| - 1])
    ensures Trim(a + s + b) == s
  {
    var t := a + s + b;
    assert forall k :: 0 <= k < |a| ==> t[k] == a[k];
    assert forall k :: |a| <= k < |a| + |s| ==> t[k] == s[k - |a|];
    assert forall k :: |a| + |s| <= k < |t| ==> t[k] == b[k - |a| - |s|];
    SkipSpacesTo(t, 0, |a|);
    SkipSpacesBackTo(t, |t|, |a| + |s|);
    assert t[|a|..|a| + |s|] == s;
  }

  /** JavaScript `a || b` and Python `a or b` on strings: `a` unless it is empty. */
  function Or(a: string, b: string): (r: string)
    ensures a != "" ==> r == a
    ensures a == "" ==> r == b
  {
    if a != "" then a else b
  }

  predicate StartsWith(s: string, prefix: string) {
    |prefix| <= |s| && s[..|prefix|] == prefix
  }

  predicate EndsWith(s: string, suffix: string) {
    |suffix| <= |s| && s[|s| - |suffix|..] == suffix
  }

  /** Substring test: Python's `needle in s` on strings. */
  predicate Contains(s: string, needle: string)
    decreases |s|
  {
    StartsWith(s, needle) || (|s| > 0 && Contains(s[1..], needle))
  }

  /** `parts` laid end to end: `"".join(parts)`. */
  function Concat(parts: seq<string>): string {
    if |parts| == 0 then "" else parts[0] + Concat(parts[1..])
  }

  /** Concatenating two runs of parts is concatenating their results. */
  lemma {:induction false} ConcatAppend(a: seq<string>, b: seq<string>)
    ensures Concat(a + b) == Concat(a) + Concat(b)
    decreases |a|
  {
    if |a| == 0 {
      assert a + b == b;
    } else {
      assert (a + b)[0] == a[0];
      assert (a + b)[1..] == a[1..] + b;
      ConcatAppend(a[1..], b);
      assert a[0] + (Concat(a[1..]) + Concat(b)) == (a[0] + Concat(a[1..])) + Concat(b);
    }
  }

  /** The concatenation is empty exactly when every part is. */
  lemma {:induction false} ConcatEmpty(parts: seq<string>)
    ensures Concat(parts) == "" <==> forall i :: 0 <= i < |parts| ==> parts[i] == ""
    decreases |parts|
  {
    if |parts| > 0 {
      ConcatEmpty(parts[1..]);
      assert forall i :: 1 <= i < |parts| ==> parts[i] == parts[1..][i - 1];
    }
  }

  /** `parts` joined with `sep` between neighbours: JavaScript `join`, Python `str.join`. */
  function Join(parts: seq<string>, sep: string): string
  {
    if |parts| == 0 then ""
    else if |parts| == 1 then parts[0]
    else parts[0] + sep + Join(parts[1..], sep)
  }

  /** Splitting on a non-empty separator, scanning left to right and cutting at
      every non-overlapping occurrence: JavaScript `split(sep)`, Python `str.split(sep)`. */
  function SplitOn(s: string, sep: string): (r: seq<string>)
    requires |sep| > 0
    ensures |r| >= 1
    decreases |s|
  {
    if |s| < |sep| then [s]
    else if s[..|sep|] == sep then [""] + SplitOn(s[|sep|..], sep)
    else
      var rest := SplitOn(s[1..], sep);
      [[s[0]] + rest[0]] + rest[1..]
  }

  /** Joining the pieces of a split with the same separator gives back the input. */
  lemma {:induction false} JoinSplit(s: string, sep: string)
    requires |sep| > 0
    ensures Join(SplitOn(s, sep), sep) == s
    decreases |s|
  {
    if |s| < |sep| {
    } else if s[..|sep|] == sep {
      JoinSplit(s[|sep|..], sep);
      JoinSplitCut(s, sep);
    } else {
      JoinSplit(s[1..], sep);
      JoinSplitGlue(s, sep);
    }
  }

  /** The step of `JoinSplit` where the text starts with the separator. */
  lemma JoinSplitCut(s: string, sep: string)
    requires |sep| > 0 && |s| >= |sep| && s[..|sep|] == sep
    requires Join(SplitOn(s[|sep|..], sep), sep) == s[|sep|..]
    ensures Join(SplitOn(s, sep), sep) == s
  {
    var rest := SplitOn(s[|sep|..], sep);
    assert SplitOn(s, sep) == [""] + rest;
    JoinCons("", rest, sep);
    assert "" + sep + s[|sep|..] == s;
  }

  /** The join of a part followed by at least one more part. */
  lemma JoinCons(p: string, ps: seq<string>, sep: string)
    requires |ps| > 0
    ensures Join([p] + ps, sep) == p + sep + Join(ps, sep)
  {
    assert ([p] + ps)[1..] == ps;
  }

  /** The step of `JoinSplit` where the first character is glued to the first piece. */
  lemma JoinSplitGlue(s: string, sep: string)
    requires |sep| > 0 && |s| >= |sep| && s[..|sep|] != sep
    requires Join(SplitOn(s[1..], sep), sep) == s[1..]
    ensures Join(SplitOn(s, sep), sep) == s
  {
    var rest := SplitOn(s[1..], sep);
    assert SplitOn(s, sep) == [[s[0]] + rest[0]] + rest[1..];
    JoinGlue(s[0], rest, sep);
    assert s == [s[0]] + s[1..];
  }

  /** Prefixing the first part with a character prefixes the join with it. */
  lemma JoinGlue(x: char, parts: seq<string>, sep: string)
    requires |parts| > 0
    ensures Join([[x] + parts[0]] + parts[1..], sep) == [x] + Join(parts, sep)
  {
    var r := [[x] + parts[0]] + parts[1..];
    assert r[0] == [x] + parts[0];
    if |parts| > 1 {
      assert r[1..] == parts[1..];
      var j := Join(parts[1..], sep);
      assert Join(r, sep) == ([x] + parts[0]) + sep + j;
      assert Join(parts, sep) == parts[0] + sep + j;
    }
  }

  /** Number of occurrences of `c` in `s`. */
  function CountChar(s: string, c: char): nat
  {
    if |s| == 0 then 0 else (if s[0] == c then 1 else 0) + CountChar(s[1..], c)
  }

  /** Splitting on one character yields one more piece than there are occurrences. */
  lemma {:induction false} SplitCount(s: string, c: char)
    ensures |SplitOn(s, [c])| == CountChar(s, c) + 1
    decreases |s|
  {
    if |s| >= 1 {
      SplitCount(s[1..], c);
      assert s[..1] == [s[0]];
    }
  }

  /** A piece that does not contain the separator's first character, followed by
      more text, stays glued to the first piece of that text. */
  lemma {:induction false} SplitOnFreePrefix(p: string, t: string, sep: string)
    requires |sep| > 0
    requires sep[0] !in p
    ensures SplitOn(p + t, sep) == [p + SplitOn(t, sep)[0]] + SplitOn(t, sep)[1..]
    decreases |p|
  {
    var r := SplitOn(t, sep);
    if p != [] {
      var s := p + t;
      assert s[0] == p[0];
      if |s| < |sep| {
        assert |t| < |sep|;
      } else {
        assert s[..|sep|] != sep by { assert s[..|sep|][0] == p[0]; }
        assert s[1..] == p[1..] + t;
        SplitOnFreePrefix(p[1..], t, sep);
        assert [p[0]] + (p[1..] + r[0]) == p + r[0];
      }
    } else {
      assert p + t == t;
      assert r == [r[0]] + r[1..];
      assert p + r[0] == r[0];
    }
  }

  /** Splitting a join recovers the parts when no part contains the
      separator's first character. */
  lemma {:induction false} SplitJoin(parts: seq<string>, sep: string)
    requires |parts| > 0 && |sep| > 0
    requires forall i :: 0 <= i < |parts| ==> sep[0] !in parts[i]
    ensures SplitOn(Join(parts, sep), sep) == parts
    decreases |parts|
  {
    if |parts| == 1 {
      SplitOnFreePrefix(parts[0], "", sep);
      assert parts[0] + "" == parts[0];
    } else {
      var tail := Join(parts[1..], sep);
      SplitJoin(parts[1..], sep);
      assert Join(parts, sep) == parts[0] + (sep + tail);
      SplitOnFreePrefix(parts[0], sep + tail, sep);
      assert (sep + tail)[..|sep|] == sep;
      assert (sep + tail)[|sep|..] == tail;
      assert SplitOn(sep + tail, sep) == [""] + parts[1..];
      assert parts[0] + "" == parts[0];
    }
  }

  /** A text with no blank line inside and no line feed at its end. */
  predicate NoBlankLine(p: string) {
    (forall i :: 0 <= i < |p| - 1 ==> !(p[i] == '\n' && p[i + 1] == '\n'))
    && (|p| > 0 ==> p[|p| - 1] != '\n')
  }

  /** A single line has no blank line. */
  lemma OneLineNoBlankLine(a: string)
    requires '\n' !in a
    ensures NoBlankLine(a)
  {
    if |a| > 0 {
      assert a[|a| - 1] in a;
    }
  }

  /** A non-empty line and, after a line feed, a text with no blank line
      that does not open with a line feed: still no blank line. */
  lemma LineThenNoBlankLine(a: string, b: string)
    requires a != [] && '\n' !in a
    requires b != [] && b[0] != '\n' && NoBlankLine(b)
    ensures NoBlankLine(a + "\n" + b)
  {
    var s := a + "\n" + b;
    forall i | 0 <= i < |s| - 1
      ensures !(s[i] == '\n' && s[i + 1] == '\n')
    {
      if i < |a| {
        assert s[i] == a[i] && a[i] in a;
      } else if i == |a| {
        assert s[i + 1] == b[0];
      } else {
        assert s[i] == b[i - |a| - 1] && s[i + 1] == b[i - |a|];
      }
    }
    assert s[|s| - 1] == b[|b| - 1];
  }

  /** A piece with no blank line, followed by more text, stays glued to the
      first piece of that text when splitting at blank lines. */
  lemma {:induction false} SplitOnParagraphPrefix(p: string, t: string)
    requires NoBlankLine(p)
    ensures SplitOn(p + t, "\n\n") == [p + SplitOn(t, "\n\n")[0]] + SplitOn(t, "\n\n")[1..]
    decreases |p|
  {
    var sep := "\n\n";
    var r := SplitOn(t, sep);
    if p != [] {
      var s := p + t;
      if |s| < |sep| {
        assert t == [] && s == p;
        assert r == [""];
        assert [p + r[0]] + r[1..] == [s];
      } else {
        assert s[..|sep|] != sep by {
          if |p| >= 2 {
            assert s[0] == p[0] && s[1] == p[1];
          } else {
            assert s[0] == p[0];
          }
        }
        assert s[1..] == p[1..] + t;
        assert NoBlankLine(p[1..]) by {
          forall i | 0 <= i < |p[1..]| - 1
            ensures !(p[1..][i] == '\n' && p[1..][i + 1] == '\n')
          {
            assert p[1..][i] == p[i + 1] && p[1..][i + 1] == p[i + 2];
          }
        }
        SplitOnParagraphPrefix(p[1..], t);
        assert [p[0]] + (p[1..] + r[0]) == p + r[0];
      }
    } else {
      assert p + t == t;
      assert r == [r[0]] + r[1..];
      assert p + r[0] == r[0];
    }
  }

  /** Splitting a blank-line join recovers the parts when no part holds a
      blank line or ends with a line feed. */
  lemma {:induction false} SplitJoinParagraphs(parts: seq<string>)
    requires |parts| > 0
    requires forall i :: 0 <= i < |parts| ==> NoBlankLine(parts[i])
    ensures SplitOn(Join(parts, "\n\n"), "\n\n") == parts
    decreases |parts|
  {
    var sep := "\n\n";
    if |parts| == 1 {
      SplitOnParagraphPrefix(parts[0], "");
      assert parts[0] + "" == parts[0];
    } else {
      var tail := Join(parts[1..], sep);
      SplitJoinParagraphs(parts[1..]);
      assert Join(parts, sep) == parts[0] + (sep + tail);
      SplitOnParagraphPrefix(parts[0], sep + tail);
      assert (sep + tail)[..|sep|] == sep;
      assert (sep + tail)[|sep|..] == tail;
      assert SplitOn(sep + tail, sep) == [""] + parts[1..];
      assert parts[0] + "" == parts[0];
    }
  }

  /** Splitting at every character of a class: Python `re.split(r'[...]', s)`. */
  function SplitAny(s: string, seps: set<char>): (r: seq<string>)
    ensures |r| >= 1
    ensures forall i, j :: 0 <= i < |r| && 0 <= j < |r[i]| ==> r[i][j] !in seps
  {
    if |s| == 0 then [""]
    else
      var rest := SplitAny(s[1..], seps);
      if s[0] in seps then [""] + rest
      else
        var r := [[s[0]] + rest[0]] + rest[1..];
        assert forall i :: 1 <= i < |r| ==> r[i] == rest[i];
        r
  }

  /** A prefix free of separators stays glued to the first piece. */
  lemma {:induction false} SplitAnyFreePrefix(p: string, t: string, seps: set<char>)
    requires forall j :: 0 <= j < |p| ==> p[j] !in seps
    ensures SplitAny(p + t, seps) == [p + SplitAny(t, seps)[0]] + SplitAny(t, seps)[1..]
    decreases |p|
  {
    var u := SplitAny(t, seps);
    if |p| == 0 {
      assert p + t == t;
      assert p + u[0] == u[0];
      assert u == [u[0]] + u[1..];
    } else {
      SplitAnyFreePrefix(p[1..], t, seps);
      assert (p + t)[1..] == p[1..] + t;
      assert (p + t)[0] == p[0];
      assert [p[0]] + (p[1..] + u[0]) == p + u[0];
    }
  }

  /** Splitting the join of separator-free parts at one of the separators
      recovers the parts. */
  lemma {:induction false} SplitAnyJoin(parts: seq<string>, c: char, seps: set<char>)
    requires |parts| > 0 && c in seps
    requires forall i, j :: 0 <= i < |parts| && 0 <= j < |parts[i]| ==> parts[i][j] !in seps
    ensures SplitAny(Join(parts, [c]), seps) == parts
    decreases |parts|
  {
    if |parts| == 1 {
      SplitAnyFreePrefix(parts[0], "", seps);
      assert parts[0] + "" == parts[0];
    } else {
      var tail := Join(parts[1..], [c]);
      SplitAnyJoin(parts[1..], c, seps);
      assert Join(parts, [c]) == parts[0] + ([c] + tail);
      SplitAnyFreePrefix(parts[0], [c] + tail, seps);
      assert ([c] + tail)[1..] == tail;
      assert SplitAny([c] + tail, seps) == [""] + parts[1..];
      assert parts[0] + "" == parts[0];
    }
  }

  /** `[p.strip() for p in parts if p.strip()]`: the pieces trimmed, blank ones dropped. */
  function TrimmedNonBlank(parts: seq<string>): (r: seq<string>)
    ensures |r| <= |parts|
    ensures forall i :: 0 <= i < |r| ==> r[i] != [] && Unpadded(r[i])
  {
    if |parts| == 0 then []
    else
      var rest := TrimmedNonBlank(parts[1..]);
      var t := Trim(parts[0]);
      if t == [] then rest
      else
        var r := [t] + rest;
        assert forall i :: 1 <= i < |r| ==> r[i] == rest[i - 1];
        r
  }

  /** Pieces that are already trimmed and non-empty pass through unchanged. */
  lemma {:induction false} TrimmedNonBlankKeeps(parts: seq<string>)
    requires forall i :: 0 <= i < |parts| ==> parts[i] != [] && Unpadded(parts[i])
    ensures TrimmedNonBlank(parts) == parts
  {
    if |parts| > 0 {
      TrimUnpadded(parts[0]);
      TrimmedNonBlankKeeps(parts[1..]);
    }
  }

  /** Filtering distributes over concatenation. */
  lemma {:induction false} TrimmedNonBlankAppend(a: seq<string>, b: seq<string>)
    ensures TrimmedNonBlank(a + b) == TrimmedNonBlank(a) + TrimmedNonBlank(b)
  {
    if |a| > 0 {
      assert (a + b)[0] == a[0];
      assert (a + b)[1..] == a[1..] + b;
      TrimmedNonBlankAppend(a[1..], b);
    } else {
      assert a + b == b;
    }
  }

  /** ASCII upper-case letters map to lower case; every other character is kept. */
  function LowerChar(c: char): char {
    if 'A' <= c <= 'Z' then (c as int + 32) as char else c
  }

  function LowerAscii(s: string): (r: string)
    ensures |r| == |s|
    ensures forall i :: 0 <= i < |s| ==> r[i] == LowerChar(s[i])
  {
    seq(|s|, i requires 0 <= i < |s| => LowerChar(s[i]))
  }

  lemma LowerIdempotent(s: string)
    ensures LowerAscii(LowerAscii(s)) == LowerAscii(s)
  {
  }

  /** Lower-casing works character by character. */
  lemma LowerAppend(a: string, b: string)
    ensures LowerAscii(a + b) == LowerAscii(a) + LowerAscii(b)
  {
    assert forall i :: 0 <= i < |a + b| ==> LowerAscii(a + b)[i] == (LowerAscii(a) + LowerAscii(b))[i];
  }

  predicate IsDigit(c: char) {
    '0' <= c <= '9'
  }

  predicate IsAsciiLetter(c: char) {
    ('a' <= c <= 'z') || ('A' <= c <= 'Z')
  }

  function DigitChar(d: nat): char
    requires d < 10
  {
    ('0' as int + d) as char
  }

  /** Decimal text of a natural number, no leading zeros: Python `str(n)`, JavaScript `String(n)`. */
  function NatToString(n: nat): (r: string)
    ensures |r| >= 1
    ensures forall i :: 0 <= i < |r| ==> IsDigit(r[i])
    ensures r[0] != '0' || n == 0
  {
    if n < 10 then [DigitChar(n)] else NatToString(n / 10) + [DigitChar(n % 10)]
  }

  /** Decimal text of an integer, with a leading '-' when negative. */
  function IntToString(i: int): string {
    if i < 0 then "-" + NatToString(-i) else NatToString(i)
  }

  /** The value of a string of decimal digits. */
  function DigitsValue(s: string): nat
    requires forall i :: 0 <= i < |s| ==> IsDigit(s[i])
  {
    if |s| == 0 then 0
    else
      assert IsDigit(s[|s| - 1]);
      10 * DigitsValue(s[..|s| - 1]) + (s[|s| - 1] as int - '0' as int)
  }

  /** Reading back the decimal rendering of a number gives the number. */
  lemma {:induction false} NatToStringRoundTrip(n: nat)
    ensures DigitsValue(NatToString(n)) == n
  {
    if n >= 10 {
      var s := NatToString(n);
      assert s[..|s| - 1] == NatToString(n / 10);
      NatToStringRoundTrip(n / 10);
    }
  }

  /** JavaScript `padStart(2, '0')`: left-pads with zeros to two characters. */
  function PadStart2(s: string): (r: string)
    ensures |r| == if |s| >= 2 then |s| else 2
    ensures EndsWith(r, s)
  {
    if |s| >= 2 then s else if |s| == 1 then "0" + s else "00"
  }

  /** The position just after the last `c` in `s[..j]`, or 0 when there is none. */
  function StartAfterLast(s: string, c: char, j: nat): (i: nat)
    requires j <= |s|
    ensures i <= j
    ensures forall k :: i <= k < j ==> s[k] != c
    ensures i == 0 || s[i - 1] == c
    decreases j
  {
    if j == 0 then 0
    else if s[j - 1] == c then j
    else StartAfterLast(s, c, j - 1)
  }

  /** The text after the last `c` in `s`, or all of `s` when there is none:
      `os.path.basename` with `c == '/'`. */
  function AfterLast(s: string, c: char): (r: string)
    ensures c !in r
    ensures |r| <= |s| && r == s[|s| - |r|..]
    ensures |r| < |s| ==> s[|s| - |r| - 1] == c
  {
    var i := StartAfterLast(s, c, |s|);
    assert forall k :: 0 <= k < |s| - i ==> s[i..][k] == s[i + k];
    s[i..]
  }

  /** The longest prefix of `s` without whitespace. */
  function TakeWord(s: string): (w: string)
    ensures |w| <= |s| && w == s[..|w|]
    ensures forall i :: 0 <= i < |w| ==> !IsSpace(w[i])
    ensures |w| == |s| || IsSpace(s[|w|])
  {
    if |s| == 0 || IsSpace(s[0]) then ""
    else [s[0]] + TakeWord(s[1..])
  }

  /** A non-empty run of non-whitespace characters. */
  predicate IsWord(w: string) {
    w != "" && forall j :: 0 <= j < |w| ==> !IsSpace(w[j])
  }

  /** The whitespace-separated words of `s`: Python `s.split()` with no argument. */
  function Words(s: string): (r: seq<string>)
    ensures forall i :: 0 <= i < |r| ==> IsWord(r[i])
    decreases |s|
  {
    var t := TrimStart(s);
    if t == [] then []
    else
      var w := TakeWord(t);
      assert IsWord(w) by { assert w != [] by { assert !IsSpace(t[0]); } }
      var rest := Words(t[|w|..]);
      var r := [w] + rest;
      assert forall i :: 0 <= i < |r| ==> IsWord(r[i]) by {
        forall i | 0 <= i < |r|
          ensures IsWord(r[i])
        {
          if i > 0 {
            assert r[i] == rest[i - 1];
          }
        }
      }
      r
  }

  /** A text made of non-empty, whitespace-free words separated by single
      spaces splits back into exactly those words. */
  lemma {:induction false} WordsOfJoin(ws: seq<string>)
    requires forall i :: 0 <= i < |ws| ==> IsWord(ws[i])
    ensures Words(Join(ws, " ")) == ws
    decreases |ws|
  {
    if |ws| == 0 {
      assert TrimStart("") == "";
    } else if |ws| == 1 {
      assert Words(ws[0]) == [ws[0]] by {
        WordsCons(ws[0], "");
        assert ws[0] + "" == ws[0];
        assert TrimStart("") == "";
      }
    } else {
      WordsOfJoin(ws[1..]);
      WordsOfJoinStep(ws);
    }
  }

  lemma WordsOfJoinStep(ws: seq<string>)
    requires |ws| > 1 && IsWord(ws[0]) && IsWord(ws[1])
    requires Words(Join(ws[1..], " ")) == ws[1..]
    ensures Words(Join(ws, " ")) == ws
  {
    assert ws == [ws[0]] + ws[1..];
    var tail := Join(ws[1..], " ");
    JoinCons(ws[0], ws[1..], " ");
    assert tail != [] && !IsSpace(tail[0]) by {
      JoinStartsWithFirst(ws[1..], " ");
    }
    WordsSpaceJoin(ws[0], tail);
  }

  /** A word, one space, then text starting with a non-space character. */
  lemma WordsSpaceJoin(w: string, t: string)
    requires IsWord(w)
    requires t != [] && !IsSpace(t[0])
    ensures Words(w + " " + t) == [w] + Words(t)
  {
    assert w + " " + t == w + (" " + t);
    WordsCons(w, " " + t);
    TrimStartSpace(t);
  }

  lemma {:induction false} JoinStartsWithFirst(parts: seq<string>, sep: string)
    requires |parts| > 0 && parts[0] != ""
    ensures Join(parts, sep) != "" && Join(parts, sep)[0] == parts[0][0]
  {
  }

  /** A word followed by nothing or by whitespace is the first word. */
  lemma WordsCons(w: string, rest: string)
    requires IsWord(w)
    requires rest == [] || IsSpace(rest[0])
    ensures Words(w + rest) == [w] + Words(rest)
  {
    var s := w + rest;
    assert s[0] == w[0];
    assert TrimStart(s) == s;
    TakeWordAll(w, rest);
    assert s[|w|..] == rest;
  }

  lemma {:induction false} TakeWordAll(w: string, rest: string)
    requires forall j :: 0 <= j < |w| ==> !IsSpace(w[j])
    requires rest == [] || IsSpace(rest[0])
    ensures TakeWord(w + rest) == w
    decreases |w|
  {
    if |w| > 0 {
      assert (w + rest)[1..] == w[1..] + rest;
      TakeWordAll(w[1..], rest);
    } else {
      assert w + rest == rest;
    }
  }

  /** A leading space before a word does not change the words. */
  lemma TrimStartSpace(t: string)
    requires t != [] && !IsSpace(t[0])
    ensures Words(" " + t) == Words(t)
  {
    assert (" " + t)[1..] == t;
    assert TrimStart(" " + t) == TrimStart(t);
  }
}
