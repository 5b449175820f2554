/**
 * The few Python string operations the two scripts rely on: str.isspace and
 * str.strip, str.upper (ASCII letters only), str.split with one separator
 * character and str.splitlines.
 */
module Text {

  /** Python's str.isspace() for a single character: what str.strip() removes. */
  predicate IsSpace(c: char) {
    ('\t' <= c <= '\r') || ('\U{1c}' <= c <= '\U{1f}') || c == ' '
    || c == '\U{85}' || c == '\U{a0}' || c == '\U{1680}'
    || ('\U{2000}' <= c <= '\U{200a}')
    || c == '\U{2028}' || c == '\U{2029}' || c == '\U{202f}' || c == '\U{205f}' || c == '\U{3000}'
  }

  predicate AllSpace(s: string) {
    forall i :: 0 <= i < |s| ==> IsSpace(s[i])
  }

  /** Neither end of the string is whitespace. */
  predicate Trimmed(s: string) {
    s == [] || (!IsSpace(s[0]) && !IsSpace(s[|s| - 1]))
  }

  /** Python's str.strip() with no argument. */
  function Strip(s: string): (r: string)
    ensures Trimmed(r)
    ensures r == [] <==> AllSpace(s)
    ensures |r| <= |s|
    decreases |s|
  {
    if s != [] && IsSpace(s[0]) then Strip(s[1..])
    else if s != [] && IsSpace(s[|s| - 1]) then Strip(s[..|s| - 1])
    else s
  }

  /** A leading whitespace character is dropped. */
  lemma StripDropsLeading(c: char, t: string)
    requires IsSpace(c)
    ensures Strip([c] + t) == Strip(t)
  {
    assert ([c] + t)[1..] == t;
  }

  /** A trailing whitespace character after a non-space start is dropped. */
  lemma StripDropsTrailing(t: string, c: char)
    requires t != [] && !IsSpace(t[0]) && IsSpace(c)
    ensures Strip(t + [c]) == Strip(t)
  {
    assert (t + [c])[..|t|] == t;
  }

  /** Leading whitespace before a string that does not start with whitespace is dropped. */
  lemma {:induction false} StripFrontPadding(front: string, t: string)
    requires AllSpace(front) && (t == [] || !IsSpace(t[0]))
    ensures Strip(front + t) == Strip(t)
    decreases |front|
  {
    if front != [] {
      assert front + t == [front[0]] + (front[1..] + t);
      assert AllSpace(front[1..]) by {
        forall i | 0 <= i < |front| - 1 ensures IsSpace(front[1..][i]) {
          assert front[1..][i] == front[i + 1];
        }
      }
      StripDropsLeading(front[0], front[1..] + t);
      StripFrontPadding(front[1..], t);
    } else {
      assert front + t == t;
    }
  }

  /** Trailing whitespace after a string that starts with a non-space is dropped. */
  lemma {:induction false} StripBackPadding(t: string, back: string)
    requires t != [] && !IsSpace(t[0]) && AllSpace(back)
    ensures Strip(t + back) == Strip(t)
    decreases |back|
  {
    if back != [] {
      var shorter := back[..|back| - 1];
      assert t + back == (t + shorter) + [back[|back| - 1]];
      assert AllSpace(shorter) by {
        forall i | 0 <= i < |shorter| ensures IsSpace(shorter[i]) {
          assert shorter[i] == back[i];
        }
      }
      StripDropsTrailing(t + shorter, back[|back| - 1]);
      StripBackPadding(t, shorter);
    } else {
      assert t + back == t;
    }
  }

  /**
   * Strip removes exactly the whitespace at the two ends: padding a trimmed
   * string with whitespace on either side and stripping gives it back.
   */
  lemma StripRemovesPadding(front: string, middle: string, back: string)
    requires AllSpace(front) && AllSpace(back) && Trimmed(middle)
    ensures Strip(front + middle + back) == middle
  {
    assert front + middle + back == front + (middle + back);
    if middle == [] {
      assert middle + back == back;
      StripFrontPadding(front, []);
      assert front + [] == front;
    } else {
      StripFrontPadding(front, middle + back);
      StripBackPadding(middle, back);
      StripOfTrimmed(middle);
    }
  }

  /** A string that is already trimmed is left alone. */
  lemma StripOfTrimmed(s: string)
    requires Trimmed(s)
    ensures Strip(s) == s
  {
  }

  predicate IsLowerAscii(c: char) {
    'a' <= c <= 'z'
  }

  function UpperChar(c: char): (u: char)
    ensures !IsLowerAscii(u)
  {
    if IsLowerAscii(c) then (c as int - 32) as char else c
  }

  /** str.upper() restricted to the ASCII letters a-z. */
  function Upper(s: string): (r: string)
    ensures |r| == |s|
    ensures forall i :: 0 <= i < |s| ==> !IsLowerAscii(r[i])
    ensures forall i :: 0 <= i < |s| && !IsLowerAscii(s[i]) ==> r[i] == s[i]
    ensures forall i :: 0 <= i < |s| && IsLowerAscii(s[i]) ==> r[i] as int == s[i] as int - 32
  {
    seq(|s|, i requires 0 <= i < |s| => UpperChar(s[i]))
  }

  /** The pieces joined back together with the separator between them. */
  function JoinWith(parts: seq<string>, sep: char): string
    requires |parts| >= 1
  {
    if |parts| == 1 then parts[0] else parts[0] + [sep] + JoinWith(parts[1..], sep)
  }

  /** Python's s.split(sep) for a one-character separator: always at least one piece. */
  function Split(s: string, sep: char): (parts: seq<string>)
    ensures |parts| >= 1
    ensures forall i :: 0 <= i < |parts| ==> sep !in parts[i]
    ensures JoinWith(parts, sep) == s
    decreases |s|
  {
    if s == [] then [[]]
    else
      var rest := Split(s[1..], sep);
      if s[0] == sep then
        assert ([[]] + rest)[1..] == rest;
        [[]] + rest
      else
        var parts := [[s[0]] + rest[0]] + rest[1..];
        assert parts[1..] == rest[1..];
        assert |rest| > 1 ==> JoinWith(rest, sep) == rest[0] + [sep] + JoinWith(rest[1..], sep);
        parts
  }

  /** The characters at which str.splitlines() breaks a line. */
  predicate IsLineBreak(c: char) {
    c == '\n' || c == '\r' || c == '\U{0b}' || c == '\U{0c}' || c == '\U{1c}' || c == '\U{1d}'
    || c == '\U{1e}' || c == '\U{85}' || c == '\U{2028}' || c == '\U{2029}'
  }

  predicate NoLineBreak(s: string) {
    forall k :: 0 <= k < |s| ==> !IsLineBreak(s[k])
  }

  /** The index of the first line break in s, or |s| when there is none. */
  function LineEnd(s: string): (i: nat)
    ensures i <= |s|
    ensures NoLineBreak(s[..i])
    ensures i < |s| ==> IsLineBreak(s[i])
  {
    if s == [] || IsLineBreak(s[0]) then 0
    else
      var i := LineEnd(s[1..]);
      assert s[..1 + i] == [s[0]] + s[1..][..i];
      1 + i
  }

  /**
   * Python's str.splitlines(): the lines without their terminators, "\r\n"
   * counting as one terminator and no empty line after a final terminator.
   */
  function SplitLines(s: string): (lines: seq<string>)
    ensures forall i :: 0 <= i < |lines| ==> NoLineBreak(lines[i])
    ensures lines == [] <==> s == []
    decreases |s|
  {
    if s == [] then []
    else
      var i := LineEnd(s);
      if i == |s| then [s]
      else [s[..i]] + SplitLines(s[TerminatorEnd(s, i)..])
  }

  /** Where the line terminator starting at s[i] ends: "\r\n" is one terminator. */
  function TerminatorEnd(s: string, i: nat): (next: nat)
    requires i < |s| && IsLineBreak(s[i])
    ensures i < next <= |s|
    ensures forall k :: i <= k < next ==> IsLineBreak(s[k])
  {
    if s[i] == '\r' && i + 1 < |s| && s[i + 1] == '\n' then i + 2 else i + 1
  }

  /** s with every line-break character removed. */
  function DropLineBreaks(s: string): string {
    if s == [] then []
    else (if IsLineBreak(s[0]) then [] else [s[0]]) + DropLineBreaks(s[1..])
  }

  function Concat(lines: seq<string>): string {
    if lines == [] then [] else lines[0] + Concat(lines[1..])
  }

  lemma {:induction false} DropLineBreaksAppend(a: string, b: string)
    ensures DropLineBreaks(a + b) == DropLineBreaks(a) + DropLineBreaks(b)
    decreases |a|
  {
    if a != [] {
      assert (a + b)[1..] == a[1..] + b;
      DropLineBreaksAppend(a[1..], b);
    } else {
      assert a + b == b;
    }
  }

  lemma {:induction false} DropLineBreaksOfClean(s: string)
    requires NoLineBreak(s)
    ensures DropLineBreaks(s) == s
    decreases |s|
  {
    if s != [] {
      DropLineBreaksOfClean(s[1..]);
    }
  }

  lemma {:induction false} DropLineBreaksOfBreaks(s: string)
    requires forall k :: 0 <= k < |s| ==> IsLineBreak(s[k])
    ensures DropLineBreaks(s) == []
    decreases |s|
  {
    if s != [] {
      DropLineBreaksOfBreaks(s[1..]);
    }
  }

  /** Taking one line off the front of s, up to and including its terminator. */
  lemma {:induction false} DropLineBreaksOfFirstLine(s: string, i: nat, next: nat)
    requires i < next <= |s| && NoLineBreak(s[..i])
    requires forall k :: i <= k < next ==> IsLineBreak(s[k])
    ensures DropLineBreaks(s) == s[..i] + DropLineBreaks(s[next..])
  {
    var line, breaks, rest := s[..i], s[i..next], s[next..];
    assert s == line + breaks + rest;
    assert forall k :: 0 <= k < |breaks| ==> IsLineBreak(breaks[k]) by {
      forall k | 0 <= k < |breaks| ensures IsLineBreak(breaks[k]) {
        assert breaks[k] == s[i + k];
      }
    }
    DropLineBreaksOfClean(line);
    DropLineBreaksOfBreaks(breaks);
    DropLineBreaksAppend(line, breaks);
    DropLineBreaksAppend(line + breaks, rest);
    assert line + [] == line;
  }

  /** splitlines loses no text: the lines put together are s without its line breaks. */
  lemma {:induction false} SplitLinesKeepsText(s: string)
    ensures Concat(SplitLines(s)) == DropLineBreaks(s)
    decreases |s|
  {
    if s != [] {
      var i := LineEnd(s);
      if i == |s| {
        assert s[..i] == s;
        DropLineBreaksOfClean(s);
        assert Concat([s]) == s + Concat([]);
      } else {
        var next := TerminatorEnd(s, i);
        var lines := SplitLines(s[next..]);
        assert SplitLines(s) == [s[..i]] + lines;
        assert ([s[..i]] + lines)[1..] == lines;
        SplitLinesKeepsText(s[next..]);
        DropLineBreaksOfFirstLine(s, i, next);
      }
    }
  }

  /** LineEnd finds the first line break: i when s[..i] has none and s[i] is one (or i is the end). */
  lemma {:induction false} LineEndAt(s: string, i: nat)
    requires i <= |s| && NoLineBreak(s[..i]) && (i < |s| ==> IsLineBreak(s[i]))
    ensures LineEnd(s) == i
  {
    if i > 0 {
      assert !IsLineBreak(s[..i][0]);
      var t := s[1..][..i - 1];
      forall k | 0 <= k < |t| ensures !IsLineBreak(t[k]) {
        assert t[k] == s[..i][k + 1];
      }
      LineEndAt(s[1..], i - 1);
    }
  }

  /** A text without line breaks is one line. */
  lemma SplitLinesOneLine(s: string)
    requires s != [] && NoLineBreak(s)
    ensures SplitLines(s) == [s]
  {
    assert s[..|s|] == s;
    LineEndAt(s, |s|);
  }

  /** A line ends at a single line-break character that is not the '\r' of a "\r\n" pair. */
  lemma SplitLinesAtBreak(a: string, c: char, b: string)
    requires NoLineBreak(a) && IsLineBreak(c)
    requires !(c == '\r' && b != [] && b[0] == '\n')
    ensures SplitLines(a + [c] + b) == [a] + SplitLines(b)
  {
    var s := a + [c] + b;
    assert s[..|a|] == a && s[|a|] == c;
    LineEndAt(s, |a|);
    assert TerminatorEnd(s, |a|) == |a| + 1;
    assert s[|a| + 1..] == b;
  }

  /** "\r\n" ends a line as one terminator. */
  lemma SplitLinesAtCrLf(a: string, b: string)
    requires NoLineBreak(a)
    ensures SplitLines(a + ['\r', '\n'] + b) == [a] + SplitLines(b)
  {
    var s := a + ['\r', '\n'] + b;
    assert s[..|a|] == a && s[|a|] == '\r' && s[|a| + 1] == '\n';
    LineEndAt(s, |a|);
    assert TerminatorEnd(s, |a|) == |a| + 2;
    assert s[|a| + 2..] == b;
  }
}
