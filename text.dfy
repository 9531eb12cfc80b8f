/**
 * The string operations the analyser applies to captured command output:
 * Python's `str.strip`, `str.split(sep)`, `str.splitlines` (on "\n"),
 * `str.isdigit` (ASCII digits) and `int` on a run of digits.
 */
module Text {
  import opened Wrappers

  /** The characters Python's `str.isspace` accepts, which `str.strip` removes. */
  predicate IsSpace(c: char) {
    c == ' ' || '\t' <= c <= '\r' || '\U{1C}' <= c <= '\U{1F}'
    || c == '\U{85}' || c == '\U{A0}' || c == '\U{1680}' || '\U{2000}' <= c <= '\U{200A}'
    || c == '\U{2028}' || c == '\U{2029}' || c == '\U{202F}' || c == '\U{205F}' || c == '\U{3000}'
  }

  /** `s` with its leading whitespace removed. */
  function TrimStart(s: string): (r: string)
    ensures |r| <= |s| && r == s[|s| - |r|..]
    ensures forall i :: 0 <= i < |s| - |r| ==> IsSpace(s[i])
    ensures r == [] || !IsSpace(r[0])
  {
    if s != [] && IsSpace(s[0]) then TrimStart(s[1..]) else s
  }

  /** `s` with its trailing whitespace removed. */
  function TrimEnd(s: string): (r: string)
    ensures |r| <= |s| && r == s[..|r|]
    ensures forall i :: |r| <= i < |s| ==> IsSpace(s[i])
    ensures r == [] || !IsSpace(r[|r| - 1])
  {
    if s != [] && IsSpace(s[|s| - 1]) then TrimEnd(s[..|s| - 1]) else s
  }

  /** Python's `s.strip()`: `s` without its leading and its trailing whitespace. */
  function Strip(s: string): (r: string)
    ensures |r| <= |s|
    ensures exists i, j :: 0 <= i <= j <= |s| && r == s[i..j]
  {
    var t := TrimStart(s);
    var r := TrimEnd(t);
    var i, j := |s| - |t|, |s| - |t| + |r|;
    assert 0 <= i <= j <= |s| && r == s[i..j];
    r
  }

  /** The strip of `s` is the slice between a whitespace prefix and a whitespace suffix. */
  lemma StripSlice(s: string)
    ensures exists i, j ::
              && 0 <= i <= j <= |s| && Strip(s) == s[i..j]
              && (forall k :: 0 <= k < i ==> IsSpace(s[k]))
              && (forall k :: j <= k < |s| ==> IsSpace(s[k]))
  {
    var t := TrimStart(s);
    SliceBetween(s, t, TrimEnd(t));
  }

  /** The strip of `s` neither starts nor ends with whitespace. */
  lemma StripEnds(s: string)
    ensures Unpadded(Strip(s))
  {
    var t := TrimStart(s);
    var r := TrimEnd(t);
    if r != [] {
      assert r[0] == t[0];
    }
  }

  /** A suffix of `s` after whitespace, cut before whitespace, is such a slice. */
  lemma SliceBetween(s: string, t: string, r: string)
    requires |t| <= |s| && t == s[|s| - |t|..]
    requires forall k :: 0 <= k < |s| - |t| ==> IsSpace(s[k])
    requires |r| <= |t| && r == t[..|r|]
    requires forall k :: |r| <= k < |t| ==> IsSpace(t[k])
    ensures exists i, j ::
              && 0 <= i <= j <= |s| && r == s[i..j]
              && (forall k :: 0 <= k < i ==> IsSpace(s[k]))
              && (forall k :: j <= k < |s| ==> IsSpace(s[k]))
  {
    var i := |s| - |t|;
    var j := i + |r|;
    assert r == s[i..j];
    forall k | j <= k < |s| ensures IsSpace(s[k]) {
      assert s[k] == t[k - i];
    }
  }

  /** A string made of whitespace only (Python treats its strip as false). */
  predicate IsBlank(s: string) {
    forall i :: 0 <= i < |s| ==> IsSpace(s[i])
  }

  lemma StripEmptyIffBlank(s: string)
    ensures Strip(s) == [] <==> IsBlank(s)
  {
    var r := Strip(s);
    StripSlice(s);
    var i, j :|
      && 0 <= i <= j <= |s| && r == s[i..j]
      && (forall k :: 0 <= k < i ==> IsSpace(s[k]))
      && (forall k :: j <= k < |s| ==> IsSpace(s[k]));
    if r == [] {
      assert |r| == j - i == 0;
      forall k | 0 <= k < |s| ensures IsSpace(s[k]) {
        assert k < i || j <= k;
      }
    } else {
      StripEnds(s);
      assert s[i] == r[0];
    }
  }

  /** `s` neither starts nor ends with whitespace. */
  predicate Unpadded(s: string) {
    s == [] || (!IsSpace(s[0]) && !IsSpace(s[|s| - 1]))
  }

  /** A string that neither starts nor ends with whitespace is its own strip. */
  lemma StripUnpadded(s: string)
    requires Unpadded(s)
    ensures Strip(s) == s
  {
    assert TrimStart(s) == s;
    assert TrimEnd(s) == s;
  }

  /** Stripping removes a whitespace character after an unpadded string. */
  lemma StripTrailingSpace(s: string, c: char)
    requires s != [] && Unpadded(s) && IsSpace(c)
    ensures Strip(s + [c]) == s
  {
    var t := s + [c];
    assert TrimStart(t) == t;
    assert t[..|t| - 1] == s;
    assert TrimEnd(s) == s;
  }

  lemma StripIdempotent(s: string)
    ensures Strip(Strip(s)) == Strip(s)
  {
    StripEnds(s);
    StripUnpadded(Strip(s));
  }

  /** Python's `s.split(sep)`: the pieces of `s` between occurrences of `sep`. */
  function SplitOn(s: string, sep: char): (parts: seq<string>)
    ensures |parts| >= 1
  {
    if s == [] then [[]]
    else
      var rest := SplitOn(s[1..], sep);
      if s[0] == sep then [[]] + rest else [[s[0]] + rest[0]] + rest[1..]
  }

  /** A split has one piece more than there are separators. */
  lemma {:induction false} SplitOnCount(s: string, sep: char)
    ensures |SplitOn(s, sep)| == multiset(s)[sep] + 1
  {
    if s != [] {
      SplitOnCount(s[1..], sep);
      assert s == [s[0]] + s[1..];
    }
  }

  /** No piece of a split contains the separator. */
  lemma {:induction false} SplitOnSeparatorFree(s: string, sep: char)
    ensures forall i :: 0 <= i < |SplitOn(s, sep)| ==> sep !in SplitOn(s, sep)[i]
  {
    if s != [] {
      SplitOnSeparatorFree(s[1..], sep);
    }
  }

  /** Python's `sep.join(parts)`. */
  function JoinOn(parts: seq<string>, sep: char): (s: string)
  {
    if |parts| == 0 then []
    else if |parts| == 1 then parts[0]
    else parts[0] + [sep] + JoinOn(parts[1..], sep)
  }

  /** Joining the pieces of a split with the separator gives the string back. */
  lemma {:induction false} JoinSplit(s: string, sep: char)
    ensures JoinOn(SplitOn(s, sep), sep) == s
  {
    if s != [] {
      var rest := SplitOn(s[1..], sep);
      JoinSplit(s[1..], sep);
      assert s == [s[0]] + s[1..];
      if s[0] == sep {
        JoinCons([[]] + rest, sep);
        assert ([[]] + rest)[1..] == rest;
      } else if |rest| == 1 {
        assert SplitOn(s, sep) == [[s[0]] + rest[0]];
      } else {
        JoinGlue(s[0], rest, sep);
      }
    }
  }

  lemma {:induction false} JoinGlue(c: char, rest: seq<string>, sep: char)
    requires |rest| >= 2
    ensures JoinOn([[c] + rest[0]] + rest[1..], sep) == [c] + JoinOn(rest, sep)
  {
    var parts := [[c] + rest[0]] + rest[1..];
    assert parts[1..] == rest[1..];
    JoinCons(parts, sep);
    JoinCons(rest, sep);
  }

  lemma {:induction false} JoinCons(parts: seq<string>, sep: char)
    requires |parts| >= 2
    ensures JoinOn(parts, sep) == parts[0] + [sep] + JoinOn(parts[1..], sep)
  {
  }

  /** Splitting a join of separator-free pieces gives the pieces back. */
  lemma {:induction false} SplitJoin(parts: seq<string>, sep: char)
    requires |parts| >= 1
    requires forall i :: 0 <= i < |parts| ==> sep !in parts[i]
    ensures SplitOn(JoinOn(parts, sep), sep) == parts
  {
    if |parts| == 1 {
      SplitNoSeparator(parts[0], sep);
    } else {
      SplitJoin(parts[1..], sep);
      SplitPrefix(parts[0], JoinOn(parts[1..], sep), sep);
      assert [parts[0]] + parts[1..] == parts;
    }
  }

  lemma {:induction false} SplitNoSeparator(s: string, sep: char)
    requires sep !in s
    ensures SplitOn(s, sep) == [s]
  {
    if s != [] {
      SplitNoSeparator(s[1..], sep);
      assert s == [s[0]] + s[1..];
    }
  }

  lemma {:induction false} SplitPrefix(head: string, tail: string, sep: char)
    requires sep !in head
    ensures SplitOn(head + [sep] + tail, sep) == [head] + SplitOn(tail, sep)
  {
    var s := head + [sep] + tail;
    if head == [] {
      assert s[1..] == tail;
    } else {
      assert s[1..] == head[1..] + [sep] + tail;
      SplitPrefix(head[1..], tail, sep);
      assert [head[0]] + head[1..] == head;
    }
  }

  /**
   * Python's `s.splitlines()`, with "\n" as the only line boundary: no line
   * contains a line break, and empty text has no lines.
   */
  function SplitLines(s: string): (lines: seq<string>)
    ensures s == [] ==> lines == []
    ensures forall i :: 0 <= i < |lines| ==> '\n' !in lines[i]
  {
    var parts := SplitOn(s, '\n');
    SplitOnSeparatorFree(s, '\n');
    if parts[|parts| - 1] == [] then parts[..|parts| - 1] else parts
  }

  /** The last piece of a split is empty exactly when the string is empty or ends with the separator. */
  lemma {:induction false} SplitOnLastEmpty(s: string, sep: char)
    ensures var parts := SplitOn(s, sep);
      parts[|parts| - 1] == [] <==> s == [] || s[|s| - 1] == sep
  {
    if s != [] {
      var tail := s[1..];
      var rest := SplitOn(tail, sep);
      SplitOnLastEmpty(tail, sep);
      SplitOnCount(tail, sep);
      if tail != [] {
        assert s[|s| - 1] == tail[|tail| - 1];
        assert tail[|tail| - 1] in multiset(tail);
      }
    }
  }

  /**
   * One line per "\n", plus one for a final line without its "\n": text
   * that does not end in "\n" has one line more than it has newlines.
   */
  lemma SplitLinesCount(s: string)
    ensures |SplitLines(s)| == multiset(s)['\n'] + (if s == [] || s[|s| - 1] == '\n' then 0 else 1)
  {
    SplitOnCount(s, '\n');
    SplitOnLastEmpty(s, '\n');
  }

  /** Each line followed by a "\n", as a line-oriented tool prints it. */
  function Terminated(lines: seq<string>): string
  {
    if lines == [] then [] else lines[0] + "\n" + Terminated(lines[1..])
  }

  lemma {:induction false} TerminatedIsJoin(lines: seq<string>)
    ensures Terminated(lines) == JoinOn(lines + [[]], '\n')
  {
    if lines != [] {
      TerminatedIsJoin(lines[1..]);
      assert (lines + [[]])[1..] == lines[1..] + [[]];
    }
  }

  /** Reading back the output of a line-oriented printer gives its lines, in order. */
  lemma {:induction false} SplitLinesTerminated(lines: seq<string>)
    requires forall i :: 0 <= i < |lines| ==> '\n' !in lines[i]
    ensures SplitLines(Terminated(lines)) == lines
  {
    TerminatedIsJoin(lines);
    SplitJoin(lines + [[]], '\n');
    assert (lines + [[]])[..|lines|] == lines;
  }

  lemma {:induction false} JoinEndsWithSeparator(parts: seq<string>, sep: char)
    requires |parts| >= 2 && parts[|parts| - 1] == []
    ensures var s := JoinOn(parts, sep); |s| > 0 && s[|s| - 1] == sep
  {
    if |parts| > 2 {
      JoinEndsWithSeparator(parts[1..], sep);
    }
  }

  /** Splitting joined lines gives them back, unless the last one is empty. */
  lemma {:induction false} SplitLinesOfJoin(lines: seq<string>)
    requires |lines| >= 1 && lines[|lines| - 1] != []
    requires forall i :: 0 <= i < |lines| ==> '\n' !in lines[i]
    ensures SplitLines(JoinOn(lines, '\n')) == lines
  {
    SplitJoin(lines, '\n');
    LastLineKept(JoinOn(lines, '\n'), lines);
  }

  lemma {:induction false} LastLineKept(s: string, lines: seq<string>)
    requires SplitOn(s, '\n') == lines && lines[|lines| - 1] != []
    ensures SplitLines(s) == lines
  {
  }

  /** A text that does not end in "\n" (as trimmed output never does) is exactly its lines joined by "\n". */
  lemma SplitLinesJoin(s: string)
    requires s == [] || s[|s| - 1] != '\n'
    ensures JoinOn(SplitLines(s), '\n') == s
  {
    var parts := SplitOn(s, '\n');
    JoinSplit(s, '\n');
    if parts[|parts| - 1] == [] {
      if |parts| >= 2 {
        JoinEndsWithSeparator(parts, '\n');
        assert false;
      }
    }
  }

  predicate IsDigit(c: char) {
    '0' <= c <= '9'
  }

  /** Python's `s.isdigit()` over ASCII: non-empty and all digits. */
  predicate IsDigitString(s: string) {
    |s| > 0 && forall i :: 0 <= i < |s| ==> IsDigit(s[i])
  }

  /** The base-10 value of a string of digits. */
  function DigitsValue(s: string): nat
    requires forall i :: 0 <= i < |s| ==> IsDigit(s[i])
  {
    if s == [] then 0
    else
      assert IsDigit(s[|s| - 1]);
      DigitsValue(s[..|s| - 1]) * 10 + (s[|s| - 1] as int - '0' as int)
  }

  /** Python's `int(s)` on trimmed text: a value for a digit string, nothing otherwise. */
  function ParseDecimal(s: string): (r: Option<nat>)
    ensures r.Some? <==> IsDigitString(s)
  {
    if IsDigitString(s) then Some(DigitsValue(s)) else None
  }

  /** The decimal digits of `n`, without leading zeros, as `str(n)` prints them. */
  function Decimal(n: nat): (s: string)
    ensures forall i :: 0 <= i < |s| ==> IsDigit(s[i])
    ensures |s| > 0 && (s[0] == '0' ==> n == 0)
  {
    var d := ['0' + (n % 10) as char];
    if n < 10 then d else Decimal(n / 10) + d
  }

  /** Parsing the printed form of any count gives the count back. */
  lemma {:induction false} ParseDecimalOfDecimal(n: nat)
    ensures ParseDecimal(Decimal(n)) == Some(n)
  {
    if n >= 10 {
      ParseDecimalOfDecimal(n / 10);
      var s := Decimal(n);
      assert s[..|s| - 1] == Decimal(n / 10);
      assert DigitsValue(s) == (n / 10) * 10 + n % 10;
    }
  }
}
