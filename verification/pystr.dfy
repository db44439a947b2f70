/** The handful of Python `str` methods the entity parser relies on:
    `isspace`, `strip`, `lstrip(chars)` and `splitlines`. */
module PyStr {

  /** `c.isspace()` in CPython 3: the characters whose bidirectional class is
      WS, B or S, or whose general category is Zs. */
  predicate IsSpace(c: char)
  {
    var n := c as int;
    || (0x09 <= n <= 0x0d)
    || (0x1c <= n <= 0x20)
    || n == 0x85 || n == 0xa0 || n == 0x1680
    || (0x2000 <= n <= 0x200a)
    || n == 0x2028 || n == 0x2029 || n == 0x202f || n == 0x205f || n == 0x3000
  }

  /** The characters at which `str.splitlines` breaks a string. */
  predicate IsLineBreak(c: char)
  {
    var n := c as int;
    || (0x0a <= n <= 0x0d)
    || (0x1c <= n <= 0x1e)
    || n == 0x85 || n == 0x2028 || n == 0x2029
  }

  /** Length of the longest prefix of `s` made of characters satisfying `drop`. */
  function LeadingRun(s: string, drop: char -> bool): (n: nat)
    ensures n <= |s|
    ensures forall k :: 0 <= k < n ==> drop(s[k])
    ensures n == |s| || !drop(s[n])
    decreases |s|
  {
    if |s| > 0 && drop(s[0]) then 1 + LeadingRun(s[1..], drop) else 0
  }

  /** Length of the longest suffix of `s` made of characters satisfying `drop`. */
  function TrailingRun(s: string, drop: char -> bool): (n: nat)
    ensures n <= |s|
    ensures forall k :: |s| - n <= k < |s| ==> drop(s[k])
    ensures n == |s| || !drop(s[|s| - n - 1])
    decreases |s|
  {
    if |s| > 0 && drop(s[|s| - 1]) then 1 + TrailingRun(s[..|s| - 1], drop) else 0
  }

  /** `r` is `s` with a run of whitespace removed from each end, and no
      whitespace is left at either end of `r`. */
  ghost predicate StrippedAt(s: string, r: string, i: int, j: int)
  {
    && 0 <= i <= j <= |s|
    && r == s[i..j]
    && (forall k :: 0 <= k < i ==> IsSpace(s[k]))
    && (forall k :: j <= k < |s| ==> IsSpace(s[k]))
    && (r == [] || (!IsSpace(r[0]) && !IsSpace(r[|r| - 1])))
  }

  /** Python's `s.strip()`. */
  function Strip(s: string): (r: string)
    ensures exists i, j :: StrippedAt(s, r, i, j)
  {
    var a := LeadingRun(s, IsSpace);
    var b := TrailingRun(s[a..], IsSpace);
    var r := s[a..|s| - b];
    assert StrippedAt(s, r, a, |s| - b) by {
      forall k | |s| - b <= k < |s|
        ensures IsSpace(s[k])
      {
        assert s[k] == s[a..][k - a];
      }
      if r != [] {
        assert r[|r| - 1] == s[a..][|s[a..]| - b - 1];
      }
    }
    r
  }

  /** Python's `s.lstrip(c)` for a one-character argument: drops every leading `c`. */
  function LStrip(s: string, c: char): (r: string)
    ensures exists i :: 0 <= i <= |s| && r == s[i..] && forall k :: 0 <= k < i ==> s[k] == c
    ensures r == [] || r[0] != c
  {
    var n := LeadingRun(s, x => x == c);
    s[n..]
  }

  /** `strip` removes exactly the whitespace runs at the two ends: given where
      a non-empty, non-blank core starts and ends, it returns that core. */
  lemma StripExact(s: string, i: nat, j: nat)
    requires i < j <= |s|
    requires forall k :: 0 <= k < i ==> IsSpace(s[k])
    requires forall k :: j <= k < |s| ==> IsSpace(s[k])
    requires !IsSpace(s[i]) && !IsSpace(s[j - 1])
    ensures Strip(s) == s[i..j]
  {
    var a := LeadingRun(s, IsSpace);
    assert a == i;
    var t := s[a..];
    var b := TrailingRun(t, IsSpace);
    assert t[|t| - (|s| - j) - 1] == s[j - 1];
    forall k | |t| - (|s| - j) <= k < |t|
      ensures IsSpace(t[k])
    {
      assert t[k] == s[k + i];
    }
    assert b == |s| - j;
  }

  /** `lstrip(c)` removes exactly the leading run of `c`. */
  lemma LStripExact(s: string, c: char, i: nat)
    requires i <= |s|
    requires forall k :: 0 <= k < i ==> s[k] == c
    requires i == |s| || s[i] != c
    ensures LStrip(s, c) == s[i..]
  {
    var n := LeadingRun(s, x => x == c);
    assert n == i;
  }

  /** A string with no line break in it. */
  predicate NoBreak(line: string)
  {
    forall k :: 0 <= k < |line| ==> !IsLineBreak(line[k])
  }

  /** Python's `s.splitlines()`: the pieces between line breaks, where "\r\n"
      counts as one break and a break at the very end opens no further line. */
  function SplitLines(s: string): (lines: seq<string>)
    ensures forall i :: 0 <= i < |lines| ==> NoBreak(lines[i])
    ensures s == [] <==> lines == []
    ensures s != [] && NoBreak(s) ==> lines == [s]
    decreases |s|
  {
    if s == [] then []
    else
      var i := LeadingRun(s, c => !IsLineBreak(c));
      if i == |s| then [s]
      else
        var width := if s[i] == '\r' && i + 1 < |s| && s[i + 1] == '\n' then 2 else 1;
        [s[..i]] + SplitLines(s[i + width..])
  }

  /** A text made of a break-free first line, one line break and a remainder
      splits into that line followed by the lines of the remainder. "\r\n" is
      one break; a lone "\r" is one only when no "\n" follows it. */
  lemma SplitAtBreak(a: string, sep: string, b: string)
    requires NoBreak(a)
    requires sep == "\r\n" || (|sep| == 1 && IsLineBreak(sep[0]) && (sep[0] == '\r' ==> !("\n" <= b)))
    ensures SplitLines(a + sep + b) == [a] + SplitLines(b)
  {
    var s := a + sep + b;
    var i := LeadingRun(s, c => !IsLineBreak(c));
    assert s[|a|] == sep[0];
    assert forall k :: 0 <= k < |a| ==> s[k] == a[k];
    assert i == |a|;
    assert s[..i] == a;
    if sep == "\r\n" {
      assert s[i + 1] == '\n';
      assert s[i + 2..] == b;
    } else {
      assert s[i + 1..] == b;
      if sep[0] == '\r' && i + 1 < |s| {
        assert s[i + 1] == b[0];
      }
    }
  }

  /** The inverse direction: each line followed by "\n". */
  function JoinLines(lines: seq<string>): string
  {
    if lines == [] then "" else lines[0] + "\n" + JoinLines(lines[1..])
  }

  /** Splitting a text built from break-free lines, each ended by "\n", gives those lines back. */
  lemma {:induction false} SplitJoin(lines: seq<string>)
    requires forall i :: 0 <= i < |lines| ==> NoBreak(lines[i])
    ensures SplitLines(JoinLines(lines)) == lines
    decreases |lines|
  {
    if lines != [] {
      SplitAtBreak(lines[0], "\n", JoinLines(lines[1..]));
      SplitJoin(lines[1..]);
      assert [lines[0]] + lines[1..] == lines;
    }
  }

}
