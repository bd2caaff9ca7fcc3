/**
 * The Python string operations the pipeline relies on (`strip`, `split`,
 * `find`, `in`, `replace`, `join`, `str(int)`, `int(str)`), written over
 * `string` = `seq<char>`.
 */
module Text {

  /** Python's notion of whitespace, restricted to the characters that occur in tender documents. */
  predicate IsSpace(c: char) {
    c == ' ' || c == '\t' || c == '\n' || c == '\r' || c == '\U{0B}' || c == '\U{0C}'
    || c == '\U{85}' || c == '\U{A0}' || c == '\U{3000}'
  }

  predicate IsAsciiDigit(c: char) { '0' <= c <= '9' }

  /** `s.isdigit()` for ASCII text: non-empty and made of digits only. */
  predicate IsDigits(s: string) {
    |s| > 0 && forall i :: 0 <= i < |s| ==> IsAsciiDigit(s[i])
  }

  /** Length of the longest prefix of `s` whose characters all satisfy `p`. */
  function PrefixLen(s: string, p: char -> bool): (n: nat)
    ensures n <= |s|
    ensures forall i :: 0 <= i < n ==> p(s[i])
    ensures n < |s| ==> !p(s[n])
  {
    if s == [] || !p(s[0]) then 0 else 1 + PrefixLen(s[1..], p)
  }

  /** Length of the longest suffix of `s` whose characters all satisfy `p`. */
  function SuffixLen(s: string, p: char -> bool): (n: nat)
    ensures n <= |s|
    ensures forall i :: |s| - n <= i < |s| ==> p(s[i])
    ensures n < |s| ==> !p(s[|s| - n - 1])
  {
    if s == [] || !p(s[|s| - 1]) then 0 else 1 + SuffixLen(s[..|s| - 1], p)
  }

  /** `s.lstrip(chars)` where `p` says which characters are stripped. */
  function LTrim(s: string, p: char -> bool): (r: string)
    ensures |r| <= |s| && r == s[|s| - |r|..]
    ensures r != [] ==> !p(r[0])
  {
    s[PrefixLen(s, p)..]
  }

  /** `s.rstrip(chars)` where `p` says which characters are stripped. */
  function RTrim(s: string, p: char -> bool): (r: string)
    ensures |r| <= |s| && r == s[..|r|]
    ensures r != [] ==> !p(r[|r| - 1])
  {
    s[..|s| - SuffixLen(s, p)]
  }

  /** `s.strip(chars)`. */
  function Trim(s: string, p: char -> bool): (r: string)
    ensures |r| <= |s|
    ensures r != [] ==> !p(r[0]) && !p(r[|r| - 1])
  {
    RTrim(LTrim(s, p), p)
  }

  function LStrip(s: string): string { LTrim(s, IsSpace) }
  function RStrip(s: string): string { RTrim(s, IsSpace) }
  /** Python's `s.strip()`. */
  function Strip(s: string): string { Trim(s, IsSpace) }

  predicate IsNewline(c: char) { c == '\n' }

  predicate StartsWith(s: string, t: string) { |t| <= |s| && s[..|t|] == t }

  predicate EndsWith(s: string, t: string) { |t| <= |s| && s[|s| - |t|..] == t }

  /** Does `t` occur in `s` at position `i`? */
  predicate OccursAt(s: string, t: string, i: int) {
    0 <= i && i + |t| <= |s| && s[i..i + |t|] == t
  }

  /** First occurrence of `t` in `s` at or after `i`, or -1 (Python's `s.find(t, i)`). */
  function FindFrom(s: string, t: string, i: nat): (r: int)
    decreases |s| - i
    ensures r == -1 || (i <= r && OccursAt(s, t, r))
    ensures r == -1 ==> forall j :: i <= j && j + |t| <= |s| ==> !OccursAt(s, t, j)
    ensures r != -1 ==> forall j :: i <= j < r ==> !OccursAt(s, t, j)
  {
    if i + |t| > |s| then -1
    else if s[i..i + |t|] == t then i
    else FindFrom(s, t, i + 1)
  }

  /** Python's `s.find(t)`. */
  function Find(s: string, t: string): int { FindFrom(s, t, 0) }

  /** Python's `t in s` for strings. */
  predicate Contains(s: string, t: string) { Find(s, t) >= 0 }

  lemma ContainsAt(s: string, t: string, i: int)
    requires OccursAt(s, t, i)
    ensures Contains(s, t)
  {
  }

  lemma ContainsWitness(s: string, t: string)
    requires Contains(s, t)
    ensures OccursAt(s, t, Find(s, t))
  {
  }

  /** `t` occurs in `a + b` when it occurs in `b`. */
  lemma ContainsRight(a: string, b: string, t: string)
    requires Contains(b, t)
    ensures Contains(a + b, t)
  {
    var i := Find(b, t);
    assert (a + b)[|a| + i..|a| + i + |t|] == b[i..i + |t|];
    ContainsAt(a + b, t, |a| + i);
  }

  /** `t` occurs in `a + b` when it occurs in `a`. */
  lemma ContainsLeft(a: string, b: string, t: string)
    requires Contains(a, t)
    ensures Contains(a + b, t)
  {
    var i := Find(a, t);
    assert (a + b)[i..i + |t|] == a[i..i + |t|];
    ContainsAt(a + b, t, i);
  }

  /** Python's `s.split(sep)` for a non-empty separator: always at least one piece. */
  function SplitOn(s: string, sep: string): (r: seq<string>)
    requires |sep| > 0
    decreases |s|
    ensures |r| >= 1
  {
    if s == [] then [""]
    else if StartsWith(s, sep) then [""] + SplitOn(s[|sep|..], sep)
    else
      var rest := SplitOn(s[1..], sep);
      [[s[0]] + rest[0]] + rest[1..]
  }

  /** Python's `sep.join(parts)`. */
  function Join(parts: seq<string>, sep: string): string
  {
    if parts == [] then ""
    else if |parts| == 1 then parts[0]
    else parts[0] + sep + Join(parts[1..], sep)
  }

  lemma JoinConsChar(c: char, parts: seq<string>, sep: string)
    requires |parts| >= 1
    ensures Join([[c] + parts[0]] + parts[1..], sep) == [c] + Join(parts, sep)
  {
    var q := [[c] + parts[0]] + parts[1..];
    if |parts| > 1 {
      assert q[1..] == parts[1..];
    }
  }

  lemma JoinConsEmpty(parts: seq<string>, sep: string)
    requires |parts| >= 1
    ensures Join([""] + parts, sep) == sep + Join(parts, sep)
  {
    assert ([""] + parts)[1..] == parts;
  }

  /** Splitting and joining again gives the text back. */
  lemma {:induction false} JoinSplit(s: string, sep: string)
    requires |sep| > 0
    ensures Join(SplitOn(s, sep), sep) == s
    decreases |s|
  {
    if s == [] {
    } else if StartsWith(s, sep) {
      JoinSplit(s[|sep|..], sep);
      JoinConsEmpty(SplitOn(s[|sep|..], sep), sep);
      assert s == sep + s[|sep|..];
    } else {
      JoinSplit(s[1..], sep);
      JoinConsChar(s[0], SplitOn(s[1..], sep), sep);
      assert s == [s[0]] + s[1..];
    }
  }

  /** Python's `s.splitlines()` for text whose only line break is `\n`. */
  function SplitLines(s: string): (r: seq<string>)
  {
    var parts := SplitOn(s, "\n");
    if parts[|parts| - 1] == "" then parts[..|parts| - 1] else parts
  }

  /** Python's `s.replace(pat, "")`: left-to-right removal of non-overlapping occurrences. */
  function RemoveAll(s: string, pat: string): (r: string)
    requires |pat| > 0
    decreases |s|
    ensures |r| <= |s|
  {
    if s == [] then ""
    else if StartsWith(s, pat) then RemoveAll(s[|pat|..], pat)
    else [s[0]] + RemoveAll(s[1..], pat)
  }

  /** Removing "**" never starts the result with the character that preceded nothing but itself. */
  lemma {:induction false} RemoveStarsHead(s: string)
    requires s != [] && s[0] != '*'
    ensures RemoveAll(s, "**") != [] && RemoveAll(s, "**")[0] == s[0]
  {
  }

  /** After removing every "**", no "**" is left: the removal cannot glue two stars together. */
  lemma {:induction false} RemoveStarsClean(s: string)
    ensures !Contains(RemoveAll(s, "**"), "**")
    decreases |s|
  {
    var r := RemoveAll(s, "**");
    if s == [] {
    } else if StartsWith(s, "**") {
      RemoveStarsClean(s[2..]);
    } else {
      var t := RemoveAll(s[1..], "**");
      RemoveStarsClean(s[1..]);
      assert r == [s[0]] + t;
      forall i | 0 <= i && i + 2 <= |r|
        ensures !OccursAt(r, "**", i)
      {
        if i == 0 {
          if s[0] == '*' {
            // s does not start with "**", so the next character is not a star and heads t.
            assert s[1] != '*';
            RemoveStarsHead(s[1..]);
            assert r[1] == s[1];
          }
        } else {
          assert r[i..i + 2] == t[i - 1..i + 1];
          assert Find(t, "**") == -1;
          assert !OccursAt(t, "**", i - 1);
        }
      }
    }
  }

  /** Keeps the characters of `s` that satisfy `p`, in order. */
  function Filter(s: string, p: char -> bool): (r: string)
    ensures |r| <= |s|
    ensures forall i :: 0 <= i < |r| ==> p(r[i])
    ensures forall i :: 0 <= i < |r| ==> r[i] in s
  {
    if s == [] then "" else (if p(s[0]) then [s[0]] else "") + Filter(s[1..], p)
  }

  /** Python's `s.replace(" ", "")`. */
  function RemoveSpaces(s: string): string { Filter(s, c => c != ' ') }

  /** Python's `s.lower()` on ASCII letters; every other character is kept. */
  function Lower(s: string): (r: string)
    ensures |r| == |s|
    ensures forall i :: 0 <= i < |s| ==> !('A' <= r[i] <= 'Z')
    ensures forall i :: 0 <= i < |s| ==> r[i] == s[i] || 'a' <= r[i] <= 'z'
  {
    if s == [] then ""
    else [if 'A' <= s[0] <= 'Z' then (s[0] as int + 32) as char else s[0]] + Lower(s[1..])
  }

  function DigitChar(d: nat): char
    requires d < 10
  {
    "0123456789"[d]
  }

  /** Python's `str(n)` for a natural number. */
  function NatToString(n: nat): (r: string)
    ensures IsDigits(r)
    decreases n
  {
    if n < 10 then [DigitChar(n)] else NatToString(n / 10) + [DigitChar(n % 10)]
  }

  /** Python's `str(i)` for an integer. */
  function IntToString(i: int): string
  {
    if i >= 0 then NatToString(i) else "-" + NatToString(-i)
  }

  /** Python's `int(s)` for a string of ASCII digits. */
  function ParseNat(s: string): nat
    requires forall i :: 0 <= i < |s| ==> IsAsciiDigit(s[i])
    decreases |s|
  {
    if s == [] then 0 else 10 * ParseNat(s[..|s| - 1]) + DigitValue(s[|s| - 1])
  }

  function DigitValue(c: char): (d: nat)
    requires IsAsciiDigit(c)
    ensures d < 10
  {
    c as int - '0' as int
  }

  /** `int(str(n)) == n`. */
  lemma {:induction false} ParseNatToString(n: nat)
    ensures ParseNat(NatToString(n)) == n
    decreases n
  {
    if n >= 10 {
      ParseNatToString(n / 10);
      var s := NatToString(n);
      assert s[..|s| - 1] == NatToString(n / 10);
    }
  }

  /**
   * Python's slice `s[a:b]`: negative bounds count from the end and every
   * bound is clamped into the string.
   */
  function PySlice(s: string, a: int, b: int): (r: string)
    ensures |r| <= |s|
  {
    var lo := Clamp(if a < 0 then a + |s| else a, |s|);
    var hi := Clamp(if b < 0 then b + |s| else b, |s|);
    if lo < hi then s[lo..hi] else ""
  }

  function Clamp(i: int, n: nat): (r: nat)
    ensures r <= n
  {
    if i < 0 then 0 else if i > n then n else i
  }

  /** `s[:n]` for a non-negative `n`. */
  function Take(s: string, n: nat): (r: string)
    ensures |r| <= n && |r| <= |s|
    ensures r == s[..|r|]
  {
    if n < |s| then s[..n] else s
  }

  // ---------------------------------------------------------------------
  // Cursors, searches over lines, and line offsets
  // ---------------------------------------------------------------------

  /** Position just after the run of characters satisfying `p` that starts at `i`. */
  function Skip(s: string, i: nat, p: char -> bool): (j: nat)
    requires i <= |s|
    ensures i <= j <= |s|
    ensures forall k :: i <= k < j ==> p(s[k])
    ensures j < |s| ==> !p(s[j])
  {
    assert forall k :: i <= k < i + PrefixLen(s[i..], p) ==> s[k] == s[i..][k - i];
    i + PrefixLen(s[i..], p)
  }

  /** `Skip` is characterised by its result. */
  lemma SkipExact(s: string, i: nat, j: nat, p: char -> bool)
    requires i <= j <= |s|
    requires forall k :: i <= k < j ==> p(s[k])
    requires j == |s| || !p(s[j])
    ensures Skip(s, i, p) == j
  {
  }

  /** A run of `q`-characters is at least as long as a run of `p`-characters when `p` implies `q`. */
  lemma SkipMonotone(s: string, i: nat, p: char -> bool, q: char -> bool)
    requires i <= |s|
    requires forall c :: p(c) ==> q(c)
    ensures Skip(s, i, p) <= Skip(s, i, q)
  {
  }

  /** Python's `any(w in s for w in words)`. */
  predicate ContainsAny(s: string, words: seq<string>)
  {
    |words| > 0 && (Contains(s, words[0]) || ContainsAny(s, words[1..]))
  }

  lemma ContainsAnyWitness(s: string, words: seq<string>)
    ensures ContainsAny(s, words) <==> exists k :: 0 <= k < |words| && Contains(s, words[k])
  {
    if |words| > 0 {
      ContainsAnyWitness(s, words[1..]);
      if ContainsAny(s, words[1..]) {
        var k :| 0 <= k < |words[1..]| && Contains(s, words[1..][k]);
        assert Contains(s, words[k + 1]);
      }
      forall k | 1 <= k < |words| && Contains(s, words[k])
        ensures ContainsAny(s, words[1..])
      {
        assert words[1..][k - 1] == words[k];
      }
    }
  }

  /** Index of the first line at or after `i` satisfying `p`, or `|lines|` when there is none. */
  function FirstFrom(lines: seq<string>, i: nat, p: string -> bool): (r: nat)
    requires i <= |lines|
    decreases |lines| - i
    ensures i <= r <= |lines|
    ensures r < |lines| ==> p(lines[r])
    ensures forall j :: i <= j < r ==> !p(lines[j])
  {
    if i == |lines| then i else if p(lines[i]) then i else FirstFrom(lines, i + 1, p)
  }

  /** Index of the last line satisfying `p`, or -1 when there is none. */
  function LastIndex(lines: seq<string>, p: string -> bool): (r: int)
    ensures -1 <= r < |lines|
    ensures r >= 0 ==> p(lines[r])
    ensures forall j :: r < j < |lines| ==> !p(lines[j])
  {
    if lines == [] then -1
    else if p(lines[|lines| - 1]) then |lines| - 1
    else LastIndex(lines[..|lines| - 1], p)
  }

  /** Offset of line `k` in the text the lines were split from with "\n". */
  function LineStart(lines: seq<string>, k: nat): nat
    requires k <= |lines|
  {
    if k == 0 then 0 else |lines[0]| + 1 + LineStart(lines[1..], k - 1)
  }

  /** Line `k` sits at `LineStart(lines, k)` in the joined text. */
  lemma {:induction false} LineAt(lines: seq<string>, k: nat)
    requires k < |lines|
    ensures LineStart(lines, k) + |lines[k]| <= |Join(lines, "\n")|
    ensures Join(lines, "\n")[LineStart(lines, k)..LineStart(lines, k) + |lines[k]|] == lines[k]
    ensures k + 1 < |lines| ==> LineStart(lines, k + 1) <= |Join(lines, "\n")|
  {
    if k == 0 {
      if |lines| > 1 {
        assert Join(lines, "\n") == lines[0] + "\n" + Join(lines[1..], "\n");
      }
    } else {
      LineAt(lines[1..], k - 1);
      var rest := Join(lines[1..], "\n");
      assert Join(lines, "\n") == lines[0] + "\n" + rest;
      var a := LineStart(lines[1..], k - 1);
      assert Join(lines, "\n")[|lines[0]| + 1 + a..|lines[0]| + 1 + a + |lines[k]|]
        == rest[a..a + |lines[k]|];
    }
  }

  /** Every piece of `SplitOn(s, [c])` is free of `c`. */
  lemma {:induction false} SplitPiecesFree(s: string, c: char)
    ensures forall k :: 0 <= k < |SplitOn(s, [c])| ==> c !in SplitOn(s, [c])[k]
    decreases |s|
  {
    if s != [] {
      if StartsWith(s, [c]) {
        SplitPiecesFree(s[1..], c);
      } else {
        SplitPiecesFree(s[1..], c);
        assert s[0] != c;
      }
    }
  }

  // ---------------------------------------------------------------------
  // Splitting on one character, and `in` on one character
  // ---------------------------------------------------------------------

  lemma ContainsChar(s: string, c: char)
    ensures Contains(s, [c]) <==> c in s
  {
    if c in s {
      var i :| 0 <= i < |s| && s[i] == c;
      assert s[i..i + 1] == [c];
      ContainsAt(s, [c], i);
    }
    if Contains(s, [c]) {
      var i := Find(s, [c]);
      assert s[i..i + 1] == [c];
      assert s[i] == c;
    }
  }

  lemma {:induction false} SplitNoSep(a: string, c: char)
    requires c !in a
    ensures SplitOn(a, [c]) == [a]
    decreases |a|
  {
    if a != [] {
      SplitNoSep(a[1..], c);
      assert a == [a[0]] + a[1..];
    }
  }

  lemma {:induction false} SplitFirst(a: string, c: char, b: string)
    requires c !in a
    ensures SplitOn(a + [c] + b, [c]) == [a] + SplitOn(b, [c])
    decreases |a|
  {
    if a == [] {
      assert ([c] + b)[1..] == b;
    } else {
      SplitFirst(a[1..], c, b);
      assert (a + [c] + b)[1..] == a[1..] + [c] + b;
      assert a == [a[0]] + a[1..];
    }
  }

  lemma StripPlain(s: string)
    requires s != [] && !IsSpace(s[0]) && !IsSpace(s[|s| - 1])
    ensures Strip(s) == s
  {
    assert PrefixLen(s, IsSpace) == 0;
    assert LTrim(s, IsSpace) == s;
    assert SuffixLen(s, IsSpace) == 0;
  }


  // ---------------------------------------------------------------------
  // Line offsets and last matches
  // ---------------------------------------------------------------------

  /** The next line starts one past the end of this one. */
  lemma {:induction false} LineStartNext(lines: seq<string>, k: nat)
    requires k < |lines|
    ensures LineStart(lines, k + 1) == LineStart(lines, k) + |lines[k]| + 1
  {
    if k > 0 {
      LineStartNext(lines[1..], k - 1);
    }
  }

  /** Line offsets grow strictly with the line number. */
  lemma {:induction false} LineStartGrows(lines: seq<string>, i: nat, j: nat)
    requires i < j <= |lines|
    ensures LineStart(lines, i) + |lines[i]| < LineStart(lines, j)
    decreases j - i
  {
    LineStartNext(lines, i);
    if i + 1 < j {
      LineStartGrows(lines, i + 1, j);
    }
  }

  /** `LastIndex` is characterised by its contract: the last line satisfying `p`. */
  lemma {:induction false} LastIndexIs(lines: seq<string>, p: string -> bool, r: int)
    requires -1 <= r < |lines|
    requires r >= 0 ==> p(lines[r])
    requires forall j :: r < j < |lines| ==> !p(lines[j])
    ensures LastIndex(lines, p) == r
    decreases |lines|
  {
    if lines != [] && r < |lines| - 1 {
      var init := lines[..|lines| - 1];
      assert forall j :: r < j < |init| ==> init[j] == lines[j];
      LastIndexIs(init, p, r);
    }
  }

  /** Stripping leading line breaks only drops leading empty pieces of the split. */
  lemma {:induction false} LTrimNewlinePieces(s: string)
    ensures forall x :: x in SplitOn(LTrim(s, IsNewline), "\n") ==> x in SplitOn(s, "\n")
    decreases |s|
  {
    if s != [] && s[0] == '\n' {
      assert LTrim(s, IsNewline) == LTrim(s[1..], IsNewline);
      LTrimNewlinePieces(s[1..]);
      assert StartsWith(s, "\n");
      assert SplitOn(s, "\n") == [""] + SplitOn(s[1..], "\n");
    } else {
      assert PrefixLen(s, IsNewline) == 0;
    }
  }

  /** `strip()` keeps a non-blank run that follows only leading whitespace. */
  lemma StripPrefix(s: string, a: nat, n: nat)
    requires 0 < n && a + n <= |s|
    requires forall i :: 0 <= i < a ==> IsSpace(s[i])
    requires forall i :: a <= i < a + n ==> !IsSpace(s[i])
    ensures StartsWith(Strip(s), s[a..a + n])
  {
    PrefixLenIs(s, a, IsSpace);
    var x := s[a..];
    assert !IsSpace(x[n - 1]);
    assert SuffixLen(x, IsSpace) <= |x| - n;
  }

  /** `strip()` keeps a head that begins and ends with a non-blank character. */
  lemma StripKeepsHead(s: string, t: string)
    requires StartsWith(s, t) && t != [] && !IsSpace(t[0]) && !IsSpace(t[|t| - 1])
    ensures StartsWith(Strip(s), t)
  {
    PrefixLenIs(s, 0, IsSpace);
    assert LTrim(s, IsSpace) == s;
    assert s[|t| - 1] == t[|t| - 1];
    assert SuffixLen(s, IsSpace) <= |s| - |t|;
  }

  /** The length of the leading run is where the first failing character stands. */
  lemma {:induction false} PrefixLenIs(s: string, a: nat, p: char -> bool)
    requires a <= |s| && (forall i :: 0 <= i < a ==> p(s[i])) && (a < |s| ==> !p(s[a]))
    ensures PrefixLen(s, p) == a
    decreases a
  {
    if a > 0 {
      PrefixLenIs(s[1..], a - 1, p);
    }
  }

  /** Trimming keeps only characters of the original text. */
  lemma TrimKeeps(s: string, p: char -> bool, q: char -> bool)
    requires forall i :: 0 <= i < |s| ==> q(s[i])
    ensures forall i :: 0 <= i < |Trim(s, p)| ==> q(Trim(s, p)[i])
  {
    var l := LTrim(s, p);
    assert forall i :: 0 <= i < |l| ==> l[i] == s[|s| - |l| + i];
    var r := RTrim(l, p);
    assert forall i :: 0 <= i < |r| ==> r[i] == l[i];
  }

  /** Filtering keeps a text whose every character passes. */
  lemma {:induction false} FilterAll(s: string, p: char -> bool)
    requires forall i :: 0 <= i < |s| ==> p(s[i])
    ensures Filter(s, p) == s
  {
    if s != [] {
      FilterAll(s[1..], p);
    }
  }

  /** Lower-casing keeps a text with no upper-case letter. */
  lemma {:induction false} LowerNoUpper(s: string)
    requires forall i :: 0 <= i < |s| ==> !('A' <= s[i] <= 'Z')
    ensures Lower(s) == s
  {
    if s != [] {
      LowerNoUpper(s[1..]);
    }
  }

  /** A text without the first character of `sep` is a single piece. */
  lemma {:induction false} SplitNoSepAt(a: string, sep: string)
    requires |sep| > 0 && sep[0] !in a
    ensures SplitOn(a, sep) == [a]
    decreases |a|
  {
    if a != [] {
      SplitNoSepAt(a[1..], sep);
      assert a == [a[0]] + a[1..];
    }
  }

  /** The `for … if w in text: … break` loop: does some word of `words` occur in `text`? */
  method FirstContained(text: string, words: seq<string>) returns (found: bool)
    ensures found == ContainsAny(text, words)
  {
    ContainsAnyWitness(text, words);
    found := false;
    var j := 0;
    while j < |words|
      invariant 0 <= j <= |words|
      invariant forall m :: 0 <= m < j ==> !Contains(text, words[m])
    {
      if Contains(text, words[j]) {
        found := true;
        return;
      }
      j := j + 1;
    }
  }

  /** `u` occurs in `s` when it occurs inside some `t` that occurs in `s`. */
  lemma ContainsInside(s: string, t: string, u: string, k: nat)
    requires Contains(s, t) && OccursAt(t, u, k)
    ensures Contains(s, u)
  {
    var i := Find(s, t);
    ContainsWitness(s, t);
    assert s[i..i + |t|] == t;
    assert s[i + k..i + k + |u|] == s[i..i + |t|][k..k + |u|];
    ContainsAt(s, u, i + k);
  }

  // ---------------------------------------------------------------------
  // Order-preserving selection from a list
  // ---------------------------------------------------------------------

  /** `a` is `b` with some elements left out and the rest in their order. */
  predicate SubseqOf(a: seq<string>, b: seq<string>)
    decreases |b|
  {
    if a == [] then true
    else if b == [] then false
    else if a[0] == b[0] then SubseqOf(a[1..], b[1..])
    else SubseqOf(a, b[1..])
  }

  /** Python's `[x for x in xs if keep(x)]`. */
  function Select(xs: seq<string>, keep: string -> bool): (r: seq<string>)
    ensures |r| <= |xs|
  {
    if xs == [] then []
    else if keep(xs[0]) then [xs[0]] + Select(xs[1..], keep)
    else Select(xs[1..], keep)
  }

  /** The selection holds exactly the kept elements, in their order. */
  lemma {:induction false} SelectMembers(xs: seq<string>, keep: string -> bool)
    ensures forall x :: x in Select(xs, keep) <==> x in xs && keep(x)
    ensures SubseqOf(Select(xs, keep), xs)
  {
    if xs != [] {
      SelectMembers(xs[1..], keep);
      assert xs == [xs[0]] + xs[1..];
    }
  }

  lemma {:induction false} SelectAppend(xs: seq<string>, ys: seq<string>, keep: string -> bool)
    ensures Select(xs + ys, keep) == Select(xs, keep) + Select(ys, keep)
  {
    if xs == [] {
      assert xs + ys == ys;
    } else {
      assert (xs + ys)[0] == xs[0];
      assert (xs + ys)[1..] == xs[1..] + ys;
      SelectAppend(xs[1..], ys, keep);
    }
  }

  /** Selecting from a list grown by one element, then mapping, grows the result by at most that element's image. */
  lemma MapSelectSnoc(xs: seq<string>, x: string, keep: string -> bool, f: string -> string)
    ensures MapAll(Select(xs + [x], keep), f)
      == if keep(x) then MapAll(Select(xs, keep), f) + [f(x)] else MapAll(Select(xs, keep), f)
  {
    SelectAppend(xs, [x], keep);
    assert Select([x], keep) == if keep(x) then [x] else [];
    var s := Select(xs, keep);
    if keep(x) {
      assert (s + [x])[..|s|] == s;
    } else {
      assert s + [] == s;
    }
  }

  /** Every part of a join occurs in the joined text. */
  lemma {:induction false} JoinHas(parts: seq<string>, sep: string, k: nat)
    requires k < |parts|
    ensures Contains(Join(parts, sep), parts[k])
    decreases |parts|
  {
    assert parts[0][0..|parts[0]|] == parts[0];
    ContainsAt(parts[0], parts[0], 0);
    if |parts| > 1 {
      var rest := Join(parts[1..], sep);
      assert Join(parts, sep) == parts[0] + (sep + rest);
      if k == 0 {
        ContainsLeft(parts[0], sep + rest, parts[0]);
      } else {
        JoinHas(parts[1..], sep, k - 1);
        assert Join(parts, sep) == (parts[0] + sep) + rest;
        ContainsRight(parts[0] + sep, rest, parts[k]);
      }
    }
  }

  /** No line of `SplitLines` holds a line break. */
  lemma SplitLinesFree(s: string)
    ensures forall k :: 0 <= k < |SplitLines(s)| ==> '\n' !in SplitLines(s)[k]
  {
    SplitPiecesFree(s, '\n');
  }

  /** `[f(x) for x in xs]`. */
  function MapAll(xs: seq<string>, f: string -> string): (r: seq<string>)
    ensures |r| == |xs| && forall i :: 0 <= i < |xs| ==> r[i] == f(xs[i])
  {
    if xs == [] then [] else MapAll(xs[..|xs| - 1], f) + [f(xs[|xs| - 1])]
  }

  /** Selecting with a test no element passes gives nothing. */
  lemma SelectNone(xs: seq<string>, keep: string -> bool)
    requires forall k :: 0 <= k < |xs| ==> !keep(xs[k])
    ensures Select(xs, keep) == []
  {
    SelectMembers(xs, keep);
  }

  /** Selecting with a test every element passes keeps the whole list. */
  lemma {:induction false} SelectAll(xs: seq<string>, keep: string -> bool)
    requires forall k :: 0 <= k < |xs| ==> keep(xs[k])
    ensures Select(xs, keep) == xs
  {
    if xs != [] {
      SelectAll(xs[1..], keep);
    }
  }
}
