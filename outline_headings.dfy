/**
 * The heading side of the outline extractor
 * (backend/agents/outline_extractor.py): reading one line as a heading,
 * normalising a heading's text, and arranging the headings of a document
 * into a forest by level.
 */
module OutlineHeadings {
  import opened Wrappers
  import opened Text
  import opened Numerals

  // ---------------------------------------------------------------------
  // _parse_heading_line
  // ---------------------------------------------------------------------

  /** A heading level and its title; `Parsed(0, "")` is "not a heading". */
  datatype Parsed = Parsed(level: nat, title: string)

  predicate IsHash(c: char) { c == '#' }

  /** `[一二三四五六七八九十]`, the numerals of a Chinese-numbered heading. */
  predicate IsCnSmall(c: char) {
    c == '一' || c == '二' || c == '三' || c == '四' || c == '五' || c == '六' || c == '七'
    || c == '八' || c == '九' || c == '十'
  }

  /** `[、.:]`, what follows the number of a numbered heading. */
  predicate IsLevelSep(c: char) { c == '、' || c == '.' || c == ':' }

  /**
   * The title group `(.+)$` after a separator that ends at `b` and a run of
   * whitespace: everything after the run, or the last whitespace character
   * when the run reaches the end and can give one character back.
   */
  function TitleAfter(s: string, b: nat, minRun: nat): Option<string>
    requires b <= |s|
  {
    var t := Skip(s, b, IsSpace);
    if t < |s| then Some(s[t..])
    else if t - b > minRun then Some(s[|s| - 1..])
    else None
  }

  /** `^(#{1,6})\s+(.+)$`: the hash count and the title. */
  function MarkdownHeading(s: string): Option<Parsed>
  {
    var h := PrefixLen(s, IsHash);
    if 1 <= h <= 6 && h < |s| && IsSpace(s[h]) then
      var t := TitleAfter(s, h, 1);
      if t.Some? then Some(Parsed(h, t.value)) else None
    else None
  }

  /** `^([一二三四五六七八九十]+)[、.:]\s*(.+)$`: the numeral's value, capped at 6, and the title. */
  function CnNumberedHeading(s: string): Option<Parsed>
  {
    var n := PrefixLen(s, IsCnSmall);
    if 1 <= n && n < |s| && IsLevelSep(s[n]) then
      var t := TitleAfter(s, n + 1, 0);
      if t.Some? then Some(Parsed(Min(CnToInt(s[..n]), 6), t.value)) else None
    else None
  }

  /** `^(\d+)[、.:]\s*(.+)$`: the number, capped at 6, and the title. */
  function DigitNumberedHeading(s: string): Option<Parsed>
  {
    var n := PrefixLen(s, IsAsciiDigit);
    if 1 <= n && n < |s| && IsLevelSep(s[n]) then
      var t := TitleAfter(s, n + 1, 0);
      if t.Some? then Some(Parsed(Min(ParseNat(s[..n]), 6), t.value)) else None
    else None
  }

  function Min(a: nat, b: nat): nat { if a <= b then a else b }

  /** `_parse_heading_line`: strip, then Markdown, Chinese-numbered, digit-numbered, else `(0, "")`. */
  function ParseHeadingLine(line: string): (r: Parsed)
    ensures r.level <= 6
    ensures r.level == 0 && r.title != "" ==> DigitNumberedHeading(Strip(line)).Some?
  {
    var s := Strip(line);
    var md := MarkdownHeading(s);
    if md.Some? then md.value
    else
      var cn := CnNumberedHeading(s);
      if cn.Some? then (CnSmallPositive(s[..PrefixLen(s, IsCnSmall)]); cn.value)
      else
        var num := DigitNumberedHeading(s);
        if num.Some? then num.value else Parsed(0, "")
  }

  /** A run of 一 … 十 reads as at least one. */
  lemma CnSmallPositive(s: string)
    requires s != [] && forall i :: 0 <= i < |s| ==> IsCnSmall(s[i])
    ensures CnToInt(s) >= 1
  {
    assert !IsAsciiDigit(s[0]);
    CnSmallScan(Acc(0, 0), s);
  }

  /** Reading a run of 一 … 十 from any state leaves a positive total or pending value. */
  lemma {:induction false} CnSmallScan(a: Acc, s: string)
    requires s != [] && forall i :: 0 <= i < |s| ==> IsCnSmall(s[i])
    ensures ScanFrom(a, s).total + ScanFrom(a, s).current >= 1
    decreases |s|
  {
    var b := Step(a, s[0]);
    assert b.total + b.current >= 1;
    if |s| > 1 {
      CnSmallScan(b, s[1..]);
    } else {
      assert ScanFrom(b, s[1..]) == b;
    }
  }

  /** `"#" * k + " " + title`, the Markdown heading of level `k`. */
  function MarkdownLine(k: nat, title: string): string
  {
    Repeat('#', k) + " " + title
  }

  function Repeat(c: char, k: nat): (r: string)
    ensures |r| == k && forall i :: 0 <= i < k ==> r[i] == c
  {
    if k == 0 then "" else [c] + Repeat(c, k - 1)
  }

  /**
   * Writing a Markdown heading and reading it back gives its level and its
   * title, for any title that is already stripped and does not open with "#".
   */
  lemma MarkdownRoundTrip(k: nat, title: string)
    requires 1 <= k <= 6
    requires title != [] && Strip(title) == title && title[0] != '#'
    ensures ParseHeadingLine(MarkdownLine(k, title)) == Parsed(k, title)
  {
    var s := MarkdownLine(k, title);
    assert !IsSpace(title[0]) && !IsSpace(title[|title| - 1]);
    assert s[0] == '#' && s[|s| - 1] == title[|title| - 1];
    StripPlain(s);
    MarkdownHeadingOf(k, title);
  }

  /** The Markdown pattern reads the level and the title back from a written heading. */
  lemma MarkdownHeadingOf(k: nat, title: string)
    requires 1 <= k <= 6
    requires title != [] && !IsSpace(title[0]) && title[0] != '#'
    ensures MarkdownHeading(MarkdownLine(k, title)) == Some(Parsed(k, title))
  {
    var s := MarkdownLine(k, title);
    assert s[k] == ' ' && s[k + 1] == title[0];
    PrefixLenIs(s, k, IsHash);
    SkipExact(s, k + 1, k + 1, IsSpace);
    assert s[k + 1..] == title;
  }

  /**
   * Writing a numbered heading `n、title` and reading it back gives the
   * number, capped at 6, and the title.
   */
  lemma NumberedRoundTrip(n: nat, title: string)
    requires title != [] && Strip(title) == title
    ensures ParseHeadingLine(NatToString(n) + "、" + title) == Parsed(Min(n, 6), title)
  {
    var d := NatToString(n);
    var s := d + "、" + title;
    assert !IsSpace(title[0]) && !IsSpace(title[|title| - 1]);
    assert s[0] == d[0] && s[|s| - 1] == title[|title| - 1];
    StripPlain(s);
    OnlyDigitForm(s);
    DigitHeadingOf(n, title);
  }

  lemma DigitRunOf(d: string, title: string)
    requires IsDigits(d)
    ensures PrefixLen(d + "、" + title, IsAsciiDigit) == |d|
  {
    var s := d + "、" + title;
    assert forall i :: 0 <= i < |d| ==> s[i] == d[i];
    PrefixLenIs(s, |d|, IsAsciiDigit);
  }

  /** A stripped line opening with neither "#" nor 一 … 十 can only be a digit-numbered heading. */
  lemma OnlyDigitForm(s: string)
    requires s != [] && Strip(s) == s && !IsHash(s[0]) && !IsCnSmall(s[0])
    ensures ParseHeadingLine(s) == (if DigitNumberedHeading(s).Some? then DigitNumberedHeading(s).value else Parsed(0, ""))
  {
    assert PrefixLen(s, IsHash) == 0;
    assert PrefixLen(s, IsCnSmall) == 0;
  }

  lemma DigitHeadingOf(n: nat, title: string)
    requires title != [] && !IsSpace(title[0])
    ensures DigitNumberedHeading(NatToString(n) + "、" + title) == Some(Parsed(Min(n, 6), title))
  {
    var d := NatToString(n);
    var s := d + "、" + title;
    DigitRunOf(d, title);
    SkipExact(s, |d| + 1, |d| + 1, IsSpace);
    assert s[..|d|] == d && s[|d| + 1..] == title;
    ParseNatToString(n);
  }

  // ---------------------------------------------------------------------
  // _normalize_heading
  // ---------------------------------------------------------------------

  /**
   * Step 1: `^第\s*([num]+)\s*<unit>\s*[:：]?` replaced by the numeral and
   * "、", for the unit 章 and then for the unit 节.
   */
  function NumberPrefix(text: string, unit: char): string
  {
    if text == [] || text[0] != '第' then text
    else
      var b := Skip(text, 1, IsSpace);
      var c := Skip(text, b, IsHeadingNumeral);
      var d := Skip(text, c, IsSpace);
      if c == b || d == |text| || text[d] != unit then text
      else
        var e := Skip(text, d + 1, IsSpace);
        var f := if e < |text| && (text[e] == ':' || text[e] == '：') then e + 1 else e;
        text[b..c] + "、" + text[f..]
  }

  /** `[、.:．。]`, the separators unified to ".". */
  predicate IsUnifiedSep(c: char) { c == '、' || c == '.' || c == ':' || c == '．' || c == '。' }

  /** Step 2: every separator becomes ".". */
  function UnifySeps(s: string): (r: string)
    ensures |r| == |s|
    ensures forall i :: 0 <= i < |r| ==> r[i] == (if IsUnifiedSep(s[i]) then '.' else s[i])
  {
    seq(|s|, i requires 0 <= i < |s| => if IsUnifiedSep(s[i]) then '.' else s[i])
  }

  /** Step 3: every maximal run of Chinese numerals becomes the decimal digits of its value. */
  function ReplaceNumeralRuns(s: string): (r: string)
    ensures forall i :: 0 <= i < |r| ==> !IsCnNumeral(r[i])
    ensures forall i :: 0 <= i < |r| ==> r[i] in s || IsAsciiDigit(r[i])
    decreases |s|
  {
    if s == [] then ""
    else if IsCnNumeral(s[0]) then
      var k := PrefixLen(s, IsCnNumeral);
      var digits := NatToString(CnToInt(s[..k]));
      var rest := ReplaceNumeralRuns(s[k..]);
      assert forall i :: 0 <= i < |rest| ==> rest[i] in s[k..] ==> rest[i] in s;
      digits + rest
    else
      var rest := ReplaceNumeralRuns(s[1..]);
      assert forall i :: 0 <= i < |rest| ==> rest[i] in s[1..] ==> rest[i] in s;
      [s[0]] + rest
  }

  /** `[（）()\[\]【】「」《》<>\*\-\+\s]`, the characters step 4 deletes. */
  predicate IsDeleted(c: char) {
    c == '（' || c == '）' || c == '(' || c == ')' || c == '[' || c == ']' || c == '【' || c == '】'
    || c == '「' || c == '」' || c == '《' || c == '》' || c == '<' || c == '>'
    || c == '*' || c == '-' || c == '+' || IsSpace(c)
  }

  predicate IsKept(c: char) { !IsDeleted(c) }

  /** A character no normalised heading contains. */
  predicate IsNormalizedAway(c: char) {
    IsDeleted(c) || IsCnNumeral(c) || c == '、' || c == ':' || c == '．' || c == '。'
  }

  /** What may follow the unit of a numbering prefix without being swallowed by it. */
  predicate PlainRest(t: string) { t == [] || (!IsSpace(t[0]) && t[0] != ':' && t[0] != '：') }

  /** A numeral run is never whitespace, so the prefix `第<d><unit>` is read exactly. */
  lemma NumberPrefixReads(d: string, unit: char, t: string)
    requires d != [] && forall i :: 0 <= i < |d| ==> IsHeadingNumeral(d[i])
    requires !IsHeadingNumeral(unit) && !IsSpace(unit) && PlainRest(t)
    ensures NumberPrefix("第" + d + [unit] + t, unit) == d + "、" + t
  {
    var s := "第" + d + [unit] + t;
    var c := 1 + |d|;
    assert forall k :: 1 <= k < c ==> s[k] == d[k - 1];
    assert !IsSpace(s[1]);
    SkipExact(s, 1, 1, IsSpace);
    SkipExact(s, 1, c, IsHeadingNumeral);
    SkipExact(s, c, c, IsSpace);
    SkipExact(s, c + 1, c + 1, IsSpace);
    assert s[1..c] == d && s[c + 1..] == t;
  }

  /** A prefix `第<d><other>` is left alone by the pass for `unit`. */
  lemma NumberPrefixOther(d: string, other: char, unit: char, t: string)
    requires d != [] && forall i :: 0 <= i < |d| ==> IsHeadingNumeral(d[i])
    requires !IsHeadingNumeral(other) && !IsSpace(other) && other != unit
    ensures NumberPrefix("第" + d + [other] + t, unit) == "第" + d + [other] + t
  {
    var s := "第" + d + [other] + t;
    var c := 1 + |d|;
    assert forall k :: 1 <= k < c ==> s[k] == d[k - 1];
    assert !IsSpace(s[1]);
    SkipExact(s, 1, 1, IsSpace);
    SkipExact(s, 1, c, IsHeadingNumeral);
    SkipExact(s, c, c, IsSpace);
  }

  /** A text that does not open with 第 has no numbering prefix to rewrite. */
  lemma NoNumberPrefix(s: string)
    requires s == [] || s[0] != '第'
    ensures NumberPrefixes(s) == s
  {
  }

  /**
   * Step 1's purpose: a heading numbered `第<d>章` or `第<d>节` normalises
   * exactly as the same heading numbered `<d>、`.
   */
  lemma ChapterNumberingUnified(d: string, t: string)
    requires d != [] && forall i :: 0 <= i < |d| ==> IsHeadingNumeral(d[i])
    requires PlainRest(t)
    ensures NormalizeHeading("第" + d + "章" + t) == NormalizeHeading(d + "、" + t)
  {
    var s := "第" + d + "章" + t;
    var u := d + "、" + t;
    assert s == "第" + d + ['章'] + t;
    NumberPrefixReads(d, '章', t);
    assert u[0] == d[0];
    NoNumberPrefix(u);
    assert NumberPrefix(u, '节') == u;
    assert NumberPrefixes(s) == NumberPrefixes(u);
  }

  lemma SectionNumberingUnified(d: string, t: string)
    requires d != [] && forall i :: 0 <= i < |d| ==> IsHeadingNumeral(d[i])
    requires PlainRest(t)
    ensures NormalizeHeading("第" + d + "节" + t) == NormalizeHeading(d + "、" + t)
  {
    var s := "第" + d + "节" + t;
    var u := d + "、" + t;
    assert s == "第" + d + ['节'] + t;
    NumberPrefixOther(d, '节', '章', t);
    NumberPrefixReads(d, '节', t);
    assert u[0] == d[0];
    NoNumberPrefix(u);
    assert NumberPrefixes(s) == NumberPrefixes(u);
  }

  /** Neither a Chinese numeral nor a separator other than ".": what step 3 leaves. */
  predicate NoNumeralNoSep(c: char) { !IsCnNumeral(c) && (c == '.' || !IsUnifiedSep(c)) }

  /** Step 1 for both units: `第<n>章` and then `第<n>节` become `<n>、`. */
  function NumberPrefixes(text: string): string
  {
    NumberPrefix(NumberPrefix(text, '章'), '节')
  }

  /**
   * `_normalize_heading`: "" stays ""; otherwise the numbering prefix, then
   * the rest of the steps. Step 6 rewrites `<digits>.<digits>` to itself and
   * is left out as the identity.
   */
  function NormalizeHeading(text: string): (r: string)
    ensures text == "" ==> r == ""
    ensures forall i :: 0 <= i < |r| ==> !IsNormalizedAway(r[i])
  {
    if text == "" then "" else NormalizeBody(NumberPrefixes(text))
  }

  /**
   * Steps 2 to 5 and the final strip: the separators, the Chinese numerals,
   * the deletions, lower case. The result contains no whitespace, no deleted
   * character, no Chinese numeral and no separator other than ".".
   */
  function NormalizeBody(s1: string): (r: string)
    ensures forall i :: 0 <= i < |r| ==> !IsNormalizedAway(r[i])
  {
    var s2 := UnifySeps(s1);
    var s3 := ReplaceNumeralRuns(s2);
    var s4 := Filter(s3, IsKept);
    var s5 := Lower(s4);
    AfterRuns(s2, s3);
    AfterFilter(s3, s4);
    AfterLower(s4, s5);
    TrimKeeps(s5, IsSpace, IsNormalizedKept);
    Strip(s5)
  }

  predicate IsNormalizedKept(c: char) { !IsNormalizedAway(c) }

  lemma AfterRuns(s2: string, s3: string)
    requires forall i :: 0 <= i < |s2| ==> s2[i] == '.' || !IsUnifiedSep(s2[i])
    requires s3 == ReplaceNumeralRuns(s2)
    ensures forall j :: 0 <= j < |s3| ==> NoNumeralNoSep(s3[j])
  {
    forall j | 0 <= j < |s3|
      ensures NoNumeralNoSep(s3[j])
    {
      if !IsAsciiDigit(s3[j]) {
        assert s3[j] in s2;
        var k :| 0 <= k < |s2| && s2[k] == s3[j];
      }
    }
  }

  lemma AfterFilter(s3: string, s4: string)
    requires forall j :: 0 <= j < |s3| ==> NoNumeralNoSep(s3[j])
    requires s4 == Filter(s3, IsKept)
    ensures forall j :: 0 <= j < |s4| ==> NoNumeralNoSep(s4[j]) && IsKept(s4[j])
  {
    forall j | 0 <= j < |s4|
      ensures NoNumeralNoSep(s4[j])
    {
      assert s4[j] in s3;
      var k :| 0 <= k < |s3| && s3[k] == s4[j];
    }
  }

  lemma AfterLower(s4: string, s5: string)
    requires forall j :: 0 <= j < |s4| ==> NoNumeralNoSep(s4[j]) && IsKept(s4[j])
    requires s5 == Lower(s4)
    ensures forall j :: 0 <= j < |s5| ==> IsNormalizedKept(s5[j])
  {
    forall j | 0 <= j < |s5|
      ensures IsNormalizedKept(s5[j])
    {
      LowerKept(s4[j], s5[j]);
    }
  }

  lemma LowerKept(c: char, d: char)
    requires NoNumeralNoSep(c) && IsKept(c)
    requires d == c || 'a' <= d <= 'z'
    ensures IsNormalizedKept(d)
  {
  }

  /** A text without Chinese numerals goes through step 3 unchanged. */
  lemma {:induction false} ReplaceNoNumeral(s: string)
    requires forall i :: 0 <= i < |s| ==> !IsCnNumeral(s[i])
    ensures ReplaceNumeralRuns(s) == s
  {
    if s != [] {
      ReplaceNoNumeral(s[1..]);
    }
  }

  /** Characters of a `第<digits>章` heading, none of which any step rewrites. */
  predicate IsPlainChapterChar(c: char) { c == '第' || c == '章' || IsAsciiDigit(c) }

  /** Steps 2 to 5 leave a leading blank out and everything else of `第<digits>章` as it is. */
  lemma BodyOfPlainChapter(s: string)
    requires |s| >= 2 && s[0] == ' ' && s[1] == '第' && s[|s| - 1] == '章'
    requires forall i :: 1 <= i < |s| ==> IsPlainChapterChar(s[i])
    ensures NormalizeBody(s) == s[1..]
  {
    var t := s[1..];
    UnifyNoSep(s);
    ReplaceNoNumeral(s);
    FilterBlank(s, t);
    PlainChapterKept(t);
    FilterAll(t, IsKept);
    LowerNoUpper(t);
    StripPlain(t);
  }

  lemma UnifyNoSep(s: string)
    requires forall i :: 0 <= i < |s| ==> s[i] == ' ' || IsPlainChapterChar(s[i])
    ensures UnifySeps(s) == s && forall i :: 0 <= i < |s| ==> !IsCnNumeral(s[i])
  {
  }

  lemma FilterBlank(s: string, t: string)
    requires s != [] && s[0] == ' ' && t == s[1..]
    ensures Filter(s, IsKept) == Filter(t, IsKept)
  {
  }

  lemma PlainChapterKept(t: string)
    requires forall i :: 0 <= i < |t| ==> IsPlainChapterChar(t[i])
    ensures forall i :: 0 <= i < |t| ==> IsKept(t[i]) && !('A' <= t[i] <= 'Z')
  {
  }

  /** Steps 2 to 5 turn `<digits>、` into `<digits>.`. */
  lemma BodyOfNumbered(d: string)
    requires IsDigits(d)
    ensures NormalizeBody(d + "、") == d + "."
  {
    var u := UnifySeps(d + "、");
    assert u == d + ".";
    ReplaceNoNumeral(u);
    FilterAll(u, IsKept);
    LowerNoUpper(u);
    StripPlain(u);
  }

  /**
   * Normalising twice is not normalising once: a blank before `第<d>章`
   * shields it from step 1, step 4 then removes the blank, and a second
   * pass reads the numbering prefix.
   */
  lemma NormalizeNotIdempotent(d: string)
    requires IsDigits(d)
    ensures NormalizeHeading(" 第" + d + "章") == "第" + d + "章"
    ensures NormalizeHeading("第" + d + "章") == d + "."
    ensures NormalizeHeading(NormalizeHeading(" 第" + d + "章")) != NormalizeHeading(" 第" + d + "章")
  {
    ShieldedChapter(d);
    NumberedChapter(d);
    assert ("第" + d + "章")[0] != (d + ".")[0];
  }

  lemma ShieldedChapter(d: string)
    requires IsDigits(d)
    ensures NormalizeHeading(" 第" + d + "章") == "第" + d + "章"
  {
    var s := " 第" + d + "章";
    NoNumberPrefix(s);
    ShieldedChars(d, s);
    BodyOfPlainChapter(s);
  }

  lemma ShieldedChars(d: string, s: string)
    requires IsDigits(d) && s == " 第" + d + "章"
    ensures |s| >= 2 && s[0] == ' ' && s[1] == '第' && s[|s| - 1] == '章'
    ensures forall i :: 1 <= i < |s| ==> IsPlainChapterChar(s[i])
    ensures s[1..] == "第" + d + "章"
  {
    assert forall i :: 2 <= i < |s| - 1 ==> s[i] == d[i - 2];
  }

  lemma NumberedChapter(d: string)
    requires IsDigits(d)
    ensures NormalizeHeading("第" + d + "章") == d + "."
  {
    assert forall i :: 0 <= i < |d| ==> IsHeadingNumeral(d[i]);
    NumberPrefixReads(d, '章', "");
    assert "第" + d + "章" == "第" + d + ['章'] + "";
    assert d + "、" + "" == d + "、";
    NoNumberPrefix(d + "、");
    assert NumberPrefixes("第" + d + "章") == d + "、";
    BodyOfNumbered(d);
  }

  // ---------------------------------------------------------------------
  // _build_heading_tree
  // ---------------------------------------------------------------------

  /**
   * A heading of the document: its level, its stripped line, its normalised
   * title, and the span `text.find(line)` gives it.
   */
  datatype HeadingNode = HeadingNode(level: nat, text: string, normalizedText: string, startPos: int, endPos: int)

  /**
   * The forest as an arena: `children[j]` lists the indices of node `j`'s
   * children and `roots` the top-level nodes, both in document order.
   */
  datatype HeadingForest = HeadingForest(nodes: seq<HeadingNode>, children: seq<seq<nat>>, roots: seq<nat>)

  /** The node a line makes, when it parses as a heading. */
  function NodeOf(text: string, line: string): (r: Option<HeadingNode>)
    ensures r.Some? ==> 1 <= r.value.level <= 6
    ensures r.Some? ==> r.value.startPos == Find(text, line) && r.value.endPos == r.value.startPos + |line|
  {
    var p := ParseHeadingLine(line);
    if p.level > 0 then
      var start := Find(text, line);
      Some(HeadingNode(p.level, Strip(line), NormalizeHeading(p.title), start, start + |line|))
    else None
  }

  /** `NodeOf` for the lines of one text. */
  function NodeFor(text: string): string -> Option<HeadingNode>
  {
    line => NodeOf(text, line)
  }

  /** The nodes `node` makes of `lines`, in document order. */
  function HeadingNodes(lines: seq<string>, node: string -> Option<HeadingNode>): seq<HeadingNode>
  {
    if lines == [] then []
    else
      var front := HeadingNodes(lines[..|lines| - 1], node);
      var n := node(lines[|lines| - 1]);
      if n.Some? then front + [n.value] else front
  }

  /** The latest node before `i` whose level is below `lv`, or -1 when there is none. */
  function ParentFrom(nodes: seq<HeadingNode>, lv: nat, i: nat): (p: int)
    requires i <= |nodes|
    ensures -1 <= p < i
    ensures p >= 0 ==> nodes[p].level < lv
    ensures forall m :: p < m < i ==> nodes[m].level >= lv
  {
    if i == 0 then -1
    else if nodes[i - 1].level < lv then i - 1
    else ParentFrom(nodes, lv, i - 1)
  }

  /** The parent of node `j`: the nearest earlier node of a smaller level, or -1 for a root. */
  function Parent(nodes: seq<HeadingNode>, j: nat): int
    requires j < |nodes|
  {
    ParentFrom(nodes, nodes[j].level, j)
  }

  /** The nodes before `n` whose parent is `p`, in document order (`p == -1`: the roots). */
  function ChildrenUpTo(nodes: seq<HeadingNode>, p: int, n: nat): seq<nat>
    requires n <= |nodes|
  {
    if n == 0 then []
    else ChildrenUpTo(nodes, p, n - 1) + (if Parent(nodes, n - 1) == p then [n - 1] else [])
  }

  /**
   * A child list holds exactly the nodes whose parent is its owner, each
   * once and in document order: every heading sits in exactly one list.
   */
  lemma {:induction false} ChildrenMembers(nodes: seq<HeadingNode>, p: int, n: nat)
    requires n <= |nodes|
    ensures forall a :: 0 <= a < |ChildrenUpTo(nodes, p, n)| ==>
      ChildrenUpTo(nodes, p, n)[a] < n && Parent(nodes, ChildrenUpTo(nodes, p, n)[a]) == p
    ensures forall j :: 0 <= j < n && Parent(nodes, j) == p ==> j in ChildrenUpTo(nodes, p, n)
    ensures forall a, b :: 0 <= a < b < |ChildrenUpTo(nodes, p, n)| ==>
      ChildrenUpTo(nodes, p, n)[a] < ChildrenUpTo(nodes, p, n)[b]
  {
    if n > 0 {
      ChildrenMembers(nodes, p, n - 1);
    }
  }

  /** The forest `_build_heading_tree` returns for `text`. */
  function HeadingTree(text: string): HeadingForest
  {
    ForestOf(SplitOn(text, "\n"), NodeFor(text))
  }

  /** The forest of the nodes `node` makes of `lines`. */
  function ForestOf(lines: seq<string>, node: string -> Option<HeadingNode>): HeadingForest
  {
    var nodes := HeadingNodes(lines, node);
    HeadingForest(nodes, seq(|nodes|, p requires 0 <= p < |nodes| => ChildrenUpTo(nodes, p, |nodes|)),
      ChildrenUpTo(nodes, -1, |nodes|))
  }

  /** The stack of open headings: increasing in position and in level, and it covers every node so far. */
  ghost predicate StackInv(nodes: seq<HeadingNode>, stack: seq<nat>)
  {
    (forall a :: 0 <= a < |stack| ==> stack[a] < |nodes|)
    && (forall a, b :: 0 <= a < b < |stack| ==> stack[a] < stack[b] && nodes[stack[a]].level < nodes[stack[b]].level)
    && (forall m :: 0 <= m < |nodes| ==> Covered(nodes, stack, m))
  }

  /** Node `m` is open, or an open heading after it has a level no greater than its own. */
  ghost predicate Covered(nodes: seq<HeadingNode>, stack: seq<nat>, m: nat)
    requires m < |nodes| && forall a :: 0 <= a < |stack| ==> stack[a] < |nodes|
  {
    exists b :: 0 <= b < |stack| && m <= stack[b] && nodes[stack[b]].level <= nodes[m].level
  }

  /**
   * `_build_heading_tree`: split into lines, and for every heading line pop
   * the open headings whose level is at least the new one, attach the new
   * node under the remaining top (or as a root), and push it.
   */
  method BuildHeadingTree(text: string) returns (f: HeadingForest)
    ensures f == HeadingTree(text)
  {
    f := BuildForest(SplitOn(text, "\n"), NodeFor(text));
    ForestSoFarIs(f.nodes, f.children, f.roots);
  }

  /** The loop of `_build_heading_tree` over the lines, for any way `node` of reading a line. */
  method BuildForest(lines: seq<string>, node: string -> Option<HeadingNode>) returns (f: HeadingForest)
    ensures f.nodes == HeadingNodes(lines, node) && ForestSoFar(f.nodes, f.children, f.roots)
  {
    var nodes, children, roots := BuildForestLoop(lines, node);
    assert lines[..|lines|] == lines;
    f := HeadingForest(nodes, children, roots);
  }

  /** The loop itself: the stack of open headings, and each node attached under the top of the stack. */
  method BuildForestLoop(lines: seq<string>, node: string -> Option<HeadingNode>)
    returns (nodes: seq<HeadingNode>, children: seq<seq<nat>>, roots: seq<nat>)
    ensures nodes == HeadingNodes(lines[..|lines|], node) && ForestSoFar(nodes, children, roots)
  {
    nodes, children, roots := [], [], [];
    var stack: seq<nat> := [];
    EmptyForest();
    assert lines[..0] == [];
    for i := 0 to |lines|
      invariant nodes == HeadingNodes(lines[..i], node)
      invariant ForestSoFar(nodes, children, roots)
      invariant StackInv(nodes, stack)
    {
      NodesStep(lines, i, node);
      var n := node(lines[i]);
      if n.Some? {
        children, roots, stack := Attach(nodes, children, roots, stack, n.value);
        nodes := nodes + [n.value];
      }
    }
  }

  /** No nodes: no child lists, no roots and an empty stack. */
  lemma EmptyForest()
    ensures ForestSoFar([], [], []) && StackInv([], [])
  {
  }

  /** One more line adds its node, if it has one. */
  lemma NodesStep(lines: seq<string>, i: nat, node: string -> Option<HeadingNode>)
    requires i < |lines|
    ensures node(lines[i]).Some? ==> HeadingNodes(lines[..i + 1], node) == HeadingNodes(lines[..i], node) + [node(lines[i]).value]
    ensures node(lines[i]).None? ==> HeadingNodes(lines[..i + 1], node) == HeadingNodes(lines[..i], node)
  {
    assert lines[..i + 1][..i] == lines[..i];
  }

  /** The child lists and roots built so far are those of the nodes so far. */
  ghost predicate ForestSoFar(nodes: seq<HeadingNode>, children: seq<seq<nat>>, roots: seq<nat>)
  {
    |children| == |nodes|
    && (forall p :: 0 <= p < |nodes| ==> children[p] == ChildrenUpTo(nodes, p, |nodes|))
    && roots == ChildrenUpTo(nodes, -1, |nodes|)
  }

  lemma ForestSoFarIs(nodes: seq<HeadingNode>, children: seq<seq<nat>>, roots: seq<nat>)
    requires ForestSoFar(nodes, children, roots)
    ensures HeadingForest(nodes, children, roots)
      == HeadingForest(nodes, seq(|nodes|, p requires 0 <= p < |nodes| => ChildrenUpTo(nodes, p, |nodes|)),
           ChildrenUpTo(nodes, -1, |nodes|))
  {
  }

  /**
   * One heading of the loop: pop, attach the node under the remaining top
   * (or as a root), push.
   */
  method Attach(nodes: seq<HeadingNode>, children: seq<seq<nat>>, roots: seq<nat>, stack: seq<nat>, nd: HeadingNode)
    returns (children': seq<seq<nat>>, roots': seq<nat>, stack': seq<nat>)
    requires ForestSoFar(nodes, children, roots) && StackInv(nodes, stack)
    ensures ForestSoFar(nodes + [nd], children', roots') && StackInv(nodes + [nd], stack')
  {
    var k := |nodes|;
    var rest := PopAbove(nodes, stack, nd.level);
    ParentIsTop(nodes, stack, rest, nd.level);
    PushKeepsStack(nodes, stack, rest, nd);
    ghost var parent := ParentFrom(nodes, nd.level, k);
    AttachKeepsChildren(nodes, nd, children, roots, parent);
    children', roots' := children, roots;
    if rest != [] {
      var top := rest[|rest| - 1];
      children' := children'[top := children'[top] + [k]];
    } else {
      roots' := roots' + [k];
    }
    children' := children' + [[]];
    assert children' == Attached(children, parent, k);
    stack' := rest + [k];
  }

  /** The inner `while`: pop every open heading whose level is at least `lv`. */
  method PopAbove(nodes: seq<HeadingNode>, stack: seq<nat>, lv: nat) returns (rest: seq<nat>)
    requires forall a :: 0 <= a < |stack| ==> stack[a] < |nodes|
    ensures |rest| <= |stack| && rest == stack[..|rest|]
    ensures forall b :: |rest| <= b < |stack| ==> nodes[stack[b]].level >= lv
    ensures rest != [] ==> nodes[rest[|rest| - 1]].level < lv
  {
    rest := stack;
    while rest != [] && nodes[rest[|rest| - 1]].level >= lv
      invariant |rest| <= |stack| && rest == stack[..|rest|]
      invariant forall b :: |rest| <= b < |stack| ==> nodes[stack[b]].level >= lv
    {
      rest := rest[..|rest| - 1];
    }
  }

  /** After popping, the top of the stack is the new node's parent. */
  lemma ParentIsTop(nodes: seq<HeadingNode>, stack: seq<nat>, rest: seq<nat>, lv: nat)
    requires StackInv(nodes, stack)
    requires |rest| <= |stack| && rest == stack[..|rest|]
    requires forall b :: |rest| <= b < |stack| ==> nodes[stack[b]].level >= lv
    requires rest != [] ==> nodes[rest[|rest| - 1]].level < lv
    ensures ParentFrom(nodes, lv, |nodes|) == if rest == [] then -1 else rest[|rest| - 1]
  {
    var top := if rest == [] then -1 else rest[|rest| - 1];
    forall m | top < m < |nodes|
      ensures nodes[m].level >= lv
    {
      assert Covered(nodes, stack, m);
      var b :| 0 <= b < |stack| && m <= stack[b] && nodes[stack[b]].level <= nodes[m].level;
    }
    ParentFromIs(nodes, lv, |nodes|, top);
  }

  /** Pushing the new node on what is left after popping keeps the stack invariant. */
  lemma PushKeepsStack(nodes: seq<HeadingNode>, stack: seq<nat>, rest: seq<nat>, node: HeadingNode)
    requires StackInv(nodes, stack)
    requires |rest| <= |stack| && rest == stack[..|rest|]
    requires forall b :: |rest| <= b < |stack| ==> nodes[stack[b]].level >= node.level
    requires rest != [] ==> nodes[rest[|rest| - 1]].level < node.level
    ensures StackInv(nodes + [node], rest + [|nodes|])
  {
    var k := |nodes|;
    var nodes' := nodes + [node];
    var stack' := rest + [k];
    forall m | 0 <= m < |nodes'|
      ensures Covered(nodes', stack', m)
    {
      if m == k {
        assert stack'[|rest|] == k;
      } else {
        assert Covered(nodes, stack, m);
        var b :| 0 <= b < |stack| && m <= stack[b] && nodes[stack[b]].level <= nodes[m].level;
        if b < |rest| {
          assert stack'[b] == stack[b];
        } else {
          assert stack'[|rest|] == k;
        }
      }
    }
  }

  /** `ParentFrom` is the only index with its three properties. */
  lemma ParentFromIs(nodes: seq<HeadingNode>, lv: nat, i: nat, p: int)
    requires i <= |nodes| && -1 <= p < i
    requires p >= 0 ==> nodes[p].level < lv
    requires forall m :: p < m < i ==> nodes[m].level >= lv
    ensures ParentFrom(nodes, lv, i) == p
  {
  }

  /** Appending a node changes no parent of an earlier node. */
  lemma ParentFromPrefix(nodes: seq<HeadingNode>, node: HeadingNode, lv: nat, i: nat)
    requires i <= |nodes|
    ensures ParentFrom(nodes + [node], lv, i) == ParentFrom(nodes, lv, i)
  {
    var p := ParentFrom(nodes, lv, i);
    assert forall m :: 0 <= m < i ==> (nodes + [node])[m] == nodes[m];
    ParentFromIs(nodes + [node], lv, i, p);
  }

  /** Appending a node changes no earlier child list. */
  lemma {:induction false} ChildrenPrefix(nodes: seq<HeadingNode>, node: HeadingNode, p: int, n: nat)
    requires n <= |nodes|
    ensures ChildrenUpTo(nodes + [node], p, n) == ChildrenUpTo(nodes, p, n)
  {
    if n > 0 {
      ChildrenPrefix(nodes, node, p, n - 1);
      ParentFromPrefix(nodes, node, nodes[n - 1].level, n - 1);
    }
  }

  /** The child lists after node `k` is attached under `parent` (a root when -1) and given an empty list of its own. */
  function Attached(children: seq<seq<nat>>, parent: int, k: nat): seq<seq<nat>>
    requires parent < |children|
  {
    (if parent >= 0 then children[parent := children[parent] + [k]] else children) + [[]]
  }

  /** The child lists after attaching node `|nodes|` under `parent`. */
  lemma AttachKeepsChildren(nodes: seq<HeadingNode>, node: HeadingNode, children: seq<seq<nat>>, roots: seq<nat>, parent: int)
    requires ForestSoFar(nodes, children, roots)
    requires parent == ParentFrom(nodes, node.level, |nodes|)
    ensures ForestSoFar(nodes + [node], Attached(children, parent, |nodes|),
      if parent == -1 then roots + [|nodes|] else roots)
  {
    AttachedLists(nodes, node, children, roots, parent);
    AttachedRoots(nodes, node, roots, parent);
  }

  /** Every child list after the attachment is the one of the longer sequence. */
  lemma AttachedLists(nodes: seq<HeadingNode>, node: HeadingNode, children: seq<seq<nat>>, roots: seq<nat>, parent: int)
    requires ForestSoFar(nodes, children, roots)
    requires parent == ParentFrom(nodes, node.level, |nodes|)
    ensures |Attached(children, parent, |nodes|)| == |nodes| + 1
    ensures forall p :: 0 <= p < |nodes| + 1 ==>
      Attached(children, parent, |nodes|)[p] == ChildrenUpTo(nodes + [node], p, |nodes| + 1)
  {
    forall p | 0 <= p < |nodes| + 1
      ensures Attached(children, parent, |nodes|)[p] == ChildrenUpTo(nodes + [node], p, |nodes| + 1)
    {
      AttachedAt(nodes, node, children, roots, parent, p);
    }
  }

  /** A node without a parent is appended to the roots; any other leaves them as they are. */
  lemma AttachedRoots(nodes: seq<HeadingNode>, node: HeadingNode, roots: seq<nat>, parent: int)
    requires roots == ChildrenUpTo(nodes, -1, |nodes|)
    requires parent == ParentFrom(nodes, node.level, |nodes|)
    ensures (if parent == -1 then roots + [|nodes|] else roots) == ChildrenUpTo(nodes + [node], -1, |nodes| + 1)
  {
    ChildrenStep(nodes, node, -1, parent);
  }

  lemma AttachedAt(nodes: seq<HeadingNode>, node: HeadingNode, children: seq<seq<nat>>, roots: seq<nat>, parent: int, p: nat)
    requires ForestSoFar(nodes, children, roots)
    requires parent == ParentFrom(nodes, node.level, |nodes|)
    requires p <= |nodes|
    ensures Attached(children, parent, |nodes|)[p] == ChildrenUpTo(nodes + [node], p, |nodes| + 1)
  {
    ChildrenStep(nodes, node, p, parent);
    if p == |nodes| {
      NoChildrenYet(nodes, p, |nodes|);
    } else {
      assert children[p] == ChildrenUpTo(nodes, p, |nodes|);
    }
  }

  /** One more node adds itself to its parent's list and to no other. */
  lemma ChildrenStep(nodes: seq<HeadingNode>, node: HeadingNode, p: int, parent: int)
    requires parent == ParentFrom(nodes, node.level, |nodes|)
    ensures ChildrenUpTo(nodes + [node], p, |nodes| + 1)
      == ChildrenUpTo(nodes, p, |nodes|) + (if p == parent then [|nodes|] else [])
  {
    ParentFromPrefix(nodes, node, node.level, |nodes|);
    ChildrenPrefix(nodes, node, p, |nodes|);
  }

  /** No node has a later node as its parent. */
  lemma {:induction false} NoChildrenYet(nodes: seq<HeadingNode>, p: int, n: nat)
    requires n <= |nodes| && p >= n
    ensures ChildrenUpTo(nodes, p, n) == []
  {
    if n > 0 {
      NoChildrenYet(nodes, p, n - 1);
    }
  }

  // Properties of the forest

  /** A child sits after its parent and has a strictly greater level. */
  lemma ChildDeeper(nodes: seq<HeadingNode>, p: nat, n: nat, c: nat)
    requires p < n <= |nodes|
    requires c in ChildrenUpTo(nodes, p, n)
    ensures p < c < n && nodes[p].level < nodes[c].level
  {
    ChildrenMembers(nodes, p, n);
  }

  /** A node is a root exactly when no earlier node has a smaller level. */
  lemma RootIff(nodes: seq<HeadingNode>, j: nat)
    requires j < |nodes|
    ensures Parent(nodes, j) == -1 <==> forall m :: 0 <= m < j ==> nodes[m].level >= nodes[j].level
  {
    var p := Parent(nodes, j);
    if p >= 0 {
      assert nodes[p].level < nodes[j].level;
    }
  }

  /**
   * The forest does not cross document order: every node between a node
   * and its parent descends from that parent, so a pre-order walk of the
   * forest visits the headings in document order.
   */
  lemma NoCrossing(nodes: seq<HeadingNode>, i: nat, j: nat)
    requires i < j < |nodes| && Parent(nodes, j) < i
    ensures Parent(nodes, j) <= Parent(nodes, i)
    ensures Parent(nodes, j) >= 0 ==> nodes[Parent(nodes, j)].level < nodes[i].level
  {
    var p := Parent(nodes, j);
    assert nodes[i].level >= nodes[j].level;
    if p >= 0 {
      var q := Parent(nodes, i);
      if q < p {
        assert nodes[p].level < nodes[i].level;
      }
    }
  }

  /**
   * `start_pos` is `text.find(line)`: line `k` of the text occurs there, at
   * or before the line's own position.
   */
  lemma HeadingOffset(text: string, k: nat)
    requires k < |SplitOn(text, "\n")|
    ensures 0 <= Find(text, SplitOn(text, "\n")[k]) <= LineStart(SplitOn(text, "\n"), k)
    ensures OccursAt(text, SplitOn(text, "\n")[k], Find(text, SplitOn(text, "\n")[k]))
  {
    var lines := SplitOn(text, "\n");
    JoinSplit(text, "\n");
    LineAt(lines, k);
    assert OccursAt(text, lines[k], LineStart(lines, k));
  }

  /**
   * A heading line repeated later in the text gets the offset of its first
   * occurrence, which lies before the later line: the later node's span does
   * not point at its own line.
   */
  lemma RepeatedHeadingOffset(text: string, i: nat, k: nat)
    requires i < k < |SplitOn(text, "\n")|
    requires SplitOn(text, "\n")[i] == SplitOn(text, "\n")[k]
    requires NodeOf(text, SplitOn(text, "\n")[k]).Some?
    ensures NodeOf(text, SplitOn(text, "\n")[k]).value.startPos < LineStart(SplitOn(text, "\n"), k)
  {
    var lines := SplitOn(text, "\n");
    HeadingOffset(text, i);
    LineStartGrows(lines, i, k);
  }
}
