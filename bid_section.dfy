/**
 * Locating chapters of a tender document written in Markdown
 * (backend/utils/extract_bid_section.py).
 *
 * Two extractions are modelled:
 *  - the "bid format" chapter: the last chapter heading that names the bid
 *    format (or, failing that, the last chapter heading), cut up to the next
 *    chapter heading, with every chapter heading removed and an outline of
 *    its `##`..`######` headings;
 *  - the "technical specification" chapter: a line-by-line state machine
 *    that starts at a chapter-four heading naming the technical
 *    specification and stops before the next heading that names the bid
 *    format.
 *
 * The regular expressions of `extract_bid_section.py` are written out as deterministic
 * parsers over one line; each parser accepts exactly the lines the
 * expression matches (backtracking included) when the line holds no
 * line break.
 */
module BidSection {
  import opened Wrappers
  import opened Text
  import opened Numerals

  // ---------------------------------------------------------------------
  // Line-break normalisation
  // ---------------------------------------------------------------------

  /** `md.replace("\r\n", "\n").replace("\r", "\n")`, in one left-to-right pass. */
  function Norm(s: string): (r: string)
    ensures '\r' !in r
    ensures |r| <= |s|
    decreases |s|
  {
    if s == [] then []
    else if s[0] == '\r' then "\n" + Norm(if |s| > 1 && s[1] == '\n' then s[2..] else s[1..])
    else [s[0]] + Norm(s[1..])
  }

  /** Text without a carriage return is left as it is; so normalising twice changes nothing. */
  lemma {:induction false} NormFixed(s: string)
    requires '\r' !in s
    ensures Norm(s) == s
    decreases |s|
  {
    if s != [] {
      NormFixed(s[1..]);
      assert s == [s[0]] + s[1..];
    }
  }

  lemma NormIdempotent(s: string)
    ensures Norm(Norm(s)) == Norm(s)
  {
    NormFixed(Norm(s));
  }

  /** The lines of the normalised text; no line holds a line break. */
  function Lines(md: string): (lines: seq<string>)
    ensures |lines| >= 1
    ensures forall k :: 0 <= k < |lines| ==> '\n' !in lines[k]
  {
    SplitPiecesFree(Norm(md), '\n');
    SplitOn(Norm(md), "\n")
  }

  // ---------------------------------------------------------------------
  // Character classes of the heading expressions
  // ---------------------------------------------------------------------

  predicate IsHash(c: char) { c == '#' }
  predicate IsStar(c: char) { c == '*' }

  /** `[：:\.．、\s-]`, the separators between "章" and a title. */
  predicate IsTitleSep(c: char) {
    c == '：' || c == ':' || c == '.' || c == '．' || c == '、' || c == '-' || IsSpace(c)
  }

  /** `[^\n#\r]`, the characters of a title. */
  predicate IsTitleChar(c: char) { c != '\n' && c != '#' && c != '\r' }

  /** The characters `" ：:．。.、-"` stripped from a bold heading's title. */
  predicate IsBoldJunk(c: char) {
    c == ' ' || c == '：' || c == ':' || c == '．' || c == '。' || c == '.' || c == '、' || c == '-'
  }

  // ---------------------------------------------------------------------
  // Chapter headings: RE_STRONG, RE_WEAK and RE_BOLD
  // ---------------------------------------------------------------------

  /** What RE_STRONG and RE_WEAK capture: the numeral and the title group. */
  datatype ChapterMatch = ChapterMatch(numeral: string, rest: string)

  /** A detected chapter heading: its number and its title. */
  datatype Heading = Heading(idx: nat, title: string)

  /**
   * `^\s*#{0,6}\s*\*{0,2}`: the position after the opening markup, or -1
   * when the line opens with more than six hashes or more than two stars
   * (no shorter choice can be followed by a numeral or "第").
   */
  function MarkupEnd(line: string): (p: int)
    ensures -1 <= p <= |line|
  {
    var a := Skip(line, 0, IsSpace);
    var b := Skip(line, a, IsHash);
    var c := Skip(line, b, IsSpace);
    var d := Skip(line, c, IsStar);
    if b - a > 6 || d - c > 2 then -1 else d
  }

  /**
   * `([^\n#\r]*)\*{0,2}\s*$` on the text after the separators: the greedy
   * group stops at the first line break, `#` or carriage return, and the
   * match succeeds only if nothing but whitespace follows it.
   */
  function TitleGroup(r: string): (g: Option<string>)
    ensures g.Some? ==> forall i :: 0 <= i < |g.value| ==> IsTitleChar(g.value[i])
  {
    var k := Skip(r, 0, IsTitleChar);
    if k == |r| then Some(r)
    else if r[k] != '#' && forall j :: k <= j < |r| ==> IsSpace(r[j]) then Some(r[..k])
    else None
  }

  /**
   * `([num]+)\s*章` at position `b`: the end of the numeral and the position
   * just after "章". A shorter numeral run is never followed by "章", so
   * the greedy run decides.
   */
  function ChapterMark(line: string, b: nat): (r: Option<(nat, nat)>)
    requires b <= |line|
    ensures r.Some? ==> b < r.value.0 < r.value.1 <= |line| && IsHeadingNumeral(line[b])
  {
    var c := Skip(line, b, IsHeadingNumeral);
    var d := Skip(line, c, IsSpace);
    if c == b || d == |line| || line[d] != '章' then None else Some((c, d + 1))
  }

  /**
   * `([num]+)\s*章`, a run of `sep` characters, then the title group, from
   * position `b`: the numeral and the title group.
   */
  function NumberedTitle(line: string, b: nat, sep: char -> bool): Option<ChapterMatch>
    requires b <= |line|
  {
    var m := ChapterMark(line, b);
    if m.None? then None
    else
      var g := TitleGroup(line[Skip(line, m.value.1, sep)..]);
      if g.None? then None else Some(ChapterMatch(line[b..m.value.0], g.value))
  }

  /** RE_STRONG: optional markup, optional "第", a numeral, "章", separators, a title. */
  function StrongMatch(line: string): Option<ChapterMatch>
  {
    var p := MarkupEnd(line);
    if p < 0 then None
    else NumberedTitle(line, Skip(line, if p < |line| && line[p] == '第' then p + 1 else p, IsSpace), IsTitleSep)
  }

  /** RE_WEAK: like RE_STRONG without "第" and with only whitespace after "章". */
  function WeakMatch(line: string): Option<ChapterMatch>
  {
    var p := MarkupEnd(line);
    if p < 0 then None else NumberedTitle(line, p, IsSpace)
  }

  /** The title group read as a title: `strip()`, then `rstrip('*')`, then `strip()`. */
  function CleanTitle(g: string): string
  {
    Strip(RTrim(Strip(g), IsStar))
  }

  /** `.{0,50}章.{0,50}`: no line break, and some "章" with at most 50 characters on each side. */
  predicate BoldBody(x: string) {
    '\n' !in x && exists k | 0 <= k < |x| :: x[k] == '章' && k <= 50 && |x| - k - 1 <= 50
  }

  /**
   * RE_BOLD, `^\s*\*{2}(.{0,50}章.{0,50})\*{2}\s*$`: the text between the
   * opening and the closing pair of stars.
   */
  function BoldMatch(line: string): Option<string>
  {
    var w := Skip(line, 0, IsSpace);
    var r := RStrip(line);
    if |r| < w + 4 || line[w..w + 2] != "**" || r[|r| - 2..] != "**" then None
    else
      var x := line[w + 2..|r| - 2];
      if BoldBody(x) then Some(x) else None
  }

  /** `第?\s*([num]+)\s*章` tried at position `p` of `x`. */
  function NumeralAt(x: string, p: nat): Option<string>
    requires p <= |x|
  {
    var a := if p < |x| && x[p] == '第' then p + 1 else p;
    var b := Skip(x, a, IsSpace);
    var c := Skip(x, b, IsHeadingNumeral);
    var d := Skip(x, c, IsSpace);
    if c > b && d < |x| && x[d] == '章' then Some(x[b..c]) else None
  }

  /** `re.search` of that pattern: the numeral of the leftmost match at or after `p`. */
  function SearchNumeral(x: string, p: nat): Option<string>
    requires p <= |x|
    decreases |x| - p
  {
    if p == |x| then None
    else
      match NumeralAt(x, p)
      case Some(n) => Some(n)
      case None => SearchNumeral(x, p + 1)
  }

  /** `text.split("章", 1)[-1]`. */
  function AfterFirstChapterMark(x: string): string
  {
    var k := Find(x, "章");
    if k < 0 then x else x[k + 1..]
  }

  /** `_detect_heading`: strong, then weak, then bold; `None` when none matches. */
  function DetectHeading(line: string): Option<Heading>
  {
    match StrongMatch(line)
    case Some(m) => Some(Heading(Cn2Int(m.numeral), CleanTitle(m.rest)))
    case None =>
      match WeakMatch(line)
      case Some(m) => Some(Heading(Cn2Int(m.numeral), CleanTitle(m.rest)))
      case None =>
        match BoldMatch(line)
        case None => None
        case Some(x) =>
          match SearchNumeral(x, 0)
          case None => None
          case Some(n) => Some(Heading(Cn2Int(n), Trim(AfterFirstChapterMark(x), IsBoldJunk)))
  }

  /** The title group accepts every suffix of a text it accepts. */
  lemma TitleGroupSuffix(r: string, j: nat)
    requires j <= |r| && TitleGroup(r).Some?
    ensures TitleGroup(r[j..]).Some?
  {
    var k := Skip(r, 0, IsTitleChar);
    var t := r[j..];
    var k' := Skip(t, 0, IsTitleChar);
    if k' < |t| {
      assert t[k'] == r[j + k'];
      assert k <= j + k';
      assert forall i :: k' <= i < |t| ==> t[i] == r[j + i];
    }
  }

  /**
   * Every line RE_WEAK accepts is already accepted by RE_STRONG, which is
   * tried first: the weak expression never decides a heading.
   */
  lemma WeakImpliesStrong(line: string)
    requires WeakMatch(line).Some?
    ensures StrongMatch(line).Some?
  {
    var p := MarkupEnd(line);
    NumeralNotSpace(line[p]);
    var a := if p < |line| && line[p] == '第' then p + 1 else p;
    assert a == p;
    assert Skip(line, a, IsSpace) == p;
    WiderSeparators(line, p);
  }

  /** Accepting more separators after "章" keeps a match. */
  lemma WiderSeparators(line: string, b: nat)
    requires b <= |line| && NumberedTitle(line, b, IsSpace).Some?
    ensures NumberedTitle(line, b, IsTitleSep).Some?
  {
    var e := ChapterMark(line, b).value.1;
    assert TitleGroup(line[Skip(line, e, IsSpace)..]).Some?;
    TitleAfterWiderSeparators(line, e);
    NumberedTitleSome(line, b, IsTitleSep);
  }

  lemma TitleAfterWiderSeparators(line: string, e: nat)
    requires e <= |line| && TitleGroup(line[Skip(line, e, IsSpace)..]).Some?
    ensures TitleGroup(line[Skip(line, e, IsTitleSep)..]).Some?
  {
    var ew := Skip(line, e, IsSpace);
    var es := Skip(line, e, IsTitleSep);
    SkipSpaceSep(line, e);
    TitleGroupSuffix(line[ew..], es - ew);
    assert line[ew..][es - ew..] == line[es..];
  }

  lemma SkipSpaceSep(line: string, e: nat)
    requires e <= |line|
    ensures Skip(line, e, IsSpace) <= Skip(line, e, IsTitleSep)
  {
    SkipMonotone(line, e, IsSpace, IsTitleSep);
  }

  lemma NumberedTitleSome(line: string, b: nat, sep: char -> bool)
    requires b <= |line| && ChapterMark(line, b).Some?
    requires TitleGroup(line[Skip(line, ChapterMark(line, b).value.1, sep)..]).Some?
    ensures NumberedTitle(line, b, sep).Some?
  {
  }

  lemma NumeralNotSpace(c: char)
    requires IsHeadingNumeral(c)
    ensures !IsSpace(c) && c != '第'
  {
  }

  /** A line with a detected heading is never empty. */
  lemma HeadingNonEmpty(line: string)
    requires DetectHeading(line).Some?
    ensures line != []
  {
  }

  // ---------------------------------------------------------------------
  // Table-of-contents lines
  // ---------------------------------------------------------------------

  /** `_is_toc_line`: a Word anchor, a Markdown link, or a "目录" line with dot leaders or a link. */
  predicate IsTocLine(line: string)
  {
    var s := Strip(line);
    s != []
    && (Contains(s, "#_Toc")
        || (StartsWith(s, "**[") && Contains(s, "]("))
        || (StartsWith(s, "[") && Contains(s, "](#"))
        || (Contains(s, "目录") && (Contains(s, "..") || Contains(s, ". .") || Contains(s, "]("))))
  }

  // ---------------------------------------------------------------------
  // The technical-specification chapter
  // ---------------------------------------------------------------------

  const TechKeywords: seq<string> := ["技术规格书", "技术规范", "技术标准及规格", "技术标准", "技术条件"]
  const StopKeywords: seq<string> := ["投标文件格式", "投标格式", "投标模板"]

  /** A heading that opens the capture: chapter four, untitled or naming the technical specification. */
  predicate IsTechStart(line: string) {
    var h := DetectHeading(line);
    h.Some? && h.value.idx == 4 && (h.value.title == "" || ContainsAny(h.value.title, TechKeywords))
  }

  /**
   * A heading that ends the capture, tested as `extract_tech_spec_section`
   * tests it: a chapter-five heading whose title names the bid format, or any heading
   * whose title names the bid format.
   */
  predicate IsStop(line: string) {
    var h := DetectHeading(line);
    h.Some?
    && (((Contains(line, "第五章") || Contains(line, "第5章"))
         && h.value.title != "" && ContainsAny(h.value.title, StopKeywords))
        || (h.value.title != "" && ContainsAny(h.value.title, StopKeywords)))
  }

  /** The chapter-five branch adds nothing: only the title decides a stop. */
  lemma StopOnlyByTitle(line: string)
    ensures IsStop(line) <==>
      var h := DetectHeading(line);
      h.Some? && h.value.title != "" && ContainsAny(h.value.title, StopKeywords)
  {
  }

  /** A chapter-one heading that is not a table-of-contents entry: where the body starts. */
  predicate IsBodyStart(line: string) {
    var h := DetectHeading(line);
    h.Some? && h.value.idx == 1 && !IsTocLine(line)
  }

  /** The first line among the first `limit` lines satisfying `p`, or 0 when there is none. */
  function FirstBelow(lines: seq<string>, limit: nat, p: string -> bool): (b: nat)
    ensures b <= |lines|
  {
    var k := FirstFrom(lines, 0, p);
    if k < limit && k < |lines| then k else 0
  }

  /** Where the body starts: the first body-start line among the first 200 lines, or 0. */
  function BodyStart(lines: seq<string>): (b: nat)
    ensures b <= |lines|
  {
    FirstBelow(lines, 200, IsBodyStart)
  }

  /** The captured lines from the start line `s` up to, not including, line `e`. */
  function Captured(lines: seq<string>, s: nat, e: nat, includeHeading: bool): seq<string>
    requires s < e <= |lines|
  {
    if includeHeading then lines[s..e] else lines[s + 1..e]
  }

  /**
   * From the first `start` line at or after `b` up to, not including, the
   * first later `stop` line (or the end), joined and with leading and
   * trailing line breaks removed; `None` without a `start` line.
   */
  function Section(lines: seq<string>, b: nat, start: string -> bool, stop: string -> bool,
                   includeHeading: bool): Option<string>
    requires b <= |lines|
  {
    var s := FirstFrom(lines, b, start);
    if s == |lines| then None
    else
      Some(Excerpt(lines, s, FirstFrom(lines, s + 1, stop), includeHeading))
  }

  /** The captured lines joined, with leading and trailing line breaks removed. */
  function Excerpt(lines: seq<string>, s: nat, e: nat, includeHeading: bool): string
    requires s < e <= |lines|
  {
    Trim(Join(Captured(lines, s, e, includeHeading), "\n"), IsNewline)
  }

  /** The section `extract_tech_spec_section` returns. */
  function TechSpecSection(md: string, includeHeading: bool): Option<string>
  {
    var lines := Lines(md);
    Section(lines, BodyStart(lines), IsTechStart, IsStop, includeHeading)
  }

  /** The two states of the scan. */
  datatype ScanState = Outside | InTech

  /** One step of a first-match search: a line that does not match is passed over. */
  lemma FirstFromPass(lines: seq<string>, j: nat, p: string -> bool)
    requires j < |lines| && !p(lines[j])
    ensures FirstFrom(lines, j, p) == FirstFrom(lines, j + 1, p)
  {
  }

  /** One step of a first-match search: a matching line is the answer. */
  lemma FirstFromHit(lines: seq<string>, j: nat, p: string -> bool)
    requires j < |lines| && p(lines[j])
    ensures FirstFrom(lines, j, p) == j
  {
  }

  /** `for i, ln in enumerate(lines[:limit]): if p(ln): found = i; break`, with 0 when nothing is found. */
  method FindFirstBelow(lines: seq<string>, limit: nat, p: string -> bool) returns (found: nat)
    ensures found == FirstBelow(lines, limit, p)
  {
    found := 0;
    var n := if |lines| < limit then |lines| else limit;
    var i := 0;
    while i < n
      invariant 0 <= i <= n
      invariant FirstFrom(lines, 0, p) >= i
    {
      if p(lines[i]) {
        found := i;
        return;
      }
      i := i + 1;
    }
  }

  /**
   * The two-state scan of `extract_tech_spec_section` from line `b`: outside,
   * a `start` line opens the capture (kept when `includeHeading`); inside,
   * a `stop` line ends the scan and every other line is kept.
   */
  method ScanSection(lines: seq<string>, b: nat, start: string -> bool, stop: string -> bool,
                     includeHeading: bool) returns (r: Option<string>)
    requires b <= |lines|
    ensures r == Section(lines, b, start, stop, includeHeading)
  {
    var state := Outside;
    var buf: seq<string> := [];
    var captured := false;
    ghost var s: nat := 0;
    ghost var from: nat := 0;
    var j := b;
    while j < |lines|
      invariant b <= j <= |lines|
      invariant captured <==> state == InTech
      invariant state == Outside ==> buf == [] && forall k :: b <= k < j ==> !start(lines[k])
      invariant state == InTech ==>
        b <= s < j && start(lines[s]) && (forall k :: b <= k < s ==> !start(lines[k]))
        && (forall k :: s < k < j ==> !stop(lines[k]))
        && (includeHeading ==> from == s) && (!includeHeading ==> from == s + 1) && from <= j
        && |buf| == j - from && forall k :: 0 <= k < |buf| ==> buf[k] == lines[from + k]
    {
      var ln := lines[j];
      if state == Outside {
        if start(ln) {
          state := InTech;
          captured := true;
          s := j;
          if includeHeading {
            buf := buf + [ln];
            from := j;
          } else {
            from := j + 1;
          }
        }
      } else {
        if stop(ln) {
          break;
        }
        buf := buf + [ln];
      }
      j := j + 1;
    }

    if !captured {
      FirstFromIs(lines, b, start, |lines|);
      return None;
    }
    FirstFromIs(lines, b, start, s);
    FirstFromIs(lines, s + 1, stop, j);
    SectionOf(lines, b, start, stop, includeHeading, s, j, buf);
    return Some(Trim(Join(buf, "\n"), IsNewline));
  }

  /** `FirstFrom` is characterised by its result: no match before it, and a match at it unless it is the end. */
  lemma {:induction false} FirstFromIs(lines: seq<string>, i: nat, p: string -> bool, r: nat)
    requires i <= r <= |lines|
    requires forall k :: i <= k < r ==> !p(lines[k])
    requires r < |lines| ==> p(lines[r])
    ensures FirstFrom(lines, i, p) == r
    decreases r - i
  {
    if i < r {
      FirstFromIs(lines, i + 1, p, r);
    }
  }

  /** The section, once its start line `s`, its end `e` and its captured lines are known. */
  lemma SectionOf(lines: seq<string>, b: nat, start: string -> bool, stop: string -> bool,
                  includeHeading: bool, s: nat, e: nat, buf: seq<string>)
    requires b <= s < e <= |lines|
    requires FirstFrom(lines, b, start) == s && FirstFrom(lines, s + 1, stop) == e
    requires var from := if includeHeading then s else s + 1;
      |buf| == e - from && forall k :: 0 <= k < |buf| ==> buf[k] == lines[from + k]
    ensures Section(lines, b, start, stop, includeHeading) == Some(Trim(Join(buf, "\n"), IsNewline))
  {
    var from := if includeHeading then s else s + 1;
    CopiedSlice(lines, from, e, buf);
    assert Captured(lines, s, e, includeHeading) == buf;
    SectionIs(lines, b, start, stop, includeHeading, s, e);
  }

  /** The section is the trimmed join of the lines captured between its start `s` and its end `e`. */
  lemma SectionIs(lines: seq<string>, b: nat, start: string -> bool, stop: string -> bool,
                  includeHeading: bool, s: nat, e: nat)
    requires b <= s < e <= |lines|
    requires FirstFrom(lines, b, start) == s && FirstFrom(lines, s + 1, stop) == e
    ensures Section(lines, b, start, stop, includeHeading) == Some(Excerpt(lines, s, e, includeHeading))
  {
  }

  /** Lines copied one by one from `from` up to `e` are the slice between them. */
  lemma CopiedSlice(lines: seq<string>, from: nat, e: nat, buf: seq<string>)
    requires from <= e <= |lines|
    requires |buf| == e - from && forall k :: 0 <= k < |buf| ==> buf[k] == lines[from + k]
    ensures buf == lines[from..e]
  {
  }

  /** `extract_tech_spec_section`: the body-start search, then the two-state scan. */
  method ExtractTechSpecSection(md: string, includeHeading: bool) returns (r: Option<string>)
    ensures r == TechSpecSection(md, includeHeading)
  {
    var lines := Lines(md);
    var bodyStart := FindFirstBelow(lines, 200, IsBodyStart);
    r := ScanSection(lines, bodyStart, IsTechStart, IsStop, includeHeading);
  }

  /** No section is returned exactly when no line at or after the body start opens one. */
  lemma TechSpecNoneIff(md: string, includeHeading: bool)
    ensures var lines := Lines(md);
      TechSpecSection(md, includeHeading).None?
      <==> forall k :: BodyStart(lines) <= k < |lines| ==> !IsTechStart(lines[k])
  {
  }

  /** Trimming characters `p` off `a + b` keeps `a` at the front when `a` neither starts nor ends with one. */
  lemma TrimKeepsPrefix(a: string, b: string, p: char -> bool)
    requires a != [] && !p(a[0]) && !p(a[|a| - 1])
    ensures StartsWith(Trim(a + b, p), a)
  {
    var x := a + b;
    assert PrefixLen(x, p) == 0;
    assert LTrim(x, p) == x;
    var n := SuffixLen(x, p);
    assert x[|a| - 1] == a[|a| - 1];
    assert !p(x[|a| - 1]);
    assert n <= |b|;
    assert RTrim(x, p) == x[..|x| - n];
  }

  /** With the heading included, a section starts with its start line when that line has no edge line break. */
  lemma SectionKeepsStart(lines: seq<string>, b: nat, start: string -> bool, stop: string -> bool)
    requires b <= |lines|
    requires var s := FirstFrom(lines, b, start);
      s < |lines| && lines[s] != [] && lines[s][0] != '\n' && lines[s][|lines[s]| - 1] != '\n'
    ensures var s := FirstFrom(lines, b, start);
      Section(lines, b, start, stop, true).Some?
      && StartsWith(Section(lines, b, start, stop, true).value, lines[s])
  {
    var s := FirstFrom(lines, b, start);
    var e := FirstFrom(lines, s + 1, stop);
    JoinedKeepsHead(lines, s, e);
  }

  /** Joining lines and trimming line breaks keeps the first line in front, when it has no edge line break. */
  lemma JoinedKeepsHead(lines: seq<string>, s: nat, e: nat)
    requires s < e <= |lines|
    requires lines[s] != [] && lines[s][0] != '\n' && lines[s][|lines[s]| - 1] != '\n'
    ensures StartsWith(Trim(Join(Captured(lines, s, e, true), "\n"), IsNewline), lines[s])
  {
    var parts := lines[s..e];
    assert Captured(lines, s, e, true) == parts && parts[0] == lines[s];
    var rest := if |parts| == 1 then "" else "\n" + Join(parts[1..], "\n");
    assert Join(parts, "\n") == parts[0] + rest;
    TrimKeepsPrefix(parts[0], rest, IsNewline);
  }

  /** With the heading included, the technical section starts with the heading line itself. */
  lemma TechSpecKeepsHeading(md: string)
    ensures var lines := Lines(md);
      var s := FirstFrom(lines, BodyStart(lines), IsTechStart);
      s < |lines| ==>
        TechSpecSection(md, true).Some? && StartsWith(TechSpecSection(md, true).value, lines[s])
  {
    var lines := Lines(md);
    var b := BodyStart(lines);
    var s := FirstFrom(lines, b, IsTechStart);
    if s < |lines| {
      var head := lines[s];
      HeadingNonEmpty(head);
      assert head[0] in head && head[|head| - 1] in head;
      SectionKeepsStart(lines, b, IsTechStart, IsStop);
    }
  }

  /** A line opening with "第" has no markup before it. */
  lemma MarkupEndAtChapterSign(line: string)
    requires line != [] && line[0] == '第'
    ensures MarkupEnd(line) == 0
  {
    SkipExact(line, 0, 0, IsSpace);
    SkipExact(line, 0, 0, IsHash);
    SkipExact(line, 0, 0, IsStar);
  }

  /** A numeral run from position 1 to `c`, then "章" at `c`. */
  lemma ChapterMarkAt(line: string, c: nat)
    requires 1 < c < |line| && line[c] == '章'
    requires forall i :: 1 <= i < c ==> IsHeadingNumeral(line[i])
    ensures Skip(line, 1, IsSpace) == 1
    ensures ChapterMark(line, 1) == Some((c, c + 1))
  {
    NumeralNotSpace(line[1]);
    SkipExact(line, 1, 1, IsSpace);
    SkipExact(line, 1, c, IsHeadingNumeral);
    SkipExact(line, c, c, IsSpace);
  }

  /** A title made of title characters only is captured whole. */
  lemma TitleGroupWhole(t: string)
    requires forall i :: 0 <= i < |t| ==> IsTitleChar(t[i])
    ensures TitleGroup(t) == Some(t)
  {
    SkipExact(t, 0, |t|, IsTitleChar);
  }

  /**
   * How a plain heading line is read: "第", a numeral, "章", separators and
   * a title without "#" give that numeral and that title.
   */
  lemma StrongPlain(n: string, w: string, t: string)
    requires n != [] && forall i :: 0 <= i < |n| ==> IsHeadingNumeral(n[i])
    requires forall i :: 0 <= i < |w| ==> IsTitleSep(w[i])
    requires t != [] && !IsTitleSep(t[0]) && forall i :: 0 <= i < |t| ==> IsTitleChar(t[i])
    ensures StrongMatch("第" + n + "章" + w + t) == Some(ChapterMatch(n, t))
  {
    var line := "第" + n + "章" + w + t;
    var c := 1 + |n|;
    assert line[0] == '第' && line[c] == '章';
    assert line[1..c] == n;
    assert line[c + 1..] == w + t;
    assert forall i :: 1 <= i < c ==> line[i] == n[i - 1];
    PlainMark(line, c);
    PlainTitle(line, c + 1, w, t);
    NumberedTitleValue(line, 1, IsTitleSep, c, c + 1, t);
    StrongAfterChapterSign(line);
  }

  /** "第", a numeral run and "章": no markup, and the chapter mark closes at `c`. */
  lemma PlainMark(line: string, c: nat)
    requires 1 < c < |line| && line[0] == '第' && line[c] == '章'
    requires forall i :: 1 <= i < c ==> IsHeadingNumeral(line[i])
    ensures MarkupEnd(line) == 0 && Skip(line, 1, IsSpace) == 1
    ensures ChapterMark(line, 1) == Some((c, c + 1))
  {
    MarkupEndAtChapterSign(line);
    ChapterMarkAt(line, c);
  }

  /** Separators and then a title without "#": the title group is that title. */
  lemma PlainTitle(line: string, e: nat, w: string, t: string)
    requires e <= |line| && line[e..] == w + t
    requires forall i :: 0 <= i < |w| ==> IsTitleSep(w[i])
    requires t != [] && !IsTitleSep(t[0]) && forall i :: 0 <= i < |t| ==> IsTitleChar(t[i])
    ensures TitleGroup(line[Skip(line, e, IsTitleSep)..]) == Some(t)
  {
    SeparatorsThenTitle(line, e, w, t);
    TitleGroupWhole(t);
  }


  lemma NumberedTitleValue(line: string, b: nat, sep: char -> bool, c: nat, e: nat, g: string)
    requires b <= c <= |line| && ChapterMark(line, b) == Some((c, e))
    requires e <= |line| && TitleGroup(line[Skip(line, e, sep)..]) == Some(g)
    ensures NumberedTitle(line, b, sep) == Some(ChapterMatch(line[b..c], g))
  {
  }

  /** After a leading "第" with no space behind it, RE_STRONG reads the numbered title at 1. */
  lemma StrongAfterChapterSign(line: string)
    requires line != [] && line[0] == '第' && MarkupEnd(line) == 0 && Skip(line, 1, IsSpace) == 1
    ensures StrongMatch(line) == NumberedTitle(line, 1, IsTitleSep)
  {
  }

  lemma SeparatorsThenTitle(line: string, e: nat, w: string, t: string)
    requires e <= |line| && line[e..] == w + t
    requires forall i :: 0 <= i < |w| ==> IsTitleSep(w[i])
    requires t != [] && !IsTitleSep(t[0])
    ensures Skip(line, e, IsTitleSep) == e + |w| && line[e + |w|..] == t
  {
    assert forall i :: e <= i < e + |w| ==> line[i] == w[i - e];
    assert line[e + |w|] == t[0];
    SkipExact(line, e, e + |w|, IsTitleSep);
    assert line[e + |w|..] == line[e..][|w|..];
  }

  /** A plain title with no space or star at its end is kept as it is. */
  lemma CleanPlainTitle(t: string)
    requires t != [] && !IsSpace(t[0]) && !IsSpace(t[|t| - 1]) && t[|t| - 1] != '*'
    ensures CleanTitle(t) == t
  {
    StripPlain(t);
    assert SuffixLen(t, IsStar) == 0;
    assert RTrim(t, IsStar) == t;
  }

  /** "第四章" followed by a plain title is chapter four with that title. */
  lemma ChapterFourPlain(t: string)
    requires t != [] && !IsTitleSep(t[0]) && forall i :: 0 <= i < |t| ==> IsTitleChar(t[i])
    requires !IsSpace(t[|t| - 1]) && t[|t| - 1] != '*'
    ensures DetectHeading("第四章" + t) == Some(Heading(4, t))
  {
    var line := "第四章" + t;
    assert line == "第" + [CnDigit(4)] + "章" + "" + t;
    CnDigitFacts(4);
    StrongPlain([CnDigit(4)], "", t);
    CleanPlainTitle(t);
    Cn2IntUnits(4);
  }

  /**
   * A table-of-contents line can open the capture: "第四章" followed by a
   * title naming the technical specification, "目录" and dot leaders is a
   * TOC line and a start heading at once. The TOC filter only guards the
   * body start, and the start test does not consult it.
   */
  lemma TocLineCanStartCapture(t: string)
    requires t != [] && !IsTitleSep(t[0]) && forall i :: 0 <= i < |t| ==> IsTitleChar(t[i])
    requires !IsSpace(t[|t| - 1]) && t[|t| - 1] != '*'
    requires ContainsAny(t, TechKeywords) && Contains(t, "目录") && Contains(t, "..")
    ensures IsTocLine("第四章" + t) && IsTechStart("第四章" + t)
  {
    TocTitleStarts(t);
    TocChapterFour(t);
  }

  lemma TocChapterFour(t: string)
    requires t != [] && !IsSpace(t[|t| - 1]) && Contains(t, "目录") && Contains(t, "..")
    ensures IsTocLine("第四章" + t)
  {
    TocMarks("第四章", t);
  }

  lemma TocTitleStarts(t: string)
    requires t != [] && !IsTitleSep(t[0]) && forall i :: 0 <= i < |t| ==> IsTitleChar(t[i])
    requires !IsSpace(t[|t| - 1]) && t[|t| - 1] != '*'
    requires ContainsAny(t, TechKeywords)
    ensures IsTechStart("第四章" + t)
  {
    ChapterFourPlain(t);
    TechStartOf("第四章" + t, t);
  }

  lemma TechStartOf(line: string, t: string)
    requires DetectHeading(line) == Some(Heading(4, t)) && ContainsAny(t, TechKeywords)
    ensures IsTechStart(line)
  {
  }

  /** A line whose title names "目录" and has dot leaders is a TOC line. */
  lemma TocMarks(a: string, t: string)
    requires a != [] && !IsSpace(a[0]) && t != [] && !IsSpace(t[|t| - 1])
    requires Contains(t, "目录") && Contains(t, "..")
    ensures IsTocLine(a + t)
  {
    var line := a + t;
    assert line[0] == a[0] && line[|line| - 1] == t[|t| - 1];
    StripPlain(line);
    ContainsRight(a, t, "目录");
    ContainsRight(a, t, "..");
  }

  /** Such titles exist: "技术规格书目录..5" is one. */
  lemma TocTitleExists(t: string)
    requires t == "技术规格书目录..5"
    ensures t != [] && !IsTitleSep(t[0]) && (forall i :: 0 <= i < |t| ==> IsTitleChar(t[i]))
    ensures !IsSpace(t[|t| - 1]) && t[|t| - 1] != '*'
    ensures ContainsAny(t, TechKeywords) && Contains(t, "目录") && Contains(t, "..")
  {
    TocTitleChars(t);
    TocTitleWords(t);
  }

  lemma TocTitleChars(t: string)
    requires t == "技术规格书目录..5"
    ensures t != [] && !IsTitleSep(t[0]) && (forall i :: 0 <= i < |t| ==> IsTitleChar(t[i]))
    ensures !IsSpace(t[|t| - 1]) && t[|t| - 1] != '*'
  {
  }



  lemma TocTitleWords(t: string)
    requires t == "技术规格书目录..5"
    ensures ContainsAny(t, TechKeywords) && Contains(t, "目录") && Contains(t, "..")
  {
    assert t[0..5] == "技术规格书";
    ContainsAt(t, "技术规格书", 0);
    assert t[5..7] == "目录";
    ContainsAt(t, "目录", 5);
    assert t[7..9] == "..";
    ContainsAt(t, "..", 7);
  }




  // ---------------------------------------------------------------------
  // The bid-format chapter: find_chapter_span and its helpers
  // ---------------------------------------------------------------------

  /** CHAPTER_SYNS_DEFAULT. */
  const DefaultSyns: seq<string> := ["投标文件格式", "投标文件模板", "投标格式", "投标文件范本", "投标文件样本"]

  /** `[一二三四五六七八九十百千\d]`, the numerals of a "#"-heading chapter mark. */
  predicate IsSpanNumeral(c: char) {
    c == '一' || c == '二' || c == '三' || c == '四' || c == '五' || c == '六' || c == '七'
    || c == '八' || c == '九' || c == '十' || c == '百' || c == '千' || IsAsciiDigit(c)
  }

  /**
   * `^\s*#{1,6}\s*第\s*[num]+\s*章` on one line: the position just after
   * "章", or -1 when the line does not open that way.
   */
  function ChapterHeadEnd(line: string): (e: int)
    ensures e == -1 || (0 < e <= |line| && line[e - 1] == '章')
  {
    var c := HashMarkEnd(line);
    if c == -1 then -1 else ChapterSignEnd(line, c + 1)
  }

  /** Blanks, one to six "#" and blanks, then "第": the position of "第", or -1. */
  function HashMarkEnd(line: string): (c: int)
    ensures c == -1 || (0 < c < |line| && line[c] == '第')
  {
    var a := Skip(line, 0, IsSpace);
    var b := Skip(line, a, IsHash);
    var c := Skip(line, b, IsSpace);
    if b == a || b - a > 6 || c == |line| || line[c] != '第' then -1 else c
  }

  /** After "第" at `c - 1`: blanks, a run of numerals, blanks and "章"; the position after "章", or -1. */
  function ChapterSignEnd(line: string, c: nat): (e: int)
    requires c <= |line|
    ensures e == -1 || (c < e <= |line| && line[e - 1] == '章')
  {
    var d := Skip(line, c, IsSpace);
    var n := Skip(line, d, IsSpanNumeral);
    var f := Skip(line, n, IsSpace);
    if n == d || f == |line| || line[f] != '章' then -1 else f + 1
  }

  /** A "#"-prefixed 第X章 heading line. */
  predicate IsChapterHeading(line: string) {
    ChapterHeadEnd(line) >= 0
  }

  /** `\s*[:：]?\s*(?:syn)\s*$` on the text after "章". */
  predicate StrictTail(t: string, syns: seq<string>) {
    var r := LStrip(t);
    RStrip(r) in syns || (r != [] && (r[0] == ':' || r[0] == '：') && RStrip(LStrip(r[1..])) in syns)
  }

  /** A chapter heading whose title is exactly one of the synonyms. */
  predicate IsStrictHeading(line: string, syns: seq<string>) {
    var e := ChapterHeadEnd(line);
    e >= 0 && StrictTail(line[e..], syns)
  }

  /** The synonyms: the stripped hint first when a non-empty hint is given, then the defaults. */
  function Syns(hint: Option<string>): (syns: seq<string>)
    ensures forall k :: 0 <= k < |DefaultSyns| ==> DefaultSyns[k] in syns
    ensures hint.Some? && hint.value != "" ==> Strip(hint.value) in syns
  {
    if hint.Some? && hint.value != "" then [Strip(hint.value)] + DefaultSyns else DefaultSyns
  }

  /** A hint asking for the last chapter: it names "最后" or "last" in any case. */
  predicate WantsLast(hint: Option<string>) {
    hint.Some? && hint.value != "" && (Contains(hint.value, "最后") || Contains(Lower(hint.value), "last"))
  }

  /** The strict-heading test for one set of synonyms, as a line predicate. */
  function StrictFor(syns: seq<string>): string -> bool
  {
    l => IsStrictHeading(l, syns)
  }

  /** The chosen heading line: the last strict heading, else the last chapter heading, else -1. */
  function ChosenLine(lines: seq<string>, syns: seq<string>): (k: int)
    ensures -1 <= k < |lines|
  {
    var strict := LastIndex(lines, StrictFor(syns));
    if strict >= 0 then strict else LastIndex(lines, IsChapterHeading)
  }

  /**
   * The span on lines: the chosen heading runs from its line start to the
   * start of the next chapter heading, or to `textLen`.
   */
  function SpanIn(lines: seq<string>, syns: seq<string>, textLen: nat): Option<(nat, nat)>
  {
    SpanAt(lines, ChosenLine(lines, syns), IsChapterHeading, textLen)
  }

  /** The span of the heading at line `k` (none when `k` is -1), ended by the next `heading` line or `textLen`. */
  function SpanAt(lines: seq<string>, k: int, heading: string -> bool, textLen: nat): Option<(nat, nat)>
    requires -1 <= k < |lines|
  {
    if k < 0 then None
    else
      var n := FirstFrom(lines, k + 1, heading);
      Some((LineStart(lines, k), if n < |lines| then LineStart(lines, n) else textLen))
  }

  /** `find_chapter_span` as a function of the text and the hint. */
  function ChapterSpan(md: string, hint: Option<string>): Option<(nat, nat)>
  {
    SpanIn(Lines(md), Syns(hint), |Norm(md)|)
  }

  /** `for mm in pat.finditer(text): last = mm`: the last line satisfying `p`, or -1. */
  method FindLast(lines: seq<string>, p: string -> bool) returns (last: int)
    ensures last == LastIndex(lines, p)
  {
    last := -1;
    var i := 0;
    while i < |lines|
      invariant 0 <= i <= |lines| && -1 <= last < i
      invariant last >= 0 ==> p(lines[last])
      invariant forall j :: last < j < i ==> !p(lines[j])
    {
      if p(lines[i]) {
        last := i;
      }
      i := i + 1;
    }
    LastIndexIs(lines, p, last);
  }

  /** The first line at or after `from` satisfying `p`, or `|lines|` (a search that breaks on its first hit). */
  method FindNext(lines: seq<string>, from: nat, p: string -> bool) returns (n: nat)
    requires from <= |lines|
    ensures n == FirstFrom(lines, from, p)
  {
    n := from;
    while n < |lines| && !p(lines[n])
      invariant from <= n <= |lines|
      invariant forall j :: from <= j < n ==> !p(lines[j])
    {
      n := n + 1;
    }
    FirstFromIs(lines, from, p, n);
  }

  /**
   * `find_chapter_span`: the last strict heading; a second pass for the
   * last chapter heading when the hint asks for the last chapter or nothing
   * strict was found, which only fills in a missing strict match; then the
   * next chapter heading after the chosen one.
   */
  method FindChapterSpan(md: string, hint: Option<string>) returns (r: Option<(nat, nat)>)
    ensures r == ChapterSpan(md, hint)
  {
    r := SpanOfLines(Lines(md), Syns(hint), WantsLast(hint), |Norm(md)|);
  }

  /** The passes of `find_chapter_span` over the lines of the normalised text. */
  method SpanOfLines(lines: seq<string>, syns: seq<string>, wantsLast: bool, textLen: nat)
    returns (r: Option<(nat, nat)>)
    ensures r == SpanIn(lines, syns, textLen)
  {
    var m := ChooseLine(lines, syns, wantsLast);
    r := SpanFrom(lines, m, IsChapterHeading, textLen);
  }

  /** The end search of `find_chapter_span` from the chosen line `m`. */
  method SpanFrom(lines: seq<string>, m: int, heading: string -> bool, textLen: nat) returns (r: Option<(nat, nat)>)
    requires -1 <= m < |lines|
    ensures r == SpanAt(lines, m, heading, textLen)
  {
    if m < 0 {
      return None;
    }
    var n := FindNext(lines, m + 1, heading);
    var end := if n < |lines| then LineStart(lines, n) else textLen;
    r := Some((LineStart(lines, m), end));
  }

  /**
   * `m = strict_matches[-1]`, then `m = m or last` after the second pass:
   * the hint's request for the last chapter never overrides a strict match.
   */
  method ChooseLine(lines: seq<string>, syns: seq<string>, wantsLast: bool) returns (m: int)
    ensures m == ChosenLine(lines, syns)
  {
    m := FindLast(lines, StrictFor(syns));
    if wantsLast || m < 0 {
      var last := FindLast(lines, IsChapterHeading);
      if m < 0 {
        m := last;
      }
    }
  }


  /** A strict heading is a chapter heading. */
  lemma StrictIsHeading(line: string, syns: seq<string>)
    requires IsStrictHeading(line, syns)
    ensures IsChapterHeading(line)
  {
  }

  /** A chapter heading line is never empty. */
  lemma ChapterHeadingNonEmpty(line: string)
    requires IsChapterHeading(line)
    ensures |line| > 0
  {
  }

  /** There is no span exactly when no line is a "#"-prefixed chapter heading. */
  lemma ChapterSpanNoneIff(md: string, hint: Option<string>)
    ensures ChapterSpan(md, hint).None? <==>
      forall k :: 0 <= k < |Lines(md)| ==> !IsChapterHeading(Lines(md)[k])
  {
    var lines := Lines(md);
    var syns := Syns(hint);
    var strict := LastIndex(lines, StrictFor(syns));
    if strict >= 0 {
      StrictIsHeading(lines[strict], syns);
    }
  }

  /**
   * A span covers its heading line and ends at the next chapter heading or
   * at the end of the text: `start < end <= len(text)`.
   */
  lemma ChapterSpanBounds(md: string, hint: Option<string>)
    requires ChapterSpan(md, hint).Some?
    ensures var (s, e) := ChapterSpan(md, hint).value; s < e <= |Norm(md)|
  {
    var lines := Lines(md);
    var syns := Syns(hint);
    var strict := LastIndex(lines, StrictFor(syns));
    var k := ChosenLine(lines, syns);
    if strict >= 0 {
      StrictIsHeading(lines[strict], syns);
    }
    ChapterHeadingNonEmpty(lines[k]);
    JoinSplit(Norm(md), "\n");
    LineAt(lines, k);
    var n := FirstFrom(lines, k + 1, IsChapterHeading);
    if n < |lines| {
      LineGrows(lines, k, n);
      LineAt(lines, n);
    }
  }

  lemma LineGrows(lines: seq<string>, k: nat, n: nat)
    requires k < n < |lines|
    ensures LineStart(lines, k) < LineStart(lines, n)
  {
    LineStartGrows(lines, k, n);
  }

  /**
   * A strict synonym heading wins even when the hint asks for the last
   * chapter: the span starts at the last strict heading whatever the hint
   * says beyond its synonym.
   */
  lemma StrictWinsOverLast(md: string, hint: Option<string>, k: nat)
    requires k < |Lines(md)| && IsStrictHeading(Lines(md)[k], Syns(hint))
    requires forall j :: k < j < |Lines(md)| ==> !IsStrictHeading(Lines(md)[j], Syns(hint))
    ensures ChapterSpan(md, hint).Some? && ChapterSpan(md, hint).value.0 == LineStart(Lines(md), k)
  {
    LastIndexIs(Lines(md), StrictFor(Syns(hint)), k);
  }

  /** Without a strict heading, the span starts at the last chapter heading. */
  lemma LastHeadingFallback(md: string, hint: Option<string>, k: nat)
    requires forall j :: 0 <= j < |Lines(md)| ==> !IsStrictHeading(Lines(md)[j], Syns(hint))
    requires k < |Lines(md)| && IsChapterHeading(Lines(md)[k])
    requires forall j :: k < j < |Lines(md)| ==> !IsChapterHeading(Lines(md)[j])
    ensures ChapterSpan(md, hint).Some? && ChapterSpan(md, hint).value.0 == LineStart(Lines(md), k)
  {
    LastIndexIs(Lines(md), StrictFor(Syns(hint)), -1);
    LastIndexIs(Lines(md), IsChapterHeading, k);
  }

  // ---------------------------------------------------------------------
  // strip_first_heading, remove_all_chapter_headings, outline
  // ---------------------------------------------------------------------

  /**
   * `strip_first_heading`: when the first line is a chapter heading, the
   * other lines joined again with leading line breaks stripped; otherwise
   * the normalised text.
   */
  function StripFirstHeading(block: string): (r: string)
    ensures !IsChapterHeading(Lines(block)[0]) ==> r == Norm(block)
    ensures EndsWith(Norm(block), r)
    ensures IsChapterHeading(Lines(block)[0]) ==> r == [] || r[0] != '\n'
    ensures IsChapterHeading(Lines(block)[0]) ==> r == LTrim(Join(Lines(block)[1..], "\n"), IsNewline)
  {
    JoinSplit(Norm(block), "\n");
    DropFirstLine(Lines(block), IsChapterHeading(Lines(block)[0]))
  }

  /** The lines joined again, without the first one and the line breaks after it when `drop` holds. */
  function DropFirstLine(lines: seq<string>, drop: bool): (r: string)
    requires |lines| >= 1
    ensures !drop ==> r == Join(lines, "\n")
    ensures EndsWith(Join(lines, "\n"), r)
    ensures drop ==> r == [] || r[0] != '\n'
    ensures drop ==> r == LTrim(Join(lines[1..], "\n"), IsNewline)
  {
    if drop then
      var r := LTrim(Join(lines[1..], "\n"), IsNewline);
      JoinRest(lines);
      r
    else Join(lines, "\n")
  }

  /**
   * What dropping the first line cuts off the joined text: the first line,
   * the line break after it and only line breaks beyond that.
   */
  lemma DropFirstLineCut(lines: seq<string>)
    requires |lines| >= 1
    ensures |lines| == 1 ==> DropFirstLine(lines, true) == ""
    ensures |lines| > 1 ==> Join(lines, "\n")[..|lines[0]| + 1] == lines[0] + "\n"
    ensures |lines| > 1 ==> |lines[0]| + 1 + |DropFirstLine(lines, true)| <= |Join(lines, "\n")|
    ensures forall i :: |lines[0]| < i < |Join(lines, "\n")| - |DropFirstLine(lines, true)| ==> Join(lines, "\n")[i] == '\n'
  {
    if |lines| > 1 {
      var rest := Join(lines[1..], "\n");
      var all := Join(lines, "\n");
      assert all == lines[0] + "\n" + rest;
      var n := PrefixLen(rest, IsNewline);
      assert DropFirstLine(lines, true) == rest[n..];
      forall i | |lines[0]| < i < |all| - |DropFirstLine(lines, true)|
        ensures all[i] == '\n'
      {
        assert all[i] == rest[i - |lines[0]| - 1];
      }
    }
  }

  /**
   * `strip_first_heading` on a block that opens with a chapter heading cuts
   * off exactly that heading line, its line break and the line breaks that
   * follow; what is left is the rest of the normalised block.
   */
  lemma StripFirstHeadingCut(block: string)
    requires IsChapterHeading(Lines(block)[0])
    ensures |Lines(block)| == 1 ==> StripFirstHeading(block) == ""
    ensures |Lines(block)| > 1 ==> StartsWith(Norm(block), Lines(block)[0] + "\n")
    ensures |Lines(block)| > 1 ==> |Lines(block)[0]| + 1 + |StripFirstHeading(block)| <= |Norm(block)|
    ensures forall i :: |Lines(block)[0]| < i < |Norm(block)| - |StripFirstHeading(block)| ==> Norm(block)[i] == '\n'
    ensures EndsWith(Norm(block), StripFirstHeading(block))
  {
    var ls, t := Lines(block), Norm(block);
    JoinSplit(t, "\n");
    assert Join(ls, "\n") == t;
    assert StripFirstHeading(block) == DropFirstLine(ls, true);
    DropFirstLineCut(ls);
    if |ls| > 1 {
      assert t[..|ls[0]| + 1] == ls[0] + "\n";
    }
  }

  /** The lines after the first, joined, are a suffix of all the lines joined. */
  lemma JoinRest(lines: seq<string>)
    requires |lines| >= 1
    ensures EndsWith(Join(lines, "\n"), Join(lines[1..], "\n"))
  {
    if |lines| > 1 {
      assert Join(lines, "\n") == lines[0] + "\n" + Join(lines[1..], "\n");
    }
  }

  /**
   * `pat.sub("", text)` with `^\s*#{1,6}\s*第\s*[num]+\s*章.*$\n?`, line by
   * line: a chapter-heading line goes together with its line break, every
   * other line stays with its own.
   */
  function DropHeadingLines(lines: seq<string>): string
  {
    if lines == [] then ""
    else
      var rest := DropHeadingLines(lines[1..]);
      if IsChapterHeading(lines[0]) then rest
      else if |lines| == 1 then lines[0]
      else lines[0] + "\n" + rest
  }

  /** `remove_all_chapter_headings`: drop every chapter-heading line, then leading line breaks. */
  function RemoveAllChapterHeadings(block: string): string
  {
    LTrim(DropHeadingLines(Lines(block)), IsNewline)
  }

  /** Every line left by the removal is one of the original lines that is not a chapter heading, or empty. */
  lemma {:induction false} DropHeadingLinesPieces(lines: seq<string>)
    requires forall k :: 0 <= k < |lines| ==> '\n' !in lines[k]
    ensures forall x :: x in SplitOn(DropHeadingLines(lines), "\n") ==>
      x == "" || (x in lines && !IsChapterHeading(x))
    decreases |lines|
  {
    if lines != [] {
      var rest := DropHeadingLines(lines[1..]);
      DropHeadingLinesPieces(lines[1..]);
      if !IsChapterHeading(lines[0]) {
        if |lines| == 1 {
          SplitNoSep(lines[0], '\n');
        } else {
          SplitFirst(lines[0], '\n', rest);
        }
      }
    }
  }

  /** No line of the result of `remove_all_chapter_headings` is a chapter heading. */
  lemma RemoveAllLeavesNoHeading(block: string)
    ensures forall x :: x in SplitOn(RemoveAllChapterHeadings(block), "\n") ==> !IsChapterHeading(x)
  {
    var lines := Lines(block);
    DropHeadingLinesPieces(lines);
    LTrimNewlinePieces(DropHeadingLines(lines));
  }

  /** A block without chapter headings only loses its leading line breaks. */
  lemma {:induction false} DropNothing(lines: seq<string>)
    requires forall k :: 0 <= k < |lines| ==> !IsChapterHeading(lines[k])
    ensures DropHeadingLines(lines) == Join(lines, "\n")
    decreases |lines|
  {
    if lines != [] {
      DropNothing(lines[1..]);
    }
  }

  lemma RemoveAllWithoutHeadings(block: string)
    requires forall k :: 0 <= k < |Lines(block)| ==> !IsChapterHeading(Lines(block)[k])
    ensures RemoveAllChapterHeadings(block) == LTrim(Norm(block), IsNewline)
  {
    DropNothing(Lines(block));
    JoinSplit(Norm(block), "\n");
  }

  /**
   * `^\s*#{2,6}\s+(.+?)\s*$` on one line: two to six hashes after leading
   * whitespace, then at least one whitespace character and one more
   * character.
   */
  predicate IsOutlineLine(line: string) {
    var a := Skip(line, 0, IsSpace);
    var b := Skip(line, a, IsHash);
    2 <= b - a <= 6 && b + 2 <= |line| && IsSpace(line[b])
  }

  /** The outline of a list of lines: every outline line, stripped, in order. */
  function OutlineItems(lines: seq<string>): seq<string>
  {
    if lines == [] then []
    else
      var last := lines[|lines| - 1];
      OutlineItems(lines[..|lines| - 1]) + (if IsOutlineLine(last) then [Strip(last)] else [])
  }

  /** `outline(block, 2, 6)`: the loop over the matches appending each stripped line. */
  method Outline(block: string) returns (items: seq<string>)
    ensures items == OutlineItems(Lines(block))
  {
    var lines := Lines(block);
    items := [];
    var i := 0;
    while i < |lines|
      invariant 0 <= i <= |lines|
      invariant items == OutlineItems(lines[..i])
    {
      assert lines[..i + 1][..i] == lines[..i];
      if IsOutlineLine(lines[i]) {
        items := items + [Strip(lines[i])];
      }
      i := i + 1;
    }
    assert lines[..i] == lines;
  }

  /** Every outline item opens with "##", the hashes of a second-to-sixth-level heading. */
  lemma OutlineLineItem(line: string)
    requires IsOutlineLine(line)
    ensures StartsWith(Strip(line), "##")
  {
    var a := Skip(line, 0, IsSpace);
    StripPrefix(line, a, 2);
    assert line[a..a + 2] == "##";
  }

  lemma {:induction false} OutlineItemsShape(lines: seq<string>)
    ensures |OutlineItems(lines)| <= |lines|
    ensures forall x :: x in OutlineItems(lines) ==> StartsWith(x, "##")
    decreases |lines|
  {
    if lines != [] {
      OutlineItemsShape(lines[..|lines| - 1]);
      if IsOutlineLine(lines[|lines| - 1]) {
        OutlineLineItem(lines[|lines| - 1]);
      }
    }
  }

  // ---------------------------------------------------------------------
  // extract_bid_format_section
  // ---------------------------------------------------------------------

  /**
   * The bid-format chapter text: the span of the normalised text, without
   * its first heading line when `dropHeading`, with every remaining chapter
   * heading line removed.
   */
  function BidFormatSection(md: string, hint: Option<string>, dropHeading: bool): Option<string>
  {
    var span := ChapterSpan(md, hint);
    if span.None? then None
    else
      ChapterSpanBounds(md, hint);
      var raw := Norm(md)[span.value.0..span.value.1];
      Some(RemoveAllChapterHeadings(if dropHeading then StripFirstHeading(raw) else raw))
  }

  /**
   * `extract_bid_format_section`: `(None, [])` without a span, otherwise the
   * cleaned chapter text and its outline of "##" to "######" headings.
   */
  method ExtractBidFormatSection(md: string, hint: Option<string>, dropHeading: bool)
    returns (section: Option<string>, toc: seq<string>)
    ensures section == BidFormatSection(md, hint, dropHeading)
    ensures section.None? ==> toc == []
    ensures section.Some? ==> toc == OutlineItems(Lines(section.value))
  {
    var span := FindChapterSpan(md, hint);
    if span.None? {
      return None, [];
    }
    ChapterSpanBounds(md, hint);
    var (start, end) := span.value;
    var text := Norm(md)[start..end];
    if dropHeading {
      text := StripFirstHeading(text);
    }
    text := RemoveAllChapterHeadings(text);
    toc := Outline(text);
    section := Some(text);
  }

  /**
   * What the bid-format extraction delivers: no span exactly when there is
   * no chapter heading; otherwise a text none of whose lines is a chapter
   * heading, and an outline of "##" lines.
   */
  lemma BidFormatShape(md: string, hint: Option<string>, dropHeading: bool)
    ensures BidFormatSection(md, hint, dropHeading).None? <==>
      forall k :: 0 <= k < |Lines(md)| ==> !IsChapterHeading(Lines(md)[k])
    ensures BidFormatSection(md, hint, dropHeading).Some? ==>
      var text := BidFormatSection(md, hint, dropHeading).value;
      (forall x :: x in SplitOn(text, "\n") ==> !IsChapterHeading(x))
      && forall x :: x in OutlineItems(Lines(text)) ==> StartsWith(x, "##")
  {
    ChapterSpanNoneIff(md, hint);
    var r := BidFormatSection(md, hint, dropHeading);
    if r.Some? {
      ChapterSpanBounds(md, hint);
      var span := ChapterSpan(md, hint).value;
      var raw := Norm(md)[span.0..span.1];
      RemoveAllLeavesNoHeading(if dropHeading then StripFirstHeading(raw) else raw);
      OutlineItemsShape(Lines(r.value));
    }
  }
}
