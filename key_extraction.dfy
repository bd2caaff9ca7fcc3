/**
 * Section lookup and Markdown section splitting of the key-information
 * extractor (backend/agents/key_extraction.py): a pre-order keyword search
 * over a section tree, and the split of a Markdown text into one flat
 * section per heading.
 */
module KeyExtraction {
  import opened Wrappers
  import opened Text

  /** A parsed section; `level` 0 stands for a section record without a level. */
  datatype Section = Section(level: nat, title: string, content: string, subsections: seq<Section>)

  // ---------------------------------------------------------------------
  // _find_section_by_keywords
  // ---------------------------------------------------------------------

  predicate IsChapterNumeral(c: char)
  {
    c == '一' || c == '二' || c == '三' || c == '四' || c == '五' || c == '六' || c == '七'
    || c == '八' || c == '九' || c == '十' || c == '百'
  }

  /** `is_generic_chapter`: the stripped title is all of `第[一…百]+章\s*`. */
  predicate IsGenericChapter(title: string)
  {
    var t := Strip(title);
    |t| >= 3 && t[0] == '第'
    && var n := Skip(t, 1, IsChapterNumeral);
       && 1 < n < |t| && t[n] == '章'
       && forall i :: n < i < |t| ==> IsSpace(t[i])
  }

  /** Some keyword is non-empty and, with its spaces removed, occurs in `normalized`. */
  function HitsKeyword(normalized: string, keywords: seq<string>): (r: bool)
    ensures r <==> exists k :: 0 <= k < |keywords| && keywords[k] != [] && Contains(normalized, RemoveSpaces(keywords[k]))
  {
    if keywords == [] then false
    else if keywords[0] != [] && Contains(normalized, RemoveSpaces(keywords[0])) then true
    else
      var r := HitsKeyword(normalized, keywords[1..]);
      assert forall k :: 1 <= k < |keywords| ==> keywords[k] == keywords[1..][k - 1];
      r
  }

  /** The section itself is a hit: a non-empty, non-generic title containing a keyword. */
  predicate Hit(s: Section, keywords: seq<string>)
  {
    var title := Strip(s.title);
    title != [] && !IsGenericChapter(title) && HitsKeyword(RemoveSpaces(title), keywords)
  }

  /** `not title` after `.strip()`. */
  predicate Untitled(s: Section)
  {
    Strip(s.title) == []
  }

  /**
   * The search of `_find_section_by_keywords`, for any test of a single
   * section: sections with an empty title are skipped with everything below
   * them; otherwise a section that passes is returned, and one that does not
   * has its subsections searched before its later siblings.
   */
  function FindWith(sections: seq<Section>, hit: Section -> bool): (r: Option<Section>)
    ensures r.Some? ==> hit(r.value)
    decreases sections
  {
    if sections == [] then None
    else
      var s := sections[0];
      if Untitled(s) then FindWith(sections[1..], hit)
      else if hit(s) then Some(s)
      else
        var found := FindWith(s.subsections, hit);
        if found.Some? then found else FindWith(sections[1..], hit)
  }

  /**
   * `_find_section_by_keywords`: the first section whose stripped title is
   * not a bare chapter number and contains a keyword; a generic chapter is
   * never returned, but its subsections are searched.
   */
  function FindSection(sections: seq<Section>, keywords: seq<string>): (r: Option<Section>)
    ensures r.Some? ==> Hit(r.value, keywords)
  {
    FindWith(sections, s => Hit(s, keywords))
  }

  /** The sections the search visits, in pre-order: a section with an empty title hides its subtree. */
  function Visited(sections: seq<Section>): seq<Section>
    decreases sections
  {
    if sections == [] then []
    else
      var s := sections[0];
      (if Untitled(s) then [] else [s] + Visited(s.subsections)) + Visited(sections[1..])
  }

  /** Linear search: the index of the first element of `xs` satisfying `hit`, or `|xs|`. */
  function FirstHitIndex(xs: seq<Section>, hit: Section -> bool): (i: nat)
    ensures i <= |xs| && (i < |xs| ==> hit(xs[i]))
    ensures forall j :: 0 <= j < i ==> !hit(xs[j])
  {
    if xs == [] || hit(xs[0]) then 0
    else
      assert forall j :: 1 <= j < |xs| ==> xs[j] == xs[1..][j - 1];
      1 + FirstHitIndex(xs[1..], hit)
  }

  /** The first element of `xs` satisfying `hit`, if any. */
  function FirstHit(xs: seq<Section>, hit: Section -> bool): Option<Section>
  {
    var i := FirstHitIndex(xs, hit);
    if i < |xs| then Some(xs[i]) else None
  }

  /** `FirstHitIndex` is characterised by its contract. */
  lemma FirstHitIndexIs(xs: seq<Section>, hit: Section -> bool, k: nat)
    requires k <= |xs| && (k < |xs| ==> hit(xs[k]))
    requires forall j :: 0 <= j < k ==> !hit(xs[j])
    ensures FirstHitIndex(xs, hit) == k
  {
  }

  lemma FirstHitAppend(a: seq<Section>, b: seq<Section>, hit: Section -> bool)
    ensures FirstHit(a + b, hit) == if FirstHit(a, hit).Some? then FirstHit(a, hit) else FirstHit(b, hit)
  {
    var i := FirstHitIndex(a, hit);
    if i < |a| {
      assert forall j :: 0 <= j <= i ==> (a + b)[j] == a[j];
      FirstHitIndexIs(a + b, hit, i);
    } else {
      var k := FirstHitIndex(b, hit);
      assert forall j :: 0 <= j < |a| ==> (a + b)[j] == a[j];
      assert forall j :: 0 <= j < |b| ==> (a + b)[|a| + j] == b[j];
      FirstHitIndexIs(a + b, hit, |a| + k);
    }
  }

  lemma FirstHitCons(s: Section, rest: seq<Section>, hit: Section -> bool)
    ensures FirstHit([s] + rest, hit) == if hit(s) then Some(s) else FirstHit(rest, hit)
  {
    assert ([s] + rest)[1..] == rest;
  }

  /** The recursive search returns the first hit of the pre-order walk. */
  lemma {:induction false} FindWithIsFirstVisited(sections: seq<Section>, hit: Section -> bool)
    ensures FindWith(sections, hit) == FirstHit(Visited(sections), hit)
    decreases sections
  {
    if sections != [] {
      var s := sections[0];
      var tail := sections[1..];
      if Untitled(s) {
        FindWithIsFirstVisited(tail, hit);
        assert Visited(sections) == [] + Visited(tail);
        assert [] + Visited(tail) == Visited(tail);
        assert FindWith(sections, hit) == FindWith(tail, hit);
      } else if hit(s) {
        assert FindWith(sections, hit) == Some(s);
        VisitedHit(sections, hit);
      } else {
        FindWithIsFirstVisited(tail, hit);
        FindWithIsFirstVisited(s.subsections, hit);
        var found := FindWith(s.subsections, hit);
        assert FindWith(sections, hit) == if found.Some? then found else FindWith(tail, hit);
        VisitedMiss(sections, hit);
      }
    }
  }

  lemma VisitedHit(sections: seq<Section>, hit: Section -> bool)
    requires sections != [] && !Untitled(sections[0]) && hit(sections[0])
    ensures FirstHit(Visited(sections), hit) == Some(sections[0])
  {
    var s := sections[0];
    assert Visited(sections) == [s] + (Visited(s.subsections) + Visited(sections[1..]));
    FirstHitCons(s, Visited(s.subsections) + Visited(sections[1..]), hit);
  }

  lemma VisitedMiss(sections: seq<Section>, hit: Section -> bool)
    requires sections != [] && !Untitled(sections[0]) && !hit(sections[0])
    ensures FirstHit(Visited(sections), hit)
      == if FirstHit(Visited(sections[0].subsections), hit).Some? then FirstHit(Visited(sections[0].subsections), hit)
         else FirstHit(Visited(sections[1..]), hit)
  {
    var s := sections[0];
    VisitedTitled(sections);
    MissThenAppend(s, Visited(s.subsections), Visited(sections[1..]), hit);
  }

  /** A titled first section is visited, then everything below it, then its later siblings. */
  lemma VisitedTitled(sections: seq<Section>)
    requires sections != [] && !Untitled(sections[0])
    ensures Visited(sections) == [sections[0]] + (Visited(sections[0].subsections) + Visited(sections[1..]))
  {
  }

  /** Past a first element that is no hit, the search goes through `below`, then `rest`. */
  lemma MissThenAppend(s: Section, below: seq<Section>, rest: seq<Section>, hit: Section -> bool)
    requires !hit(s)
    ensures FirstHit([s] + (below + rest), hit)
      == if FirstHit(below, hit).Some? then FirstHit(below, hit) else FirstHit(rest, hit)
  {
    FirstHitCons(s, below + rest, hit);
    FirstHitAppend(below, rest, hit);
  }

  /** Every section visited before the one found, generic chapters among them, is no hit. */
  lemma FindSectionIsFirstVisited(sections: seq<Section>, keywords: seq<string>)
    ensures FindSection(sections, keywords) == FirstHit(Visited(sections), s => Hit(s, keywords))
  {
    FindWithIsFirstVisited(sections, s => Hit(s, keywords));
  }

  // ---------------------------------------------------------------------
  // _extract_from_markdown
  // ---------------------------------------------------------------------

  /** A heading found in the text: its offset, level and title. */
  datatype Heading = Heading(idx: nat, level: nat, title: string)

  predicate IsHash(c: char) { c == '#' }

  /**
   * `^(#{1,6})\s*(.+)$` on one line: up to six '#'s give the level and the
   * stripped rest the title. A line of two to six '#'s only matches by
   * leaving its last '#' to the title.
   */
  function HashHeading(ln: string): (r: Option<(nat, string)>)
    ensures r.Some? ==> 1 <= r.value.0 <= 6
  {
    var h := PrefixLen(ln, IsHash);
    var g := if h > 6 then 6 else h;
    if g == 0 then None
    else if g < |ln| then Some((g, Strip(ln[g..])))
    else if g >= 2 then Some((g - 1, "#"))
    else None
  }

  /** `^第[一…百]+章\s*([^\n]+)$` on one line: the whole stripped line is the title. */
  function ChapterHeading(ln: string): (r: Option<string>)
    ensures r.Some? ==> |ln| >= 4 && ln[0] == '第' && r.value == Strip(ln)
  {
    if ln == [] || ln[0] != '第' then None
    else
      var n := Skip(ln, 1, IsChapterNumeral);
      if 1 < n && n + 1 < |ln| && ln[n] == '章' then Some(Strip(ln)) else None
  }

  /** The heading a line holds, if any: '#' headings keep their count, chapter lines are level 1. */
  function LineHeading(ln: string): (r: Option<(nat, string)>)
    ensures r.Some? ==> 1 <= r.value.0 <= 6
  {
    match HashHeading(ln)
    case Some(h) => Some(h)
    case None =>
      match ChapterHeading(ln)
      case Some(t) => Some((1, t))
      case None => None
  }

  /**
   * The level of a '#' heading is its number of leading '#'s, six at most,
   * and its title the stripped rest; a line without a leading '#' is no
   * '#' heading.
   */
  lemma HashHeadingCount(ln: string)
    ensures PrefixLen(ln, IsHash) == 0 ==> HashHeading(ln) == None
    ensures 1 <= PrefixLen(ln, IsHash) <= 6 && PrefixLen(ln, IsHash) < |ln|
      ==> HashHeading(ln) == Some((PrefixLen(ln, IsHash), Strip(ln[PrefixLen(ln, IsHash)..])))
    ensures PrefixLen(ln, IsHash) > 6 ==> HashHeading(ln) == Some((6, Strip(ln[6..])))
  {
  }

  /** `k` '#'s, a blank and a stripped title read back as level `k` and that title. */
  lemma HashHeadingRoundTrip(k: nat, t: string)
    requires 1 <= k <= 6
    requires t != [] && !IsSpace(t[0]) && !IsSpace(t[|t| - 1])
    ensures HashHeading(seq(k, _ => '#') + " " + t) == Some((k, t))
  {
    var ln := seq(k, _ => '#') + " " + t;
    assert PrefixLen(ln, IsHash) == k by {
      assert ln[k] == ' ';
      assert forall i :: 0 <= i < k ==> ln[i] == '#';
    }
    HashHeadingCount(ln);
    assert ln[k..] == " " + t;
    BlankStrip(t);
  }

  /** Stripping a blank in front of a stripped text gives the text. */
  lemma BlankStrip(t: string)
    requires t != [] && !IsSpace(t[0]) && !IsSpace(t[|t| - 1])
    ensures Strip(" " + t) == t
  {
    assert (" " + t)[1..] == t;
    assert PrefixLen(t, IsSpace) == 0;
    assert PrefixLen(" " + t, IsSpace) == 1;
    assert LTrim(" " + t, IsSpace) == t;
    StripPlain(t);
    assert LTrim(t, IsSpace) == t;
  }

  /** What the chapter pattern accepts: 第, a run of numerals, 章 and a non-empty rest. */
  lemma ChapterHeadingAccepts(nums: string, rest: string)
    requires nums != [] && forall i :: 0 <= i < |nums| ==> IsChapterNumeral(nums[i])
    requires rest != []
    ensures ChapterHeading("第" + nums + "章" + rest) == Some(Strip("第" + nums + "章" + rest))
  {
    var ln := "第" + nums + "章" + rest;
    assert forall i :: 1 <= i < 1 + |nums| ==> ln[i] == nums[i - 1];
    assert ln[1 + |nums|] == '章';
    SkipExact(ln, 1, 1 + |nums|, IsChapterNumeral);
  }

  /** A chapter line is a heading of level 1 titled with the whole stripped line. */
  lemma ChapterLineLevel(ln: string)
    ensures ChapterHeading(ln).Some? ==> LineHeading(ln) == Some((1, Strip(ln)))
  {
    if ChapterHeading(ln).Some? {
      assert !IsHash(ln[0]);
      assert PrefixLen(ln, IsHash) == 0;
    }
  }

  /** The headings of the first `n` lines, in line order, each at its line's offset. */
  function Headings(lines: seq<string>, n: nat): (r: seq<Heading>)
    requires n <= |lines|
    ensures forall i :: 0 <= i < |r| ==> 1 <= r[i].level <= 6
  {
    HeadingsWith(lines, n, LineHeading)
  }

  /** The headings `head` finds in the first `n` lines, in line order, each at its line's offset. */
  function HeadingsWith(lines: seq<string>, n: nat, head: string -> Option<(nat, string)>): (r: seq<Heading>)
    requires n <= |lines|
    requires forall ln :: head(ln).Some? ==> 1 <= head(ln).value.0 <= 6
    ensures forall i :: 0 <= i < |r| ==> 1 <= r[i].level <= 6
  {
    if n == 0 then []
    else
      var h := head(lines[n - 1]);
      HeadingsWith(lines, n - 1, head) + (if h.Some? then [Heading(LineStart(lines, n - 1), h.value.0, h.value.1)] else [])
  }

  /** Heading offsets grow strictly, and none lies past the start of the last line scanned. */
  lemma HeadingsOrdered(lines: seq<string>, n: nat)
    requires n <= |lines|
    ensures forall i, j :: 0 <= i < j < |Headings(lines, n)| ==> Headings(lines, n)[i].idx < Headings(lines, n)[j].idx
    ensures n > 0 ==> forall i :: 0 <= i < |Headings(lines, n)| ==> Headings(lines, n)[i].idx <= LineStart(lines, n - 1)
  {
    assert Headings(lines, n) == HeadingsWith(lines, n, LineHeading);
    HeadingsWithOrdered(lines, n, LineHeading);
  }

  lemma {:induction false} HeadingsWithOrdered(lines: seq<string>, n: nat, head: string -> Option<(nat, string)>)
    requires n <= |lines|
    requires forall ln :: head(ln).Some? ==> 1 <= head(ln).value.0 <= 6
    ensures forall i, j :: 0 <= i < j < |HeadingsWith(lines, n, head)| ==>
      HeadingsWith(lines, n, head)[i].idx < HeadingsWith(lines, n, head)[j].idx
    ensures n > 0 ==> forall i :: 0 <= i < |HeadingsWith(lines, n, head)| ==>
      HeadingsWith(lines, n, head)[i].idx <= LineStart(lines, n - 1)
  {
    if n > 0 {
      var prev := HeadingsWith(lines, n - 1, head);
      var hs := HeadingsWith(lines, n, head);
      var here := LineStart(lines, n - 1);
      if n > 1 {
        var p := n - 1;
        HeadingsWithOrdered(lines, p, head);
        assert forall i :: 0 <= i < |prev| ==> prev[i].idx <= LineStart(lines, p - 1);
        LineStartGrows(lines, p - 1, p);
        assert forall i :: 0 <= i < |prev| ==> prev[i].idx < here;
      }
      assert forall i :: 0 <= i < |prev| ==> hs[i] == prev[i];
      assert forall i :: |prev| <= i < |hs| ==> hs[i].idx == here;
    }
  }

  /** Python's `text.replace("**", "")`: no "**" is left. */
  function CleanText(md: string): (r: string)
    ensures !Contains(r, "**")
  {
    RemoveStarsClean(md);
    RemoveAll(md, "**")
  }

  function HeadingsOf(text: string): seq<Heading>
  {
    var lines := SplitOn(text, "\n");
    Headings(lines, |lines|)
  }

  /** Every heading lies inside the text, and the offsets grow strictly. */
  lemma HeadingsInText(text: string)
    ensures forall i, j :: 0 <= i < j < |HeadingsOf(text)| ==> HeadingsOf(text)[i].idx < HeadingsOf(text)[j].idx
    ensures forall i :: 0 <= i < |HeadingsOf(text)| ==> HeadingsOf(text)[i].idx <= |text|
  {
    var lines := SplitOn(text, "\n");
    var hs := Headings(lines, |lines|);
    assert HeadingsOf(text) == hs;
    HeadingsOrdered(lines, |lines|);
    LastLineInText(text);
    var last := LineStart(lines, |lines| - 1);
    assert forall i :: 0 <= i < |hs| ==> hs[i].idx <= last;
  }

  lemma LastLineInText(text: string)
    ensures var lines := SplitOn(text, "\n"); LineStart(lines, |lines| - 1) <= |text|
  {
    var lines := SplitOn(text, "\n");
    LineAt(lines, |lines| - 1);
    JoinSplit(text, "\n");
  }

  /** The first heading from `j` on whose level is at most that of heading `i`, or `|hs|`. */
  function NextPeer(hs: seq<Heading>, i: nat, j: nat): (r: nat)
    requires i < j <= |hs|
    ensures j <= r <= |hs|
    ensures r < |hs| ==> hs[r].level <= hs[i].level
    ensures forall k :: j <= k < r ==> hs[k].level > hs[i].level
    decreases |hs| - j
  {
    if j == |hs| || hs[j].level <= hs[i].level then j else NextPeer(hs, i, j + 1)
  }

  /** Where the section of heading `i` ends: the next heading of the same or a higher rank, or the end of the text. */
  function SectionEnd(text: string, hs: seq<Heading>, i: nat): nat
    requires i < |hs|
  {
    var r := NextPeer(hs, i, i + 1);
    if r < |hs| then hs[r].idx else |text|
  }

  /** A section ends at the first later heading of the same or a higher rank, or at the end of the text when there is none. */
  lemma SectionEndIs(text: string, hs: seq<Heading>, i: nat)
    requires i < |hs|
    ensures var e := SectionEnd(text, hs, i);
      || (e == |text| && forall j :: i < j < |hs| ==> hs[j].level > hs[i].level)
      || exists j :: i < j < |hs| && hs[j].level <= hs[i].level && e == hs[j].idx
           && forall k :: i < k < j ==> hs[k].level > hs[i].level
  {
  }

  /** The section of heading `i`. */
  function SectionAt(text: string, hs: seq<Heading>, i: nat): Section
    requires i < |hs|
  {
    Section(hs[i].level, hs[i].title, Strip(PySlice(text, hs[i].idx, SectionEnd(text, hs, i))), [])
  }

  /** `_extract_from_markdown` up to the key-information step: the flat section list. */
  function MarkdownSections(md: string): seq<Section>
  {
    var text := CleanText(md);
    var hs := HeadingsOf(text);
    if hs == [] then [Section(0, "全文", text, [])] else AllSections(text, hs)
  }

  /** One section per heading, in order. */
  function AllSections(text: string, hs: seq<Heading>): (r: seq<Section>)
    ensures |r| == |hs|
  {
    seq(|hs|, i requires 0 <= i < |hs| => SectionAt(text, hs, i))
  }

  /**
   * One section per heading, in text order; each keeps its heading's level
   * and title, and its content is the stripped text from its heading up to
   * the next heading of the same or a higher rank (or the end of the text).
   * Without headings there is one section, 全文, holding the whole text.
   */
  lemma MarkdownSectionsShape(md: string)
    ensures var text := CleanText(md);
      var hs := HeadingsOf(text);
      var secs := MarkdownSections(md);
      && (hs == [] ==> secs == [Section(0, "全文", text, [])])
      && (hs != [] ==>
            && |secs| == |hs|
            && forall i :: 0 <= i < |hs| ==>
                 var e := SectionEnd(text, hs, i);
                 && hs[i].idx <= e <= |text|
                 && secs[i] == Section(hs[i].level, hs[i].title, Strip(text[hs[i].idx..e]), []))
  {
    var text := CleanText(md);
    var hs := HeadingsOf(text);
    HeadingsInText(text);
    forall i | 0 <= i < |hs|
      ensures hs[i].idx <= SectionEnd(text, hs, i) <= |text|
    {
      var r := NextPeer(hs, i, i + 1);
    }
  }

  /** The heading-collection loop, one pass over the lines with a running offset. */
  method CollectHeadings(text: string) returns (hs: seq<Heading>)
    ensures hs == HeadingsOf(text)
  {
    var lines := SplitOn(text, "\n");
    hs := [];
    var pos := 0;
    for k := 0 to |lines|
      invariant pos == LineStart(lines, k)
      invariant hs == Headings(lines, k)
    {
      var h := LineHeading(lines[k]);
      if h.Some? {
        hs := hs + [Heading(pos, h.value.0, h.value.1)];
      }
      LineStartNext(lines, k);
      pos := pos + |lines[k]| + 1;
    }
  }

  /** The inner loop: the end of the section of heading `i`. */
  method FindEnd(text: string, hs: seq<Heading>, i: nat) returns (end: nat)
    requires i < |hs|
    ensures end == SectionEnd(text, hs, i)
  {
    end := |text|;
    var j := i + 1;
    while j < |hs|
      invariant i + 1 <= j <= |hs|
      invariant NextPeer(hs, i, j) == NextPeer(hs, i, i + 1)
      invariant end == |text|
    {
      if hs[j].level <= hs[i].level {
        end := hs[j].idx;
        break;
      }
      j := j + 1;
    }
  }

  /** The section of heading `i`, built from its end position. */
  lemma SectionOfEnd(text: string, hs: seq<Heading>, i: nat, end: nat)
    requires i < |hs| && end == SectionEnd(text, hs, i)
    ensures AllSections(text, hs)[i] == Section(hs[i].level, hs[i].title, Strip(PySlice(text, hs[i].idx, end)), [])
  {
  }

  /** The section-building loop: one section per heading, in order. */
  method BuildSections(text: string, hs: seq<Heading>) returns (secs: seq<Section>)
    ensures secs == AllSections(text, hs)
  {
    ghost var all := AllSections(text, hs);
    secs := [];
    for i := 0 to |hs|
      invariant secs == all[..i]
    {
      var end := FindEnd(text, hs, i);
      var sec := Section(hs[i].level, hs[i].title, Strip(PySlice(text, hs[i].idx, end)), []);
      SectionOfEnd(text, hs, i, end);
      assert all[..i + 1] == all[..i] + [sec];
      secs := secs + [sec];
    }
    assert all[..|hs|] == all;
  }

  /** `_extract_from_markdown`, up to the hand-off to the key-information step. */
  method ExtractFromMarkdown(md: string) returns (secs: seq<Section>)
    ensures secs == MarkdownSections(md)
  {
    var text := CleanText(md);
    var hs := CollectHeadings(text);
    if hs == [] {
      secs := [Section(0, "全文", text, [])];
    } else {
      secs := BuildSections(text, hs);
    }
  }
}
