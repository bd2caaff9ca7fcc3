/**
 * The proposal outline (backend/utils/proposal_outline.py): where the plan
 * chapter of a tender is found, how its text is cut out, how numbered lines
 * are read into main sections and sub-sections, and the Markdown skeleton
 * written from the outline.
 *
 * Each regular expression is written out as the parse it performs, the
 * greedy choices and the backtracking included.
 */
module ProposalOutline {
  import opened Wrappers
  import opened Text

  /** An outline: the main sections in order, and the sub-sections filed under main sections. */
  datatype Outline = Outline(mainSections: seq<string>, subSections: map<string, seq<string>>)

  // ---------------------------------------------------------------------
  // _find_proposal_section_in_outline
  // ---------------------------------------------------------------------

  const ProposalKeywords: seq<string> :=
    ["方案详细说明及施工组织设计", "方案详细说明", "施工组织设计", "技术方案", "实施方案", "施工方案", "方案"]

  /** `re.sub(r'^\d+[\.、]?\s*', '', s)`: a leading number, one separator after it and the blanks after that go. */
  function StripNumber(s: string): (r: string)
    ensures |r| <= |s| && r == s[|s| - |r|..]
    ensures (s == [] || !IsAsciiDigit(s[0])) ==> r == s
  {
    var n := PrefixLen(s, IsAsciiDigit);
    if n == 0 then s
    else
      var t := s[n..];
      var u := if t != [] && (t[0] == '.' || t[0] == '、') then t[1..] else t;
      LStrip(u)
  }

  predicate IsBracket(c: char) { c in "（）()[]【】" }

  predicate NotBracket(c: char) { !IsBracket(c) }

  /** A section name without its number and its brackets. */
  function CleanSection(s: string): string
  {
    Filter(StripNumber(s), NotBracket)
  }

  /** Does the cleaned name of `s` contain a proposal keyword? */
  predicate IsProposal(s: string)
  {
    ContainsAny(CleanSection(s), ProposalKeywords)
  }

  /**
   * When every word of `ks` is `b` or contains `a`, and both are words of
   * `ks`, some word occurs in `c` exactly when `a` or `b` does.
   */
  lemma AnyOfTwo(c: string, ks: seq<string>, a: string, b: string)
    requires a in ks && b in ks
    requires forall k :: 0 <= k < |ks| ==> ks[k] == b || Contains(ks[k], a)
    ensures ContainsAny(c, ks) <==> Contains(c, a) || Contains(c, b)
  {
    ContainsAnyWitness(c, ks);
    if ContainsAny(c, ks) {
      var k :| 0 <= k < |ks| && Contains(c, ks[k]);
      if ks[k] != b {
        ContainsWitness(ks[k], a);
        ContainsInside(c, ks[k], a, Find(ks[k], a));
      }
    }
  }

  /** Every proposal keyword but 施工组织设计 contains 方案. */
  lemma ProposalKeywordsShare()
    ensures forall k :: 0 <= k < |ProposalKeywords| ==> ProposalKeywords[k] == "施工组织设计" || Contains(ProposalKeywords[k], "方案")
  {
    var ks := ProposalKeywords;
    ContainsAt(ks[0], "方案", 0);
    ContainsAt(ks[1], "方案", 0);
    ContainsAt(ks[3], "方案", 2);
    ContainsAt(ks[4], "方案", 2);
    ContainsAt(ks[5], "方案", 2);
    ContainsAt(ks[6], "方案", 0);
  }

  /**
   * A name is a proposal section exactly when its cleaned form contains
   * 方案 or 施工组织设计.
   */
  lemma IsProposalIff(s: string)
    ensures IsProposal(s) <==> Contains(CleanSection(s), "方案") || Contains(CleanSection(s), "施工组织设计")
  {
    ProposalKeywordsShare();
    assert ProposalKeywords[6] == "方案" && ProposalKeywords[2] == "施工组织设计";
    AnyOfTwo(CleanSection(s), ProposalKeywords, "方案", "施工组织设计");
  }

  /** The first of `sections` whose form under `clean` contains one of `keywords`. */
  function FirstWith(sections: seq<string>, clean: string -> string, keywords: seq<string>): (r: Option<string>)
    ensures r.None? <==> forall i :: 0 <= i < |sections| ==> !ContainsAny(clean(sections[i]), keywords)
    ensures r.Some? ==> exists k ::
      && 0 <= k < |sections| && r.value == sections[k] && ContainsAny(clean(sections[k]), keywords)
      && forall j :: 0 <= j < k ==> !ContainsAny(clean(sections[j]), keywords)
  {
    if sections == [] then None
    else if ContainsAny(clean(sections[0]), keywords) then Some(sections[0])
    else
      var r := FirstWith(sections[1..], clean, keywords);
      assert forall i :: 1 <= i < |sections| ==> sections[i] == sections[1..][i - 1];
      r
  }

  /** The search loop: sections in order, keywords in order, stopping at the first hit. */
  method FirstWithKeyword(sections: seq<string>, clean: string -> string, keywords: seq<string>) returns (r: Option<string>)
    ensures r == FirstWith(sections, clean, keywords)
  {
    var i := 0;
    while i < |sections|
      invariant 0 <= i <= |sections|
      invariant FirstWith(sections, clean, keywords) == FirstWith(sections[i..], clean, keywords)
    {
      assert sections[i..][1..] == sections[i + 1..];
      var found := FirstContained(clean(sections[i]), keywords);
      if found {
        return Some(sections[i]);
      }
      i := i + 1;
    }
    return None;
  }

  /** The first of `sections`, as given, whose cleaned form holds a proposal keyword. */
  function FirstProposal(sections: seq<string>): Option<string>
  {
    FirstWith(sections, CleanSection, ProposalKeywords)
  }

  /** `_find_proposal_section_in_outline`: the first name, as given, whose cleaned form holds a keyword. */
  method FindProposalSection(sections: seq<string>) returns (r: Option<string>)
    ensures r == FirstProposal(sections)
    ensures r.None? <==> forall i :: 0 <= i < |sections| ==> !IsProposal(sections[i])
    ensures r.Some? ==> exists k ::
      && 0 <= k < |sections| && r.value == sections[k] && IsProposal(sections[k])
      && forall j :: 0 <= j < k ==> !IsProposal(sections[j])
  {
    r := FirstWithKeyword(sections, CleanSection, ProposalKeywords);
  }

  // ---------------------------------------------------------------------
  // _extract_bid_format_section_content / _extract_section_content
  // ---------------------------------------------------------------------

  /** The end markers of the bid-format chapter, in the order they are tried. */
  const BidFormatEnds: seq<string> := ["第六章", "第6章", "6.", "第七章", "第7章", "7.", "第八章", "第8章", "8.",
    "第九章", "第9章", "9.", "评标", "评分", "评审"]

  /** The end markers of a plan chapter, in the order they are tried. */
  const SectionEnds: seq<string> := ["第九章", "第9章", "9.", "第十章", "第10章", "10.", "商务和技术偏差表", "资格审查资料", "其他资料"]

  /** Where the first marker of the list that occurs anywhere in `s` first occurs. */
  function FirstCut(s: string, markers: seq<string>): (r: Option<nat>)
    ensures r.Some? ==> r.value <= |s|
  {
    if markers == [] then None
    else if Contains(s, markers[0]) then Some(Find(s, markers[0]))
    else FirstCut(s, markers[1..])
  }

  /**
   * The markers are tried in list order and the first one that occurs wins,
   * wherever it occurs: an earlier occurrence of a later marker does not
   * count.
   */
  lemma {:induction false} FirstCutIs(s: string, markers: seq<string>)
    ensures FirstCut(s, markers).None? <==> forall k :: 0 <= k < |markers| ==> !Contains(s, markers[k])
    ensures FirstCut(s, markers).Some? ==> exists k ::
      && 0 <= k < |markers| && Contains(s, markers[k])
      && FirstCut(s, markers).value == Find(s, markers[k])
      && forall j :: 0 <= j < k ==> !Contains(s, markers[j])
  {
    if markers != [] && !Contains(s, markers[0]) {
      FirstCutIs(s, markers[1..]);
      assert forall k :: 1 <= k < |markers| ==> markers[k] == markers[1..][k - 1];
      if FirstCut(s, markers).Some? {
        var k :| 0 <= k < |markers[1..]| && Contains(s, markers[1..][k])
          && FirstCut(s, markers).value == Find(s, markers[1..][k])
          && forall j :: 0 <= j < k ==> !Contains(s, markers[1..][j]);
        assert Contains(s, markers[k + 1]) && FirstCut(s, markers).value == Find(s, markers[k + 1]);
      }
    }
  }

  /** `text[start:]`. */
  function From(text: string, start: nat): (r: string)
    ensures |r| <= |text|
  {
    if start <= |text| then text[start..] else ""
  }

  /**
   * The text from `start` up to the first end marker in list order, or, with
   * none, its first `limit` characters, stripped.
   */
  function CutContent(text: string, start: nat, markers: seq<string>, limit: nat): string
  {
    var rest := From(text, start);
    var cut := FirstCut(rest, markers);
    if cut.Some? then Strip(rest[..cut.value])
    else if |rest| > limit then Strip(rest[..limit]) else Strip(rest)
  }

  /**
   * The content is a stripped prefix of `text[start:]`: up to where the
   * first occurring marker in list order first occurs, or, with no marker,
   * at most `limit` characters.
   */
  lemma CutContentIs(text: string, start: nat, markers: seq<string>, limit: nat)
    ensures var rest := From(text, start);
      && (exists m :: 0 <= m <= |rest| && CutContent(text, start, markers, limit) == Strip(rest[..m]))
      && (FirstCut(rest, markers).None? ==> |CutContent(text, start, markers, limit)| <= limit)
      && (forall k :: 0 <= k < |markers| && Contains(rest, markers[k]) && (forall j :: 0 <= j < k ==> !Contains(rest, markers[j])) ==>
            CutContent(text, start, markers, limit) == Strip(rest[..Find(rest, markers[k])]))
  {
    var rest := From(text, start);
    var cut := FirstCut(rest, markers);
    FirstCutIs(rest, markers);
    if cut.Some? {
      assert CutContent(text, start, markers, limit) == Strip(rest[..cut.value]);
      forall k | 0 <= k < |markers| && Contains(rest, markers[k]) && (forall j :: 0 <= j < k ==> !Contains(rest, markers[j]))
        ensures cut.value == Find(rest, markers[k])
      {
        var k' :| 0 <= k' < |markers| && Contains(rest, markers[k']) && cut.value == Find(rest, markers[k'])
          && forall j :: 0 <= j < k' ==> !Contains(rest, markers[j]);
        assert k' == k;
      }
    } else if |rest| > limit {
      assert CutContent(text, start, markers, limit) == Strip(rest[..limit]);
    } else {
      assert rest[..|rest|] == rest;
    }
  }

  /** The loop over the end markers, breaking at the first that occurs. */
  method FirstEndMatch(s: string, markers: seq<string>) returns (cut: Option<nat>)
    ensures cut == FirstCut(s, markers)
  {
    var k := 0;
    while k < |markers|
      invariant 0 <= k <= |markers|
      invariant FirstCut(s, markers) == FirstCut(s, markers[k..])
    {
      assert markers[k..][1..] == markers[k + 1..];
      if Contains(s, markers[k]) {
        return Some(Find(s, markers[k]));
      }
      k := k + 1;
    }
    return None;
  }

  /** The shared body of `_extract_bid_format_section_content` and `_extract_section_content`. */
  method ExtractContent(text: string, start: nat, markers: seq<string>, limit: nat) returns (r: string)
    ensures r == CutContent(text, start, markers, limit)
  {
    var rest := From(text, start);
    var cut := FirstEndMatch(rest, markers);
    if cut.Some? {
      r := Strip(rest[..cut.value]);
    } else if |rest| > limit {
      r := Strip(rest[..limit]);
    } else {
      r := Strip(rest);
    }
  }

  /** `_extract_bid_format_section_content`: cut at a later chapter or an evaluation heading, or after 8000 characters. */
  method ExtractBidFormatSectionContent(text: string, start: nat) returns (r: string)
    ensures r == CutContent(text, start, BidFormatEnds, 8000)
  {
    r := ExtractContent(text, start, BidFormatEnds, 8000);
  }

  /** `_extract_section_content`: cut at chapter 9 or 10 or a closing form, or after 5000 characters. */
  method ExtractSectionContent(text: string, start: nat) returns (r: string)
    ensures r == CutContent(text, start, SectionEnds, 5000)
  {
    r := ExtractContent(text, start, SectionEnds, 5000);
  }

  // ---------------------------------------------------------------------
  // _extract_specific_section_content
  // ---------------------------------------------------------------------

  /** Length of the run of ASCII digits at the start of `s`. */
  function DigitRun(s: string): nat
  {
    PrefixLen(s, IsAsciiDigit)
  }

  /** `\d+[\.、]\s*[^\s]` matches at the start of `t`. */
  predicate NumberedLineAhead(t: string)
  {
    var d := DigitRun(t);
    d >= 1 && d < |t| && (t[d] == '.' || t[d] == '、') && LStrip(t[d + 1..]) != ""
  }

  /** The look-ahead `(?=#|\d+[\.、]\s*[^\s]|$)` holds at position `p` of `text`. */
  predicate SectionEndAt(text: string, p: nat)
    requires p <= |text|
  {
    p == |text| || (p == |text| - 1 && text[p] == '\n') || text[p] == '#' || NumberedLineAhead(text[p..])
  }

  /** `\n(?=#|\d+[\.、]\s*[^\s]|$)` matches at position `m` of `text`. */
  predicate SectionBreakAt(text: string, m: nat)
  {
    m < |text| && text[m] == '\n' && SectionEndAt(text, m + 1)
  }

  /** The first line break at or after `j` after which a section ends, if any. */
  function NextSectionEnd(text: string, j: nat): (r: Option<nat>)
    requires j <= |text|
    ensures r.Some? ==> j <= r.value < |text| && SectionBreakAt(text, r.value)
    ensures forall m :: j <= m < |text| && (r.None? || m < r.value) ==> !SectionBreakAt(text, m)
    decreases |text| - j
  {
    if j == |text| then None
    else if SectionBreakAt(text, j) then Some(j)
    else NextSectionEnd(text, j + 1)
  }

  /**
   * `_extract_specific_section_content`: the text from the first occurrence
   * of the cleaned title up to and including the first line break that
   * precedes a heading, a numbered line or the end, stripped. A later
   * occurrence of the title cannot match when the first does not, since it
   * has fewer line breaks after it.
   */
  function SpecificSectionContent(text: string, title: string): (r: Option<string>)
  {
    SectionAt(text, Strip(StripNumber(title)))
  }

  /** The search of `_extract_specific_section_content` for the already cleaned title `clean`. */
  function SectionAt(text: string, clean: string): (r: Option<string>)
  {
    var i := Find(text, clean);
    if i < 0 then None else SectionFrom(text, i, |clean|)
  }

  /** The text from `i` to the first section break at or after `i + n`, stripped. */
  function SectionFrom(text: string, i: nat, n: nat): (r: Option<string>)
    requires i + n <= |text|
  {
    var e := NextSectionEnd(text, i + n);
    if e.None? then None else Some(Strip(text[i..e.value + 1]))
  }

  /**
   * From an occurrence of the title, a section exists exactly when a section
   * break follows; it then ends at the first one and begins with the title.
   */
  lemma SectionFromIs(text: string, i: nat, clean: string)
    requires OccursAt(text, clean, i)
    ensures SectionFrom(text, i, |clean|).Some? <==>
      exists m :: i + |clean| <= m < |text| && SectionBreakAt(text, m)
    ensures var r := SectionFrom(text, i, |clean|);
      r.Some? ==>
        exists e :: i + |clean| <= e < |text| && SectionBreakAt(text, e)
             && (forall m :: i + |clean| <= m < e ==> !SectionBreakAt(text, m))
             && r.value == Strip(text[i..e + 1])
    ensures var r := SectionFrom(text, i, |clean|);
      r.Some? && clean != [] && !IsSpace(clean[0]) && !IsSpace(clean[|clean| - 1]) ==> StartsWith(r.value, clean)
  {
    var e := NextSectionEnd(text, i + |clean|);
    if e.Some? && clean != [] && !IsSpace(clean[0]) && !IsSpace(clean[|clean| - 1]) {
      var s := text[i..e.value + 1];
      assert s[..|clean|] == text[i..i + |clean|];
      StripKeepsHead(s, clean);
    }
  }

  /** `SectionFromIs` at the first occurrence of the title. */
  lemma SectionAtIs(text: string, clean: string)
    ensures SectionAt(text, clean).Some? <==>
      Contains(text, clean)
      && exists m :: Find(text, clean) + |clean| <= m < |text| && SectionBreakAt(text, m)
    ensures var i := Find(text, clean); var r := SectionAt(text, clean);
      r.Some? ==>
        OccursAt(text, clean, i)
        && exists e :: i + |clean| <= e < |text| && SectionBreakAt(text, e)
             && (forall m :: i + |clean| <= m < e ==> !SectionBreakAt(text, m))
             && r.value == Strip(text[i..e + 1])
    ensures var r := SectionAt(text, clean);
      r.Some? && clean != [] && !IsSpace(clean[0]) && !IsSpace(clean[|clean| - 1]) ==> StartsWith(r.value, clean)
  {
    var i := Find(text, clean);
    if i >= 0 {
      SectionFromIs(text, i, clean);
    }
  }

  /**
   * The section is found exactly when the cleaned title occurs and a section
   * break follows its first occurrence; it is then the text from that
   * occurrence to the first such break, stripped, and so begins with the
   * cleaned title.
   */
  lemma SpecificSectionContentIs(text: string, title: string)
    ensures var clean := Strip(StripNumber(title));
      SpecificSectionContent(text, title).Some? <==>
        Contains(text, clean)
        && exists m :: Find(text, clean) + |clean| <= m < |text| && SectionBreakAt(text, m)
    ensures var clean := Strip(StripNumber(title)); var i := Find(text, clean);
      var r := SpecificSectionContent(text, title);
      r.Some? ==>
        OccursAt(text, clean, i)
        && exists e :: i + |clean| <= e < |text| && SectionBreakAt(text, e)
             && (forall m :: i + |clean| <= m < e ==> !SectionBreakAt(text, m))
             && r.value == Strip(text[i..e + 1])
    ensures var clean := Strip(StripNumber(title)); var r := SpecificSectionContent(text, title);
      r.Some? && clean != [] ==> StartsWith(r.value, clean)
  {
    var clean := Strip(StripNumber(title));
    assert SpecificSectionContent(text, title) == SectionAt(text, clean);
    SectionAtIs(text, clean);
  }

  // ---------------------------------------------------------------------
  // Numbers at the head of a line
  // ---------------------------------------------------------------------

  /** Length of the longest `\d+(?:\.\d+)*` at the start of `s`. */
  function DottedLen(s: string): (n: nat)
    ensures n <= |s|
    ensures n > 0 ==> IsAsciiDigit(s[0]) && IsAsciiDigit(s[n - 1])
    ensures forall i :: 0 <= i < n ==> IsAsciiDigit(s[i]) || s[i] == '.'
    ensures n < |s| ==> !IsAsciiDigit(s[n])
    ensures 0 < n && n + 1 < |s| && s[n] == '.' ==> !IsAsciiDigit(s[n + 1])
    decreases |s|
  {
    var d := DigitRun(s);
    if d == 0 then 0
    else if d + 1 < |s| && s[d] == '.' && IsAsciiDigit(s[d + 1]) then d + 1 + DottedLen(s[d + 1..])
    else d
  }

  /** A number the dotted-number pattern reads whole: digits in dot-separated groups. */
  predicate IsDottedNumber(d: string)
  {
    d != [] && DottedLen(d) == |d|
  }

  /** A dotted number followed by a character that is neither a digit nor a dot is read whole. */
  lemma {:induction false} DottedLenAppend(d: string, rest: string)
    requires IsDottedNumber(d) && rest != [] && !IsAsciiDigit(rest[0]) && rest[0] != '.'
    ensures DottedLen(d + rest) == |d|
    decreases |d|
  {
    var k := DigitRun(d);
    DottedSplit(d);
    if k == |d| {
      DottedLenRunEnd(d, rest);
    } else {
      DottedLenDot(d, rest, k);
      DottedLenAppend(d[k + 1..], rest);
    }
  }

  /** A dotted number is one digit run, or a digit run, a '.' and a shorter dotted number. */
  lemma DottedSplit(d: string)
    requires IsDottedNumber(d)
    ensures var k := DigitRun(d);
      0 < k && (k == |d| || (k + 1 < |d| && d[k] == '.' && IsAsciiDigit(d[k + 1]) && IsDottedNumber(d[k + 1..])))
  {
  }

  /** A digit run followed by neither a digit nor a '.' is the whole dotted number. */
  lemma DottedLenRunEnd(d: string, rest: string)
    requires d != [] && (forall i :: 0 <= i < |d| ==> IsAsciiDigit(d[i]))
    requires rest != [] && !IsAsciiDigit(rest[0]) && rest[0] != '.'
    ensures DottedLen(d + rest) == |d|
  {
    var s := d + rest;
    assert forall i :: 0 <= i < |d| ==> s[i] == d[i];
    assert s[|d|] == rest[0];
    PrefixLenIs(s, |d|, IsAsciiDigit);
  }

  /** A digit run followed by '.' and a digit continues into the rest. */
  lemma DottedLenDot(d: string, rest: string, k: nat)
    requires 0 < k && k + 1 < |d| && (forall i :: 0 <= i < k ==> IsAsciiDigit(d[i]))
    requires d[k] == '.' && IsAsciiDigit(d[k + 1])
    ensures DottedLen(d + rest) == k + 1 + DottedLen(d[k + 1..] + rest)
  {
    var s := d + rest;
    assert forall i :: 0 <= i < k ==> s[i] == d[i];
    assert s[k] == d[k] && s[k + 1] == d[k + 1];
    DottedLenDotAt(s, k);
    assert s[k + 1..] == d[k + 1..] + rest;
  }

  lemma DottedLenDotAt(s: string, k: nat)
    requires 0 < k && k + 1 < |s| && (forall i :: 0 <= i < k ==> IsAsciiDigit(s[i]))
    requires s[k] == '.' && IsAsciiDigit(s[k + 1])
    ensures DottedLen(s) == k + 1 + DottedLen(s[k + 1..])
  {
    PrefixLenIs(s, k, IsAsciiDigit);
  }

  /** Index of the last '.' of `s`, or -1. */
  function LastDot(s: string): (r: int)
    ensures -1 <= r < |s|
    ensures r >= 0 ==> s[r] == '.'
    ensures forall i :: r < i < |s| ==> s[i] != '.'
  {
    if s == [] then -1 else if s[|s| - 1] == '.' then |s| - 1 else LastDot(s[..|s| - 1])
  }

  /** `s.split(c)[0]`: the text before the first `c`. */
  function Before(s: string, c: char): (r: string)
    ensures |r| <= |s| && r == s[..|r|] && c !in r
    ensures |r| < |s| ==> s[|r|] == c
  {
    s[..PrefixLen(s, x => x != c)]
  }

  // ---------------------------------------------------------------------
  // _extract_proposal_subsections_from_bid_format
  // ---------------------------------------------------------------------

  const TechnicalKeywords: seq<string> := ["方案", "技术", "设计", "优化", "改造", "工艺", "系统",
    "设备", "配置", "路由", "管网", "捕集", "尘源", "关键", "详细说明", "说明", "图纸", "布置图"]

  const ConstructionKeywords: seq<string> := ["施工", "组织", "方法", "措施", "工序", "流程", "质量",
    "安全", "进度", "资源", "配合", "停机", "时间", "文明", "环保", "验收", "试车"]

  predicate IsItemSep(c: char) { c == '、' || c == '.' || c == ')' }

  /**
   * `^(\d+(?:\.\d+)*)[、.)]\s*(.+)$` on a stripped line, as (number, stripped
   * title). When the whole dotted number cannot be followed by a separator
   * and a title, the regex backtracks to the number before its last dot,
   * with that dot as the separator.
   */
  function NumberedItem(s: string): (r: Option<(string, string)>)
    ensures r.Some? ==> r.value.0 != [] && IsAsciiDigit(r.value.0[0])
  {
    var n := DottedLen(s);
    if n == 0 then None
    else if n < |s| && IsItemSep(s[n]) && Strip(s[n + 1..]) != "" then Some((s[..n], Strip(s[n + 1..])))
    else
      var k := LastDot(s[..n]);
      if k < 0 then None else Some((s[..k], Strip(s[k + 1..])))
  }

  /** A numbered item written as number, '、' and title is read back as that number and title. */
  lemma NumberedItemRoundTrip(number: string, title: string)
    requires IsDottedNumber(number) && title != [] && Strip(title) == title
    ensures NumberedItem(number + "、" + title) == Some((number, title))
  {
    var rest := "、" + title;
    var s := number + rest;
    assert s == number + "、" + title;
    DottedLenAppend(number, rest);
    var n := |number|;
    assert s[..n] == number && s[n] == '、' && s[n + 1..] == title;
    assert IsItemSep(s[n]) && Strip(s[n + 1..]) != "";
  }

  predicate IsBulletMark(c: char) { c == '-' || c == '*' || c == '•' }

  /** `^[-*•]\s+(.+)$` on a line without line breaks, as the stripped item text. */
  function BulletItem(s: string): Option<string>
  {
    if |s| >= 3 && IsBulletMark(s[0]) && IsSpace(s[1]) then Some(Strip(s[1..])) else None
  }

  /** The two lists `_extract_proposal_subsections_from_bid_format` fills. */
  datatype Buckets = Buckets(technical: seq<string>, construction: seq<string>)

  /** Does some entry of `items` contain `w`? */
  predicate AnyHolds(items: seq<string>, w: string)
  {
    items != [] && (Contains(items[0], w) || AnyHolds(items[1..], w))
  }

  lemma {:induction false} AnyHoldsIff(items: seq<string>, w: string)
    ensures AnyHolds(items, w) <==> exists i :: 0 <= i < |items| && Contains(items[i], w)
  {
    if items != [] {
      AnyHoldsIff(items[1..], w);
      assert forall i :: 1 <= i < |items| ==> items[i] == items[1..][i - 1];
      if exists i :: 0 <= i < |items| && Contains(items[i], w) {
        var i :| 0 <= i < |items| && Contains(items[i], w);
        assert i == 0 || Contains(items[1..][i - 1], w);
      }
    }
  }

  /**
   * One stripped line. A numbered line with a construction keyword goes to
   * construction whatever else it holds, with only technical keywords to
   * technical; one with neither, if its number is dotted, follows the list
   * holding an entry that contains its first number component, technical
   * first. A bullet with keywords is filed the same way as "• item".
   */
  function ClassifyLine(b: Buckets, s: string, tech: seq<string>, cons: seq<string>): (r: Buckets)
  {
    if s == [] then b
    else match NumberedItem(s)
      case Some((number, title)) =>
        var entry := number + " " + title;
        var isTech := ContainsAny(title, tech);
        var isCons := ContainsAny(title, cons);
        if isTech && !isCons then Buckets(b.technical + [entry], b.construction)
        else if isCons then Buckets(b.technical, b.construction + [entry])
        else if '.' in number then
          var mainNum := Before(number, '.');
          if AnyHolds(b.technical, mainNum) then Buckets(b.technical + [entry], b.construction)
          else if AnyHolds(b.construction, mainNum) then Buckets(b.technical, b.construction + [entry])
          else b
        else b
      case None =>
        match BulletItem(s)
        case Some(item) =>
          var entry := "• " + item;
          if ContainsAny(item, tech) && !ContainsAny(item, cons) then Buckets(b.technical + [entry], b.construction)
          else if ContainsAny(item, cons) then Buckets(b.technical, b.construction + [entry])
          else b
        case None => b
  }

  /** The lists after the first `|lines|` lines, one stripped line at a time. */
  function BucketsOf(lines: seq<string>, tech: seq<string>, cons: seq<string>): Buckets
  {
    if lines == [] then Buckets([], [])
    else ClassifyLine(BucketsOf(lines[..|lines| - 1], tech, cons), Strip(lines[|lines| - 1]), tech, cons)
  }

  /** An entry is a numbered line's "number title" or a bullet's "• item". */
  predicate IsEntry(e: string)
  {
    (e != [] && IsAsciiDigit(e[0])) || StartsWith(e, "• ")
  }

  predicate EntriesOK(b: Buckets)
  {
    (forall i :: 0 <= i < |b.technical| ==> IsEntry(b.technical[i]))
    && (forall i :: 0 <= i < |b.construction| ==> IsEntry(b.construction[i]))
  }

  /**
   * One line adds at most one entry, at the end of one list, and the entry
   * is a numbered item or a bullet.
   */
  lemma ClassifyAppends(b: Buckets, s: string, tech: seq<string>, cons: seq<string>)
    requires EntriesOK(b)
    ensures var r := ClassifyLine(b, s, tech, cons);
      && EntriesOK(r)
      && (r == b
          || (r.construction == b.construction && |r.technical| == |b.technical| + 1 && r.technical[..|b.technical|] == b.technical)
          || (r.technical == b.technical && |r.construction| == |b.construction| + 1 && r.construction[..|b.construction|] == b.construction))
  {
    if s != [] {
      match NumberedItem(s)
      case Some((number, title)) =>
        assert (number + " " + title)[0] == number[0];
        EntryAppends(b, number + " " + title);
      case None =>
        match BulletItem(s)
        case Some(item) =>
          assert StartsWith("• " + item, "• ");
          EntryAppends(b, "• " + item);
        case None =>
    }
  }

  /** Appending an entry to either list keeps every entry well-formed and the list's earlier entries in place. */
  lemma EntryAppends(b: Buckets, e: string)
    requires EntriesOK(b) && IsEntry(e)
    ensures EntriesOK(Buckets(b.technical + [e], b.construction))
    ensures EntriesOK(Buckets(b.technical, b.construction + [e]))
    ensures (b.technical + [e])[..|b.technical|] == b.technical
    ensures (b.construction + [e])[..|b.construction|] == b.construction
  {
  }

  /** Every entry of either list is a numbered item or a bullet. */
  lemma {:induction false} BucketEntries(lines: seq<string>, tech: seq<string>, cons: seq<string>)
    ensures EntriesOK(BucketsOf(lines, tech, cons))
  {
    if lines != [] {
      BucketEntries(lines[..|lines| - 1], tech, cons);
      ClassifyAppends(BucketsOf(lines[..|lines| - 1], tech, cons), Strip(lines[|lines| - 1]), tech, cons);
    }
  }

  /** A numbered line with a construction keyword goes to construction, whatever technical keywords it holds. */
  lemma ConstructionWins(b: Buckets, s: string, tech: seq<string>, cons: seq<string>, number: string, title: string)
    requires NumberedItem(s) == Some((number, title)) && ContainsAny(title, cons)
    ensures ClassifyLine(b, s, tech, cons) == Buckets(b.technical, b.construction + [number + " " + title])
  {
  }

  /** `_extract_proposal_subsections_from_bid_format`: one pass over the lines of `content`. */
  method ExtractProposalSubsections(content: string) returns (r: Buckets)
    ensures r == BucketsOf(SplitOn(content, "\n"), TechnicalKeywords, ConstructionKeywords)
  {
    r := ClassifyLines(SplitOn(content, "\n"), TechnicalKeywords, ConstructionKeywords);
  }

  /** The loop of `_extract_proposal_subsections_from_bid_format`, appending to the two lists. */
  method ClassifyLines(lines: seq<string>, tech: seq<string>, cons: seq<string>) returns (r: Buckets)
    ensures r == BucketsOf(lines, tech, cons)
  {
    var technical, construction := [], [];
    for i := 0 to |lines|
      invariant Buckets(technical, construction) == BucketsOf(lines[..i], tech, cons)
    {
      assert lines[..i + 1][..i] == lines[..i];
      var s := Strip(lines[i]);
      if s == [] {
        continue;
      }
      var numbered := NumberedItem(s);
      if numbered.Some? {
        var (number, title) := numbered.value;
        var entry := number + " " + title;
        var isTech := ContainsAny(title, tech);
        var isCons := ContainsAny(title, cons);
        if isTech && !isCons {
          technical := technical + [entry];
        } else if isCons {
          construction := construction + [entry];
        } else if '.' in number {
          var mainNum := Before(number, '.');
          if AnyHolds(technical, mainNum) {
            technical := technical + [entry];
          } else if AnyHolds(construction, mainNum) {
            construction := construction + [entry];
          }
        }
      } else {
        var bullet := BulletItem(s);
        if bullet.Some? {
          var entry := "• " + bullet.value;
          if ContainsAny(bullet.value, tech) && !ContainsAny(bullet.value, cons) {
            technical := technical + [entry];
          } else if ContainsAny(bullet.value, cons) {
            construction := construction + [entry];
          }
        }
      }
    }
    assert lines[..|lines|] == lines;
    r := Buckets(technical, construction);
  }

  // ---------------------------------------------------------------------
  // _parse_section_structure
  // ---------------------------------------------------------------------

  predicate IsHeadSep(c: char) { c == '、' || c == '.' || c == ':' }

  /**
   * `^(\d+(?:\.\d+)*)\s*[、.:]?\s*([^\n]+)$` on a stripped line, as (number,
   * stripped title). It matches every such line that starts with a digit,
   * except a single digit: a line that is only a number gives up its last
   * digit (or its last dot and digit) as the title.
   */
  function HeadPattern(s: string): (r: Option<(string, string)>)
    ensures r.Some? ==> r.value.0 != [] && IsAsciiDigit(r.value.0[0])
  {
    var n := DottedLen(s);
    if n == 0 then None
    else if n < |s| then
      var a := LStrip(s[n..]);
      if |a| >= 2 && IsHeadSep(a[0]) then Some((s[..n], Strip(a[1..]))) else Some((s[..n], Strip(a)))
    else if n >= 2 then
      if IsAsciiDigit(s[n - 2]) then Some((s[..n - 1], [s[n - 1]])) else Some((s[..n - 2], [s[n - 1]]))
    else None
  }

  predicate IsOpenBracket(c: char) { c == '(' || c == '（' }

  predicate IsCloseBracket(c: char) { c == ')' || c == '）' }

  /** `^[(（]\s*(\d+)\s*[)）]\s*([^\n]+)$` on a line without line breaks, as (number, stripped title). */
  function BracketPattern(s: string): (r: Option<(string, string)>)
    ensures r.Some? ==> r.value.0 != [] && IsAsciiDigit(r.value.0[0])
  {
    if s == [] || !IsOpenBracket(s[0]) then None
    else
      var a := LStrip(s[1..]);
      var d := DigitRun(a);
      if d == 0 then None
      else
        var b := LStrip(a[d..]);
        if |b| < 2 || !IsCloseBracket(b[0]) then None else Some((a[..d], Strip(b[1..])))
  }

  predicate IsListMark(c: char) { c == '*' || c == ' ' || c == '-' || c == '•' || c == '○' || c == '●' }

  /** How `_parse_section_structure` reads one line. */
  datatype LineKind = Numbered(number: string, title: string) | ListItem(text: string) | Plain

  /**
   * The line is stripped; blank lines are skipped. The first pattern is
   * tried, then the bracketed one (the two between them never match a line
   * the first one misses); an unmatched line opening with a list mark is a
   * list item, stripped of list marks and spaces.
   */
  function KindOf(line: string): (k: LineKind)
    ensures k.Numbered? ==> k.number != [] && IsAsciiDigit(k.number[0])
  {
    var s := Strip(line);
    if s == [] then Plain
    else match HeadPattern(s)
      case Some((number, title)) => Numbered(number, title)
      case None =>
        match BracketPattern(s)
        case Some((number, title)) => Numbered(number, title)
        case None => if s[0] in "*-•○●" then ListItem(Strip(Trim(s, IsListMark))) else Plain
  }

  /** A dotted or multi-digit number is a sub-section number. */
  predicate IsSubNumber(number: string)
  {
    '.' in number || (|number| > 1 && IsDigits(number))
  }

  /** The main number a sub-section number belongs to: before its first dot, or its first digit. */
  function MainNumber(number: string): string
    requires number != []
  {
    if '.' in number then Before(number, '.') else [number[0]]
  }

  /** The parser's state: main sections, sub-sections by main section, and the current main section. */
  datatype Structure = Structure(main: seq<string>, sub: map<string, seq<string>>, current: string)

  /** `sub.setdefault(key, []).append(entry)`. */
  function AddSub(sub: map<string, seq<string>>, key: string, entry: string): (r: map<string, seq<string>>)
    ensures r.Keys == sub.Keys + {key}
    ensures r[key] == (if key in sub then sub[key] else []) + [entry]
    ensures forall k :: k in sub && k != key ==> r[k] == sub[k]
  {
    sub[key := (if key in sub then sub[key] else []) + [entry]]
  }

  /**
   * One line. A single-digit number opens a main section "number title" and
   * makes it current. A sub-section number is filed under the current main
   * section when its main number is the current section's number (its text
   * before the first space), and dropped otherwise. A list item is filed
   * under the current main section, if there is one.
   */
  function StructureStep(st: Structure, k: LineKind): Structure
  {
    match k
    case Numbered(number, title) =>
      if number == [] then st
      else if IsSubNumber(number) then
        if st.current != "" && MainNumber(number) == Before(st.current, ' ') then
          st.(sub := AddSub(st.sub, st.current, number + " " + title))
        else st
      else
        var entry := number + " " + title;
        Structure(st.main + [entry], st.sub, entry)
    case ListItem(text) =>
      if st.current != "" then st.(sub := AddSub(st.sub, st.current, text)) else st
    case Plain => st
  }

  /** The state after the given lines. */
  function StructureOf(lines: seq<string>): Structure
  {
    if lines == [] then Structure([], map[], "")
    else StructureStep(StructureOf(lines[..|lines| - 1]), KindOf(lines[|lines| - 1]))
  }

  /** `_parse_section_structure` of `content`, as an outline. */
  function ParseStructure(content: string): Outline
  {
    var st := StructureOf(SplitOn(content, "\n"));
    Outline(st.main, st.sub)
  }

  /** The current main section, when there is one, and every sub-section key are main sections. */
  predicate StructureOK(st: Structure)
  {
    (st.current == "" || st.current in st.main) && forall k :: k in st.sub ==> k in st.main
  }

  lemma StepKeepsOK(st: Structure, k: LineKind)
    requires StructureOK(st)
    ensures StructureOK(StructureStep(st, k))
  {
  }

  /** Every key of the sub-sections is a main section. */
  lemma {:induction false} SubKeysAreMain(lines: seq<string>)
    ensures StructureOK(StructureOf(lines))
  {
    if lines != [] {
      SubKeysAreMain(lines[..|lines| - 1]);
      StepKeepsOK(StructureOf(lines[..|lines| - 1]), KindOf(lines[|lines| - 1]));
    }
  }

  /** The main section a line opens, whatever came before it. */
  function MainEntry(k: LineKind): Option<string>
  {
    if k.Numbered? && k.number != [] && !IsSubNumber(k.number) then Some(k.number + " " + k.title) else None
  }

  /** The main sections opened by the lines, in order. */
  function MainsOf(lines: seq<string>): seq<string>
  {
    if lines == [] then []
    else
      var e := MainEntry(KindOf(lines[|lines| - 1]));
      MainsOf(lines[..|lines| - 1]) + (if e.Some? then [e.value] else [])
  }

  /** The main sections are exactly the main-opening lines in order; sub-sections never add one. */
  lemma {:induction false} MainIsFilter(lines: seq<string>)
    ensures StructureOf(lines).main == MainsOf(lines)
  {
    if lines != [] {
      MainIsFilter(lines[..|lines| - 1]);
    }
  }

  /** Blank lines change nothing. */
  lemma BlankIgnored(st: Structure, line: string)
    requires Strip(line) == []
    ensures StructureStep(st, KindOf(line)) == st
  {
  }

  /** A plain title after a one-digit number and a blank reads back as that number and title. */
  lemma HeadPatternMain(d: char, title: string)
    requires IsAsciiDigit(d) && title != [] && !IsAsciiDigit(title[0]) && !IsHeadSep(title[0]) && Strip(title) == title
    ensures HeadPattern([d] + " " + title) == Some(([d], title))
  {
    var s := [d] + " " + title;
    DottedLenAppend([d], " " + title);
    assert s[..1] == [d] && s[1..] == " " + title;
    assert PrefixLen(" " + title, IsSpace) == 1 by {
      PrefixLenIs(" " + title, 1, IsSpace);
    }
    assert LStrip(s[1..]) == title;
  }

  /** A line made of one digit, a blank and a plain title is read as that number and title. */
  lemma MainLineKind(d: char, title: string)
    requires IsAsciiDigit(d) && title != [] && !IsAsciiDigit(title[0]) && !IsHeadSep(title[0]) && Strip(title) == title
    ensures KindOf([d] + " " + title) == Numbered([d], title)
  {
    var s := [d] + " " + title;
    assert !IsSpace(s[|s| - 1]) by {
      assert s[|s| - 1] == title[|title| - 1];
    }
    StripPlain(s);
    HeadPatternMain(d, title);
    KindOfHead(s);
  }

  /** A one-digit number opens a main section "number title" that becomes current. */
  lemma OpensMain(st: Structure, d: char, title: string)
    requires IsAsciiDigit(d)
    ensures StructureStep(st, Numbered([d], title)) == Structure(st.main + [[d] + " " + title], st.sub, [d] + " " + title)
  {
    assert !IsSubNumber([d]);
  }

  lemma KindOfHead(s: string)
    requires s != [] && Strip(s) == s && HeadPattern(s).Some?
    ensures KindOf(s) == Numbered(HeadPattern(s).value.0, HeadPattern(s).value.1)
  {
  }

  /**
   * A sub-section number never opens a main section; it is filed, at the end
   * of the current section's list, exactly when its main number is the
   * current section's number.
   */
  lemma SubNumberAttaches(st: Structure, number: string, title: string)
    requires IsSubNumber(number)
    ensures var r := StructureStep(st, Numbered(number, title));
      && r.main == st.main && r.current == st.current
      && (r.sub != st.sub <==> st.current != "" && MainNumber(number) == Before(st.current, ' '))
      && (r.sub != st.sub ==> r.sub[st.current] == (if st.current in st.sub then st.sub[st.current] else []) + [number + " " + title])
  {
    var r := StructureStep(st, Numbered(number, title));
    if st.current != "" && MainNumber(number) == Before(st.current, ' ') {
      assert st.current in r.sub;
      assert st.current !in st.sub || |r.sub[st.current]| == |st.sub[st.current]| + 1;
    }
  }

  /** The loop of `_parse_section_structure`, with `current_main` and the result lists updated in place. */
  method ParseSectionStructure(content: string) returns (r: Outline)
    ensures r == ParseStructure(content)
  {
    var lines := SplitOn(content, "\n");
    var main: seq<string>, sub: map<string, seq<string>>, current := [], map[], "";
    for i := 0 to |lines|
      invariant Structure(main, sub, current) == StructureOf(lines[..i])
    {
      StructureOfSnoc(lines, i);
      main, sub, current := AddLine(main, sub, current, KindOf(lines[i]));
    }
    assert lines[..|lines|] == lines;
    r := Outline(main, sub);
  }

  lemma StructureOfSnoc(lines: seq<string>, i: nat)
    requires i < |lines|
    ensures StructureOf(lines[..i + 1]) == StructureStep(StructureOf(lines[..i]), KindOf(lines[i]))
  {
    assert lines[..i + 1][..i] == lines[..i];
  }

  /** The body of the line loop of `_parse_section_structure`. */
  method AddLine(main: seq<string>, sub: map<string, seq<string>>, current: string, kind: LineKind)
    returns (main': seq<string>, sub': map<string, seq<string>>, current': string)
    requires kind.Numbered? ==> kind.number != []
    ensures Structure(main', sub', current') == StructureStep(Structure(main, sub, current), kind)
  {
    main', sub', current' := main, sub, current;
    match kind
    case Numbered(number, title) =>
      if IsSubNumber(number) {
        var mainNum := if '.' in number then Before(number, '.') else [number[0]];
        if current != "" && mainNum == Before(current, ' ') {
          var entries := if current in sub then sub[current] else [];
          sub' := sub[current := entries + [number + " " + title]];
        }
      } else {
        main' := main + [number + " " + title];
        current' := number + " " + title;
      }
    case ListItem(text) =>
      if current != "" {
        var entries := if current in sub then sub[current] else [];
        sub' := sub[current := entries + [text]];
      }
    case Plain =>
  }

  // ---------------------------------------------------------------------
  // _generate_generic_outline
  // ---------------------------------------------------------------------

  /** `_generate_generic_outline`: ten main sections, the first three with sub-sections. */
  const GenericOutline: Outline := Outline(
    ["1 项目概述与背景", "2 技术方案设计", "3 施工组织设计", "4 质量管理体系", "5 安全管理措施",
     "6 进度计划安排", "7 资源配置计划", "8 环境保护措施", "9 应急预案", "10 成果交付与验收"],
    map[
      "1 项目概述与背景" := ["1.1 项目基本情况", "1.2 建设背景与必要性", "1.3 项目目标与范围", "1.4 相关规范标准"],
      "2 技术方案设计" := ["2.1 总体技术方案", "2.2 关键技术说明", "2.3 设备选型与配置", "2.4 系统集成方案", "2.5 技术创新点"],
      "3 施工组织设计" := ["3.1 施工总体部署", "3.2 施工方法及技术措施", "3.3 施工工艺流程", "3.4 质量控制措施", "3.5 安全文明施工"]
    ])

  /** Every sub-section key of an outline is one of its main sections. */
  predicate OutlineOK(o: Outline)
  {
    forall k :: k in o.subSections ==> k in o.mainSections
  }

  lemma GenericOutlineOK()
    ensures OutlineOK(GenericOutline) && |GenericOutline.mainSections| == 10
  {
    var m := GenericOutline.mainSections;
    assert m[0] == "1 项目概述与背景" && m[1] == "2 技术方案设计" && m[2] == "3 施工组织设计";
  }

  // ---------------------------------------------------------------------
  // extract_proposal_outline
  // ---------------------------------------------------------------------

  /** A `head[\s\S]*?tail` pattern whose head is one of several strings. */
  datatype LazyPattern = LazyPattern(heads: seq<string>, tail: string)

  /** The bid-format patterns in the order they are tried. */
  const BidFormatPatterns: seq<LazyPattern> := [
    LazyPattern(["第五章", "第5章"], "投标文件格式"),
    LazyPattern(["投标文件格式"], ""),
    LazyPattern(["第五章"], "格式"),
    LazyPattern(["第5章"], "格式")]

  /** The plan-chapter titles searched for in the text, in order. */
  const ProposalPatterns: seq<string> :=
    ["方案详细说明及施工组织设计", "方案详细说明", "施工组织设计", "技术方案", "实施方案", "施工方案", "技术实施", "施工组织"]

  /** Some head of `heads` occurs at `p` with the tail somewhere after it. */
  predicate HeadAt(text: string, heads: seq<string>, tail: string, p: nat)
  {
    heads != []
    && ((OccursAt(text, heads[0], p) && Contains(text[p + |heads[0]|..], tail)) || HeadAt(text, heads[1..], tail, p))
  }

  /** `re.search(pattern, text).start()` from `p` on: the leftmost position where the pattern matches. */
  function LazySearch(text: string, pat: LazyPattern, p: nat): (r: Option<nat>)
    requires p <= |text|
    ensures r.Some? ==> p <= r.value <= |text| && HeadAt(text, pat.heads, pat.tail, r.value)
    ensures forall q :: p <= q <= |text| && (r.None? || q < r.value) ==> !HeadAt(text, pat.heads, pat.tail, q)
    decreases |text| - p
  {
    if HeadAt(text, pat.heads, pat.tail, p) then Some(p)
    else if p == |text| then None
    else LazySearch(text, pat, p + 1)
  }

  /** The fixed two-section outline filled from the bid-format chapter. */
  function TwoSectionOutline(b: Buckets): (o: Outline)
    ensures OutlineOK(o)
  {
    Outline(["1 方案的详细说明", "2 施工组织设计"],
      map["1 方案的详细说明" := b.technical, "2 施工组织设计" := b.construction])
  }

  /** Step 1: the plan chapter named in the given outline, cut out of the text and parsed. */
  function FromSections(text: string, sections: seq<string>): Option<Outline>
  {
    match FirstProposal(sections)
    case None => None
    case Some(title) =>
      match SpecificSectionContent(text, title)
      case None => None
      case Some(content) => if content == "" then None else Some(ParseStructure(content))
  }

  /** Step 2: the first bid-format pattern whose chapter is non-empty, read into the two-section outline. */
  function FromBidFormat(text: string, pats: seq<LazyPattern>): Option<Outline>
  {
    if pats == [] then None
    else
      match LazySearch(text, pats[0], 0)
      case None => FromBidFormat(text, pats[1..])
      case Some(start) =>
        var content := CutContent(text, start, BidFormatEnds, 8000);
        if content == "" then FromBidFormat(text, pats[1..])
        else Some(TwoSectionOutline(BucketsOf(SplitOn(content, "\n"), TechnicalKeywords, ConstructionKeywords)))
  }

  /** Step 3: the first plan title found in the text whose chapter is non-empty, parsed. */
  function FromTitles(text: string, titles: seq<string>): Option<Outline>
  {
    if titles == [] then None
    else
      var i := Find(text, titles[0]);
      if i < 0 then FromTitles(text, titles[1..])
      else
        var content := CutContent(text, i, SectionEnds, 5000);
        if content == "" then FromTitles(text, titles[1..]) else Some(ParseStructure(content))
  }

  /** `extract_proposal_outline`: the first step that yields an outline, else the generic one. */
  function ProposalOutlineOf(text: string, sections: seq<string>): Outline
  {
    var first := if sections != [] then FromSections(text, sections) else None;
    if first.Some? then first.value
    else
      var second := FromBidFormat(text, BidFormatPatterns);
      if second.Some? then second.value
      else
        var third := FromTitles(text, ProposalPatterns);
        if third.Some? then third.value else GenericOutline
  }

  /** A parsed outline files sub-sections only under its main sections. */
  lemma ParseStructureOK(content: string)
    ensures OutlineOK(ParseStructure(content))
  {
    SubKeysAreMain(SplitOn(content, "\n"));
  }

  lemma {:induction false} FromBidFormatOK(text: string, pats: seq<LazyPattern>)
    ensures FromBidFormat(text, pats).Some? ==> OutlineOK(FromBidFormat(text, pats).value)
  {
    if pats != [] {
      FromBidFormatOK(text, pats[1..]);
    }
  }

  lemma {:induction false} FromTitlesOK(text: string, titles: seq<string>)
    ensures FromTitles(text, titles).Some? ==> OutlineOK(FromTitles(text, titles).value)
  {
    if titles != [] {
      FromTitlesOK(text, titles[1..]);
      var i := Find(text, titles[0]);
      if i >= 0 {
        ParseStructureOK(CutContent(text, i, SectionEnds, 5000));
      }
    }
  }

  /** Whatever step yields it, every sub-section key of the outline is one of its main sections. */
  lemma OutlineKeysAreMain(text: string, sections: seq<string>)
    ensures OutlineOK(ProposalOutlineOf(text, sections))
  {
    if sections != [] {
      match FirstProposal(sections)
      case None =>
      case Some(title) =>
        match SpecificSectionContent(text, title)
        case None =>
        case Some(content) => ParseStructureOK(content);
    }
    FromBidFormatOK(text, BidFormatPatterns);
    FromTitlesOK(text, ProposalPatterns);
    GenericOutlineOK();
  }

  /** The bid-format step with its loop over the patterns. */
  method TryBidFormat(text: string, pats: seq<LazyPattern>) returns (r: Option<Outline>)
    ensures r == FromBidFormat(text, pats)
  {
    var k := 0;
    while k < |pats|
      invariant 0 <= k <= |pats|
      invariant FromBidFormat(text, pats) == FromBidFormat(text, pats[k..])
    {
      var start := LazySearch(text, pats[k], 0);
      if start.Some? {
        var content := ExtractBidFormatSectionContent(text, start.value);
        if content != "" {
          var b := ExtractProposalSubsections(content);
          BidFormatHit(text, pats, k, start.value);
          return Some(TwoSectionOutline(b));
        }
      }
      BidFormatSkip(text, pats, k);
      k := k + 1;
    }
    return None;
  }

  /** A pattern that is not found, or whose chapter is empty, passes on to the next one. */
  lemma BidFormatSkip(text: string, pats: seq<LazyPattern>, k: nat)
    requires k < |pats|
    requires var start := LazySearch(text, pats[k], 0);
      start.None? || CutContent(text, start.value, BidFormatEnds, 8000) == ""
    ensures FromBidFormat(text, pats[k..]) == FromBidFormat(text, pats[k + 1..])
  {
    assert pats[k..][1..] == pats[k + 1..];
  }

  /** A pattern found with a non-empty chapter decides the outline. */
  lemma BidFormatHit(text: string, pats: seq<LazyPattern>, k: nat, start: nat)
    requires k < |pats|
    requires LazySearch(text, pats[k], 0) == Some(start)
    requires CutContent(text, start, BidFormatEnds, 8000) != ""
    ensures FromBidFormat(text, pats[k..])
      == Some(TwoSectionOutline(BucketsOf(SplitOn(CutContent(text, start, BidFormatEnds, 8000), "\n"),
                                          TechnicalKeywords, ConstructionKeywords)))
  {
  }

  /** The plan-title step with its loop over the titles. */
  method TryTitles(text: string, titles: seq<string>) returns (r: Option<Outline>)
    ensures r == FromTitles(text, titles)
  {
    var k := 0;
    while k < |titles|
      invariant 0 <= k <= |titles|
      invariant FromTitles(text, titles) == FromTitles(text, titles[k..])
    {
      assert titles[k..][1..] == titles[k + 1..];
      var i := Find(text, titles[k]);
      if i >= 0 {
        var content := ExtractSectionContent(text, i);
        if content != "" {
          var parsed := ParseSectionStructure(content);
          return Some(parsed);
        }
      }
      k := k + 1;
    }
    return None;
  }

  /** `extract_proposal_outline`: outline sections first, then the bid-format chapter, then plan titles, then the generic outline. */
  method ExtractProposalOutline(text: string, sections: seq<string>) returns (o: Outline)
    ensures o == ProposalOutlineOf(text, sections)
    ensures OutlineOK(o)
  {
    OutlineKeysAreMain(text, sections);
    if sections != [] {
      var proposal := FindProposalSection(sections);
      if proposal.Some? {
        var content := SpecificSectionContent(text, proposal.value);
        if content.Some? && content.value != "" {
          o := ParseSectionStructure(content.value);
          return;
        }
      }
    }
    var second := TryBidFormat(text, BidFormatPatterns);
    if second.Some? {
      return second.value;
    }
    var third := TryTitles(text, ProposalPatterns);
    if third.Some? {
      return third.value;
    }
    o := GenericOutline;
  }

  // ---------------------------------------------------------------------
  // generate_proposal_markdown
  // ---------------------------------------------------------------------

  const Placeholder: string := "*此处填写具体内容*\n\n"

  /** The blocks `f` writes for each of `xs`, one after the other. */
  function ConcatMap(xs: seq<string>, f: string -> string): string
  {
    if xs == [] then "" else ConcatMap(xs[..|xs| - 1], f) + f(xs[|xs| - 1])
  }

  /** The blocks of two runs are the blocks of each, one after the other. */
  lemma {:induction false} ConcatMapAppend(a: seq<string>, b: seq<string>, f: string -> string)
    ensures ConcatMap(a + b, f) == ConcatMap(a, f) + ConcatMap(b, f)
    decreases |b|
  {
    if b == [] {
      assert a + b == a;
    } else {
      var b' := b[..|b| - 1];
      ConcatMapAppend(a, b', f);
      assert (a + b)[..|a + b| - 1] == a + b';
      assert (a + b)[|a + b| - 1] == b[|b| - 1];
    }
  }

  /** The run of `xs` split around its `k`-th element. */
  lemma ConcatMapAt(xs: seq<string>, f: string -> string, k: nat)
    requires k < |xs|
    ensures ConcatMap(xs, f) == ConcatMap(xs[..k], f) + f(xs[k]) + ConcatMap(xs[k + 1..], f)
  {
    var x := xs[k];
    var A, B, C := ConcatMap(xs[..k], f), ConcatMap(xs[k..], f), ConcatMap(xs[k + 1..], f);
    ConcatMapAppend(xs[..k], xs[k..], f);
    assert xs[..k] + xs[k..] == xs;
    assert ConcatMap(xs, f) == A + B;
    ConcatMapAppend([x], xs[k + 1..], f);
    assert [x] + xs[k + 1..] == xs[k..];
    ConcatMapOne(x, f);
    assert B == f(x) + C;
    AppendAssoc(A, f(x), C);
  }

  lemma ConcatMapOne(x: string, f: string -> string)
    ensures ConcatMap([x], f) == f(x)
  {
    assert [x][..0] == [];
  }

  lemma AppendAssoc(a: string, b: string, c: string)
    ensures a + (b + c) == a + b + c
  {
  }

  /** One sub-section: its "### " line and the placeholder. */
  function SubBlock(item: string): string
  {
    "### " + item + "\n\n" + Placeholder
  }

  /**
   * One main section: its "## " line, then its sub-section blocks when it
   * has an entry, else one placeholder.
   */
  function SectionBlock(section: string, sub: map<string, seq<string>>): string
  {
    "## " + section + "\n\n" + (if section in sub then ConcatMap(sub[section], SubBlock) else Placeholder)
  }

  /** The block writer for the sections of one outline. */
  function SectionWriter(sub: map<string, seq<string>>): string -> string
  {
    s => SectionBlock(s, sub)
  }

  /** The document `generate_proposal_markdown` writes. */
  function Markdown(o: Outline, title: string): string
  {
    "# " + title + "\n\n" + ConcatMap(o.mainSections, SectionWriter(o.subSections))
  }

  /**
   * The document opens with the title line, and the `k`-th main section's
   * block comes right after the blocks of the sections before it.
   */
  lemma MarkdownOrder(o: Outline, title: string, k: nat)
    requires k < |o.mainSections|
    ensures var w := SectionWriter(o.subSections);
      Markdown(o, title) == "# " + title + "\n\n" + ConcatMap(o.mainSections[..k], w) + SectionBlock(o.mainSections[k], o.subSections)
        + ConcatMap(o.mainSections[k + 1..], w)
  {
    ConcatMapAt(o.mainSections, SectionWriter(o.subSections), k);
  }

  /**
   * A main section is followed by one placeholder when it has no
   * sub-section entry, by nothing when its entry is empty, and otherwise by
   * a "### " line and a placeholder per sub-section, in order.
   */
  lemma SectionBlockShape(s: string, sub: map<string, seq<string>>)
    ensures s !in sub ==> SectionBlock(s, sub) == "## " + s + "\n\n" + Placeholder
    ensures s in sub && sub[s] == [] ==> SectionBlock(s, sub) == "## " + s + "\n\n"
    ensures s in sub && sub[s] != [] ==>
      SectionBlock(s, sub) == "## " + s + "\n\n" + SubBlock(sub[s][0]) + ConcatMap(sub[s][1..], SubBlock)
  {
    if s in sub && sub[s] != [] {
      var items := sub[s];
      ConcatMapAt(items, SubBlock, 0);
      assert items[..0] == [];
    }
  }

  /** `generate_proposal_markdown`, appending to the document section by section. */
  method GenerateProposalMarkdown(o: Outline, title: string) returns (md: string)
    ensures md == Markdown(o, title)
  {
    var w := SectionWriter(o.subSections);
    md := "# " + title + "\n\n";
    var sections := o.mainSections;
    for i := 0 to |sections|
      invariant md == "# " + title + "\n\n" + ConcatMap(sections[..i], w)
    {
      assert sections[..i + 1][..i] == sections[..i];
      var section := sections[i];
      ghost var before := md;
      var heading := "## " + section + "\n\n";
      md := md + heading;
      ghost var headed := md;
      if section in o.subSections {
        var items := o.subSections[section];
        for j := 0 to |items|
          invariant md == headed + ConcatMap(items[..j], SubBlock)
        {
          assert items[..j + 1][..j] == items[..j];
          ghost var prev := md;
          md := md + "### " + items[j] + "\n\n";
          md := md + Placeholder;
          assert md == prev + SubBlock(items[j]);
          AppendAssoc(headed, ConcatMap(items[..j], SubBlock), SubBlock(items[j]));
        }
        assert items[..|items|] == items;
        AppendAssoc(before, heading, ConcatMap(items, SubBlock));
        assert md == before + (heading + ConcatMap(items, SubBlock));
      } else {
        md := md + Placeholder;
        AppendAssoc(before, heading, Placeholder);
        assert md == before + (heading + Placeholder);
      }
      assert w(section) == SectionBlock(section, o.subSections);
      assert md == before + w(section);
      AppendAssoc("# " + title + "\n\n", ConcatMap(sections[..i], w), w(section));
    }
    assert sections[..|sections|] == sections;
  }
}
