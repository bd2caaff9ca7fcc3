/**
 * The bid-document skeleton builder (backend/agents/structure_extractor.py):
 * it finds the bid-format chapter of a tender, reads the list items of that
 * chapter into section names, and renders a Markdown skeleton with one
 * numbered block per section.
 */
module StructureExtractor {
  import opened Wrappers
  import opened Text
  import opened Numerals

  /** The sections used when the tender yields none. */
  const CanonicalSections: seq<string> := [
    "投标函", "法定代表人身份证明", "授权委托书", "投标保证金",
    "投标报价表", "分项报价表", "企业资料", "方案详细说明及施工组织设计",
    "资格审查资料", "商务和技术偏差表", "其他材料"]

  // ---------------------------------------------------------------------
  // _find_bid_format_block
  // ---------------------------------------------------------------------

  predicate IsHash(c: char) { c == '#' }

  predicate NotNewline(c: char) { c != '\n' }

  predicate IsFifth(c: char) { c == '五' || c == '5' || c == 'V' }

  predicate IsSixth(c: char) { c == '六' || c == '6' || c == 'V' || c == 'I' }

  /** `#{1,6}\s*第\s*[…]\s*章` at the start of `t`, with the chapter numeral given: the position after 章. */
  function ChapterHead(t: string, numeral: char -> bool): (r: Option<nat>)
    ensures r.Some? ==> 0 < r.value <= |t|
  {
    var h := PrefixLen(t, IsHash);
    if h < 1 || h > 6 then None
    else
      var a := Skip(t, h, IsSpace);
      if a == |t| || t[a] != '第' then None
      else
        var b := Skip(t, a + 1, IsSpace);
        if b == |t| || !numeral(t[b]) then None
        else
          var c := Skip(t, b + 1, IsSpace);
          if c == |t| || t[c] != '章' then None else Some(c + 1)
  }

  /**
   * The start pattern at the start of `t`: a chapter-five heading and, later
   * on the same line, 投标文件. The lazy `.*?` stops at its first
   * occurrence, which ends the match after 投标文件格式 when that follows and
   * after 投标文件 otherwise. The result is the length matched.
   */
  function StartMatch(t: string): (r: Option<nat>)
    ensures r.Some? ==> 0 < r.value <= |t|
  {
    match ChapterHead(t, IsFifth)
    case None => None
    case Some(e0) =>
      var lineEnd := Skip(t, e0, NotNewline);
      var q := FindFrom(t, "投标文件", e0);
      if q < 0 || q > lineEnd then None
      else Some(if OccursAt(t, "投标文件格式", q) then q + 6 else q + 4)
  }

  /** The end pattern at the start of `t`: a chapter-six heading, or '#'s and blanks before 评标. */
  predicate EndsBlock(t: string)
  {
    ChapterHead(t, IsSixth).Some?
    || (var h := PrefixLen(t, IsHash); 1 <= h <= 6 && OccursAt(t, "评标", Skip(t, h, IsSpace)))
  }

  /** `p` is where `^` matches under `re.M`: the start of `t` or just after a line break. */
  predicate LineStartAt(t: string, p: nat)
  {
    p == 0 || (p <= |t| && t[p - 1] == '\n')
  }

  /** `re.search` with `re.M` for a pattern anchored by `^`: the first line start from `p` on where `m` holds. */
  function SearchLines(t: string, p: nat, m: string -> bool): (r: Option<nat>)
    requires p <= |t|
    ensures r.Some? ==> p <= r.value <= |t| && LineStartAt(t, r.value) && m(t[r.value..])
    ensures forall q :: p <= q <= |t| && (r.None? || q < r.value) && LineStartAt(t, q) ==> !m(t[q..])
    decreases |t| - p
  {
    if LineStartAt(t, p) && m(t[p..]) then Some(p)
    else if p == |t| then None
    else SearchLines(t, p + 1, m)
  }

  /** A start matcher reports a non-empty match that fits in the text it is given. */
  ghost predicate FitsText(start: string -> Option<nat>)
  {
    forall t :: start(t).Some? ==> 0 < start(t).value <= |t|
  }

  /**
   * The span between the first line where `start` matches and the first line
   * after that match where `ends` matches (or the end of the text); (0, 0)
   * when `start` matches nowhere.
   */
  function SpanOf(text: string, start: string -> Option<nat>, ends: string -> bool): (r: (nat, nat))
    requires FitsText(start)
    ensures r.0 <= r.1 <= |text|
  {
    match SearchLines(text, 0, t => start(t).Some?)
    case None => (0, 0)
    case Some(s) =>
      var e := s + start(text[s..]).value;
      match SearchLines(text[e..], 0, ends)
      case Some(r) => (s, e + r)
      case None => (s, |text|)
  }

  /** The span is (0, 0) exactly when `start` matches at no line start. */
  lemma SpanOfNone(text: string, start: string -> Option<nat>, ends: string -> bool)
    requires FitsText(start)
    ensures SpanOf(text, start, ends) == (0, 0)
      <==> forall p :: 0 <= p <= |text| && LineStartAt(text, p) ==> start(text[p..]).None?
  {
    var r := SearchLines(text, 0, t => start(t).Some?);
    if r.Some? {
      var s := r.value;
      assert 0 < start(text[s..]).value;
    }
  }

  /**
   * Otherwise the span starts at the first line where `start` matches, and
   * ends at the first line start after the match where `ends` matches, or at
   * the end of the text.
   */
  lemma SpanOfSome(text: string, start: string -> Option<nat>, ends: string -> bool)
    requires FitsText(start) && SpanOf(text, start, ends) != (0, 0)
    ensures var (s, e) := SpanOf(text, start, ends);
      && LineStartAt(text, s) && start(text[s..]).Some?
      && (forall p :: 0 <= p < s && LineStartAt(text, p) ==> start(text[p..]).None?)
      && var m := s + start(text[s..]).value;
         m <= e && (e == |text| || (LineStartAt(text[m..], e - m) && ends(text[e..])))
  {
    var s := SearchLines(text, 0, t => start(t).Some?).value;
    var m := s + start(text[s..]).value;
    var r := SearchLines(text[m..], 0, ends);
    if r.Some? {
      assert text[m..][r.value..] == text[m + r.value..];
    }
  }

  lemma StartMatchFits()
    ensures FitsText(StartMatch)
  {
  }

  /** `_find_bid_format_block`. */
  function BlockSpan(text: string): (r: (nat, nat))
    ensures r.0 <= r.1 <= |text|
  {
    StartMatchFits();
    SpanOf(text, StartMatch, EndsBlock)
  }

  // ---------------------------------------------------------------------
  // _extract_sections
  // ---------------------------------------------------------------------

  /** `[0-9０-９一二三四五六七八九十]`. */
  predicate IsItemNumeral(c: char)
  {
    IsAsciiDigit(c) || ('０' <= c <= '９') || c == '一' || c == '二' || c == '三' || c == '四' || c == '五'
    || c == '六' || c == '七' || c == '八' || c == '九' || c == '十'
  }

  predicate IsItemBullet(c: char) { c == '-' || c == '*' || c == '•' }

  predicate IsMarkEnd(c: char) { c == '.' || c == ')' || c == '、' }

  /** Where the text after the list marker of `ln` starts: after blanks, numerals and a separator, or a bullet. */
  function MarkerEnd(ln: string): (r: Option<nat>)
    ensures r.Some? ==> r.value <= |ln|
  {
    var a := Skip(ln, 0, IsSpace);
    var n := Skip(ln, a, IsItemNumeral);
    if n > a then (if n < |ln| && IsMarkEnd(ln[n]) then Some(n + 1) else None)
    else if a < |ln| && IsItemBullet(ln[a]) then Some(a + 1) else None
  }

  /**
   * Group 2 of `^\s*(…)\s*(.+?)\s*$`: the text after the marker without
   * blanks at either end. Text made only of blanks yields one blank, which
   * the later steps reduce to nothing, as they do the empty text here.
   */
  function RawItem(ln: string): Option<string>
  {
    match MarkerEnd(ln)
    case None => None
    case Some(m) => if m == |ln| then None else Some(Strip(ln[m..]))
  }

  predicate IsOpenParen(c: char) { c == '（' || c == '(' }

  function CloseOf(c: char): char
  {
    if c == '（' then '）' else ')'
  }

  /** Index of the first `c` in `s`, or `|s|` when there is none. */
  function CharIndex(s: string, c: char): (k: nat)
    ensures k <= |s| && (k < |s| ==> s[k] == c)
    ensures forall j :: 0 <= j < k ==> s[j] != c
  {
    if s == [] || s[0] == c then 0 else 1 + CharIndex(s[1..], c)
  }

  /** `re.sub(r"（.*?）|\(.*?\)", "", s)`: each bracket up to its first closing bracket goes; an unclosed one stays. */
  function RemoveParens(s: string): (r: string)
    ensures |r| <= |s|
    decreases |s|
  {
    if s == [] then []
    else if IsOpenParen(s[0]) && CharIndex(s[1..], CloseOf(s[0])) < |s| - 1 then
      RemoveParens(s[CharIndex(s[1..], CloseOf(s[0])) + 2..])
    else [s[0]] + RemoveParens(s[1..])
  }

  lemma InSlice(s: string, a: nat, x: char)
    requires a <= |s| && x in s[a..]
    ensures x in s
  {
    var j :| 0 <= j < |s[a..]| && s[a..][j] == x;
    assert s[a + j] == x;
  }

  /** Removing brackets adds no character. */
  lemma {:induction false} RemoveParensKeeps(s: string, c: char)
    requires c !in s
    ensures c !in RemoveParens(s)
    decreases |s|
  {
    if s != [] {
      var a := if IsOpenParen(s[0]) && CharIndex(s[1..], CloseOf(s[0])) < |s| - 1
        then CharIndex(s[1..], CloseOf(s[0])) + 2 else 1;
      forall x | x in s[a..] ensures x in s {
        InSlice(s, a, x);
      }
      RemoveParensKeeps(s[a..], c);
    }
  }

  /** No opening bracket is followed, anywhere later, by its closing bracket. */
  predicate NoGroup(s: string)
  {
    forall i, j :: 0 <= i < j < |s| && IsOpenParen(s[i]) ==> s[j] != CloseOf(s[i])
  }

  lemma {:induction false} RemoveParensNoGroup(s: string)
    ensures NoGroup(RemoveParens(s))
    decreases |s|
  {
    if s != [] {
      if IsOpenParen(s[0]) && CharIndex(s[1..], CloseOf(s[0])) < |s| - 1 {
        RemoveParensNoGroup(s[CharIndex(s[1..], CloseOf(s[0])) + 2..]);
      } else {
        RemoveParensNoGroup(s[1..]);
        if IsOpenParen(s[0]) {
          var close := CloseOf(s[0]);
          assert close !in s[1..];
          RemoveParensKeeps(s[1..], close);
          var r := RemoveParens(s[1..]);
          assert forall j :: 0 <= j < |r| ==> r[j] != close;
        }
      }
    }
  }

  lemma NoGroupSlice(s: string, a: nat, b: nat)
    requires NoGroup(s) && a <= b <= |s|
    ensures NoGroup(s[a..b])
  {
    var t := s[a..b];
    forall i, j | 0 <= i < j < |t| && IsOpenParen(t[i])
      ensures t[j] != CloseOf(t[i])
    {
      assert t[i] == s[a + i] && t[j] == s[a + j];
    }
  }

  lemma NoGroupStrip(s: string)
    requires NoGroup(s)
    ensures NoGroup(Strip(s))
  {
    var l := LTrim(s, IsSpace);
    NoGroupSlice(s, |s| - |l|, |s|);
    NoGroupSlice(l, 0, |RTrim(l, IsSpace)|);
  }

  lemma {:induction false} NoGroupFilter(s: string, p: char -> bool)
    requires NoGroup(s)
    ensures NoGroup(Filter(s, p))
    decreases |s|
  {
    if s != [] {
      NoGroupSlice(s, 1, |s|);
      NoGroupFilter(s[1..], p);
      var rest := Filter(s[1..], p);
      if p(s[0]) && IsOpenParen(s[0]) {
        forall j | 0 <= j < |rest| ensures rest[j] != CloseOf(s[0]) {
          var k :| 0 <= k < |s[1..]| && s[1..][k] == rest[j];
          assert s[1 + k] == rest[j];
        }
      }
    }
  }

  predicate NotSpace(c: char) { !IsSpace(c) }

  /** Brackets removed, stripped, and every blank removed. */
  function CleanItem(g: string): string
  {
    Filter(Strip(RemoveParens(g)), NotSpace)
  }

  /** A cleaned item has no bracketed group left and no blank. */
  lemma CleanItemShape(g: string)
    ensures NoGroup(CleanItem(g))
    ensures forall i :: 0 <= i < |CleanItem(g)| ==> !IsSpace(CleanItem(g)[i])
  {
    RemoveParensNoGroup(g);
    NoGroupStrip(RemoveParens(g));
    NoGroupFilter(Strip(RemoveParens(g)), NotSpace);
  }

  /** The section name a line contributes, if any: a cleaned list item of 2 to 30 characters. */
  function LineItem(ln: string): Option<string>
  {
    match RawItem(ln)
    case None => None
    case Some(g) =>
      var item := CleanItem(g);
      if 2 <= |item| <= 30 then Some(item) else None
  }

  /** Every item has its bracketed text removed, holds no blank, and has 2 to 30 characters. */
  lemma LineItemShape(ln: string)
    ensures LineItem(ln).Some? ==> var x := LineItem(ln).value;
      && 2 <= |x| <= 30 && NoGroup(x) && forall i :: 0 <= i < |x| ==> !IsSpace(x[i])
  {
    if RawItem(ln).Some? {
      CleanItemShape(RawItem(ln).value);
    }
  }

  /** The items `item` finds in the lines, in line order. */
  function ItemsOf(lines: seq<string>, item: string -> Option<string>): (r: seq<string>)
    ensures |r| <= |lines|
  {
    if lines == [] then []
    else
      var x := item(lines[|lines| - 1]);
      ItemsOf(lines[..|lines| - 1], item) + (if x.Some? then [x.value] else [])
  }

  /** Every collected item is the item of some line. */
  lemma {:induction false} ItemsOfFrom(lines: seq<string>, item: string -> Option<string>)
    ensures forall x :: x in ItemsOf(lines, item) ==> exists k :: 0 <= k < |lines| && item(lines[k]) == Some(x)
  {
    if lines != [] {
      var init := lines[..|lines| - 1];
      ItemsOfFrom(init, item);
      forall x | x in ItemsOf(lines, item)
        ensures exists k :: 0 <= k < |lines| && item(lines[k]) == Some(x)
      {
        if x in ItemsOf(init, item) {
          var k :| 0 <= k < |init| && item(init[k]) == Some(x);
          assert lines[k] == init[k];
        } else {
          assert item(lines[|lines| - 1]) == Some(x);
        }
      }
    }
  }

  /** The name an item is filed under. */
  function Normalize(x: string): string
  {
    if Contains(x, "方案") && Contains(x, "施工") then "方案详细说明及施工组织设计"
    else if Contains(x, "偏差") then "商务和技术偏差表"
    else x
  }

  lemma FirstCharIn(s: string, t: string)
    requires t != []
    ensures Contains(s, t) ==> t[0] in s
  {
    if Contains(s, t) {
      ContainsWitness(s, t);
      var i := Find(s, t);
      assert s[i..i + |t|][0] == t[0];
    }
  }

  /** Normalising twice is normalising once: both fixed names are their own names. */
  lemma NormalizeIdempotent(x: string)
    ensures Normalize(Normalize(x)) == Normalize(x)
  {
    var plan := "方案详细说明及施工组织设计";
    var dev := "商务和技术偏差表";
    if Contains(x, "方案") && Contains(x, "施工") {
      assert OccursAt(plan, "方案", 0);
      assert OccursAt(plan, "施工", 7);
    } else if Contains(x, "偏差") {
      FirstCharIn(dev, "方案");
      assert '方' !in dev;
      assert OccursAt(dev, "偏差", 5);
    }
  }

  /** `dedup`: the first occurrence of each name, in order. */
  function Dedup(xs: seq<string>): seq<string>
  {
    if xs == [] then []
    else
      var d := Dedup(xs[..|xs| - 1]);
      if xs[|xs| - 1] in d then d else d + [xs[|xs| - 1]]
  }

  /** Position of the first occurrence of `x` in `xs`. */
  function FirstIndex(xs: seq<string>, x: string): (r: nat)
    requires x in xs
    ensures r < |xs| && xs[r] == x && x !in xs[..r]
  {
    if x in xs[..|xs| - 1] then FirstIndex(xs[..|xs| - 1], x)
    else
      assert xs[..|xs| - 1] + [xs[|xs| - 1]] == xs;
      |xs| - 1
  }

  /** No name twice. */
  predicate Distinct(d: seq<string>)
  {
    forall i, j :: 0 <= i < j < |d| ==> d[i] != d[j]
  }

  /**
   * The deduplicated list has no repeats, holds exactly the names of the
   * input, and lists them in the order of their first occurrences.
   */
  lemma {:induction false} DedupIs(xs: seq<string>)
    ensures var d := Dedup(xs);
      && Distinct(d)
      && (forall x :: x in d <==> x in xs)
      && (forall i, j :: 0 <= i < j < |d| ==> FirstIndex(xs, d[i]) < FirstIndex(xs, d[j]))
  {
    if xs != [] {
      var init := xs[..|xs| - 1];
      var last := xs[|xs| - 1];
      assert xs == init + [last];
      DedupIs(init);
      var d0 := Dedup(init);
      var d := Dedup(xs);
      forall x | x in init ensures FirstIndex(xs, x) == FirstIndex(init, x) {
      }
      if last !in d0 {
        assert last !in init;
        assert FirstIndex(xs, last) == |xs| - 1;
        forall i | 0 <= i < |d0| ensures FirstIndex(xs, d0[i]) < |xs| - 1 {
          assert d0[i] in init;
        }
        assert d == d0 + [last];
      }
    }
  }

  /** `_extract_sections` as a function of the block. */
  function SectionsOf(block: string): seq<string>
  {
    var d := Dedup(MapAll(ItemsOf(SplitLines(block), LineItem), Normalize));
    if d == [] then CanonicalSections else d
  }

  /** The canonical list has no repeats. */
  lemma CanonicalDistinct()
    ensures Distinct(CanonicalSections)
  {
    var c := CanonicalSections;
    forall i, j | 0 <= i < j < |c| ensures c[i] != c[j] {
      assert |c[i]| != |c[j]| || c[i][0] != c[j][0] || c[i][1] != c[j][1] || c[i][2] != c[j][2];
    }
  }

  /**
   * The list is never empty and has no repeats; when the block has list
   * items, every section is the normalised item of one of its lines.
   */
  lemma SectionsShape(block: string)
    ensures |SectionsOf(block)| > 0 && Distinct(SectionsOf(block))
    ensures SectionsOf(block) == CanonicalSections
      || forall x :: x in SectionsOf(block) ==> exists ln :: ln in SplitLines(block) && LineItem(ln).Some? && x == Normalize(LineItem(ln).value)
  {
    var lines := SplitLines(block);
    var items := ItemsOf(lines, LineItem);
    var norm := MapAll(items, Normalize);
    DedupIs(norm);
    CanonicalDistinct();
    ItemsOfFrom(lines, LineItem);
    if Dedup(norm) != [] {
      forall x | x in SectionsOf(block)
        ensures exists ln :: ln in lines && LineItem(ln).Some? && x == Normalize(LineItem(ln).value)
      {
        var i :| 0 <= i < |norm| && norm[i] == x;
        var k :| 0 <= k < |lines| && LineItem(lines[k]) == Some(items[i]);
      }
    }
  }

  /** The first pass of `_extract_sections`: the list items of the lines. */
  method CollectItems(lines: seq<string>) returns (items: seq<string>)
    ensures items == ItemsOf(lines, LineItem)
  {
    items := [];
    for i := 0 to |lines|
      invariant items == ItemsOf(lines[..i], LineItem)
    {
      assert lines[..i + 1][..i] == lines[..i];
      var m := LineItem(lines[i]);
      if m.Some? {
        items := items + [m.value];
      }
    }
    assert lines[..|lines|] == lines;
  }

  /** The second pass: every item under its normalised name. */
  method NormalizeItems(items: seq<string>) returns (norm: seq<string>)
    ensures norm == MapAll(items, Normalize)
  {
    norm := [];
    for i := 0 to |items|
      invariant norm == MapAll(items[..i], Normalize)
    {
      assert items[..i + 1][..i] == items[..i];
      var x := items[i];
      if Contains(x, "方案") && Contains(x, "施工") {
        norm := norm + ["方案详细说明及施工组织设计"];
      } else if Contains(x, "偏差") {
        norm := norm + ["商务和技术偏差表"];
      } else {
        norm := norm + [x];
      }
    }
    assert items[..|items|] == items;
  }

  /** The third pass: the first occurrence of each name. */
  method DedupNames(norm: seq<string>) returns (dedup: seq<string>)
    ensures dedup == Dedup(norm)
  {
    dedup := [];
    for i := 0 to |norm|
      invariant dedup == Dedup(norm[..i])
    {
      assert norm[..i + 1][..i] == norm[..i];
      if norm[i] !in dedup {
        dedup := dedup + [norm[i]];
      }
    }
    assert norm[..|norm|] == norm;
  }

  /** `_extract_sections`: the three passes, then the canonical list when nothing was found. */
  method ExtractSections(block: string) returns (r: seq<string>)
    ensures r == SectionsOf(block)
  {
    var items := CollectItems(SplitLines(block));
    var norm := NormalizeItems(items);
    var dedup := DedupNames(norm);
    r := if dedup == [] then CanonicalSections else dedup;
  }

  // ---------------------------------------------------------------------
  // _num and _render_skeleton
  // ---------------------------------------------------------------------

  /** `_num`: the numeral character for 0..10, the decimal string otherwise. */
  function Num(i: int): string
  {
    if 0 <= i < 11 then ["零一二三四五六七八九十"[i]] else IntToString(i)
  }

  lemma NumUnits(i: nat)
    requires 1 <= i <= 9
    ensures Num(i) == [CnDigit(i)]
  {
    if i == 1 {} else if i == 2 {} else if i == 3 {} else if i == 4 {} else if i == 5 {}
    else if i == 6 {} else if i == 7 {} else if i == 8 {} else {}
  }

  /** `cn2int` reads every `_num` back: cn2int(_num(i)) == i for i >= 0. */
  lemma NumRoundTrip(i: nat)
    ensures Cn2Int(Num(i)) == i
  {
    if i == 0 {
      NumZero(i);
    } else if i < 10 {
      NumUnits(i);
      Cn2IntUnits(i);
    } else if i == 10 {
      NumTen();
    } else {
      Cn2IntDecimal(i);
    }
  }

  lemma NumZero(i: nat)
    requires i == 0
    ensures Cn2Int(Num(i)) == i
  {
    var z := Num(i);
    assert z == ['零'];
    assert '百' !in z && '十' !in z && Plain(z);
    Cn2IntNoHundreds(z);
    TensWithout(z, 0);
    assert Lookup(z, 0) == CnValue(z[0]) == 0;
  }


  lemma NumTen()
    ensures Cn2Int(Num(10)) == 10
  {
    assert Num(10) == [] + ['十'] + [];
    Cn2IntNoHundreds(['十']);
    TensWith([], [], 0);
  }

  /** The table-of-contents line of the section at index `i`, numbered from 1. */
  function TocLine(i: nat, section: string): string
  {
    NatToString(i + 1) + ". " + section
  }

  function TocLines(sections: seq<string>): (r: seq<string>)
    ensures |r| == |sections| && forall i :: 0 <= i < |r| ==> r[i] == TocLine(i, sections[i])
  {
    seq(|sections|, i requires 0 <= i < |sections| => TocLine(i, sections[i]))
  }

  /** The body block of section number `k`. */
  function Body(k: int, section: string): string
  {
    "## " + Num(k) + "、" + section + "\n> [占位]\n"
  }

  function Bodies(sections: seq<string>): (r: seq<string>)
    ensures |r| == |sections| && forall i :: 0 <= i < |r| ==> r[i] == Body(i + 1, sections[i])
  {
    seq(|sections|, i requires 0 <= i < |sections| => Body(i + 1, sections[i]))
  }

  /** The front matter and cover, up to the table-of-contents heading. */
  function Front(today: string): string
  {
    "---\ntitle: 投标文件（骨架）\ngenerated_at: " + today + "\n---\n\n# 封面（模板）\n"
    + "- 项目名称：{PROJECT_NAME}\n- 招标编号：{TENDER_NO}\n- 投标人：{BIDDER_NAME}（盖章）\n"
    + "- 日期：{YYYY}年{MM}月{DD}日\n- 正/副本：正本1份，副本4份\n\n# 目 录\n"
  }

  const Trailer: string := "\n\n### 装订与份数提示\n- 正本/副本分别装订成册并编目录；避免可拆装订。\n"

  /** The skeleton document: front matter, table of contents, body blocks, binding note. */
  function Skeleton(sections: seq<string>, today: string): string
  {
    Front(today) + Join(TocLines(sections), "\n") + "\n\n---\n\n" + Join(Bodies(sections), "") + Trailer
  }

  /** The table-of-contents line of the section at index `i` starts with the decimal number i + 1. */
  lemma TocNumbering(sections: seq<string>, i: nat)
    requires i < |sections|
    ensures StartsWith(TocLines(sections)[i], NatToString(i + 1)) && ParseNat(NatToString(i + 1)) == i + 1
  {
    ParseNatToString(i + 1);
    var n := NatToString(i + 1);
    assert TocLines(sections)[i] == n + (". " + sections[i]);
  }

  /** The body block of the section at index `i` starts with "## " and a numeral that `cn2int` reads as i + 1. */
  lemma BodyNumbering(sections: seq<string>, i: nat)
    requires i < |sections|
    ensures StartsWith(Bodies(sections)[i], "## " + Num(i + 1) + "、") && Cn2Int(Num(i + 1)) == i + 1
  {
    NumRoundTrip(i + 1);
    BodyStarts(i + 1, sections[i]);
  }

  lemma BodyStarts(k: int, section: string)
    ensures StartsWith(Body(k, section), "## " + Num(k) + "、")
  {
    var h := "## " + Num(k) + "、";
    assert Body(k, section) == h + (section + "\n> [占位]\n");
  }

  /** `_render_skeleton`, with the date passed in. */
  method RenderSkeleton(sections: seq<string>, today: string) returns (md: string)
    ensures md == Skeleton(sections, today)
  {
    var toc := Join(TocLines(sections), "\n");
    var bodies: seq<string> := [];
    for idx := 0 to |sections|
      invariant |bodies| == idx
      invariant forall k :: 0 <= k < idx ==> bodies[k] == Body(k + 1, sections[k])
    {
      bodies := bodies + ["## " + Num(idx + 1) + "、" + sections[idx] + "\n> [占位]\n"];
    }
    assert bodies == Bodies(sections);
    md := Front(today) + toc + "\n\n---\n\n" + Join(bodies, "") + Trailer;
  }

  // ---------------------------------------------------------------------
  // execute
  // ---------------------------------------------------------------------

  /** The sections `execute` stores: from the bid-format block when one was found, else the canonical list. */
  function SkeletonSections(text: string): seq<string>
  {
    var (s, e) := BlockSpan(text);
    if s != 0 || e != 0 then SectionsOf(text[s..e]) else CanonicalSections
  }

  /** The stored sections are never empty and never repeat. */
  lemma SkeletonSectionsShape(text: string)
    ensures |SkeletonSections(text)| > 0 && Distinct(SkeletonSections(text))
  {
    var (s, e) := BlockSpan(text);
    if s != 0 || e != 0 {
      SectionsShape(text[s..e]);
    } else {
      CanonicalDistinct();
    }
  }
}
