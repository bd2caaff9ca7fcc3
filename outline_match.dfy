/**
 * The matching side of the outline extractor
 * (backend/agents/outline_extractor.py): the rule layer, the semantic layer,
 * the chapter-8 locator with its sliding-window fallback, and the
 * sub-section records.
 *
 * Scores are exact reals. TF-IDF cosine similarity and word segmentation
 * come from libraries outside the model and are passed in as `Oracles`.
 */
module OutlineMatch {
  import opened Wrappers
  import opened Text
  import opened OutlineHeadings

  /** A score in [0, 1]. */
  type Unit = r: real | 0.0 <= r <= 1.0

  /** One entry of the catalogue of target sections. */
  datatype TargetSection = TargetSection(
    key: string, normalizedKey: string, description: string,
    aliases: seq<string>, keywords: seq<string>, expectedLevel: nat)

  /**
   * The computations the semantic layer borrows: the TF-IDF cosine
   * similarity of a text and a target's description (fitted on the text, the
   * description and the aliases), and the word set of a text.
   */
  datatype Oracles = Oracles(tfidf: (string, TargetSection) -> Unit, segment: string -> set<string>)

  function Min1(x: real): (r: real)
    ensures r <= 1.0 && r <= x && (r == x || r == 1.0)
  {
    if x <= 1.0 then x else 1.0
  }

  // ---------------------------------------------------------------------
  // Rule layer
  // ---------------------------------------------------------------------

  /** The keyword synonyms the rule layer also accepts. */
  const SynonymDict: map<string, seq<string>> := map[
    "尘源点捕集罩" := ["吸风罩", "集气罩", "捕集装置", "收集罩", "除尘罩"],
    "平面管网路由" := ["总图管线", "管网布置", "流程管线走向", "管道布置", "管线路由"],
    "钢渣一次处理" := ["钢渣初级处理", "钢渣预处理", "一次处理工艺", "初级处理系统"],
    "除尘系统布置" := ["除尘系统布局", "除尘设备布置", "除尘装置安排", "除尘设施配置"],
    "关键技术说明" := ["核心技术说明", "技术要点阐述", "关键技术阐述", "技术难点说明"],
    "施工方法" := ["施工工艺", "施工技术", "施工方案", "施工流程"],
    "技术措施" := ["技术方案", "技术手段", "技术方法", "技术对策"],
    "停机时间" := ["停机配合", "停产时间", "设备停机", "生产中断"]
  ]

  /** How many entries of `keywords` occur in `text` (a repeated entry counts each time). */
  function KeywordHits(text: string, keywords: seq<string>): (n: nat)
    ensures n <= |keywords|
  {
    if keywords == [] then 0
    else KeywordHits(text, keywords[..|keywords| - 1]) + (if Contains(text, keywords[|keywords| - 1]) then 1 else 0)
  }

  /** Does the dictionary know `keyword`, and does one of its synonyms occur in `text`? */
  predicate SynonymHit(text: string, keyword: string)
  {
    keyword in SynonymDict && ContainsAny(text, SynonymDict[keyword])
  }

  /** How many entries of `keywords` have a synonym in `text`. */
  function SynonymHits(text: string, keywords: seq<string>): (n: nat)
    ensures n <= |keywords|
  {
    if keywords == [] then 0
    else SynonymHits(text, keywords[..|keywords| - 1]) + (if SynonymHit(text, keywords[|keywords| - 1]) then 1 else 0)
  }

  /** `_synonym_match_score`: 0.2 per keyword with a synonym in the text, capped at 1. */
  function SynonymScore(text: string, keywords: seq<string>): real
  {
    Min1(0.2 * SynonymHits(text, keywords) as real)
  }

  /** Some character of `text` satisfies `p`. */
  predicate HasChar(text: string, p: char -> bool)
  {
    exists i :: 0 <= i < |text| && p(text[i])
  }

  /**
   * `_numbering_format_score`: 0.3 when the text holds a digit run, else
   * 0.2 when it holds a run of 一 … 十, else 0.
   */
  function NumberingScore(text: string): (r: real)
    ensures r == 0.3 <==> HasChar(text, IsAsciiDigit)
    ensures r == 0.2 <==> !HasChar(text, IsAsciiDigit) && HasChar(text, IsCnSmall)
    ensures r == 0.0 <==> !HasChar(text, IsAsciiDigit) && !HasChar(text, IsCnSmall)
  {
    if HasChar(text, IsAsciiDigit) then 0.3
    else if HasChar(text, IsCnSmall) then 0.2
    else 0.0
  }

  /**
   * `_rule_layer_score`: 0.4 once when some alias occurs, 0.08 per keyword,
   * 0.2 times the synonym score and 0.1 times the numbering score, capped
   * at 1.
   */
  function RuleScore(text: string, target: TargetSection): real
  {
    Min1((if ContainsAny(text, target.aliases) then 0.4 else 0.0)
      + 0.08 * KeywordHits(text, target.keywords) as real
      + 0.2 * SynonymScore(text, target.keywords)
      + 0.1 * NumberingScore(text))
  }

  /** The rule score lies in [0, 1], and an alias alone already gives 0.4. */
  lemma RuleScoreRange(text: string, target: TargetSection)
    ensures 0.0 <= RuleScore(text, target) <= 1.0
    ensures ContainsAny(text, target.aliases) ==> RuleScore(text, target) >= 0.4
  {
    SynonymScoreRange(text, target.keywords);
  }

  lemma SynonymScoreRange(text: string, keywords: seq<string>)
    ensures 0.0 <= SynonymScore(text, keywords) <= 1.0
    ensures SynonymScore(text, keywords) == 0.0 <==> SynonymHits(text, keywords) == 0
  {
  }

  /** A text with no alias, keyword, synonym, digit or 一 … 十 scores 0. */
  lemma RuleScoreZero(text: string, target: TargetSection)
    requires !ContainsAny(text, target.aliases)
    requires KeywordHits(text, target.keywords) == 0 && SynonymHits(text, target.keywords) == 0
    requires !HasChar(text, IsAsciiDigit) && !HasChar(text, IsCnSmall)
    ensures RuleScore(text, target) == 0.0
  {
  }

  /** `_rule_layer_score`: the alias loop with its `break`, the keyword loop, then the two helper scores. */
  method RuleLayerScore(text: string, target: TargetSection) returns (score: real)
    ensures score == RuleScore(text, target)
  {
    score := 0.0;
    var found := FirstContained(text, target.aliases);
    if found {
      score := score + 0.4;
    }
    var i := 0;
    while i < |target.keywords|
      invariant 0 <= i <= |target.keywords|
      invariant score == (if found then 0.4 else 0.0) + 0.08 * KeywordHits(text, target.keywords[..i]) as real
    {
      assert target.keywords[..i + 1][..i] == target.keywords[..i];
      if Contains(text, target.keywords[i]) {
        score := score + 0.08;
      }
      i := i + 1;
    }
    assert target.keywords[..i] == target.keywords;
    var synonym := SynonymMatchScore(text, target.keywords);
    score := score + synonym * 0.2;
    score := score + NumberingScore(text) * 0.1;
    score := Min1(score);
  }

  /** `_synonym_match_score`: for each keyword the dictionary knows, 0.2 for its first synonym found. */
  method SynonymMatchScore(text: string, keywords: seq<string>) returns (score: real)
    ensures score == SynonymScore(text, keywords)
  {
    score := 0.0;
    var i := 0;
    while i < |keywords|
      invariant 0 <= i <= |keywords|
      invariant score == 0.2 * SynonymHits(text, keywords[..i]) as real
    {
      assert keywords[..i + 1][..i] == keywords[..i];
      if keywords[i] in SynonymDict {
        var hit := FirstContained(text, SynonymDict[keywords[i]]);
        if hit {
          score := score + 0.2;
        }
      }
      i := i + 1;
    }
    assert keywords[..i] == keywords;
    score := Min1(score);
  }

  // ---------------------------------------------------------------------
  // Semantic layer
  // ---------------------------------------------------------------------

  /** Length of the longest common prefix. */
  function CommonPrefix(a: string, b: string): (n: nat)
    ensures n <= |a| && n <= |b|
    ensures forall k :: 0 <= k < n ==> a[k] == b[k]
    ensures n < |a| && n < |b| ==> a[n] != b[n]
  {
    if a == [] || b == [] || a[0] != b[0] then 0
    else 1 + CommonPrefix(a[1..], b[1..])
  }

  function Max(a: nat, b: nat): nat { if a >= b then a else b }

  /**
   * `_edit_distance_similarity`: 0 when either text is empty, otherwise the
   * common prefix length over the longer length.
   */
  function EditSim(a: string, b: string): real
  {
    if a == [] || b == [] then 0.0
    else CommonPrefix(a, b) as real / Max(|a|, |b|) as real
  }

  /** The edit similarity lies in [0, 1] and is 1 exactly for two equal non-empty texts. */
  lemma EditSimRange(a: string, b: string)
    ensures 0.0 <= EditSim(a, b) <= 1.0
    ensures EditSim(a, b) == 1.0 <==> a != [] && a == b
  {
    if a != [] && b != [] {
      var c := CommonPrefix(a, b);
      var m := Max(|a|, |b|);
      assert c <= m;
      DivAtMostOne(c, m);
      if a == b {
        assert c == |a|;
      }
      if EditSim(a, b) == 1.0 {
        assert c as real == m as real by {
          assert c as real / m as real == 1.0;
        }
        assert |a| == |b| == c;
        assert a == b;
      }
    }
  }

  lemma DivAtMostOne(c: nat, m: nat)
    requires 0 < m && c <= m
    ensures 0.0 <= c as real / m as real <= 1.0
  {
  }

  /** `_edit_distance_similarity`: count the matching leading characters, stopping at the first mismatch. */
  method EditDistanceSimilarity(a: string, b: string) returns (r: real)
    ensures r == EditSim(a, b)
  {
    if a == [] || b == [] {
      return 0.0;
    }
    var maxLen := Max(|a|, |b|);
    var common := 0;
    var i := 0;
    var n := if |a| <= |b| then |a| else |b|;
    while i < n
      invariant 0 <= i <= n && common == i
      invariant forall k :: 0 <= k < i ==> a[k] == b[k]
    {
      if a[i] == b[i] {
        common := common + 1;
      } else {
        break;
      }
      i := i + 1;
    }
    r := common as real / maxLen as real;
  }

  /** `_jaccard_similarity` over the word sets `segment` gives. */
  function Jaccard(segment: string -> set<string>, a: string, b: string): real
  {
    if a == [] || b == [] then 0.0
    else
      var w1 := segment(a);
      var w2 := segment(b);
      if w1 == {} || w2 == {} then 0.0
      else |w1 * w2| as real / |w1 + w2| as real
  }

  /** The Jaccard similarity lies in [0, 1] and is 1 exactly when both word sets are equal and non-empty. */
  lemma JaccardRange(segment: string -> set<string>, a: string, b: string)
    ensures 0.0 <= Jaccard(segment, a, b) <= 1.0
    ensures Jaccard(segment, a, b) == 1.0 <==>
      a != [] && b != [] && segment(a) != {} && segment(a) == segment(b)
  {
    if a != [] && b != [] && segment(a) != {} && segment(b) != {} {
      var w1 := segment(a);
      var w2 := segment(b);
      var i := w1 * w2;
      var u := w1 + w2;
      SubsetCard(i, u);
      DivAtMostOne(|i|, |u|);
      if w1 == w2 {
        assert i == u;
      }
      if Jaccard(segment, a, b) == 1.0 {
        assert |i| as real == |u| as real by {
          assert |i| as real / |u| as real == 1.0;
        }
        SubsetSameCard(i, u);
        assert w1 == w2 by {
          assert forall x :: x in w1 ==> x in u;
          assert forall x :: x in w2 ==> x in u;
        }
      }
    }
  }

  lemma {:induction false} SubsetCard<T>(a: set<T>, b: set<T>)
    requires a <= b
    ensures |a| <= |b|
    decreases b
  {
    if a != {} {
      var x :| x in a;
      SubsetCard(a - {x}, b - {x});
    }
  }

  lemma SubsetSameCard<T>(a: set<T>, b: set<T>)
    requires a <= b && |a| == |b|
    ensures a == b
  {
    if a != b {
      assert !(b <= a);
      var x :| x in b && x !in a;
      SubsetCard(a, b - {x});
    }
  }

  /**
   * `_semantic_layer_score`: 0.5 TF-IDF + 0.3 Jaccard + 0.2 edit similarity
   * against the target's description, capped at 1.
   */
  function SemanticScore(text: string, target: TargetSection, o: Oracles): real
  {
    Min1(0.5 * o.tfidf(text, target) + 0.3 * Jaccard(o.segment, text, target.description)
      + 0.2 * EditSim(text, target.description))
  }

  /** The three weights add up to 1, so the cap of the semantic score never applies. */
  lemma SemanticUncapped(text: string, target: TargetSection, o: Oracles)
    ensures SemanticScore(text, target, o) == 0.5 * o.tfidf(text, target)
      + 0.3 * Jaccard(o.segment, text, target.description) + 0.2 * EditSim(text, target.description)
    ensures 0.0 <= SemanticScore(text, target, o) <= 1.0
  {
    JaccardRange(o.segment, text, target.description);
    EditSimRange(text, target.description);
  }

  // ---------------------------------------------------------------------
  // Scoring a node against a target
  // ---------------------------------------------------------------------

  /** `max(0.1, 1 - 0.3 |level - expected|)`. */
  function LevelScore(level: nat, expected: nat): (r: real)
    ensures 0.1 <= r <= 1.0
    ensures r == 1.0 <==> level == expected
  {
    var d := if level >= expected then level - expected else expected - level;
    if 1.0 - 0.3 * d as real >= 0.1 then 1.0 - 0.3 * d as real else 0.1
  }

  /** `_calculate_position_score`: the same base score for every node. */
  function PositionScore(node: HeadingNode, target: TargetSection): real
  {
    0.5
  }

  /**
   * `_match_sub_section`: 0.35 rule (on the normalised text) + 0.35
   * semantic (on the text) + 0.2 level + 0.1 position; at least 0.07 and at
   * most 0.95.
   */
  function MatchSubSection(node: HeadingNode, target: TargetSection, o: Oracles): (r: real)
    ensures 0.07 <= r <= 0.95
  {
    RuleScoreRange(node.normalizedText, target);
    SemanticUncapped(node.text, target, o);
    0.35 * RuleScore(node.normalizedText, target) + 0.35 * SemanticScore(node.text, target, o)
      + 0.2 * LevelScore(node.level, target.expectedLevel) + 0.1 * PositionScore(node, target)
  }

  /** `_match_chapter_8` for a given chapter target: 0.4 rule + 0.6 semantic reaches 0.7. */
  predicate MatchesChapter(node: HeadingNode, target: TargetSection, o: Oracles)
  {
    0.4 * RuleScore(node.normalizedText, target) + 0.6 * SemanticScore(node.text, target, o) >= 0.7
  }

  /**
   * The rule layer alone never accepts a chapter: acceptance needs a
   * semantic score of at least 0.5 and a rule score of at least 0.25.
   */
  lemma ChapterNeedsBothLayers(node: HeadingNode, target: TargetSection, o: Oracles)
    requires MatchesChapter(node, target, o)
    ensures SemanticScore(node.text, target, o) >= 0.5
    ensures RuleScore(node.normalizedText, target) >= 0.25
  {
    RuleScoreRange(node.normalizedText, target);
    SemanticUncapped(node.text, target, o);
  }

  // ---------------------------------------------------------------------
  // The catalogue of targets
  // ---------------------------------------------------------------------

  /** `TARGET_SECTIONS`: the chapter itself first, then its ten sub-sections. */
  const Targets: seq<TargetSection> := [
    TargetSection("chapter.8.plan_and_org", "八、方案详细说明及施工组织设计", "第八章方案详细说明及施工组织设计",
      ["方案详细说明及施工组织设计", "技术方案与施工组织", "实施方案与施工组织", "施工组织设计与技术方案", "八、", "第八章", "第8章"],
      ["方案", "详细", "施工", "组织", "设计", "技术", "措施"], 1),
    TargetSection("plan.detailed_description", "1、方案的详细说明", "第一节方案的详细说明",
      ["方案的详细说明", "技术方案说明", "方案说明", "一、"],
      ["方案", "详细", "说明", "技术"], 2),
    TargetSection("plan.upgrade_detail", "1.1 优化提升改造部分详细方案说明", "优化提升改造部分详细方案说明",
      ["优化提升改造部分详细方案说明", "技术改造方案说明", "优化改造详细方案", "技改方案"],
      ["优化", "提升", "改造", "技改", "详细", "方案", "说明"], 3),
    TargetSection("plan.dust_capture", "1.2 尘源点捕集罩方案详细说明", "尘源点捕集罩方案详细说明",
      ["尘源点捕集罩方案详细说明", "吸风罩方案", "集气罩方案", "捕集装置方案"],
      ["尘源", "粉尘", "捕集", "收集", "罩", "吸风", "集气"], 3),
    TargetSection("plan.pipeline_layout", "1.3 平面管网路由方案图及说明", "平面管网路由方案图及说明",
      ["平面管网路由方案图及说明", "总图管线布置", "管网布置方案", "流程管线走向"],
      ["平面", "管网", "管线", "管道", "路由", "走向", "布置", "总图"], 3),
    TargetSection("plan.slag_system", "1.4 钢渣一次处理工艺系统方案图及详细说明", "钢渣一次处理工艺系统方案图及详细说明",
      ["钢渣一次处理工艺系统方案图及详细说明", "钢渣处理系统方案", "一次处理工艺方案"],
      ["钢渣", "一次处理", "初级处理", "工艺系统", "流程", "方案"], 3),
    TargetSection("plan.dedusting_layout", "1.5 除尘系统布置图及方案详细说明", "除尘系统布置图及方案详细说明",
      ["除尘系统布置图及方案详细说明", "除尘系统布局方案", "除尘布置图"],
      ["除尘", "除尘系统", "布置", "布局", "方案", "说明", "图"], 3),
    TargetSection("plan.key_tech", "1.6 关键技术说明等", "关键技术说明等",
      ["关键技术说明等", "核心技术说明", "技术要点", "技术难点"],
      ["关键", "核心", "技术", "要点", "难点", "说明"], 3),
    TargetSection("org.construction_design", "2、施工组织设计", "第二节施工组织设计",
      ["施工组织设计", "施工组织", "二、"],
      ["施工", "组织", "设计"], 2),
    TargetSection("org.construction_method", "2.1 施工方法及主要技术措施（施工方案）", "施工方法及主要技术措施（施工方案）",
      ["施工方法及主要技术措施（施工方案）", "施工方法与技术措施", "施工方案"],
      ["施工", "方法", "技术", "措施", "方案"], 3),
    TargetSection("org.shutdown_coordination", "2.2 需投标人配合停机时间的详细组织设计", "需投标人配合停机时间的详细组织设计",
      ["需投标人配合停机时间的详细组织设计", "停机时间配合组织", "停机组织安排"],
      ["停机", "配合", "时间", "组织", "安排", "计划"], 3)
  ]

  // ---------------------------------------------------------------------
  // _locate_chapter_8
  // ---------------------------------------------------------------------

  /** A chapter node with its children, as `_extract_sub_sections` receives it. */
  datatype Chapter = Chapter(node: HeadingNode, children: seq<HeadingNode>)

  /** Every index the forest holds points at one of its nodes. */
  predicate ForestOK(f: HeadingForest)
  {
    |f.children| == |f.nodes|
    && (forall a :: 0 <= a < |f.roots| ==> f.roots[a] < |f.nodes|)
    && (forall p, a :: 0 <= p < |f.children| && 0 <= a < |f.children[p]| ==> f.children[p][a] < |f.nodes|)
  }

  /** The forest `_build_heading_tree` returns has only valid indices. */
  lemma HeadingTreeOK(text: string)
    ensures ForestOK(HeadingTree(text))
  {
    var f := HeadingTree(text);
    forall p | 0 <= p < |f.children|
      ensures forall a :: 0 <= a < |f.children[p]| ==> f.children[p][a] < |f.nodes|
    {
      ChildrenMembers(f.nodes, p, |f.nodes|);
    }
    ChildrenMembers(f.nodes, -1, |f.nodes|);
  }

  /** Node `r` of the forest with its children's nodes. */
  function ChapterAt(f: HeadingForest, r: nat): (c: Chapter)
    requires ForestOK(f) && r < |f.nodes|
    ensures c.node == f.nodes[r] && |c.children| == |f.children[r]|
    ensures forall a :: 0 <= a < |c.children| ==> c.children[a] == f.nodes[f.children[r][a]]
  {
    Chapter(f.nodes[r], seq(|f.children[r]|, a requires 0 <= a < |f.children[r]| => f.nodes[f.children[r][a]]))
  }

  /** Position in `f.roots`, from `i` on, of the first root matching `target`. */
  function FirstMatchingRoot(f: HeadingForest, target: TargetSection, o: Oracles, i: nat): (r: Option<nat>)
    requires ForestOK(f) && i <= |f.roots|
    ensures r.Some? ==> i <= r.value < |f.roots| && MatchesChapter(f.nodes[f.roots[r.value]], target, o)
    ensures forall a :: i <= a < |f.roots| && (r.None? || a < r.value) ==> !MatchesChapter(f.nodes[f.roots[a]], target, o)
  {
    FirstRootWith(f, n => MatchesChapter(n, target, o), i)
  }

  /** The first root from position `i` on that `accept` accepts. */
  function FirstRootWith(f: HeadingForest, accept: HeadingNode -> bool, i: nat): (r: Option<nat>)
    requires ForestOK(f) && i <= |f.roots|
    ensures r.Some? ==> i <= r.value < |f.roots| && accept(f.nodes[f.roots[r.value]])
    ensures forall a :: i <= a < |f.roots| && (r.None? || a < r.value) ==> !accept(f.nodes[f.roots[a]])
    decreases |f.roots| - i
  {
    if i == |f.roots| then None
    else if accept(f.nodes[f.roots[i]]) then Some(i)
    else FirstRootWith(f, accept, i + 1)
  }

  /**
   * `_locate_chapter_8`: the first root heading that matches the chapter
   * target, with its children; otherwise the sliding-window fallback.
   * Only the roots are tried.
   */
  method LocateChapter8(f: HeadingForest, text: string, o: Oracles) returns (c: Option<Chapter>)
    requires ForestOK(f)
    ensures c == LocatedChapter(f, text, o)
  {
    var i := 0;
    while i < |f.roots|
      invariant 0 <= i <= |f.roots|
      invariant FirstMatchingRoot(f, Targets[0], o, 0) == FirstMatchingRoot(f, Targets[0], o, i)
    {
      if MatchesChapter(f.nodes[f.roots[i]], Targets[0], o) {
        return Some(ChapterAt(f, f.roots[i]));
      }
      i := i + 1;
    }
    c := SemanticLocateChapter8(text);
  }

  /** The chapter `_locate_chapter_8` returns. */
  function LocatedChapter(f: HeadingForest, text: string, o: Oracles): Option<Chapter>
    requires ForestOK(f)
  {
    var r := FirstMatchingRoot(f, Targets[0], o, 0);
    if r.Some? then Some(ChapterAt(f, f.roots[r.value])) else SemanticChapter(text)
  }

  /**
   * A matching root always wins, and it is the first matching root; only
   * when no root matches does the window search decide.
   */
  lemma LocatedChapterIs(f: HeadingForest, text: string, o: Oracles)
    requires ForestOK(f)
    ensures (exists a :: 0 <= a < |f.roots| && MatchesChapter(f.nodes[f.roots[a]], Targets[0], o)) ==>
      exists a :: 0 <= a < |f.roots| && LocatedChapter(f, text, o) == Some(ChapterAt(f, f.roots[a]))
        && MatchesChapter(f.nodes[f.roots[a]], Targets[0], o)
        && forall b :: 0 <= b < a ==> !MatchesChapter(f.nodes[f.roots[b]], Targets[0], o)
    ensures (forall a :: 0 <= a < |f.roots| ==> !MatchesChapter(f.nodes[f.roots[a]], Targets[0], o)) ==>
      LocatedChapter(f, text, o) == SemanticChapter(text)
  {
    var r := FirstMatchingRoot(f, Targets[0], o, 0);
    if r.Some? {
      assert LocatedChapter(f, text, o) == Some(ChapterAt(f, f.roots[r.value]));
    }
  }

  // ---------------------------------------------------------------------
  // _semantic_locate_chapter_8
  // ---------------------------------------------------------------------

  /** A positive weight. */
  type Weight = r: real | r > 0.0 witness 1.0

  /** The keyword weights of `_semantic_locate_chapter_8`, in the order it lists them. */
  const KeywordWeights: seq<(string, Weight)> := [
    ("方案", 2.0), ("施工", 1.5), ("组织", 1.5), ("设计", 1.5),
    ("技术", 1.2), ("措施", 1.2), ("详细", 1.0), ("说明", 1.0),
    ("优化", 1.0), ("改造", 1.0), ("尘源", 0.8), ("捕集", 0.8),
    ("管网", 0.8), ("路由", 0.8), ("钢渣", 0.8), ("除尘", 0.8),
    ("关键", 0.8), ("停机", 0.8), ("配合", 0.8), ("时间", 0.5)
  ]

  /** Number of lines in a window. */
  const WindowSize: nat := 15

  function WeightSum(ws: seq<(string, Weight)>): (r: real)
    ensures ws != [] ==> r > 0.0
    ensures ws == [] ==> r == 0.0
  {
    if ws == [] then 0.0 else WeightSum(ws[..|ws| - 1]) + ws[|ws| - 1].1
  }

  /** The weights of the keywords that occur in `w`. */
  function Mass(w: string, ws: seq<(string, Weight)>): (r: real)
    ensures r >= 0.0
  {
    if ws == [] then 0.0
    else Mass(w, ws[..|ws| - 1]) + (if Contains(w, ws[|ws| - 1].0) then ws[|ws| - 1].1 else 0.0)
  }

  /** How many of the keywords occur in `w`. */
  function Count(w: string, ws: seq<(string, Weight)>): nat
  {
    if ws == [] then 0
    else Count(w, ws[..|ws| - 1]) + (if Contains(w, ws[|ws| - 1].0) then 1 else 0)
  }

  /** 0.3 for a chapter-8 marker and 0.2 for a plan phrase. */
  function PatternBonus(w: string): real
  {
    (if ContainsAny(w, ["第八章", "第8章", "八、"]) then 0.3 else 0.0)
    + (if ContainsAny(w, ["方案详细", "施工组织", "技术方案"]) then 0.2 else 0.0)
  }

  /** The score of a window's text: twice the share of the weight present, plus the bonuses. */
  function WindowScore(w: string): (r: real)
    ensures r >= 0.0
  {
    var mass := Mass(w, KeywordWeights);
    (if Count(w, KeywordWeights) > 0 then mass / WeightSum(KeywordWeights) * 2.0 else mass) + PatternBonus(w)
  }

  /** The text of the window of 15 lines starting at line `i`, joined by blanks. */
  function WindowText(lines: seq<string>, i: nat): string
    requires i + WindowSize <= |lines|
  {
    Join(lines[i..i + WindowSize], " ")
  }

  /** `range(len(lines) - window_size + 1)`: how many windows there are. */
  function WindowCount(lines: seq<string>): (n: nat)
    ensures n > 0 ==> n + WindowSize - 1 == |lines|
    ensures n == 0 <==> |lines| < WindowSize
  {
    if |lines| >= WindowSize then |lines| - WindowSize + 1 else 0
  }

  /** The score of the window starting at line `j`. */
  function ScoreOfWindow(lines: seq<string>, j: nat): real
    requires j + WindowSize <= |lines|
  {
    WindowScore(WindowText(lines, j))
  }

  /** The score of every window, in order. */
  function WindowScores(lines: seq<string>): (s: seq<real>)
    ensures |s| == WindowCount(lines)
    ensures forall j :: 0 <= j < |s| ==> s[j] == ScoreOfWindow(lines, j)
  {
    seq(WindowCount(lines), j requires 0 <= j < WindowCount(lines) => WindowScore(WindowText(lines, j)))
  }

  /**
   * The best of a run of scores as the window loop keeps it: best score and
   * start, from 0 and -1, replaced only by a strictly higher score. The start
   * holds the first position of the highest score, and stays -1 while no
   * score is above 0.
   */
  function BestOf(scores: seq<real>): (b: (real, int))
    ensures -1 <= b.1 < |scores|
    ensures b.1 == -1 ==> b.0 == 0.0 && forall j :: 0 <= j < |scores| ==> scores[j] <= 0.0
    ensures b.1 >= 0 ==> b.0 == scores[b.1] && b.0 > 0.0
    ensures forall j :: 0 <= j < |scores| ==> scores[j] <= b.0
    ensures forall j :: 0 <= j < b.1 ==> scores[j] < b.0
  {
    if scores == [] then (0.0, -1)
    else
      var b := BestOf(scores[..|scores| - 1]);
      var s := scores[|scores| - 1];
      if s > b.0 then (s, |scores| - 1) else b
  }

  /** The best window of `lines`. */
  function BestWindow(lines: seq<string>): (real, int)
  {
    BestOf(WindowScores(lines))
  }

  /** The node `_semantic_locate_chapter_8` makes for the window from line `a` to line `b`. */
  function PseudoChapter(text: string, lines: seq<string>, a: nat, b: nat): HeadingNode
    requires a <= b < |lines|
  {
    HeadingNode(1, "第八章 方案详细说明及施工组织设计（语义定位）", "8、方案详细说明及施工组织设计",
      Find(text, lines[a]), Find(text, lines[b]) + |lines[b]|)
  }

  /** What `_semantic_locate_chapter_8` returns: the best window when it scores at least 0.4. */
  function SemanticChapter(text: string): Option<Chapter>
  {
    var lines := SplitOn(text, "\n");
    var b := BestWindow(lines);
    if b.0 >= 0.4 then Some(Chapter(PseudoChapter(text, lines, b.1, b.1 + WindowSize - 1), [])) else None
  }

  /**
   * With fewer than 15 lines there is no window and no chapter; otherwise a
   * chapter comes from a window scoring at least 0.4, no lower than any
   * window and strictly higher than every earlier one.
   */
  lemma SemanticChapterIs(text: string)
    ensures |SplitOn(text, "\n")| < WindowSize ==> SemanticChapter(text) == None
    ensures SemanticChapter(text).Some? ==>
      var lines := SplitOn(text, "\n");
      var k := BestWindow(lines).1;
      0 <= k && k + WindowSize <= |lines|
      && ScoreOfWindow(lines, k) >= 0.4
      && (forall j :: 0 <= j < WindowCount(lines) ==> ScoreOfWindow(lines, j) <= ScoreOfWindow(lines, k))
      && (forall j :: 0 <= j < k ==> ScoreOfWindow(lines, j) < ScoreOfWindow(lines, k))
      && SemanticChapter(text) == Some(Chapter(PseudoChapter(text, lines, k, k + WindowSize - 1), []))
  {
  }

  /** `_semantic_locate_chapter_8`: slide the window, keep the first best, accept it from 0.4 on. */
  method SemanticLocateChapter8(text: string) returns (c: Option<Chapter>)
    ensures c == SemanticChapter(text)
  {
    var lines := SplitOn(text, "\n");
    var bestScore, bestStart := ScanWindows(lines);
    if bestScore >= 0.4 {
      c := Some(Chapter(PseudoChapter(text, lines, bestStart, bestStart + WindowSize - 1), []));
    } else {
      c := None;
    }
  }

  /** The sliding loop of `_semantic_locate_chapter_8`. */
  method ScanWindows(lines: seq<string>) returns (bestScore: real, bestStart: int)
    ensures (bestScore, bestStart) == BestWindow(lines)
  {
    bestScore := 0.0;
    bestStart := -1;
    var i := 0;
    var n := WindowCount(lines);
    ghost var scores := WindowScores(lines);
    while i < n
      invariant 0 <= i <= n
      invariant (bestScore, bestStart) == BestOf(scores[..i])
    {
      var score := WindowScoreOf(lines, i);
      BestOfStep(scores, i);
      if score > bestScore {
        bestScore := score;
        bestStart := i;
      }
      i := i + 1;
    }
    assert scores[..i] == scores;
  }

  /** One more score either replaces the best so far or leaves it. */
  lemma BestOfStep(scores: seq<real>, i: nat)
    requires i < |scores|
    ensures BestOf(scores[..i + 1]) ==
      (if scores[i] > BestOf(scores[..i]).0 then (scores[i], i) else BestOf(scores[..i]))
  {
    assert scores[..i + 1][..i] == scores[..i];
  }

  /** The scoring of window `j`: the keyword loop, the normalisation, the two bonuses. */
  method WindowScoreOf(lines: seq<string>, j: nat) returns (score: real)
    requires j + WindowSize <= |lines|
    ensures score == ScoreOfWindow(lines, j)
  {
    var w := WindowText(lines, j);
    score := 0.0;
    var count := 0;
    var i := 0;
    while i < |KeywordWeights|
      invariant 0 <= i <= |KeywordWeights|
      invariant score == Mass(w, KeywordWeights[..i]) && count == Count(w, KeywordWeights[..i])
    {
      assert KeywordWeights[..i + 1][..i] == KeywordWeights[..i];
      if Contains(w, KeywordWeights[i].0) {
        score := score + KeywordWeights[i].1;
        count := count + 1;
      }
      i := i + 1;
    }
    assert KeywordWeights[..i] == KeywordWeights;
    if count > 0 {
      score := score / WeightSum(KeywordWeights) * 2.0;
    }
    score := score + PatternBonus(w);
  }

  // ---------------------------------------------------------------------
  // Sub-section records
  // ---------------------------------------------------------------------

  datatype Location = Location(start: int, end: int)

  /** A child kept as a candidate, with its score (`_match_sub_section` also repeats its text). */
  datatype Alternative = Alternative(node: HeadingNode, score: real)

  datatype MatchStatus = Ok | LowConfidence | Missing

  /**
   * One record of the result. The template records carry neither a content
   * preview nor alternatives, hence the two options.
   */
  datatype SubSectionRecord = SubSectionRecord(
    normalizedKey: string, foundTitle: string, location: Option<Location>,
    confidence: real, contentPreview: Option<string>, status: MatchStatus,
    alternatives: Option<seq<Alternative>>)

  /** `MatchSubSection` against one target, as a function of the node. */
  function ChildScorer(target: TargetSection, o: Oracles): HeadingNode -> real
  {
    n => MatchSubSection(n, target, o)
  }

  /** The score of every child, in order. */
  function ChildScores(children: seq<HeadingNode>, score: HeadingNode -> real): (s: seq<real>)
    ensures |s| == |children|
  {
    seq(|children|, i requires 0 <= i < |children| => score(children[i]))
  }

  /** One more child adds its alternative when it scores above 0.3. */
  lemma AlternativesSnoc(children: seq<HeadingNode>, score: HeadingNode -> real, i: nat)
    requires i < |children|
    ensures Alternatives(children[..i + 1], score)
      == if score(children[i]) > 0.3 then Alternatives(children[..i], score) + [Alternative(children[i], score(children[i]))]
         else Alternatives(children[..i], score)
  {
    assert children[..i + 1][..i] == children[..i];
  }

  /** The children scoring above 0.3, each with its score, in order: exactly those. */
  function Alternatives(children: seq<HeadingNode>, score: HeadingNode -> real): (a: seq<Alternative>)
    ensures forall k :: 0 <= k < |a| ==> a[k].node in children && a[k].score == score(a[k].node) && a[k].score > 0.3
    ensures forall i :: 0 <= i < |children| && score(children[i]) > 0.3 ==> Alternative(children[i], score(children[i])) in a
  {
    if children == [] then []
    else
      var front := Alternatives(children[..|children| - 1], score);
      var c := children[|children| - 1];
      assert forall i :: 0 <= i < |children| - 1 ==> children[i] == children[..|children| - 1][i];
      if score(c) > 0.3 then front + [Alternative(c, score(c))] else front
  }

  /** The alternatives scoring at least `t`, in order. */
  function AtLeast(alts: seq<Alternative>, t: real): (r: seq<Alternative>)
    ensures forall k :: 0 <= k < |r| ==> r[k] in alts && r[k].score >= t
    ensures forall k :: 0 <= k < |alts| && alts[k].score >= t ==> alts[k] in r
  {
    if alts == [] then []
    else
      var front := AtLeast(alts[..|alts| - 1], t);
      assert forall k :: 0 <= k < |alts| - 1 ==> alts[k] == alts[..|alts| - 1][k];
      if alts[|alts| - 1].score >= t then front + [alts[|alts| - 1]] else front
  }

  /** 0.6 rule + 0.4 semantic: how a paragraph of the chapter is scored. */
  function ParaScore(p: string, target: TargetSection, o: Oracles): (r: real)
    ensures 0.0 <= r <= 1.0
  {
    RuleScoreRange(p, target);
    SemanticUncapped(p, target, o);
    RuleScore(p, target) * 0.6 + SemanticScore(p, target, o) * 0.4
  }

  /** `ParaScore` against one target, as a function of the paragraph. */
  function ParaScorer(target: TargetSection, o: Oracles): string -> real
  {
    p => ParaScore(p, target, o)
  }

  /**
   * The score the search gives each piece of the chapter. An empty piece is
   * skipped, which has the effect of a score of 0: it can never replace the
   * best.
   */
  function PieceScores(pieces: seq<string>, score: string -> real): (s: seq<real>)
    ensures |s| == |pieces|
  {
    seq(|pieces|, i requires 0 <= i < |pieces| => if Strip(pieces[i]) == "" then 0.0 else score(Strip(pieces[i])))
  }

  /** The pieces of the chapter's text between its start and end offsets, split on blank lines. */
  function ChapterPieces(chapter: HeadingNode, text: string): seq<string>
  {
    SplitOn(PySlice(text, chapter.startPos, chapter.endPos), "\n\n")
  }

  /** The node the search makes of a paragraph: its first 100 characters, its first 50 normalised, its offsets. */
  function ParagraphNode(text: string, p: string, target: TargetSection): HeadingNode
  {
    HeadingNode(target.expectedLevel, if |p| > 100 then p[..100] + "..." else p,
      NormalizeHeading(Take(p, 50)), Find(text, p), Find(text, p) + |p|)
  }

  /** `ParagraphNode` for one text and one target, as a function of the paragraph. */
  function ParagraphMaker(text: string, target: TargetSection): string -> HeadingNode
  {
    p => ParagraphNode(text, p, target)
  }

  /** The paragraph search over `pieces`, with paragraphs scored by `score` and turned into nodes by `node`. */
  function SearchBy(pieces: seq<string>, node: string -> HeadingNode, score: string -> real): (Option<HeadingNode>, real)
  {
    var b := BestOf(PieceScores(pieces, score));
    if b.1 >= 0 then (Some(node(Strip(pieces[b.1]))), b.0) else (None, 0.0)
  }

  /** What `_search_in_chapter_content` returns. */
  function SearchContent(chapter: HeadingNode, text: string, target: TargetSection, o: Oracles): (Option<HeadingNode>, real)
  {
    SearchBy(ChapterPieces(chapter, text), ParagraphMaker(text, target), ParaScorer(target, o))
  }

  /**
   * With scores that are never negative, the search finds the first
   * paragraph of highest score, and only a non-empty paragraph scoring above
   * 0; with none, it returns no node and 0.
   */
  lemma SearchByIs(pieces: seq<string>, node: string -> HeadingNode, score: string -> real)
    requires forall p :: score(p) >= 0.0
    ensures var r := SearchBy(pieces, node, score);
      && (r.0.None? ==>
            r.1 == 0.0 && forall i :: 0 <= i < |pieces| && Strip(pieces[i]) != "" ==> score(Strip(pieces[i])) == 0.0)
      && (r.0.Some? ==>
            exists k :: 0 <= k < |pieces| && Strip(pieces[k]) != ""
              && r.0.value == node(Strip(pieces[k]))
              && r.1 == score(Strip(pieces[k])) > 0.0
              && (forall i :: 0 <= i < |pieces| && Strip(pieces[i]) != "" ==> score(Strip(pieces[i])) <= r.1)
              && (forall i :: 0 <= i < k && Strip(pieces[i]) != "" ==> score(Strip(pieces[i])) < r.1))
  {
    var s := PieceScores(pieces, score);
    var b := BestOf(s);
    forall i | 0 <= i < |pieces| && Strip(pieces[i]) != ""
      ensures score(Strip(pieces[i])) == s[i]
    {
    }
    if b.1 >= 0 {
      assert Strip(pieces[b.1]) != "";
    }
  }

  /** The paragraph scores are never negative, so `SearchByIs` applies to `SearchContent`. */
  lemma ParaScorerNonNegative(target: TargetSection, o: Oracles)
    ensures forall p :: ParaScorer(target, o)(p) >= 0.0
  {
  }

  /** `_search_in_chapter_content`: the paragraph loop, skipping empty paragraphs, keeping the first best. */
  method SearchInChapterContent(chapter: HeadingNode, text: string, target: TargetSection, o: Oracles)
    returns (best: Option<HeadingNode>, bestScore: real)
    ensures (best, bestScore) == SearchContent(chapter, text, target, o)
  {
    var content := PySlice(text, chapter.startPos, chapter.endPos);
    var pieces := SplitOn(content, "\n\n");
    ghost var scores := PieceScores(pieces, ParaScorer(target, o));
    ghost var at := -1;
    bestScore := 0.0;
    best := None;
    var i := 0;
    while i < |pieces|
      invariant 0 <= i <= |pieces|
      invariant (bestScore, at) == BestOf(scores[..i])
      invariant best == if at >= 0 then Some(ParagraphMaker(text, target)(Strip(pieces[at]))) else None
    {
      BestOfStep(scores, i);
      var p := Strip(pieces[i]);
      if p != "" {
        var score := ParaScoreOf(p, target, o);
        if score > bestScore {
          bestScore := score;
          best := Some(ParagraphNode(text, p, target));
          at := i;
        }
      }
      i := i + 1;
    }
    assert scores[..i] == scores;
  }

  /** The score of one paragraph, through the rule layer's loop. */
  method ParaScoreOf(p: string, target: TargetSection, o: Oracles) returns (score: real)
    ensures score == ParaScore(p, target, o)
  {
    var rule := RuleLayerScore(p, target);
    score := rule * 0.6 + SemanticScore(p, target, o) * 0.4;
  }

  /**
   * A chapter taken from the heading tree ends where its heading line ends,
   * so the paragraph search inside it sees the heading line and nothing else.
   */
  lemma TreeChapterPieces(text: string, k: nat, n: HeadingNode)
    requires k < |SplitOn(text, "\n")|
    requires NodeOf(text, SplitOn(text, "\n")[k]) == Some(n)
    ensures ChapterPieces(n, text) == [SplitOn(text, "\n")[k]]
  {
    var line := SplitOn(text, "\n")[k];
    HeadingOffset(text, k);
    SplitPiecesFree(text, '\n');
    LinePieces(text, line, n.startPos, n.endPos);
  }

  /** The slice of `text` that holds exactly one line, split on blank lines. */
  lemma LinePieces(text: string, line: string, s: int, e: int)
    requires s == Find(text, line) && OccursAt(text, line, s) && e == s + |line|
    requires '\n' !in line
    ensures SplitOn(PySlice(text, s, e), "\n\n") == [line]
  {
    assert text[s..e] == line;
    assert PySlice(text, s, e) == line;
    SplitNoSepAt(line, "\n\n");
  }

  // ---------------------------------------------------------------------
  // _extract_content_preview
  // ---------------------------------------------------------------------

  /** `re.sub(r'\s+', ' ', s)`: every run of whitespace becomes one blank. */
  function CollapseSpaces(s: string): (r: string)
    ensures forall i :: 0 <= i < |r| && IsSpace(r[i]) ==> r[i] == ' '
    ensures forall i :: 0 <= i < |r| - 1 && r[i] == ' ' ==> r[i + 1] != ' '
    ensures r == [] <==> s == []
    ensures s != [] ==> (r[0] == ' ' <==> IsSpace(s[0]))
    ensures s != [] ==> (r[|r| - 1] == ' ' <==> IsSpace(s[|s| - 1]))
    decreases |s|
  {
    if s == [] then []
    else if IsSpace(s[0]) then [' '] + CollapseSpaces(s[PrefixLen(s, IsSpace)..])
    else [s[0]] + CollapseSpaces(s[1..])
  }

  predicate NotSpace(c: char) { !IsSpace(c) }

  /** Collapsing whitespace keeps every other character, in order. */
  lemma {:induction false} CollapseKeepsText(s: string)
    ensures Filter(CollapseSpaces(s), NotSpace) == Filter(s, NotSpace)
    decreases |s|
  {
    if s != [] {
      if IsSpace(s[0]) {
        var n := PrefixLen(s, IsSpace);
        CollapseKeepsText(s[n..]);
        SpaceRunFiltered(s, n);
      } else {
        CollapseKeepsText(s[1..]);
        assert ([s[0]] + CollapseSpaces(s[1..]))[1..] == CollapseSpaces(s[1..]);
      }
    }
  }

  /** Dropping a run of whitespace does not change what `Filter(_, NotSpace)` keeps. */
  lemma {:induction false} SpaceRunFiltered(s: string, n: nat)
    requires n <= |s| && forall i :: 0 <= i < n ==> IsSpace(s[i])
    ensures Filter(s, NotSpace) == Filter(s[n..], NotSpace)
    decreases n
  {
    if n > 0 {
      SpaceRunFiltered(s[1..], n - 1);
      assert s[1..][n - 1..] == s[n..];
    }
  }

  /** Collapsing twice is collapsing once. */
  lemma {:induction false} CollapseIdempotent(s: string)
    ensures CollapseSpaces(CollapseSpaces(s)) == CollapseSpaces(s)
  {
    CollapseFixed(CollapseSpaces(s));
  }

  /** A text whose only whitespace is single blanks is left as it is. */
  lemma {:induction false} CollapseFixed(t: string)
    requires forall i :: 0 <= i < |t| && IsSpace(t[i]) ==> t[i] == ' '
    requires forall i :: 0 <= i < |t| - 1 && t[i] == ' ' ==> t[i + 1] != ' '
    ensures CollapseSpaces(t) == t
    decreases |t|
  {
    if t != [] {
      if IsSpace(t[0]) {
        assert |t| > 1 ==> !IsSpace(t[1]);
        assert PrefixLen(t, IsSpace) == 1;
      }
      CollapseFixed(t[1..]);
    }
  }

  /**
   * The text `_extract_content_preview` starts from: up to 500 characters
   * after the node's end, stripped. The node's content bounds are never set,
   * so `_extract_content_preview` always takes this branch.
   */
  function PreviewSource(text: string, node: HeadingNode): (r: string)
    ensures r != [] ==> !IsSpace(r[0])
  {
    var start := node.endPos;
    var end := if |text| < start + 500 then |text| else start + 500;
    Strip(PySlice(text, start, end))
  }

  /** Longer than 200 characters: the first 200 and "...". */
  function Cut(c: string): (r: string)
    ensures |r| <= 203
  {
    if |c| > 200 then c[..200] + "..." else c
  }

  /** `_extract_content_preview`: the preview source with its whitespace collapsed, cut to 200 characters. */
  function ContentPreview(text: string, node: HeadingNode): string
  {
    Cut(CollapseSpaces(PreviewSource(text, node)))
  }

  /**
   * The preview is the collapsed content when that fits in 200 characters,
   * and otherwise its first 200 characters and "..."; its only whitespace is
   * single blanks, and it does not start with one.
   */
  lemma ContentPreviewIs(text: string, node: HeadingNode)
    ensures var content := CollapseSpaces(PreviewSource(text, node));
      var r := ContentPreview(text, node);
      && |r| <= 203
      && (|content| <= 200 ==> r == content)
      && (|content| > 200 ==> r == content[..200] + "...")
      && (forall i :: 0 <= i < |r| && IsSpace(r[i]) ==> r[i] == ' ')
      && (forall i :: 0 <= i < |r| - 1 && r[i] == ' ' ==> r[i + 1] != ' ')
      && (r != [] ==> r[0] != ' ')
  {
    CutShape(CollapseSpaces(PreviewSource(text, node)));
  }

  /** Cutting a collapsed text keeps its whitespace single blanks. */
  lemma CutShape(c: string)
    requires forall i :: 0 <= i < |c| && IsSpace(c[i]) ==> c[i] == ' '
    requires forall i :: 0 <= i < |c| - 1 && c[i] == ' ' ==> c[i + 1] != ' '
    ensures var r := Cut(c);
      && (forall i :: 0 <= i < |r| && IsSpace(r[i]) ==> r[i] == ' ')
      && (forall i :: 0 <= i < |r| - 1 && r[i] == ' ' ==> r[i + 1] != ' ')
  {
  }

  // ---------------------------------------------------------------------
  // _extract_sub_sections
  // ---------------------------------------------------------------------

  /**
   * The match and score kept for one target: the first best child, unless
   * the best child scores below 0.5, in which case the paragraph search's
   * result replaces it whatever it is.
   */
  function Found(c: Chapter, text: string, target: TargetSection, o: Oracles): (Option<HeadingNode>, real)
  {
    var b := BestOf(ChildScores(c.children, ChildScorer(target, o)));
    if b.0 < 0.5 then SearchContent(c.node, text, target, o) else (Some(c.children[b.1]), b.0)
  }

  /** The record for `target` given its match and score and its alternatives. */
  function RecordOf(target: TargetSection, found: (Option<HeadingNode>, real), text: string, alts: seq<Alternative>): SubSectionRecord
  {
    if found.0.Some? && found.1 >= 0.5 then
      var n := found.0.value;
      SubSectionRecord(target.normalizedKey, n.text, Some(Location(n.startPos, n.endPos)), found.1,
        Some(ContentPreview(text, n)), if found.1 >= 0.6 then Ok else LowConfidence, Some(AtLeast(alts, 0.4)))
    else
      SubSectionRecord(target.normalizedKey, "", None, found.1, Some(""), Missing, Some(alts))
  }

  /** The record `_extract_sub_sections` makes for one target inside a chapter. */
  function TargetRecord(c: Chapter, text: string, target: TargetSection, o: Oracles): SubSectionRecord
  {
    RecordOf(target, Found(c, text, target, o), text, Alternatives(c.children, ChildScorer(target, o)))
  }

  /**
   * The status of a record follows its confidence: OK from 0.6 on, low
   * confidence from 0.5 to 0.6, both with a location, the found node's text
   * and its preview, and only the alternatives from 0.4 on; missing
   * otherwise, with no location, an empty title and preview, and every
   * alternative.
   */
  lemma RecordOfIs(target: TargetSection, found: (Option<HeadingNode>, real), text: string, alts: seq<Alternative>)
    ensures var r := RecordOf(target, found, text, alts);
      && r.normalizedKey == target.normalizedKey && r.confidence == found.1
      && (r.status == Ok <==> found.0.Some? && found.1 >= 0.6)
      && (r.status == LowConfidence <==> found.0.Some? && 0.5 <= found.1 < 0.6)
      && (r.status == Missing <==> found.0.None? || found.1 < 0.5)
      && (r.location.Some? <==> r.status != Missing)
      && (r.status != Missing ==>
            r.foundTitle == found.0.value.text
            && r.location == Some(Location(found.0.value.startPos, found.0.value.endPos))
            && r.contentPreview == Some(ContentPreview(text, found.0.value))
            && r.alternatives.Some?
            && (forall k :: 0 <= k < |r.alternatives.value| ==> r.alternatives.value[k] in alts && r.alternatives.value[k].score >= 0.4)
            && (forall k :: 0 <= k < |alts| && alts[k].score >= 0.4 ==> alts[k] in r.alternatives.value))
      && (r.status == Missing ==> r.foundTitle == "" && r.contentPreview == Some("") && r.alternatives == Some(alts))
  {
  }

  /**
   * A child scoring at least 0.5 settles the target: the record names the
   * first child of highest score, which scores at least as much, and the
   * paragraph search is not consulted.
   */
  lemma ChildSettles(c: Chapter, text: string, target: TargetSection, o: Oracles, i: nat)
    requires i < |c.children| && MatchSubSection(c.children[i], target, o) >= 0.5
    ensures exists j ::
      && 0 <= j < |c.children|
      && Found(c, text, target, o) == (Some(c.children[j]), MatchSubSection(c.children[j], target, o))
      && MatchSubSection(c.children[j], target, o) >= MatchSubSection(c.children[i], target, o)
      && (forall m :: 0 <= m < j ==> MatchSubSection(c.children[m], target, o) < MatchSubSection(c.children[j], target, o))
  {
    var s := ChildScores(c.children, ChildScorer(target, o));
    assert s[i] == MatchSubSection(c.children[i], target, o);
    var b := BestOf(s);
    assert forall m :: 0 <= m < |c.children| ==> s[m] == MatchSubSection(c.children[m], target, o);
    assert Found(c, text, target, o) == (Some(c.children[b.1]), b.0);
  }

  /**
   * When no child reaches 0.5 the paragraph search decides, even where it
   * scores lower than the best child did.
   */
  lemma SearchDecides(c: Chapter, text: string, target: TargetSection, o: Oracles)
    requires forall i :: 0 <= i < |c.children| ==> MatchSubSection(c.children[i], target, o) < 0.5
    ensures Found(c, text, target, o) == SearchContent(c.node, text, target, o)
  {
    var s := ChildScores(c.children, ChildScorer(target, o));
    var b := BestOf(s);
    if b.1 >= 0 {
      assert s[b.1] == MatchSubSection(c.children[b.1], target, o);
    }
  }

  /** `TargetRecord` for one chapter and text, as a function of the target. */
  function Recorder(c: Chapter, text: string, o: Oracles): TargetSection -> SubSectionRecord
  {
    t => TargetRecord(c, text, t, o)
  }

  /** One record per target of `targets`, in order. */
  function RecordsFor(targets: seq<TargetSection>, record: TargetSection -> SubSectionRecord): (rs: seq<SubSectionRecord>)
    ensures |rs| == |targets|
    ensures forall j :: 0 <= j < |targets| ==> rs[j] == record(targets[j])
  {
    if targets == [] then []
    else RecordsFor(targets[..|targets| - 1], record) + [record(targets[|targets| - 1])]
  }

  lemma RecordsForSnoc(targets: seq<TargetSection>, k: nat, record: TargetSection -> SubSectionRecord)
    requires k < |targets|
    ensures RecordsFor(targets[..k + 1], record) == RecordsFor(targets[..k], record) + [record(targets[k])]
  {
    assert targets[..k + 1][..k] == targets[..k];
  }

  /** The template record of each target: missing, with confidence 0. */
  function TemplateFor(targets: seq<TargetSection>): (rs: seq<SubSectionRecord>)
    ensures |rs| == |targets|
  {
    seq(|targets|, j requires 0 <= j < |targets| =>
      SubSectionRecord(targets[j].normalizedKey, "", None, 0.0, None, Missing, None))
  }

  /** `_create_template_structure`. */
  function TemplateStructure(): seq<SubSectionRecord>
  {
    TemplateFor(Targets[1..])
  }

  /** What `_extract_sub_sections` returns: the template without a chapter, a record per sub-section target with one. */
  function SubSections(chapter: Option<Chapter>, text: string, o: Oracles): seq<SubSectionRecord>
  {
    if chapter.None? then TemplateStructure() else RecordsFor(Targets[1..], Recorder(chapter.value, text, o))
  }

  /**
   * Whatever the chapter, there are ten records, one per sub-section target
   * in catalogue order. Without a chapter every record is a missing one with
   * confidence 0 and no preview; with one every record has a preview.
   */
  lemma SubSectionsShape(chapter: Option<Chapter>, text: string, o: Oracles)
    ensures var rs := SubSections(chapter, text, o);
      && |rs| == 10
      && (forall j :: 0 <= j < 10 ==> rs[j].normalizedKey == Targets[j + 1].normalizedKey)
      && (chapter.None? ==> forall j :: 0 <= j < 10 ==>
            rs[j].status == Missing && rs[j].confidence == 0.0 && rs[j].location.None?
            && rs[j].foundTitle == "" && rs[j].contentPreview.None? && rs[j].alternatives.None?)
      && (chapter.Some? ==> forall j :: 0 <= j < 10 ==> rs[j].contentPreview.Some? && rs[j].alternatives.Some?)
  {
    var ts := Targets[1..];
    assert |ts| == 10;
    if chapter.Some? {
      forall j | 0 <= j < 10
        ensures SubSections(chapter, text, o)[j].normalizedKey == Targets[j + 1].normalizedKey
        ensures SubSections(chapter, text, o)[j].contentPreview.Some?
        ensures SubSections(chapter, text, o)[j].alternatives.Some?
      {
        var c := chapter.value;
        assert SubSections(chapter, text, o)[j] == TargetRecord(c, text, ts[j], o);
        RecordOfIs(ts[j], Found(c, text, ts[j], o), text, Alternatives(c.children, ChildScorer(ts[j], o)));
      }
    }
  }

  /** `_extract_sub_sections`: the template without a chapter, otherwise one record per sub-section target. */
  method ExtractSubSections(chapter: Option<Chapter>, text: string, o: Oracles) returns (records: seq<SubSectionRecord>)
    ensures records == SubSections(chapter, text, o)
  {
    if chapter.None? {
      records := TemplateStructure();
    } else {
      records := RecordTargets(chapter.value, text, Targets[1..], o);
    }
  }

  /** The loop over the targets: one `MatchTarget` each, in order. */
  method RecordTargets(c: Chapter, text: string, targets: seq<TargetSection>, o: Oracles) returns (records: seq<SubSectionRecord>)
    ensures records == RecordsFor(targets, Recorder(c, text, o))
  {
    records := [];
    var k := 0;
    while k < |targets|
      invariant 0 <= k <= |targets|
      invariant records == RecordsFor(targets[..k], Recorder(c, text, o))
    {
      var r := MatchTarget(c, text, targets[k], o);
      RecordsForSnoc(targets, k, Recorder(c, text, o));
      records := records + [r];
      k := k + 1;
    }
    assert targets[..k] == targets;
  }

  /** The record for one target: the children loop, the fallback search, and the record. */
  method MatchTarget(c: Chapter, text: string, target: TargetSection, o: Oracles) returns (r: SubSectionRecord)
    ensures r == TargetRecord(c, text, target, o)
  {
    var best, bestScore, alternatives := ScanChildren(c.children, ChildScorer(target, o));
    if bestScore < 0.5 {
      best, bestScore := SearchInChapterContent(c.node, text, target, o);
    }
    r := MakeRecord(target, best, bestScore, text, alternatives);
  }

  /** The record for a match, its score and the alternatives. */
  method MakeRecord(target: TargetSection, best: Option<HeadingNode>, bestScore: real, text: string, alternatives: seq<Alternative>)
    returns (r: SubSectionRecord)
    ensures r == RecordOf(target, (best, bestScore), text, alternatives)
  {
    if best.Some? && bestScore >= 0.5 {
      var n := best.value;
      r := SubSectionRecord(target.normalizedKey, n.text, Some(Location(n.startPos, n.endPos)), bestScore,
        Some(ContentPreview(text, n)), if bestScore >= 0.6 then Ok else LowConfidence, Some(AtLeast(alternatives, 0.4)));
    } else {
      r := SubSectionRecord(target.normalizedKey, "", None, bestScore, Some(""), Missing, Some(alternatives));
    }
  }

  /** The loop over the chapter's children, scored by `score`: the first best child, and every child above 0.3. */
  method ScanChildren(children: seq<HeadingNode>, score: HeadingNode -> real)
    returns (best: Option<HeadingNode>, bestScore: real, alternatives: seq<Alternative>)
    ensures var b := BestOf(ChildScores(children, score));
      bestScore == b.0 && best == (if b.1 >= 0 then Some(children[b.1]) else None)
    ensures alternatives == Alternatives(children, score)
  {
    ghost var scores := ChildScores(children, score);
    ghost var at := -1;
    best, bestScore, alternatives := None, 0.0, [];
    var i := 0;
    while i < |children|
      invariant 0 <= i <= |children|
      invariant (bestScore, at) == BestOf(scores[..i])
      invariant best == if at >= 0 then Some(children[at]) else None
      invariant alternatives == Alternatives(children[..i], score)
    {
      BestOfStep(scores, i);
      AlternativesSnoc(children, score, i);
      var child := children[i];
      var s := score(child);
      if s > 0.3 {
        alternatives := alternatives + [Alternative(child, s)];
      }
      if s > bestScore {
        bestScore, best, at := s, Some(child), i;
      }
      i := i + 1;
    }
    assert scores[..i] == scores;
    assert children[..i] == children;
  }
}
