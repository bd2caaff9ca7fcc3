/*
 * The bid generator's own decisions: which parsed files lack the technical
 * specification or the bid format, whether some file has a bid format,
 * which path `execute` takes, the project-name heuristic, and the skeleton
 * document it writes when information is missing but a format exists.
 */
module BidGenerator {
  import opened Text

  /** What key extraction found in one uploaded file (one entry of
      `extracted_info`, in the dictionary's insertion order). */
  datatype FileInfo = FileInfo(name: string, techFound: bool, formatFound: bool, formatContent: string)

  // ---------------------------------------------------------------------
  // Missing critical information
  // ---------------------------------------------------------------------

  function TechItem(name: string): string { "• " + name + ": 技术规格书" }
  function FormatItem(name: string): string { "• " + name + ": 投标文件格式" }

  /** The report lines for one file: the specification first, then the format. */
  function ItemsFor(f: FileInfo): seq<string>
  {
    (if f.techFound then [] else [TechItem(f.name)]) + (if f.formatFound then [] else [FormatItem(f.name)])
  }

  /** The report lines for all files, in file order. */
  function MissingItems(files: seq<FileInfo>): seq<string>
  {
    if files == [] then [] else MissingItems(files[..|files| - 1]) + ItemsFor(files[|files| - 1])
  }

  /** `_check_missing_critical_info`. */
  method CheckMissingCriticalInfo(files: seq<FileInfo>) returns (report: string)
    ensures report == Join(MissingItems(files), "\n")
  {
    var items: seq<string> := [];
    var i := 0;
    while i < |files|
      invariant i <= |files|
      invariant items == MissingItems(files[..i])
    {
      var f := files[i];
      assert files[..i + 1][..i] == files[..i];
      if !f.techFound {
        items := items + [TechItem(f.name)];
      }
      if !f.formatFound {
        items := items + [FormatItem(f.name)];
      }
      i := i + 1;
    }
    assert files[..i] == files;
    report := Join(items, "\n");
  }

  /** A joined list is empty only when the list is, if its first part is not. */
  lemma JoinNonEmpty(parts: seq<string>, sep: string)
    requires parts != [] && parts[0] != ""
    ensures Join(parts, sep) != ""
  {
    if |parts| > 1 {
      assert Join(parts, sep) == parts[0] + (sep + Join(parts[1..], sep));
    }
  }

  /** Every report line is non-empty. */
  lemma {:induction false} ItemsNonEmpty(files: seq<FileInfo>)
    ensures forall k :: 0 <= k < |MissingItems(files)| ==> MissingItems(files)[k] != ""
  {
    if files != [] {
      ItemsNonEmpty(files[..|files| - 1]);
    }
  }

  /** The report is empty exactly when every file has both parts. */
  lemma {:induction false} MissingEmptyIff(files: seq<FileInfo>)
    ensures Join(MissingItems(files), "\n") == "" <==>
      forall k :: 0 <= k < |files| ==> files[k].techFound && files[k].formatFound
    ensures MissingItems(files) == [] <==>
      forall k :: 0 <= k < |files| ==> files[k].techFound && files[k].formatFound
  {
    ItemsNonEmpty(files);
    if MissingItems(files) != [] {
      JoinNonEmpty(MissingItems(files), "\n");
    }
    MissingNoneIff(files);
  }

  lemma {:induction false} MissingNoneIff(files: seq<FileInfo>)
    ensures MissingItems(files) == [] <==>
      forall k :: 0 <= k < |files| ==> files[k].techFound && files[k].formatFound
  {
    if files != [] {
      var init := files[..|files| - 1];
      MissingNoneIff(init);
      assert forall k :: 0 <= k < |init| ==> init[k] == files[k];
    }
  }

  /** The report lines are one for each missing part, in file order with the
      specification before the format. */
  lemma {:induction false} MissingItemsAppend(files: seq<FileInfo>, more: seq<FileInfo>)
    ensures MissingItems(files + more) == MissingItems(files) + MissingItems(more)
    decreases |more|
  {
    if more == [] {
      assert files + more == files;
    } else {
      var init := more[..|more| - 1];
      var last := more[|more| - 1];
      MissingItemsAppend(files, init);
      assert (files + more)[..|files + more| - 1] == files + init;
      assert (files + more)[|files + more| - 1] == last;
      calc {
        MissingItems(files + more);
        MissingItems(files + init) + ItemsFor(last);
        MissingItems(files) + MissingItems(init) + ItemsFor(last);
        MissingItems(files) + (MissingItems(init) + ItemsFor(last));
        MissingItems(files) + MissingItems(more);
      }
    }
  }

  lemma MissingItemsOne(f: FileInfo)
    ensures MissingItems([f]) == ItemsFor(f)
  {
    assert [f][..0] == [];
  }

  /** The report line for a file's missing specification mentions it. */
  lemma MissingTechReported(files: seq<FileInfo>, k: nat)
    requires k < |files| && !files[k].techFound
    ensures TechItem(files[k].name) in MissingItems(files)
  {
    assert files == files[..k] + [files[k]] + files[k + 1..];
    MissingItemsAppend(files[..k] + [files[k]], files[k + 1..]);
    MissingItemsAppend(files[..k], [files[k]]);
    MissingItemsOne(files[k]);
  }

  lemma MissingFormatReported(files: seq<FileInfo>, k: nat)
    requires k < |files| && !files[k].formatFound
    ensures FormatItem(files[k].name) in MissingItems(files)
  {
    assert files == files[..k] + [files[k]] + files[k + 1..];
    MissingItemsAppend(files[..k] + [files[k]], files[k + 1..]);
    MissingItemsAppend(files[..k], [files[k]]);
    MissingItemsOne(files[k]);
  }

  // ---------------------------------------------------------------------
  // Bid format presence and the first format content
  // ---------------------------------------------------------------------

  predicate HasFormat(files: seq<FileInfo>)
  {
    exists k :: 0 <= k < |files| && files[k].formatFound
  }

  /** `_has_bid_format`: a search with early return. */
  method HasBidFormat(files: seq<FileInfo>) returns (found: bool)
    ensures found <==> HasFormat(files)
  {
    var i := 0;
    while i < |files|
      invariant i <= |files|
      invariant forall k :: 0 <= k < i ==> !files[k].formatFound
    {
      if files[i].formatFound {
        return true;
      }
      i := i + 1;
    }
    return false;
  }

  /** The index of the first file with a format, or |files|. */
  function FirstFormat(files: seq<FileInfo>, i: nat): (r: nat)
    requires i <= |files|
    ensures i <= r <= |files|
    ensures r < |files| ==> files[r].formatFound
    ensures forall k :: i <= k < r ==> !files[k].formatFound
    decreases |files| - i
  {
    if i == |files| || files[i].formatFound then i else FirstFormat(files, i + 1)
  }

  /** The format content the skeleton quotes: the first found format's. */
  function FormatContent(files: seq<FileInfo>): string
  {
    var r := FirstFormat(files, 0);
    if r < |files| then files[r].formatContent else ""
  }

  // ---------------------------------------------------------------------
  // The path `execute` takes
  // ---------------------------------------------------------------------

  datatype Outcome =
    | MissingExtractedInfo          // error: nothing was extracted
    | IncompleteInfo(missing: string)  // error: parts missing and no format to fall back on
    | SkeletonFromFormat            // the skeleton is generated
    | FullProposal                  // the model-written proposal is generated

  function Decide(files: seq<FileInfo>): Outcome
  {
    if files == [] then MissingExtractedInfo
    else
      var missing := Join(MissingItems(files), "\n");
      if missing != "" && HasFormat(files) then SkeletonFromFormat
      else if missing != "" then IncompleteInfo(missing)
      else FullProposal
  }

  /** The four outcomes in terms of the files. */
  lemma DecideCases(files: seq<FileInfo>)
    ensures Decide(files) == MissingExtractedInfo <==> files == []
    ensures Decide(files) == SkeletonFromFormat <==>
      files != [] && HasFormat(files) && exists k :: 0 <= k < |files| && !(files[k].techFound && files[k].formatFound)
    ensures Decide(files).IncompleteInfo? <==>
      files != [] && !HasFormat(files)
    ensures Decide(files) == FullProposal <==>
      files != [] && forall k :: 0 <= k < |files| ==> files[k].techFound && files[k].formatFound
  {
    MissingEmptyIff(files);
    if files != [] && !HasFormat(files) {
      assert !files[0].formatFound;
    }
  }

  // ---------------------------------------------------------------------
  // Project name
  // ---------------------------------------------------------------------

  const DefaultProjectName: string := "技术方案项目"

  predicate NamesProject(line: string) { Contains(line, "项目") && |line| < 100 }

  /** `_get_project_name`: the first of the first five background lines that
      names a project and is shorter than 100 characters, stripped. */
  function ProjectName(background: string): string
  {
    if background == [] then DefaultProjectName
    else
      var lines := SplitOn(background, "\n");
      var head := lines[..if |lines| < 5 then |lines| else 5];
      var k := FirstFrom(head, 0, NamesProject);
      if k < |head| then Strip(head[k]) else DefaultProjectName
  }

  method GetProjectName(background: string) returns (name: string)
    ensures name == ProjectName(background)
  {
    if background != [] {
      var lines := SplitOn(background, "\n");
      var n := if |lines| < 5 then |lines| else 5;
      var i := 0;
      while i < n
        invariant i <= n
        invariant FirstFrom(lines[..n], i, NamesProject) == FirstFrom(lines[..n], 0, NamesProject)
      {
        if NamesProject(lines[i]) {
          assert lines[..n][i] == lines[i];
          return Strip(lines[i]);
        }
        assert lines[..n][i] == lines[i];
        i := i + 1;
      }
    }
    return DefaultProjectName;
  }

  /** Without a naming line among the first five the name is the default;
      with one, it is the stripped form of the first such line `k`. */
  lemma ProjectNameIs(background: string) returns (k: nat)
    ensures (forall m :: 0 <= m < 5 && m < |SplitOn(background, "\n")| ==> !NamesProject(SplitOn(background, "\n")[m]))
      ==> ProjectName(background) == DefaultProjectName
    ensures (exists m :: 0 <= m < 5 && m < |SplitOn(background, "\n")| && NamesProject(SplitOn(background, "\n")[m]))
      ==> (&& k < 5 && k < |SplitOn(background, "\n")|
           && NamesProject(SplitOn(background, "\n")[k])
           && ProjectName(background) == Strip(SplitOn(background, "\n")[k])
           && forall m :: 0 <= m < k ==> !NamesProject(SplitOn(background, "\n")[m]))
  {
    k := 0;
    var lines := SplitOn(background, "\n");
    if background == [] {
      assert lines == [""];
      assert !NamesProject("");
      return;
    }
    var n := if |lines| < 5 then |lines| else 5;
    var head := lines[..n];
    k := FirstFrom(head, 0, NamesProject);
    if k < n {
      assert head[k] == lines[k];
      assert forall m :: 0 <= m < k ==> head[m] == lines[m];
    } else {
      assert forall m :: 0 <= m < n ==> head[m] == lines[m];
    }
  }

  // ---------------------------------------------------------------------
  // The skeleton built from the bid format
  // ---------------------------------------------------------------------

  /** The generator's own chapter list; its last entry is "其他资料". */
  const GeneratorSections: seq<string> := [
    "投标函", "法定代表人身份证明", "授权委托书", "投标保证金",
    "投标报价表", "分项报价表", "企业资料", "方案详细说明及施工组织设计",
    "资格审查资料", "商务和技术偏差表", "其他资料"]

  function SkeletonHeader(timestamp: string): string
  {
    "# 投标文件（主体框架）\n\n> 生成时间：" + timestamp
    + "\n> 本文件根据“第五章 投标文件格式”自动生成骨架，请逐项补充。\n\n---\n\n## 目录\n"
  }

  function TocItem(i: nat, title: string): string { "- " + NatToString(i + 1) + ". " + title }

  function TocItems(titles: seq<string>): (r: seq<string>)
    ensures |r| == |titles| && forall i :: 0 <= i < |r| ==> r[i] == TocItem(i, titles[i])
  {
    if titles == [] then [] else TocItems(titles[..|titles| - 1]) + [TocItem(|titles| - 1, titles[|titles| - 1])]
  }

  function BodyPart(title: string): string
  {
    "## " + title + "\n\n> 待补充：根据招标文件要求填写本章节的具体内容。\n"
  }

  const AppendixLead: string := "\n---\n\n> 附：原始‘投标文件格式’参考（来源：第五章 内容节选）\n\n"

  const AppendixLimit: nat := 4000

  function Appendix(content: string): string
  {
    if content == "" then "" else AppendixLead + Take(content, AppendixLimit)
  }

  /** `_generate_skeleton_from_bid_format`, with the clock reading passed in. */
  function SkeletonDoc(files: seq<FileInfo>, timestamp: string): string
  {
    SkeletonHeader(timestamp) + Join(TocItems(GeneratorSections), "\n") + "\n\n---\n\n"
    + Join(MapAll(GeneratorSections, BodyPart), "\n") + Appendix(FormatContent(files))
  }

  /** The loops of the skeleton generator: the first found format, the table
      of contents and the body parts. */
  method GenerateSkeleton(files: seq<FileInfo>, timestamp: string) returns (md: string)
    ensures md == SkeletonDoc(files, timestamp)
  {
    var content := FindFormatContent(files);
    var toc, bodies := SkeletonParts(GeneratorSections);
    var appendix := "";
    if content != "" {
      appendix := AppendixLead + Take(content, AppendixLimit);
    }
    md := SkeletonHeader(timestamp) + Join(toc, "\n") + "\n\n---\n\n" + Join(bodies, "\n") + appendix;
  }

  /** The first loop of the skeleton generator: the content of the first file whose format was found. */
  method FindFormatContent(files: seq<FileInfo>) returns (content: string)
    ensures content == FormatContent(files)
  {
    content := "";
    var i := 0;
    while i < |files|
      invariant i <= |files|
      invariant FirstFormat(files, i) == FirstFormat(files, 0)
    {
      if files[i].formatFound {
        content := files[i].formatContent;
        break;
      }
      i := i + 1;
    }
  }

  /** The chapter loop of the skeleton generator: one table-of-contents item and one body part per title. */
  method SkeletonParts(titles: seq<string>) returns (toc: seq<string>, bodies: seq<string>)
    ensures toc == TocItems(titles) && bodies == MapAll(titles, BodyPart)
  {
    toc, bodies := [], [];
    for k := 0 to |titles|
      invariant toc == TocItems(titles[..k])
      invariant bodies == MapAll(titles[..k], BodyPart)
    {
      assert titles[..k + 1][..k] == titles[..k];
      toc := toc + [TocItem(k, titles[k])];
      bodies := bodies + [BodyPart(titles[k])];
    }
    assert titles[..|titles|] == titles;
  }

  /** The appendix appears only when the first found format has content, and
      quotes at most 4000 characters of it, from its start. */
  lemma AppendixShape(files: seq<FileInfo>)
    ensures Appendix(FormatContent(files)) == "" <==> FormatContent(files) == ""
    ensures FormatContent(files) != "" ==>
      && StartsWith(Appendix(FormatContent(files)), AppendixLead)
      && |Appendix(FormatContent(files))| <= |AppendixLead| + AppendixLimit
      && StartsWith(FormatContent(files), Appendix(FormatContent(files))[|AppendixLead|..])
    ensures FormatContent(files) != "" ==>
      exists k :: 0 <= k < |files| && files[k].formatFound && FormatContent(files) == files[k].formatContent
        && forall m :: 0 <= m < k ==> !files[m].formatFound
  {
    var c := FormatContent(files);
    if c != "" {
      var a := Appendix(c);
      assert a == AppendixLead + Take(c, AppendixLimit);
      assert a[|AppendixLead|..] == Take(c, AppendixLimit);
      assert a[..|AppendixLead|] == AppendixLead;
      var r := FirstFormat(files, 0);
      assert r < |files|;
    }
  }

  /** The table of contents numbers the eleven chapters 1 to 11, in order. */
  lemma TocNumbered(i: nat)
    requires i < |GeneratorSections|
    ensures TocItems(GeneratorSections)[i] == "- " + NatToString(i + 1) + ". " + GeneratorSections[i]
    ensures ParseNat(NatToString(i + 1)) == i + 1
  {
    ParseNatToString(i + 1);
  }
}
