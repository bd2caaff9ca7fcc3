/*
 * The sanity check of the draft: which of the mandatory hints and the core
 * chapter the draft text leaves out.
 */
module SanityChecker {
  import opened Wrappers
  import opened Text
  import opened Files

  const MandatoryHints: seq<string> := ["工期", "里程碑", "第三方检测", "验收", "环保", "安全", "资料交付", "质量标准", "偏差表"]

  /** The one core chapter checked; it holds no regular-expression metacharacter,
      so searching for it as a pattern is a plain substring test. */
  const CoreSection: string := "方案详细说明及施工组织设计"

  const Suggestion: string := "请在方案中明确工期/环保/安全/第三方检测/资料交付等硬性条款的指标与验收口径；若与规格书不一致，请在商务和技术偏差表中列出。"

  datatype SanityReport = SanityReport(
    sectionsInOutline: seq<string>,
    missingCoreSections: seq<string>,
    missingKeywords: seq<string>,
    suggestion: string)

  function Absent(text: string): string -> bool
  {
    h => !Contains(text, h)
  }

  /** The report built in `execute` from the draft text and the outline's sections. */
  function Check(text: string, sections: seq<string>): (r: SanityReport)
    ensures r.sectionsInOutline == sections
    ensures r.missingCoreSections == (if Contains(text, CoreSection) then [] else [CoreSection])
    ensures forall h :: h in r.missingKeywords <==> h in MandatoryHints && !Contains(text, h)
    ensures SubseqOf(r.missingKeywords, MandatoryHints)
  {
    SelectMembers([CoreSection], Absent(text));
    SelectMembers(MandatoryHints, Absent(text));
    SanityReport(sections, Select([CoreSection], Absent(text)), Select(MandatoryHints, Absent(text)), Suggestion)
  }

  /** `execute`: the draft is read when its path is given and exists. */
  function Execute(draftPath: Path, files: map<string, string>, sections: seq<string>): (r: SanityReport)
    ensures Given(draftPath) && draftPath.value in files ==> r == Check(files[draftPath.value], sections)
    ensures !(Given(draftPath) && draftPath.value in files) ==> r == Check("", sections)
  {
    Check(SafeRead(draftPath, files), sections)
  }

  /** No hint occurs in the empty text. */
  lemma NothingInEmpty(t: string)
    requires t != []
    ensures !Contains("", t)
  {
  }

  /** Without a readable draft every hint and the core chapter are reported missing. */
  lemma NoDraftMissesAll(draftPath: Path, files: map<string, string>, sections: seq<string>)
    requires !Given(draftPath) || draftPath.value !in files
    ensures Execute(draftPath, files, sections).missingKeywords == MandatoryHints
    ensures Execute(draftPath, files, sections).missingCoreSections == [CoreSection]
  {
    assert SafeRead(draftPath, files) == "";
    forall k | 0 <= k < |MandatoryHints|
      ensures Absent("")(MandatoryHints[k])
    {
      NothingInEmpty(MandatoryHints[k]);
    }
    SelectAll(MandatoryHints, Absent(""));
    NothingInEmpty(CoreSection);
  }

  /** A draft naming every hint and the core chapter gets a clean report. */
  lemma CompleteDraftIsClean(text: string, sections: seq<string>)
    requires Contains(text, CoreSection)
    requires forall k :: 0 <= k < |MandatoryHints| ==> Contains(text, MandatoryHints[k])
    ensures Check(text, sections).missingKeywords == []
    ensures Check(text, sections).missingCoreSections == []
  {
    forall k | 0 <= k < |MandatoryHints|
      ensures !Absent(text)(MandatoryHints[k])
    {
    }
    SelectNone(MandatoryHints, Absent(text));
  }
}
