/*
 * The final quality check: four yes/no findings about the final bid text,
 * two of them against the technical specification.
 */
module FinalQA {
  import opened Wrappers
  import opened Text
  import opened Files
  import StructureExtractor

  datatype QAReport = QAReport(
    compositionComplete: bool,
    scoringCovered: bool,
    scheduleConstraints: bool,
    safetyEnvConstraints: bool)

  /** Python's `all(k in text for k in keys)`. */
  predicate AllIn(keys: seq<string>, text: string)
  {
    forall k :: 0 <= k < |keys| ==> Contains(text, keys[k])
  }

  lemma AllInPair(a: string, b: string, text: string)
    ensures AllIn([a, b], text) <==> Contains(text, a) && Contains(text, b)
  {
    var ks := [a, b];
    assert ks[0] == a && ks[1] == b;
    if AllIn(ks, text) {
      assert Contains(text, ks[0]) && Contains(text, ks[1]);
    }
  }

  lemma AllInMembers(keys: seq<string>, text: string)
    ensures AllIn(keys, text) <==> forall s :: s in keys ==> Contains(text, s)
  {
  }

  /** The scoring items looked for verbatim; the first one closes with `}`. */
  const ScoringItems: seq<string> := ["技术方案（25分}", "施工方法及主要技术措施（25分"]

  /** The report `execute` writes, from the final text and the specification. */
  function Report(final: string, spec: string): (r: QAReport)
    ensures r.compositionComplete <==> forall s :: s in StructureExtractor.CanonicalSections ==> Contains(final, s)
    ensures r.scoringCovered <==> Contains(final, "技术方案") && Contains(final, "施工方法")
    ensures r.safetyEnvConstraints <==>
      Contains(spec, "安全") && Contains(spec, "环保") && Contains(final, "安全") && Contains(final, "环保")
  {
    ScoringFallback(final);
    AllInPair("安全", "环保", spec);
    AllInMembers(StructureExtractor.CanonicalSections, final);
    QAReport(
      AllIn(StructureExtractor.CanonicalSections, final),
      AllIn(ScoringItems, final) || (Contains(final, "技术方案") && Contains(final, "施工方法")),
      Contains(spec, "180天") && Contains(spec, "150天") && (Contains(final, "180") || Contains(final, "150")),
      AllIn(["安全", "环保"], spec) && (Contains(final, "安全") && Contains(final, "环保")))
  }

  /** Finding both verbatim scoring items implies the plain fallback test, so
      the verbatim test never changes the outcome. */
  lemma ScoringFallback(final: string)
    ensures AllIn(ScoringItems, final) ==> Contains(final, "技术方案") && Contains(final, "施工方法")
  {
    if AllIn(ScoringItems, final) {
      assert Contains(final, ScoringItems[0]) && Contains(final, ScoringItems[1]);
      assert OccursAt(ScoringItems[0], "技术方案", 0);
      ContainsInside(final, ScoringItems[0], "技术方案", 0);
      assert OccursAt(ScoringItems[1], "施工方法", 0);
      ContainsInside(final, ScoringItems[1], "施工方法", 0);
    }
  }

  /** The schedule finding needs both durations in the specification and one
      of the two numbers in the final text. */
  lemma ScheduleNeeds(final: string, spec: string)
    ensures Report(final, spec).scheduleConstraints ==> Contains(spec, "180天") && Contains(spec, "150天")
    ensures Report(final, spec).scheduleConstraints ==> Contains(final, "180") || Contains(final, "150")
    ensures Contains(spec, "180天") && Contains(spec, "150天") && (Contains(final, "180") || Contains(final, "150"))
      ==> Report(final, spec).scheduleConstraints
  {
  }

  /** The final text is the assembled bid, or the draft when there is none. */
  function Execute(finalBidPath: Path, draftPath: Path, specPath: Path, files: map<string, string>): (r: QAReport)
    ensures Given(finalBidPath) ==> r == Report(SafeRead(finalBidPath, files), SafeRead(specPath, files))
    ensures !Given(finalBidPath) ==> r == Report(SafeRead(draftPath, files), SafeRead(specPath, files))
  {
    Report(SafeRead(EitherPath(finalBidPath, draftPath), files), SafeRead(specPath, files))
  }

  /** With nothing readable, only the findings that need nothing hold: none does. */
  lemma NothingReadable(finalBidPath: Path, draftPath: Path, specPath: Path, files: map<string, string>)
    requires SafeRead(EitherPath(finalBidPath, draftPath), files) == ""
    ensures var r := Execute(finalBidPath, draftPath, specPath, files);
      !r.compositionComplete && !r.scoringCovered && !r.scheduleConstraints && !r.safetyEnvConstraints
  {
    var c := StructureExtractor.CanonicalSections;
    assert c[0] in c;
    assert !Contains("", c[0]);
    assert !Contains("", "技术方案");
    assert !Contains("", "180") && !Contains("", "150");
    assert !Contains("", "安全");
  }
}
