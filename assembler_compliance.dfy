/*
 * The assembler and compliance agent: the technical plan is merged into the
 * bid skeleton right after the heading of the "方案详细说明及施工组织设计"
 * chapter, replacing the quoted placeholder lines under it, and the merged
 * document is checked for the mandatory chapters, a table of contents and a
 * binding hint.
 */
module AssemblerCompliance {
  import opened Text
  import StructureExtractor

  /** The chapter heading the plan is merged under. */
  const Marker: string := "方案详细说明及施工组织设计"

  /** A placeholder line: it starts with `>` once stripped. */
  predicate IsQuote(ln: string) { StartsWith(Strip(ln), ">") }

  predicate NotQuote(ln: string) { !IsQuote(ln) }

  /** The merged block: the stripped plan between two line breaks. */
  function PlanBlock(plan: string): string { "\n" + Strip(plan) + "\n" }

  predicate MarkerLine(ln: string) { Contains(ln, Marker) }

  /** The output lines from line `i` on: a line is copied; after a line
      `marks` accepts, the block is inserted and the lines up to the next one
      `stops` accepts are skipped. */
  function MergeFrom(lines: seq<string>, i: nat, block: string,
                     marks: string -> bool, stops: string -> bool): seq<string>
    requires i <= |lines|
    decreases |lines| - i
  {
    if i == |lines| then []
    else if marks(lines[i]) then
      [lines[i], block] + MergeFrom(lines, FirstFrom(lines, i + 1, stops), block, marks, stops)
    else [lines[i]] + MergeFrom(lines, i + 1, block, marks, stops)
  }

  /** `_merge_into_section_eight`: an empty outline yields the plan. */
  function Merge(outline: string, plan: string): string
  {
    if outline == [] then plan
    else Join(MergeFrom(SplitLines(outline), 0, PlanBlock(plan), MarkerLine, NotQuote), "\n")
  }

  /** The inner loop: the first line at or after `j0` that is not a placeholder. */
  method SkipPlaceholders(lines: seq<string>, j0: nat) returns (j: nat)
    requires j0 <= |lines|
    ensures j == FirstFrom(lines, j0, NotQuote)
  {
    j := j0;
    while j < |lines| && IsQuote(lines[j])
      invariant j0 <= j <= |lines|
      invariant FirstFrom(lines, j, NotQuote) == FirstFrom(lines, j0, NotQuote)
      decreases |lines| - j
    {
      j := j + 1;
    }
  }

  /** The merge loop over the outline's lines. */
  method MergeLines(lines: seq<string>, block: string) returns (out: seq<string>)
    ensures out == MergeFrom(lines, 0, block, MarkerLine, NotQuote)
  {
    out := [];
    var i := 0;
    while i < |lines|
      invariant i <= |lines|
      invariant out + MergeFrom(lines, i, block, MarkerLine, NotQuote) == MergeFrom(lines, 0, block, MarkerLine, NotQuote)
      decreases |lines| - i
    {
      var line := lines[i];
      MergeStep(lines, i, block, MarkerLine, NotQuote, out);
      if Contains(line, Marker) {
        var j := SkipPlaceholders(lines, i + 1);
        out := out + [line, block];
        i := j;
      } else {
        out := out + [line];
        i := i + 1;
      }
    }
  }

  /** One step of the merge loop: the lines it emits followed by the merge of the rest are the merge from `i`. */
  lemma MergeStep(lines: seq<string>, i: nat, block: string, marks: string -> bool, stops: string -> bool,
                  out: seq<string>)
    requires i < |lines|
    ensures marks(lines[i]) ==>
      out + [lines[i], block] + MergeFrom(lines, FirstFrom(lines, i + 1, stops), block, marks, stops)
      == out + MergeFrom(lines, i, block, marks, stops)
    ensures !marks(lines[i]) ==>
      out + [lines[i]] + MergeFrom(lines, i + 1, block, marks, stops) == out + MergeFrom(lines, i, block, marks, stops)
  {
    if marks(lines[i]) {
      var rest := MergeFrom(lines, FirstFrom(lines, i + 1, stops), block, marks, stops);
      assert out + [lines[i], block] + rest == out + ([lines[i], block] + rest);
    } else {
      var rest := MergeFrom(lines, i + 1, block, marks, stops);
      assert out + [lines[i]] + rest == out + ([lines[i]] + rest);
    }
  }

  method MergeIntoSectionEight(outline: string, plan: string) returns (merged: string)
    ensures merged == Merge(outline, plan)
  {
    if outline == [] {
      return plan;
    }
    var out := MergeLines(SplitLines(outline), PlanBlock(plan));
    merged := Join(out, "\n");
  }

  // ---------------------------------------------------------------------
  // What the merge keeps and where it puts the plan
  // ---------------------------------------------------------------------

  /** The lines that survive the merge: neither the block nor skipped. */
  function Kept(block: string, stops: string -> bool): string -> bool
  {
    ln => ln != block && stops(ln)
  }

  /** One step of the merge at a marker line. */
  lemma MergeAtMarker(lines: seq<string>, i: nat, block: string,
                      marks: string -> bool, stops: string -> bool)
    requires i < |lines| && marks(lines[i])
    ensures MergeFrom(lines, i, block, marks, stops)
         == [lines[i]] + ([block] + MergeFrom(lines, FirstFrom(lines, i + 1, stops), block, marks, stops))
  {
    var rest := MergeFrom(lines, FirstFrom(lines, i + 1, stops), block, marks, stops);
    assert [lines[i], block] + rest == [lines[i]] + ([block] + rest);
  }

  /** No line is dropped or moved except the skipped ones after marker
      lines, for any notion of kept line that rejects the block and the
      lines that end a skipped run. */
  lemma {:induction false} MergeKeepsLines(lines: seq<string>, i: nat, block: string,
                                            marks: string -> bool, stops: string -> bool,
                                            keep: string -> bool)
    requires i <= |lines|
    requires !keep(block)
    requires forall x :: keep(x) ==> stops(x)
    ensures Select(MergeFrom(lines, i, block, marks, stops), keep) == Select(lines[i..], keep)
    decreases |lines| - i
  {
    if i < |lines| {
      var ln := lines[i];
      if marks(ln) {
        var j := FirstFrom(lines, i + 1, stops);
        MergeKeepsLines(lines, j, block, marks, stops, keep);
        var rest := MergeFrom(lines, j, block, marks, stops);
        MergeAtMarker(lines, i, block, marks, stops);
        SelectSkipsBlock(ln, block, rest, keep);
        assert Select(MergeFrom(lines, i, block, marks, stops), keep) == Select([ln], keep) + Select(rest, keep);
        SkippedNotKept(lines, i + 1, j, stops, keep);
        SelectDropsRun(lines, i, j, keep);
      } else {
        MergeKeepsLines(lines, i + 1, block, marks, stops, keep);
        SelectAppend([ln], MergeFrom(lines, i + 1, block, marks, stops), keep);
        assert lines[i..] == [ln] + lines[i + 1..];
        SelectAppend([ln], lines[i + 1..], keep);
      }
    }
  }

  lemma SelectSkipsBlock(ln: string, block: string, rest: seq<string>, keep: string -> bool)
    requires !keep(block)
    ensures Select([ln] + ([block] + rest), keep) == Select([ln], keep) + Select(rest, keep)
  {
    SelectAppend([ln], [block] + rest, keep);
    SelectAppend([block], rest, keep);
  }

  lemma SelectDropsRun(lines: seq<string>, i: nat, j: nat, keep: string -> bool)
    requires i < j <= |lines|
    requires Select(lines[i + 1..j], keep) == []
    ensures Select(lines[i..], keep) == Select([lines[i]], keep) + Select(lines[j..], keep)
  {
    assert lines[i..] == [lines[i]] + (lines[i + 1..j] + lines[j..]);
    SelectAppend([lines[i]], lines[i + 1..j] + lines[j..], keep);
    SelectAppend(lines[i + 1..j], lines[j..], keep);
  }

  /** The lines a marker line skips are not kept. */
  lemma SkippedNotKept(lines: seq<string>, a: nat, j: nat, stops: string -> bool, keep: string -> bool)
    requires a <= j <= |lines|
    requires forall m :: a <= m < j ==> !stops(lines[m])
    requires forall x :: keep(x) ==> stops(x)
    ensures Select(lines[a..j], keep) == []
  {
    var xs := lines[a..j];
    assert forall k :: 0 <= k < |xs| ==> xs[k] == lines[a + k];
    SelectNone(xs, keep);
  }

  /** The output starts with the first remaining input line. */
  lemma MergeHead(lines: seq<string>, i: nat, block: string, marks: string -> bool, stops: string -> bool)
    requires i < |lines|
    ensures |MergeFrom(lines, i, block, marks, stops)| > 0
    ensures MergeFrom(lines, i, block, marks, stops)[0] == lines[i]
  {
  }

  /** A line other than the block is a marker line exactly when the block follows it. */
  predicate BlockAfterEachMarker(out: seq<string>, block: string, marks: string -> bool)
  {
    && (forall k :: 0 <= k < |out| - 1 && out[k] != block ==> (marks(out[k]) <==> out[k + 1] == block))
    && (|out| > 0 && out[|out| - 1] != block ==> !marks(out[|out| - 1]))
  }

  /** The line after a block is neither a block nor one a marker would skip. */
  predicate NothingSkippedAfterBlock(out: seq<string>, block: string, stops: string -> bool)
  {
    forall k :: 0 <= k < |out| - 1 && out[k] == block ==> out[k + 1] != block && stops(out[k + 1])
  }

  /** The block is never the first line and always follows a marker line. */
  predicate BlockOnlyAfterMarker(out: seq<string>, block: string, marks: string -> bool)
  {
    && (|out| > 0 ==> out[0] != block)
    && (forall k :: 0 <= k < |out| - 1 && out[k + 1] == block ==> out[k] != block && marks(out[k]))
  }

  lemma {:induction false} BlockAfterMarkers(lines: seq<string>, i: nat, block: string,
                                              marks: string -> bool, stops: string -> bool)
    requires i <= |lines|
    requires block !in lines
    ensures BlockAfterEachMarker(MergeFrom(lines, i, block, marks, stops), block, marks)
    decreases |lines| - i
  {
    if i < |lines| {
      var ln := lines[i];
      var out := MergeFrom(lines, i, block, marks, stops);
      if marks(ln) {
        var j := FirstFrom(lines, i + 1, stops);
        BlockAfterMarkers(lines, j, block, marks, stops);
        var rest := MergeFrom(lines, j, block, marks, stops);
        MergeAtMarker(lines, i, block, marks, stops);
        ShiftAfterEachMarker([ln, block], rest, block, marks);
        assert out == [ln, block] + rest;
      } else {
        BlockAfterMarkers(lines, i + 1, block, marks, stops);
        var rest := MergeFrom(lines, i + 1, block, marks, stops);
        assert out == [ln] + rest;
        if i + 1 < |lines| {
          MergeHead(lines, i + 1, block, marks, stops);
          assert lines[i + 1] in lines;
        }
        ShiftAfterEachMarker([ln], rest, block, marks);
      }
    }
  }

  /** Prepending lines that keep the property across the seam keeps it. */
  lemma ShiftAfterEachMarker(front: seq<string>, rest: seq<string>, block: string, marks: string -> bool)
    requires front != []
    requires forall k :: 0 <= k < |front| - 1 && front[k] != block ==> (marks(front[k]) <==> front[k + 1] == block)
    requires front[|front| - 1] != block ==> (marks(front[|front| - 1]) <==> rest != [] && rest[0] == block)
    requires BlockAfterEachMarker(rest, block, marks)
    ensures BlockAfterEachMarker(front + rest, block, marks)
  {
    var out := front + rest;
    forall k | 0 <= k < |out| - 1 && out[k] != block
      ensures marks(out[k]) <==> out[k + 1] == block
    {
      if k < |front| - 1 {
        assert out[k] == front[k] && out[k + 1] == front[k + 1];
      } else if k == |front| - 1 {
        assert out[k] == front[k] && out[k + 1] == rest[0];
      } else {
        assert out[k] == rest[k - |front|] && out[k + 1] == rest[k - |front| + 1];
      }
    }
    if rest == [] {
      assert out == front;
    } else {
      assert out[|out| - 1] == rest[|rest| - 1];
    }
  }

  /** The line after a block is never another block, nor one `stops` rejects. */
  lemma {:induction false} NoSkipAfterBlock(lines: seq<string>, i: nat, block: string,
                                             marks: string -> bool, stops: string -> bool)
    requires i <= |lines|
    requires block !in lines
    ensures NothingSkippedAfterBlock(MergeFrom(lines, i, block, marks, stops), block, stops)
    decreases |lines| - i
  {
    if i < |lines| {
      var ln := lines[i];
      var out := MergeFrom(lines, i, block, marks, stops);
      assert ln in lines;
      if marks(ln) {
        var j := FirstFrom(lines, i + 1, stops);
        NoSkipAfterBlock(lines, j, block, marks, stops);
        var rest := MergeFrom(lines, j, block, marks, stops);
        MergeAtMarker(lines, i, block, marks, stops);
        assert out == [ln, block] + rest;
        forall k | 0 <= k < |out| - 1 && out[k] == block
          ensures out[k + 1] != block && stops(out[k + 1])
        {
          if k == 1 {
            MergeHead(lines, j, block, marks, stops);
            assert lines[j] in lines;
            assert out[2] == rest[0];
          } else {
            assert out[k] == rest[k - 2] && out[k + 1] == rest[k - 1];
          }
        }
      } else {
        NoSkipAfterBlock(lines, i + 1, block, marks, stops);
        var rest := MergeFrom(lines, i + 1, block, marks, stops);
        assert out == [ln] + rest;
        forall k | 0 <= k < |out| - 1 && out[k] == block
          ensures out[k + 1] != block && stops(out[k + 1])
        {
          assert out[k] == rest[k - 1] && out[k + 1] == rest[k];
        }
      }
    }
  }

  /** The block never opens the output and always follows a marker line. */
  lemma BlockFollowsMarker(lines: seq<string>, i: nat, block: string,
                           marks: string -> bool, stops: string -> bool)
    requires i <= |lines|
    requires block !in lines
    ensures BlockOnlyAfterMarker(MergeFrom(lines, i, block, marks, stops), block, marks)
  {
    var out := MergeFrom(lines, i, block, marks, stops);
    BlockAfterMarkers(lines, i, block, marks, stops);
    NoSkipAfterBlock(lines, i, block, marks, stops);
    if i < |lines| {
      MergeHead(lines, i, block, marks, stops);
      assert lines[i] in lines;
    }
  }

  // ---------------------------------------------------------------------
  // Exactly the placeholder runs after marker lines are dropped
  // ---------------------------------------------------------------------

  /**
   * Line `m` lies in a run of skipped lines right after a marker line: some
   * earlier line is a marker line and every line after it up to `m` is one
   * `stops` rejects.
   */
  ghost predicate Skipped(lines: seq<string>, m: nat, marks: string -> bool, stops: string -> bool)
    requires m < |lines|
  {
    exists i :: 0 <= i < m && marks(lines[i]) && forall k :: i < k <= m ==> !stops(lines[k])
  }

  /** The lines from `a` on that are not skipped, in their order. */
  ghost function Unskipped(lines: seq<string>, a: nat, marks: string -> bool, stops: string -> bool): seq<string>
    requires a <= |lines|
    decreases |lines| - a
  {
    if a == |lines| then []
    else (if Skipped(lines, a, marks, stops) then [] else [lines[a]]) + Unskipped(lines, a + 1, marks, stops)
  }

  /** No skipped run that starts before `a` reaches line `a`. */
  ghost predicate FreshAt(lines: seq<string>, a: nat, marks: string -> bool, stops: string -> bool)
    requires a <= |lines|
  {
    a < |lines| ==>
      forall i :: 0 <= i < a && marks(lines[i]) ==> exists k :: i < k <= a && stops(lines[k])
  }

  /** The test that keeps every line but the block. */
  function NotBlock(block: string): string -> bool
  {
    ln => ln != block
  }

  /** The lines after a marker line up to the next line `stops` accepts are all skipped. */
  lemma {:induction false} UnskippedRun(lines: seq<string>, i: nat, a: nat, j: nat,
                                        marks: string -> bool, stops: string -> bool)
    requires i < a <= j <= |lines| && marks(lines[i])
    requires forall k :: i < k < j ==> !stops(lines[k])
    ensures Unskipped(lines, a, marks, stops) == Unskipped(lines, j, marks, stops)
    decreases j - a
  {
    if a < j {
      assert Skipped(lines, a, marks, stops) by {
        assert 0 <= i < a && marks(lines[i]) && forall k :: i < k <= a ==> !stops(lines[k]);
      }
      assert Unskipped(lines, a, marks, stops) == Unskipped(lines, a + 1, marks, stops);
      UnskippedRun(lines, i, a + 1, j, marks, stops);
    }
  }

  /** A line `stops` accepts, and the end of the lines, begin no skipped run. */
  lemma FreshAtStop(lines: seq<string>, j: nat, marks: string -> bool, stops: string -> bool)
    requires j <= |lines| && (j < |lines| ==> stops(lines[j]))
    ensures FreshAt(lines, j, marks, stops)
  {
    if j < |lines| {
      forall i | 0 <= i < j && marks(lines[i])
        ensures exists k :: i < k <= j && stops(lines[k])
      {
        assert stops(lines[j]);
      }
    }
  }

  /** After a line that is no marker line, no skipped run reaches the next line either. */
  lemma FreshAtNext(lines: seq<string>, a: nat, marks: string -> bool, stops: string -> bool)
    requires a < |lines| && FreshAt(lines, a, marks, stops) && !marks(lines[a])
    ensures FreshAt(lines, a + 1, marks, stops)
  {
    if a + 1 < |lines| {
      forall i | 0 <= i < a + 1 && marks(lines[i])
        ensures exists k :: i < k <= a + 1 && stops(lines[k])
      {
        assert i < a;
        var k :| i < k <= a && stops(lines[k]);
      }
    }
  }

  /**
   * Removing the block from the merged lines leaves exactly the lines that
   * are not skipped, in their order: only the runs of placeholders directly
   * after marker lines are dropped, and every other line is kept, a
   * placeholder anywhere else included.
   */
  lemma {:induction false} MergeKeepsUnskipped(lines: seq<string>, a: nat, block: string,
                                               marks: string -> bool, stops: string -> bool)
    requires a <= |lines| && block !in lines
    requires FreshAt(lines, a, marks, stops)
    ensures Select(MergeFrom(lines, a, block, marks, stops), NotBlock(block)) == Unskipped(lines, a, marks, stops)
    decreases |lines| - a
  {
    if a < |lines| {
      var ln := lines[a];
      assert ln in lines;
      assert !Skipped(lines, a, marks, stops);
      if marks(ln) {
        var j := FirstFrom(lines, a + 1, stops);
        FreshAtStop(lines, j, marks, stops);
        MergeKeepsUnskipped(lines, j, block, marks, stops);
        UnskippedRun(lines, a, a + 1, j, marks, stops);
        var rest := MergeFrom(lines, j, block, marks, stops);
        MergeAtMarker(lines, a, block, marks, stops);
        SelectSkipsBlock(ln, block, rest, NotBlock(block));
      } else {
        FreshAtNext(lines, a, marks, stops);
        MergeKeepsUnskipped(lines, a + 1, block, marks, stops);
        SelectAppend([ln], MergeFrom(lines, a + 1, block, marks, stops), NotBlock(block));
      }
    }
  }

  /** A line that is not skipped is among the lines from `a` on that are kept. */
  lemma {:induction false} UnskippedHas(lines: seq<string>, a: nat, m: nat, marks: string -> bool, stops: string -> bool)
    requires a <= m < |lines| && !Skipped(lines, m, marks, stops)
    ensures lines[m] in Unskipped(lines, a, marks, stops)
    decreases m - a
  {
    if a < m {
      UnskippedHas(lines, a + 1, m, marks, stops);
    }
  }

  /**
   * The merge of the outline's lines, without the plan block, is the outline
   * minus the placeholder runs directly after marker lines; in particular a
   * placeholder that does not follow such a run is kept.
   */
  lemma MergeDropsOnlyPlaceholderRuns(outline: string, plan: string, m: nat)
    requires m < |SplitLines(outline)|
    ensures Select(MergeFrom(SplitLines(outline), 0, PlanBlock(plan), MarkerLine, NotQuote), NotBlock(PlanBlock(plan)))
         == Unskipped(SplitLines(outline), 0, MarkerLine, NotQuote)
    ensures !Skipped(SplitLines(outline), m, MarkerLine, NotQuote)
         ==> SplitLines(outline)[m] in MergeFrom(SplitLines(outline), 0, PlanBlock(plan), MarkerLine, NotQuote)
  {
    var lines := SplitLines(outline);
    var block := PlanBlock(plan);
    var out := MergeFrom(lines, 0, block, MarkerLine, NotQuote);
    BlockNotALine(outline, plan);
    MergeKeepsUnskipped(lines, 0, block, MarkerLine, NotQuote);
    if !Skipped(lines, m, MarkerLine, NotQuote) {
      UnskippedHas(lines, 0, m, MarkerLine, NotQuote);
      SelectMembers(out, NotBlock(block));
    }
  }

  /** The block holds a line break, so it is none of the outline's lines. */
  lemma BlockNotALine(outline: string, plan: string)
    ensures PlanBlock(plan) !in SplitLines(outline)
  {
    SplitLinesFree(outline);
    assert PlanBlock(plan)[0] == '\n';
  }

  /** A line that is kept is an element of the output. */
  lemma KeptInOutput(lines: seq<string>, block: string, k: nat)
    requires k < |lines| && lines[k] != block && NotQuote(lines[k])
    ensures lines[k] in MergeFrom(lines, 0, block, MarkerLine, NotQuote)
  {
    var keep := Kept(block, NotQuote);
    MergeKeepsLines(lines, 0, block, MarkerLine, NotQuote, keep);
    assert lines[0..] == lines;
    assert lines[k] in lines;
    assert keep(lines[k]);
    SelectMembers(lines, keep);
    SelectMembers(MergeFrom(lines, 0, block, MarkerLine, NotQuote), keep);
    assert lines[k] in Select(lines, keep);
  }

  /** A kept line is in the joined output, and so is the block after a marker line. */
  lemma JoinedOutput(lines: seq<string>, block: string, k: nat)
    requires block !in lines
    requires k < |lines| && NotQuote(lines[k])
    ensures Contains(Join(MergeFrom(lines, 0, block, MarkerLine, NotQuote), "\n"), lines[k])
    ensures MarkerLine(lines[k]) ==> Contains(Join(MergeFrom(lines, 0, block, MarkerLine, NotQuote), "\n"), block)
  {
    assert lines[k] in lines;
    KeptInOutput(lines, block, k);
    BlockAfterMarkers(lines, 0, block, MarkerLine, NotQuote);
    JoinHasAfter(MergeFrom(lines, 0, block, MarkerLine, NotQuote), block, MarkerLine, lines[k]);
  }

  /** A line of the output is in its join, and so is the block that follows it when it is a marker line. */
  lemma JoinHasAfter(out: seq<string>, block: string, marks: string -> bool, x: string)
    requires x in out && x != block && BlockAfterEachMarker(out, block, marks)
    ensures Contains(Join(out, "\n"), x)
    ensures marks(x) ==> Contains(Join(out, "\n"), block)
  {
    var m :| 0 <= m < |out| && out[m] == x;
    JoinHas(out, "\n", m);
    if marks(x) {
      assert out[m + 1] == block;
      JoinHas(out, "\n", m + 1);
    }
  }

  /** End to end: every outline line that is not a placeholder is in the
      merged document, and the plan follows each marker line among them. */
  lemma MergedDocument(outline: string, plan: string, k: nat)
    requires outline != []
    requires k < |SplitLines(outline)| && NotQuote(SplitLines(outline)[k])
    ensures Contains(Merge(outline, plan), SplitLines(outline)[k])
    ensures MarkerLine(SplitLines(outline)[k]) ==> Contains(Merge(outline, plan), PlanBlock(plan))
  {
    BlockNotALine(outline, plan);
    JoinedOutput(SplitLines(outline), PlanBlock(plan), k);
  }

  // ---------------------------------------------------------------------
  // Compliance check
  // ---------------------------------------------------------------------

  /** The chapters a complete bid document must name: the eleven chapters
      of the skeleton. */
  const RequiredSections: seq<string> := StructureExtractor.CanonicalSections

  datatype Compliance = Compliance(
    hasToc: bool,
    hasBindingHint: bool,
    sectionsMissing: seq<string>,
    timestamp: string)

  /** `_check_compliance`; the clock reading is a parameter. */
  function CheckCompliance(text: string, now: string): (r: Compliance)
    ensures forall s :: s in r.sectionsMissing <==> s in RequiredSections && !Contains(text, s)
    ensures SubseqOf(r.sectionsMissing, RequiredSections)
    ensures r.timestamp == now
  {
    SelectMembers(RequiredSections, s => !Contains(text, s));
    Compliance(
      Contains(text, "# 目 录") || Contains(text, "# 目录"),
      Contains(text, "装订") && Contains(text, "副本"),
      Select(RequiredSections, s => !Contains(text, s)),
      now)
  }

  /** Nothing is missing exactly when every required chapter is named. */
  lemma CompliantIff(text: string, now: string)
    ensures CheckCompliance(text, now).sectionsMissing == [] <==>
      forall k :: 0 <= k < |RequiredSections| ==> Contains(text, RequiredSections[k])
  {
    var r := CheckCompliance(text, now);
    if r.sectionsMissing != [] {
      assert r.sectionsMissing[0] in r.sectionsMissing;
    }
    if exists k :: 0 <= k < |RequiredSections| && !Contains(text, RequiredSections[k]) {
      var k :| 0 <= k < |RequiredSections| && !Contains(text, RequiredSections[k]);
      assert RequiredSections[k] in r.sectionsMissing;
    }
  }

  /** Adding text never makes a chapter go missing, nor a flag go false. */
  lemma ComplianceGrows(text: string, more: string, now: string)
    ensures var r := CheckCompliance(text, now);
      var r2 := CheckCompliance(text + more, now);
      && (forall s :: s in r2.sectionsMissing ==> s in r.sectionsMissing)
      && (r.hasToc ==> r2.hasToc)
      && (r.hasBindingHint ==> r2.hasBindingHint)
  {
    var r := CheckCompliance(text, now);
    var r2 := CheckCompliance(text + more, now);
    forall s | s in r2.sectionsMissing
      ensures s in r.sectionsMissing
    {
      if Contains(text, s) {
        ContainsLeft(text, more, s);
      }
    }
    if Contains(text, "# 目 录") {
      ContainsLeft(text, more, "# 目 录");
    }
    if Contains(text, "# 目录") {
      ContainsLeft(text, more, "# 目录");
    }
    if r.hasBindingHint {
      ContainsLeft(text, more, "装订");
      ContainsLeft(text, more, "副本");
    }
  }

  // ---------------------------------------------------------------------
  // The skeleton passes the check
  // ---------------------------------------------------------------------

  lemma FrontHasToc(today: string)
    ensures Contains(StructureExtractor.Front(today), "# 目 录")
  {
    var tail := "- 日期：{YYYY}年{MM}月{DD}日\n- 正/副本：正本1份，副本4份\n\n# 目 录\n";
    var head := "---\ntitle: 投标文件（骨架）\ngenerated_at: " + today + "\n---\n\n# 封面（模板）\n"
      + "- 项目名称：{PROJECT_NAME}\n- 招标编号：{TENDER_NO}\n- 投标人：{BIDDER_NAME}（盖章）\n";
    assert StructureExtractor.Front(today) == head + tail;
    assert tail[41] == '#' && tail[42] == ' ' && tail[43] == '目' && tail[44] == ' ' && tail[45] == '录';
    assert tail[41..46] == "# 目 录";
    ContainsAt(tail, "# 目 录", 41);
    ContainsRight(head, tail, "# 目 录");
  }

  lemma TrailerHasBindingHint()
    ensures Contains(StructureExtractor.Trailer, "装订") && Contains(StructureExtractor.Trailer, "副本")
  {
    var t := StructureExtractor.Trailer;
    assert t[6] == '装' && t[7] == '订';
    assert t[6..8] == "装订";
    ContainsAt(t, "装订", 6);
    assert t[19] == '副' && t[20] == '本';
    assert t[19..21] == "副本";
    ContainsAt(t, "副本", 19);
  }

  /** The table of contents names every section. */
  lemma TocNamesSection(sections: seq<string>, i: nat)
    requires i < |sections|
    ensures Contains(Join(StructureExtractor.TocLines(sections), "\n"), sections[i])
  {
    var lines := StructureExtractor.TocLines(sections);
    var n := NatToString(i + 1);
    JoinHas(lines, "\n", i);
    assert lines[i] == (n + ". ") + sections[i];
    assert OccursAt(lines[i], sections[i], |n| + 2);
    ContainsInside(Join(lines, "\n"), lines[i], sections[i], |n| + 2);
  }

  lemma InSkeleton(front: string, toc: string, mid: string, bodies: string, trailer: string, t: string)
    requires Contains(front + toc, t)
    ensures Contains(front + toc + mid + bodies + trailer, t)
  {
    ContainsLeft(front + toc, mid, t);
    ContainsLeft(front + toc + mid, bodies, t);
    ContainsLeft(front + toc + mid + bodies, trailer, t);
  }

  /** The skeleton rendered for the canonical chapters passes the compliance
      check: a table of contents, a binding hint and no missing chapter. */
  lemma SkeletonCompliant(today: string, now: string)
    ensures CheckCompliance(StructureExtractor.Skeleton(RequiredSections, today), now)
         == Compliance(true, true, [], now)
  {
    var front := StructureExtractor.Front(today);
    var toc := Join(StructureExtractor.TocLines(RequiredSections), "\n");
    var mid := "\n\n---\n\n";
    var bodies := Join(StructureExtractor.Bodies(RequiredSections), "");
    var trailer := StructureExtractor.Trailer;
    var doc := StructureExtractor.Skeleton(RequiredSections, today);
    assert doc == front + toc + mid + bodies + trailer;
    FrontHasToc(today);
    ContainsLeft(front, toc, "# 目 录");
    InSkeleton(front, toc, mid, bodies, trailer, "# 目 录");
    TrailerHasBindingHint();
    ContainsRight(front + toc + mid + bodies, trailer, "装订");
    ContainsRight(front + toc + mid + bodies, trailer, "副本");
    forall k | 0 <= k < |RequiredSections|
      ensures Contains(doc, RequiredSections[k])
    {
      TocNamesSection(RequiredSections, k);
      ContainsRight(front, toc, RequiredSections[k]);
      InSkeleton(front, toc, mid, bodies, trailer, RequiredSections[k]);
    }
    CompliantIff(doc, now);
  }
}
