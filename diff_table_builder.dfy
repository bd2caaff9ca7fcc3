/*
 * The deviation table agent: for each keyword of a fixed list that the
 * technical specification mentions and the bid text does not, one row of the
 * "商务和技术偏差表"; with no such keyword the table says "无".
 */
module DiffTableBuilder {
  import opened Wrappers
  import opened Text
  import opened Files

  const Keywords: seq<string> := ["交钥匙", "资料交付", "检验", "验收", "安全", "环保", "排放", "工期"]

  const Header: string := "# 商务和技术偏差表\n\n"

  /** The table written when nothing deviates. */
  const EmptyTable: string := Header + "无\n"

  const RowLead: string := "- 关键词："
  const RowMiddle: string := " | 偏差：投标文本未明确响应 | 建议：补充对"
  const RowTail: string := "条款的承诺与指标"

  function Row(kw: string): string { RowLead + kw + RowMiddle + kw + RowTail }

  /** The specification asks for `kw` and the bid does not answer it. */
  predicate Deviates(spec: string, bid: string, kw: string) { Contains(spec, kw) && !Contains(bid, kw) }

  function DeviatesIn(spec: string, bid: string): string -> bool
  {
    kw => Deviates(spec, bid, kw)
  }

  /** The keywords that get a row, in list order. */
  function Unanswered(spec: string, bid: string): seq<string>
  {
    Select(Keywords, DeviatesIn(spec, bid))
  }

  function Rows(spec: string, bid: string): seq<string>
  {
    MapAll(Unanswered(spec, bid), Row)
  }

  /** `_build_diff`. */
  function DiffTable(spec: string, bid: string): string
  {
    var rows := Rows(spec, bid);
    if rows == [] then EmptyTable else Header + Join(rows, "\n") + "\n"
  }

  method BuildDiff(spec: string, bid: string) returns (table: string)
    ensures table == DiffTable(spec, bid)
  {
    var rows := CollectRows(Keywords, DeviatesIn(spec, bid), Row);
    if rows == [] {
      table := EmptyTable;
    } else {
      table := Header + Join(rows, "\n") + "\n";
    }
  }

  /** The row loop of `_build_diff`: one row per keyword that passes `keep`, in order. */
  method CollectRows(keywords: seq<string>, keep: string -> bool, row: string -> string) returns (rows: seq<string>)
    ensures rows == MapAll(Select(keywords, keep), row)
  {
    rows := [];
    for i := 0 to |keywords|
      invariant rows == MapAll(Select(keywords[..i], keep), row)
    {
      var kw := keywords[i];
      MapSelectSnoc(keywords[..i], kw, keep, row);
      assert keywords[..i + 1] == keywords[..i] + [kw];
      if keep(kw) {
        rows := rows + [row(kw)];
      }
    }
    assert keywords[..|keywords|] == keywords;
  }

  // ---------------------------------------------------------------------
  // Properties
  // ---------------------------------------------------------------------

  /** Different keywords give different rows. */
  lemma RowInjective(a: string, b: string)
    requires Row(a) == Row(b)
    ensures a == b
  {
    var n := |RowLead|;
    assert |Row(a)| == |RowLead| + |RowMiddle| + |RowTail| + 2 * |a|;
    assert Row(a)[n..n + |a|] == a;
    assert Row(b)[n..n + |b|] == b;
  }

  /** The table has exactly one row per keyword the specification names and
      the bid leaves out, in the keyword list's order. */
  lemma RowsExactly(spec: string, bid: string)
    ensures forall kw :: Row(kw) in Rows(spec, bid) <==> kw in Keywords && Deviates(spec, bid, kw)
    ensures |Rows(spec, bid)| == |Unanswered(spec, bid)|
    ensures forall i :: 0 <= i < |Rows(spec, bid)| ==> Rows(spec, bid)[i] == Row(Unanswered(spec, bid)[i])
    ensures SubseqOf(Unanswered(spec, bid), Keywords)
  {
    var u := Unanswered(spec, bid);
    var rows := Rows(spec, bid);
    SelectMembers(Keywords, DeviatesIn(spec, bid));
    forall kw
      ensures Row(kw) in rows <==> kw in Keywords && Deviates(spec, bid, kw)
    {
      if Row(kw) in rows {
        var i :| 0 <= i < |rows| && rows[i] == Row(kw);
        RowInjective(u[i], kw);
        assert u[i] in u;
      }
      if kw in Keywords && Deviates(spec, bid, kw) {
        assert kw in u;
        var i :| 0 <= i < |u| && u[i] == kw;
        assert rows[i] == Row(kw);
      }
    }
  }

  /** A table with rows differs from the "无" table right after the header. */
  lemma RowsNotEmptyTable(rows: seq<string>)
    requires rows != [] && RowLead <= rows[0]
    ensures Header + Join(rows, "\n") + "\n" != EmptyTable
  {
    var t := Header + Join(rows, "\n") + "\n";
    assert Join(rows, "\n")[0] == rows[0][0] == '-';
    assert t[|Header|] == '-';
    assert EmptyTable[|Header|] == '无';
  }

  /** The table says "无" exactly when no keyword deviates. */
  lemma EmptyTableIff(spec: string, bid: string)
    ensures DiffTable(spec, bid) == EmptyTable <==>
      forall k :: 0 <= k < |Keywords| ==> !Deviates(spec, bid, Keywords[k])
  {
    var rows := Rows(spec, bid);
    RowsExactly(spec, bid);
    if rows != [] {
      var kw := Unanswered(spec, bid)[0];
      assert rows[0] == Row(kw);
      assert RowLead <= rows[0];
      RowsNotEmptyTable(rows);
      assert Row(kw) in rows;
      var k :| 0 <= k < |Keywords| && Keywords[k] == kw;
    } else {
      forall k | 0 <= k < |Keywords|
        ensures !Deviates(spec, bid, Keywords[k])
      {
        assert Keywords[k] in Keywords;
      }
    }
  }

  /** Answering more in the bid never adds a row. */
  lemma MoreBidFewerRows(spec: string, bid: string, more: string)
    ensures forall r :: r in Rows(spec, bid + more) ==> r in Rows(spec, bid)
  {
    RowsExactly(spec, bid);
    RowsExactly(spec, bid + more);
    forall r | r in Rows(spec, bid + more)
      ensures r in Rows(spec, bid)
    {
      var i :| 0 <= i < |Rows(spec, bid + more)| && Rows(spec, bid + more)[i] == r;
      var kw := Unanswered(spec, bid + more)[i];
      assert Row(kw) in Rows(spec, bid + more);
      if Contains(bid, kw) {
        ContainsLeft(bid, more, kw);
      }
    }
  }

  /** Without a specification no keyword deviates, so the table says "无". */
  lemma NoSpecNoDeviation(bid: string)
    ensures DiffTable("", bid) == EmptyTable
  {
    EmptyTableIff("", bid);
    forall k | 0 <= k < |Keywords|
      ensures !Deviates("", bid, Keywords[k])
    {
      assert !Contains("", Keywords[k]);
    }
  }

  /** `execute`: the bid is the final document, or the draft when there is none. */
  function DiffForState(specPath: Path, finalBidPath: Path, draftPath: Path,
                        files: map<string, string>): (r: string)
    ensures Given(finalBidPath) ==> r == DiffTable(SafeRead(specPath, files), SafeRead(finalBidPath, files))
    ensures !Given(finalBidPath) ==> r == DiffTable(SafeRead(specPath, files), SafeRead(draftPath, files))
    ensures !(Given(specPath) && specPath.value in files) ==> r == EmptyTable
  {
    var spec := SafeRead(specPath, files);
    var bid := SafeRead(EitherPath(finalBidPath, draftPath), files);
    NoSpecNoDeviation(bid);
    DiffTable(spec, bid)
  }
}
