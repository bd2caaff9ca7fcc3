/**
 * The bid-format agent (backend/agents/bid_format_agent.py): it cuts the
 * chapter "第五章 投标文件格式" out of the converted tender document and uses
 * that excerpt, unchanged, as the body of the bid document.
 */
module BidFormatAgent {
  import opened Wrappers
  import opened Text
  import KeyExtraction

  /** The heading of the chapter that prescribes the bid-document format. */
  const Marker: string := "第五章 投标文件格式"

  /**
   * The expression `\n第[一二三四五六七八九十百]+章\s+` matches at `p`: a line
   * break, "第", a run of chapter numerals, "章" and a whitespace character.
   * "章" is not a numeral, so the run is the maximal one starting at `p + 2`.
   */
  predicate ChapterBreakAt(s: string, p: nat)
  {
    p + 2 <= |s| && s[p] == '\n' && s[p + 1] == '第'
    && var n := Skip(s, p + 2, KeyExtraction.IsChapterNumeral);
       p + 2 < n && n + 1 < |s| && s[n] == '章' && IsSpace(s[n + 1])
  }

  /**
   * First position at or after `i` where a chapter break matches, or -1.
   * Searching `s[i..]` and adding `i` is the same, since the expression only
   * looks forward from where it starts.
   */
  function FindBreak(s: string, i: nat): (r: int)
    decreases |s| - i
    ensures r == -1 || (i <= r < |s| && ChapterBreakAt(s, r))
    ensures r == -1 ==> forall j :: i <= j < |s| ==> !ChapterBreakAt(s, j)
    ensures r != -1 ==> forall j :: i <= j < r ==> !ChapterBreakAt(s, j)
  {
    if i >= |s| then -1
    else if ChapterBreakAt(s, i) then i
    else FindBreak(s, i + 1)
  }

  /**
   * `_load_bid_format_text`, with the wiki copy of the tender document as
   * `wiki` (`None` when the file does not exist): the text from the marker
   * up to the next chapter heading, right-stripped and ended with one line
   * break, or up to the end of the document when no chapter follows.
   */
  function LoadBidFormatText(wiki: Option<string>): (r: string)
    ensures r == "" <==> wiki.None? || !Contains(KeyExtraction.CleanText(wiki.value), Marker)
    ensures r != "" ==> StartsWith(r, Marker)
    ensures !Contains(r, "**")
  {
    if wiki.None? then ""
    else
      var clean := KeyExtraction.CleanText(wiki.value);
      ExcerptOfClean(clean);
      Excerpt(clean)
  }

  /** The excerpt of a text whose "**" markers have been removed. */
  function Excerpt(clean: string): string
  {
    var start := Find(clean, Marker);
    if start == -1 then "" else CutFrom(clean, start)
  }

  /** The text from `start` up to the next chapter break, right-stripped and ended with a line break, or to the end. */
  function CutFrom(clean: string, start: nat): string
    requires start <= |clean|
  {
    var e := FindBreak(clean, start + 1);
    if e >= 0 then RTrim(clean[start..e], IsSpace) + "\n" else clean[start..]
  }

  lemma ExcerptOfClean(clean: string)
    requires !Contains(clean, "**")
    ensures Excerpt(clean) == "" <==> !Contains(clean, Marker)
    ensures Excerpt(clean) != "" ==> StartsWith(Excerpt(clean), Marker)
    ensures !Contains(Excerpt(clean), "**")
  {
    var start := Find(clean, Marker);
    if start != -1 {
      ContainsWitness(clean, Marker);
      CutFromClean(clean, start);
    }
  }

  lemma CutFromClean(clean: string, start: nat)
    requires !Contains(clean, "**")
    requires OccursAt(clean, Marker, start)
    ensures StartsWith(CutFrom(clean, start), Marker) && !Contains(CutFrom(clean, start), "**")
  {
    var e := FindBreak(clean, start + 1);
    if e >= 0 {
      CutAtBreak(clean, start, e);
    } else {
      Slice(clean, start, |clean|);
      assert clean[start..] == clean[start..|clean|];
    }
  }

  /** No chapter break starts anywhere in `s`. */
  predicate OneChapter(s: string)
  {
    forall q :: 0 <= q < |s| ==> !ChapterBreakAt(s, q)
  }

  /** The excerpt holds a single chapter: no further chapter heading starts anywhere inside it. */
  lemma ExcerptOneChapter(wiki: Option<string>)
    ensures OneChapter(LoadBidFormatText(wiki))
  {
    if wiki.Some? {
      ExcerptOfCleanOneChapter(KeyExtraction.CleanText(wiki.value));
    }
  }

  lemma ExcerptOfCleanOneChapter(clean: string)
    ensures OneChapter(Excerpt(clean))
  {
    var start := Find(clean, Marker);
    if start != -1 {
      ContainsWitness(clean, Marker);
      CutFromOneChapter(clean, start);
    }
  }

  lemma CutFromOneChapter(clean: string, start: nat)
    requires OccursAt(clean, Marker, start)
    ensures OneChapter(CutFrom(clean, start))
  {
    var e := FindBreak(clean, start + 1);
    if e >= 0 {
      CutOneChapter(clean, start, e);
    } else {
      TailOneChapter(clean, start);
    }
  }

  /** What `execute` answers: an error code, or the file it writes and the next stage. */
  datatype Response = Error(code: string) | Completed(fileName: string, content: string, stage: string)

  /**
   * `execute`: the excerpt becomes "投标文件.md" verbatim; an empty excerpt is
   * the error "bid_format_not_found".  The write itself is not modelled.
   */
  function Execute(wiki: Option<string>): (r: Response)
    ensures r.Error? <==> wiki.None? || !Contains(KeyExtraction.CleanText(wiki.value), Marker)
    ensures r.Error? ==> r.code == "bid_format_not_found"
    ensures r.Completed? ==> r.fileName == "投标文件.md" && r.stage == "bid_format_completed"
    ensures r.Completed? ==> StartsWith(r.content, Marker) && !Contains(r.content, "**")
    ensures r.Completed? ==> OneChapter(r.content)
  {
    ExcerptOneChapter(wiki);
    var text := LoadBidFormatText(wiki);
    if text == "" then Error("bid_format_not_found")
    else Completed("投标文件.md", text, "bid_format_completed")
  }

  // ---------------------------------------------------------------------
  // Helpers for the contract of LoadBidFormatText
  // ---------------------------------------------------------------------

  /** The excerpt cut before a chapter break starts with the marker and holds no "**". */
  lemma CutAtBreak(clean: string, start: nat, e: int)
    requires !Contains(clean, "**")
    requires OccursAt(clean, Marker, start)
    requires e >= start + 1 && ChapterBreakAt(clean, e)
    ensures StartsWith(RTrim(clean[start..e], IsSpace) + "\n", Marker)
    ensures !Contains(RTrim(clean[start..e], IsSpace) + "\n", "**")
  {
    MarkerBeforeBreak(clean, start, e);
    Slice(clean, start, e);
    var t := RTrim(clean[start..e], IsSpace);
    KeepMarker(clean[start..e], t);
    Slice(clean[start..e], 0, |t|);
    assert clean[start..e][0..|t|] == t;
    NewlineClean(t);
    assert (t + "\n")[..|Marker|] == t[..|Marker|];
  }

  /** The marker holds no line break, so a chapter break cannot start inside it. */
  lemma MarkerBeforeBreak(s: string, start: nat, e: int)
    requires OccursAt(s, Marker, start)
    requires e >= start + 1 && ChapterBreakAt(s, e)
    ensures e >= start + |Marker|
  {
    assert Marker[0] == '第' && Marker[1] == '五' && Marker[2] == '章' && Marker[3] == ' ';
    assert Marker[4] == '投' && Marker[5] == '标' && Marker[6] == '文' && Marker[7] == '件';
    assert Marker[8] == '格' && Marker[9] == '式';
  }

  /** A piece of a "**"-free text is "**"-free. */
  lemma Slice(s: string, a: nat, b: nat)
    requires a <= b <= |s|
    requires !Contains(s, "**")
    ensures !Contains(s[a..b], "**")
  {
    if Contains(s[a..b], "**") {
      var i := Find(s[a..b], "**");
      ContainsWitness(s[a..b], "**");
      assert |"**"| == 2 && a + i + 2 <= b && s[a..b][i..i + 2] == "**";
      assert s[a + i] == s[a..b][i] == '*' && s[a + i + 1] == s[a..b][i + 1] == '*';
      assert s[a + i..a + i + 2] == "**";
      ContainsAt(s, "**", a + i);
    }
  }

  /** Right-stripping a text that starts with the marker keeps the marker. */
  lemma KeepMarker(s: string, t: string)
    requires StartsWith(s, Marker)
    requires t == RTrim(s, IsSpace)
    ensures StartsWith(t, Marker)
  {
    var n := SuffixLen(s, IsSpace);
    assert s[|Marker| - 1] == '式';
    assert t == s[..|s| - n];
    assert |s| - n >= |Marker|;
    assert t[..|Marker|] == s[..|Marker|];
  }

  /** Appending a line break to a "**"-free text leaves it "**"-free. */
  lemma NewlineClean(t: string)
    requires !Contains(t, "**")
    ensures !Contains(t + "\n", "**")
  {
    var u := t + "\n";
    if Contains(u, "**") {
      ContainsWitness(u, "**");
      var i := Find(u, "**");
      assert u[i + 1] == u[i..i + 2][1] == '*';
      assert u[|t|] == '\n';
      assert t[i..i + 2] == u[i..i + 2];
      ContainsAt(t, "**", i);
    }
  }

  /**
   * A chapter break found in `t` is one in `s` as well, when `t` is the
   * piece of `s` at offset `d`, except that its last character may be a
   * line break standing for some whitespace character of `s`.
   */
  lemma BreakTransfer(s: string, t: string, d: nat, q: nat)
    requires d + |t| <= |s|
    requires forall k :: 0 <= k < |t| - 1 ==> t[k] == s[d + k]
    requires |t| > 0 ==> t[|t| - 1] == s[d + |t| - 1] || IsSpace(s[d + |t| - 1])
    requires ChapterBreakAt(t, q)
    ensures ChapterBreakAt(s, d + q)
  {
    var n := Skip(t, q + 2, KeyExtraction.IsChapterNumeral);
    forall k | d + q + 2 <= k < d + n
      ensures KeyExtraction.IsChapterNumeral(s[k])
    {
      assert s[k] == t[k - d];
    }
    assert t[n] == s[d + n];
    assert !KeyExtraction.IsChapterNumeral(s[d + n]);
    SkipExact(s, d + q + 2, d + n, KeyExtraction.IsChapterNumeral);
    assert IsSpace(s[d + n + 1]);
  }

  /** The excerpt cut before the first break after the marker holds no break. */
  lemma CutOneChapter(clean: string, start: nat, e: int)
    requires OccursAt(clean, Marker, start)
    requires e == FindBreak(clean, start + 1) && e >= 0
    ensures OneChapter(RTrim(clean[start..e], IsSpace) + "\n")
  {
    CutMirrors(clean, start, e);
    NoBreakIn(clean, RTrim(clean[start..e], IsSpace) + "\n", start, e);
  }

  /**
   * A piece `r` of `s` at offset `d` that opens with "第" holds no chapter
   * break when `s` has none from `d + 1` up to `e` and `r` ends by `e`.
   */
  lemma NoBreakIn(s: string, r: string, d: nat, e: nat)
    requires |r| > 0 && r[0] == '第' && d + |r| - 1 <= e <= |s|
    requires forall j :: d + 1 <= j < e ==> !ChapterBreakAt(s, j)
    requires forall k :: 0 <= k < |r| - 1 ==> r[k] == s[d + k]
    requires d + |r| - 1 < |s| && (r[|r| - 1] == s[d + |r| - 1] || IsSpace(s[d + |r| - 1]))
    ensures OneChapter(r)
  {
    forall q | 0 <= q < |r|
      ensures !ChapterBreakAt(r, q)
    {
      if ChapterBreakAt(r, q) {
        BreakTransfer(s, r, d, q);
      }
    }
  }

  /** The cut excerpt copies the text from `start` on, except its final line break, which stands for whitespace. */
  lemma CutMirrors(clean: string, start: nat, e: int)
    requires OccursAt(clean, Marker, start)
    requires e >= start + 1 && ChapterBreakAt(clean, e)
    ensures var r := RTrim(clean[start..e], IsSpace) + "\n";
      && r[0] == '第' && start + |r| - 1 <= e
      && (forall k :: 0 <= k < |r| - 1 ==> r[k] == clean[start + k])
      && IsSpace(clean[start + |r| - 1])
  {
    MarkerBeforeBreak(clean, start, e);
    var u := clean[start..e];
    var t := RTrim(u, IsSpace);
    KeepMarker(u, t);
    var r := t + "\n";
    assert r[0] == Marker[0] == '第';
    assert IsSpace(clean[start + |t|]) by {
      if |t| < |u| {
        assert IsSpace(u[|t|]);
      } else {
        assert clean[e] == '\n';
      }
    }
  }

  /** The excerpt that runs to the end of the text holds no break when none follows the marker. */
  lemma TailOneChapter(clean: string, start: nat)
    requires OccursAt(clean, Marker, start)
    requires FindBreak(clean, start + 1) == -1
    ensures OneChapter(clean[start..])
  {
    var r := clean[start..];
    assert r[0] == Marker[0] == '第';
    NoBreakIn(clean, r, start, |clean|);
  }
}
