/**
 * The document parser agent (backend/agents/document_parser.py): the
 * line-by-line section parser of plain-text uploads, the file-name filter,
 * and the handling of uploaded content before it is saved (the guard
 * against shell-command text and the base64 padding).
 */
module DocumentParser {
  import opened Wrappers
  import opened Text

  // ---------------------------------------------------------------------
  // _parse_txt
  // ---------------------------------------------------------------------

  /** A parsed section; the page is always "N/A" and there are never subsections. */
  datatype Section = Section(level: nat, title: string, content: string)

  /** A stripped line that opens a section. */
  predicate IsHeading(line: string) { StartsWith(line, "## ") || StartsWith(line, "# ") }

  /** The section a stripped heading line opens, with `content` so far. */
  function Open(line: string, content: string): Section
    requires IsHeading(line)
  {
    if StartsWith(line, "## ") then Section(2, line[3..], content) else Section(1, line[2..], content)
  }

  /** A "## " line opens a level-2 section and a "# " line a level-1 one, titled with the rest of the line. */
  lemma OpenShape(line: string, content: string)
    requires IsHeading(line)
    ensures StartsWith(line, "## ") ==> Open(line, content).level == 2 && line == "## " + Open(line, content).title
    ensures !StartsWith(line, "## ") ==> Open(line, content).level == 1 && line == "# " + Open(line, content).title
    ensures Open(line, content).content == content
  {
    if StartsWith(line, "## ") {
      assert line == line[..3] + line[3..];
    } else {
      assert line == line[..2] + line[2..];
    }
  }

  /** Each line stripped. */
  function StripAll(lines: seq<string>): (r: seq<string>)
    ensures |r| == |lines|
  {
    if lines == [] then [] else [Strip(lines[0])] + StripAll(lines[1..])
  }

  /** The k-th stripped line is the k-th line, stripped. */
  lemma {:induction false} StripAllAt(lines: seq<string>, k: nat)
    requires k < |lines|
    ensures StripAll(lines)[k] == Strip(lines[k])
  {
    if k > 0 {
      StripAllAt(lines[1..], k - 1);
    }
  }

  /** The text's lines, split at "\n" and each stripped. */
  function Lines(text: string): seq<string>
  {
    StripAll(SplitOn(text, "\n"))
  }

  /** The content gathered from the stripped lines up to the next heading: each non-empty line and "\n". */
  function Body(lines: seq<string>): string
  {
    if lines == [] || IsHeading(lines[0]) then ""
    else (if lines[0] != "" then lines[0] + "\n" else "") + Body(lines[1..])
  }

  /**
   * The sections of a text's stripped lines, as an independent definition:
   * one section per heading line, in order, holding the body that follows
   * it; lines before the first heading belong to no section.
   */
  function Sections(lines: seq<string>): seq<Section>
  {
    if lines == [] then []
    else if IsHeading(lines[0]) then [Open(lines[0], Body(lines[1..]))] + Sections(lines[1..])
    else Sections(lines[1..])
  }

  /** The heading lines, in order. */
  function HeadingLines(lines: seq<string>): (r: seq<string>)
    ensures forall k :: 0 <= k < |r| ==> IsHeading(r[k])
  {
    if lines == [] then []
    else (if IsHeading(lines[0]) then [lines[0]] else []) + HeadingLines(lines[1..])
  }

  /** Exactly one section per heading line, in document order, with that line's level and title. */
  lemma {:induction false} OnePerHeading(lines: seq<string>)
    ensures |Sections(lines)| == |HeadingLines(lines)|
    ensures forall k :: 0 <= k < |Sections(lines)| ==>
      Sections(lines)[k].level == Open(HeadingLines(lines)[k], "").level
      && Sections(lines)[k].title == Open(HeadingLines(lines)[k], "").title
  {
    if lines != [] {
      OnePerHeading(lines[1..]);
    }
  }

  /** The section under construction and the rest of the text: what the loop will still produce. */
  function Pending(current: Option<Section>, rest: seq<string>): seq<Section>
  {
    match current
    case None => Sections(rest)
    case Some(c) => [Section(c.level, c.title, c.content + Body(rest))] + Sections(rest)
  }

  /** A plain line extends the section under construction, when there is one and the line is not empty. */
  function Extend(current: Option<Section>, line: string): Option<Section>
  {
    match current
    case None => None
    case Some(c) => if line != "" then Some(Section(c.level, c.title, c.content + (line + "\n"))) else current
  }

  /** A heading line closes the section under construction and opens its own. */
  lemma PendingHeading(current: Option<Section>, rest: seq<string>)
    requires rest != [] && IsHeading(rest[0])
    ensures Pending(current, rest)
      == (if current.Some? then [current.value] else []) + Pending(Some(Open(rest[0], "")), rest[1..])
  {
    var o := Open(rest[0], "");
    assert Open(rest[0], Body(rest[1..])) == Section(o.level, o.title, "" + Body(rest[1..]));
    assert Sections(rest) == [Open(rest[0], Body(rest[1..]))] + Sections(rest[1..]);
    assert Body(rest) == "";
    if current.Some? {
      var c := current.value;
      assert Section(c.level, c.title, c.content + Body(rest)) == c;
    }
  }

  /** A plain line goes into the section under construction, or nowhere. */
  lemma PendingPlain(current: Option<Section>, rest: seq<string>)
    requires rest != [] && !IsHeading(rest[0])
    ensures Pending(current, rest) == Pending(Extend(current, rest[0]), rest[1..])
  {
    assert Sections(rest) == Sections(rest[1..]);
    assert Body(rest) == (if rest[0] != "" then rest[0] + "\n" else "") + Body(rest[1..]);
    if current.Some? {
      var c := current.value;
      if rest[0] != "" {
        assert c.content + Body(rest) == (c.content + (rest[0] + "\n")) + Body(rest[1..]);
      } else {
        assert c.content + Body(rest) == c.content + Body(rest[1..]);
      }
    }
  }

  /** The default section of a text without headings. */
  function Fallback(text: string): (s: Section)
    ensures s.level == 1 && s.title == "文档内容"
    ensures |text| <= 500 ==> s.content == text
    ensures |text| > 500 ==> s.content == text[..500] + "..." && |s.content| == 503
  {
    Section(1, "文档内容", if |text| > 500 then text[..500] + "..." else text)
  }

  /** At the end of the text the section under construction is all that is still produced. */
  lemma PendingEnd(current: Option<Section>)
    ensures Pending(current, []) == (if current.Some? then [current.value] else [])
  {
    if current.Some? {
      var c := current.value;
      assert c.content + Body([]) == c.content;
    }
  }

  /** What the loop keeps after one more stripped line: the closed sections and the one under construction. */
  function Closed(sections: seq<Section>, current: Option<Section>, line: string): seq<Section>
  {
    if IsHeading(line) && current.Some? then sections + [current.value] else sections
  }

  function Next(current: Option<Section>, line: string): Option<Section>
  {
    if IsHeading(line) then Some(Open(line, "")) else Extend(current, line)
  }

  /** One loop step keeps what has been and will be produced. */
  lemma Advance(sections: seq<Section>, current: Option<Section>, rest: seq<string>)
    requires rest != []
    ensures sections + Pending(current, rest)
      == Closed(sections, current, rest[0]) + Pending(Next(current, rest[0]), rest[1..])
  {
    if IsHeading(rest[0]) {
      AdvanceHeading(sections, current, rest);
    } else {
      PendingPlain(current, rest);
    }
  }

  lemma AdvanceHeading(sections: seq<Section>, current: Option<Section>, rest: seq<string>)
    requires rest != [] && IsHeading(rest[0])
    ensures sections + Pending(current, rest)
      == Closed(sections, current, rest[0]) + Pending(Some(Open(rest[0], "")), rest[1..])
  {
    PendingHeading(current, rest);
    if current.Some? {
      Shift(sections, current.value, Pending(current, rest), Pending(Some(Open(rest[0], "")), rest[1..]));
    }
  }

  /** Moving the head of the pending part over to the closed part. */
  lemma Shift<T>(closed: seq<T>, x: T, pending: seq<T>, later: seq<T>)
    requires pending == [x] + later
    ensures closed + pending == (closed + [x]) + later
  {
  }

  /** `_parse_txt` on the file's text: the sections, or the fallback section when there are none. */
  method ParseTxt(text: string) returns (sections: seq<Section>)
    ensures Sections(Lines(text)) != [] ==> sections == Sections(Lines(text))
    ensures Sections(Lines(text)) == [] ==> sections == [Fallback(text)]
  {
    var lines := SplitOn(text, "\n");
    sections := [];
    var current: Option<Section> := None;
    var i := 0;
    while i < |lines|
      invariant 0 <= i <= |lines|
      invariant sections + Pending(current, StripAll(lines[i..])) == Sections(Lines(text))
    {
      var line := Strip(lines[i]);
      assert lines[i..][0] == lines[i] && lines[i..][1..] == lines[i + 1..];
      Advance(sections, current, StripAll(lines[i..]));
      sections, current := Closed(sections, current, line), Next(current, line);
      i := i + 1;
    }
    PendingEnd(current);
    assert lines[i..] == [];
    assert StripAll(lines[i..]) == [];
    if current.Some? {
      sections := sections + [current.value];
    }
    assert sections == Sections(Lines(text));
    if sections == [] {
      sections := [Fallback(text)];
    }
  }

  // ---------------------------------------------------------------------
  // The file name the upload is saved under
  // ---------------------------------------------------------------------

  /**
   * Python's `str.isalnum()`, on ASCII letters and digits and the CJK
   * unified ideographs (U+4E00 to U+9FFF).
   */
  predicate IsAlnum(c: char)
  {
    'a' <= c <= 'z' || 'A' <= c <= 'Z' || '0' <= c <= '9' || '\U{4E00}' <= c <= '\U{9FFF}'
  }

  /** The characters a saved file name may hold. */
  predicate FileNameChar(c: char) { IsAlnum(c) || c == ' ' || c == '.' || c == '-' || c == '_' }

  /**
   * `safe_filename`: the upload's name without the characters outside
   * `FileNameChar`, right-stripped.  In particular it holds no path
   * separator, so the upload is saved inside the uploads directory.
   */
  function SafeFilename(name: string): (r: string)
    ensures |r| <= |name|
    ensures forall i :: 0 <= i < |r| ==> FileNameChar(r[i]) && r[i] in name
    ensures forall i :: 0 <= i < |r| ==> r[i] != '/' && r[i] != '\\'
    ensures r != "" ==> r[|r| - 1] != ' '
  {
    RTrim(Filter(name, FileNameChar), IsSpace)
  }

  /** A name made of allowed characters and not ending in a space is kept as it is. */
  lemma SafeFilenameKeeps(name: string)
    requires forall i :: 0 <= i < |name| ==> FileNameChar(name[i])
    requires name != "" ==> name[|name| - 1] != ' '
    ensures SafeFilename(name) == name
  {
    FilterAll(name, FileNameChar);
    if name != "" {
      assert !IsSpace(name[|name| - 1]);
    }
    assert SuffixLen(name, IsSpace) == 0;
  }

  /** Cleaning a name twice is cleaning it once. */
  lemma SafeFilenameIdempotent(name: string)
    ensures SafeFilename(SafeFilename(name)) == SafeFilename(name)
  {
    SafeFilenameKeeps(SafeFilename(name));
  }

  // ---------------------------------------------------------------------
  // The uploaded content
  // ---------------------------------------------------------------------

  /** Text of the form "$(...)", taken for a shell command rather than file content. */
  predicate IsShellCommand(content: string) { StartsWith(content, "$(") && EndsWith(content, ")") }

  /** The content padded with '=' to a length divisible by 4, as handed to the base64 decoder. */
  function Padded(content: string): (r: string)
    ensures |r| % 4 == 0
    ensures StartsWith(r, content) && |r| < |content| + 4
    ensures forall i :: |content| <= i < |r| ==> r[i] == '='
    ensures |content| % 4 == 0 <==> r == content
  {
    var padding := |content| % 4;
    if padding != 0 then content + "==="[..4 - padding] else content
  }

  /** Padding never turns content into something of the shell-command form. */
  lemma PaddedNotShell(content: string)
    requires !IsShellCommand(content)
    ensures !IsShellCommand(Padded(content))
  {
    var r := Padded(content);
    if r != content {
      assert r[|r| - 1..] == ['='];
    }
  }

  /**
   * What becomes of an upload: skipped, saved as the decoder's output, or
   * saved as raw text.  The decoder's output stands for the bytes written,
   * whether the file is binary or text.
   */
  datatype Saved = Skipped | Decoded(output: string) | Raw(text: string)

  /**
   * The upload handling as written: shell-command text is skipped; any
   * other content is padded, and when the decoder (`decode`, `None` for a
   * base64 or UTF-8 failure) rejects it, the PADDED content is saved as raw
   * text.
   */
  method SaveUploadAsWritten(content: string, decode: string -> Option<string>) returns (saved: Saved)
    ensures saved.Skipped? <==> IsShellCommand(content)
    ensures !IsShellCommand(content) && decode(Padded(content)).Some? ==> saved == Decoded(decode(Padded(content)).value)
    ensures !IsShellCommand(content) && decode(Padded(content)).None? ==> saved == Raw(Padded(content))
  {
    var fileContent := content;
    if !IsShellCommand(fileContent) {
      var padding := |fileContent| % 4;
      if padding != 0 {
        fileContent := fileContent + "==="[..4 - padding];
      }
      var decoded := decode(fileContent);
      if decoded.Some? {
        return Decoded(decoded.value);
      }
      PaddedNotShell(content);
    }
    if IsShellCommand(fileContent) {
      return Skipped;
    }
    return Raw(fileContent);
  }

  /**
   * Plain text that is no base64 and whose length is not a multiple of 4
   * is saved with one to three '=' appended: "招标", which the decoder
   * rejects as non-ASCII, is saved as "招标==".
   */
  lemma RawUploadGainsPadding(content: string)
    requires !IsShellCommand(content) && |content| % 4 != 0
    ensures Padded(content) != content && StartsWith(Padded(content), content)
    ensures Padded("招标") == "招标=="
  {
  }

  /**
   * The upload handling as intended: as above, except that content the
   * decoder rejects is saved as it was uploaded.
   */
  method SaveUpload(content: string, decode: string -> Option<string>) returns (saved: Saved)
    ensures saved.Skipped? <==> IsShellCommand(content)
    ensures !IsShellCommand(content) && decode(Padded(content)).Some? ==> saved == Decoded(decode(Padded(content)).value)
    ensures !IsShellCommand(content) && decode(Padded(content)).None? ==> saved == Raw(content)
  {
    if IsShellCommand(content) {
      return Skipped;
    }
    var fileContent := content;
    var padding := |fileContent| % 4;
    if padding != 0 {
      fileContent := fileContent + "==="[..4 - padding];
    }
    var decoded := decode(fileContent);
    if decoded.Some? {
      return Decoded(decoded.value);
    }
    return Raw(content);
  }
}
