/** The Word extractor: non-blank paragraphs become headings (by their
    style) or paragraphs of the current section, and every table with rows
    is appended after all paragraphs, under the section in force at the end. */
module DocExtractor {
  import opened Wrappers
  import opened Strings
  import opened Py
  import opened Document
  import opened ContentErrors

  /** A paragraph as the Word reader sees it: its text and its style's name. */
  datatype Para = Para(text: string, style: string)

  /** The core properties; `created` and `modified` are already rendered by
      `str()` (date formatting is not modelled). */
  datatype CoreProps = CoreProps(
    author: Option<string>, created: Option<string>, modified: Option<string>,
    title: Option<string>, subject: Option<string>, keywords: Option<string>)

  /** An opened document: paragraphs, the number of sections, the tables as
      rows of cell texts, and the core properties if the reader finds any. */
  datatype WordDoc = WordDoc(paragraphs: seq<Para>, sectionCount: nat, tables: seq<seq<seq<string>>>,
                             core: Option<CoreProps>)

  /** A heading's level: the style name's last character when it is a digit, else 1. */
  function StyleLevel(style: string): (level: int)
    requires style != ""
    ensures 0 <= level <= 9
    ensures !IsDigit(style[|style| - 1]) ==> level == 1
  {
    var c := style[|style| - 1];
    if IsDigit(c) then c as int - '0' as int else 1
  }

  /** "Heading 3" is a level-3 heading; a bare "Heading" is level 1. */
  lemma StyleLevels(d: nat)
    requires d <= 9
    ensures StyleLevel("Heading " + [DigitChar(d)]) == d
    ensures StyleLevel("Heading") == 1
  {
  }

  predicate IsHeadingStyle(style: string) {
    StartsWith(style, "Heading")
  }

  /** The entry of one paragraph: none when blank, a heading named by its
      text, or a paragraph of the current section (the untitled one before
      any heading). */
  function ParaEntry(p: Para, section: Option<string>): (r: Option<Entry>)
    ensures r.None? <==> IsBlank(p.text)
    ensures r.Some? ==> r.value.page.None? && (r.value.body.Heading? || r.value.body.Paragraph?)
    ensures r.Some? ==> (r.value.body.Heading? <==> IsHeadingStyle(p.style))
    ensures r.Some? && r.value.body.Heading? ==> r.value.section == Trim(p.text)
    ensures r.Some? && r.value.body.Paragraph? ==> r.value.section == section.GetOr(Untitled) && r.value.body.text == Trim(p.text)
  {
    var text := Trim(p.text);
    if text == "" then None
    else if IsHeadingStyle(p.style) then Some(Entry(text, Heading(StyleLevel(p.style)), None))
    else Some(Entry(section.GetOr(Untitled), Paragraph(text), None))
  }

  /** The entries of the paragraphs, the current section being `section`
      (`None` before any heading). */
  function ParaEntries(ps: seq<Para>, section: Option<string>): (r: seq<Entry>)
    requires section.Some? ==> section.value != ""
    ensures |r| <= |ps|
    ensures forall i :: 0 <= i < |r| ==> (r[i].body.Heading? || r[i].body.Paragraph?) && r[i].page.None?
    decreases |ps|
  {
    if |ps| == 0 then []
    else
      var rest := ParaEntries(ps[1..], NextSection(ps[0], section));
      match ParaEntry(ps[0], section)
      case None => rest
      case Some(e) =>
        var r := [e] + rest;
        assert forall i :: 1 <= i < |r| ==> r[i] == rest[i - 1];
        r
  }

  /** The section after one paragraph: its text if it is a non-blank heading. */
  function NextSection(p: Para, section: Option<string>): (r: Option<string>)
    requires section.Some? ==> section.value != ""
    ensures r.Some? ==> r.value != ""
  {
    var text := Trim(p.text);
    if text != "" && IsHeadingStyle(p.style) then Some(text) else section
  }

  function SectionAfter(ps: seq<Para>, section: Option<string>): (r: Option<string>)
    requires section.Some? ==> section.value != ""
    ensures r.Some? ==> r.value != ""
    decreases |ps|
  {
    if |ps| == 0 then section else SectionAfter(ps[1..], NextSection(ps[0], section))
  }

  function TrimCells(cells: seq<string>): (r: seq<string>)
    ensures |r| == |cells|
    ensures forall i :: 0 <= i < |cells| ==> r[i] == Trim(cells[i])
  {
    if |cells| == 0 then [] else [Trim(cells[0])] + TrimCells(cells[1..])
  }

  function TrimRows(rows: seq<seq<string>>): (r: seq<seq<string>>)
    ensures |r| == |rows|
    ensures forall i :: 0 <= i < |rows| ==> r[i] == TrimCells(rows[i])
  {
    if |rows| == 0 then [] else [TrimCells(rows[0])] + TrimRows(rows[1..])
  }

  /** The table entries: one per table with at least one row, its cells
      trimmed, all under the same section. */
  function TableEntries(tables: seq<seq<seq<string>>>, section: string): (r: seq<Entry>)
    ensures |r| <= |tables|
    ensures forall i :: 0 <= i < |r| ==> r[i].section == section && r[i].body.Table? && r[i].body.rows != [] && r[i].page.None?
  {
    if |tables| == 0 then []
    else
      var rest := TableEntries(tables[1..], section);
      if tables[0] == [] then rest
      else
        var r := [Entry(section, Table(TrimRows(tables[0])), None)] + rest;
        assert forall i :: 1 <= i < |r| ==> r[i] == rest[i - 1];
        r
  }

  /** `_extract_content`: the paragraph entries, then the table entries. */
  function ExtractContent(doc: WordDoc): (r: seq<Entry>)
    ensures forall i, j :: 0 <= i < j < |r| && r[i].body.Table? ==> r[j].body.Table?
  {
    var paras := ParaEntries(doc.paragraphs, None);
    var tables := TableEntries(doc.tables, SectionAfter(doc.paragraphs, None).GetOr(Untitled));
    paras + tables
  }

  /** The entries of paragraphs follow the headings, a paragraph before any
      heading landing in the untitled section. */
  lemma {:induction false} ParaSections(ps: seq<Para>, section: Option<string>)
    requires section.Some? ==> section.value != ""
    ensures SectionsFollowHeadings(ParaEntries(ps, section), section.GetOr(Untitled))
    decreases |ps|
  {
    if |ps| > 0 {
      var next := NextSection(ps[0], section);
      ParaSections(ps[1..], next);
    }
  }

  /** Following the headings over a sequence laid end to end. */
  lemma {:induction false} SectionsAppend(a: seq<Entry>, b: seq<Entry>, section: string, last: string)
    requires SectionsFollowHeadings(a, section)
    requires LastSection(a, section) == last && SectionsFollowHeadings(b, last)
    ensures SectionsFollowHeadings(a + b, section)
    decreases |a|
  {
    if |a| == 0 {
      assert a + b == b;
    } else {
      assert (a + b)[0] == a[0] && (a + b)[1..] == a[1..] + b;
      SectionsAppend(a[1..], b, if a[0].body.Heading? then a[0].section else section, last);
    }
  }

  /** The section the last heading of `es` opened, or `section` if none. */
  function LastSection(es: seq<Entry>, section: string): string
    decreases |es|
  {
    if |es| == 0 then section else LastSection(es[1..], if es[0].body.Heading? then es[0].section else section)
  }

  lemma {:induction false} ParaLastSection(ps: seq<Para>, section: Option<string>)
    requires section.Some? ==> section.value != ""
    ensures LastSection(ParaEntries(ps, section), section.GetOr(Untitled)) == SectionAfter(ps, section).GetOr(Untitled)
    decreases |ps|
  {
    if |ps| > 0 {
      ParaLastSection(ps[1..], NextSection(ps[0], section));
    }
  }

  lemma {:induction false} TableSections(tables: seq<seq<seq<string>>>, section: string)
    ensures SectionsFollowHeadings(TableEntries(tables, section), section)
    decreases |tables|
  {
    if |tables| > 0 {
      TableSections(tables[1..], section);
    }
  }

  /** Tables included, every entry of a Word document belongs to the section
      of the latest heading before it, or to the untitled section. */
  lemma ContentSections(doc: WordDoc)
    ensures SectionsFollowHeadings(ExtractContent(doc), Untitled)
  {
    var paras := ParaEntries(doc.paragraphs, None);
    var last := SectionAfter(doc.paragraphs, None).GetOr(Untitled);
    ParaSections(doc.paragraphs, None);
    ParaLastSection(doc.paragraphs, None);
    TableSections(doc.tables, last);
    SectionsAppend(paras, TableEntries(doc.tables, last), Untitled, last);
  }

  /** Blank paragraphs are dropped and no other: there are as many
      paragraph and heading entries as non-blank paragraphs. */
  lemma {:induction false} ParaCount(ps: seq<Para>, section: Option<string>)
    requires section.Some? ==> section.value != ""
    ensures |ParaEntries(ps, section)| == |NonBlankParas(ps)|
    decreases |ps|
  {
    if |ps| > 0 {
      ParaCount(ps[1..], NextSection(ps[0], section));
    }
  }

  function NonBlankParas(ps: seq<Para>): (r: seq<Para>)
    ensures |r| <= |ps|
  {
    if |ps| == 0 then []
    else if Trim(ps[0].text) == "" then NonBlankParas(ps[1..])
    else [ps[0]] + NonBlankParas(ps[1..])
  }

  /** `_extract_metadata`: author, dates and counts first; with core
      properties, these are overwritten in place and title, subject and
      keywords appended. */
  function Metadata(doc: WordDoc): (r: seq<(string, Value)>)
    ensures doc.core.None? ==> Keys(r) == ["author", "created", "modified", "paragraph_count", "section_count"]
    ensures doc.core.Some? ==>
      Keys(r) == ["author", "created", "modified", "paragraph_count", "section_count", "title", "subject", "keywords"]
    ensures r[3] == ("paragraph_count", PInt(|doc.paragraphs|)) && r[4] == ("section_count", PInt(doc.sectionCount))
    ensures doc.core.None? ==> r[0].1 == PStr("") && r[1].1 == PStr("") && r[2].1 == PStr("")
    ensures doc.core.Some? ==> r[0].1 == PStr(doc.core.value.author.GetOr("")) && r[5].1 == PStr(doc.core.value.title.GetOr(""))
    ensures doc.core.Some? ==>
      r[1].1 == PStr(doc.core.value.created.GetOr("")) && r[2].1 == PStr(doc.core.value.modified.GetOr(""))
      && r[6].1 == PStr(doc.core.value.subject.GetOr("")) && r[7].1 == PStr(doc.core.value.keywords.GetOr(""))
  {
    match doc.core
    case None =>
      [("author", PStr("")), ("created", PStr("")), ("modified", PStr("")),
       ("paragraph_count", PInt(|doc.paragraphs|)), ("section_count", PInt(doc.sectionCount))]
    case Some(c) =>
      var r := [("author", PStr(c.author.GetOr(""))), ("created", PStr(c.created.GetOr(""))),
                ("modified", PStr(c.modified.GetOr(""))), ("paragraph_count", PInt(|doc.paragraphs|)),
                ("section_count", PInt(doc.sectionCount)), ("title", PStr(c.title.GetOr(""))),
                ("subject", PStr(c.subject.GetOr(""))), ("keywords", PStr(c.keywords.GetOr("")))];
      r
  }

  /** The title: the core title (empty when unset) if there are core
      properties, else the file's base name. */
  function Title(path: string, doc: WordDoc): (t: string)
    ensures doc.core.Some? ==> t == doc.core.value.title.GetOr("")
    ensures doc.core.None? ==> t == AfterLast(path, '/')
  {
    match doc.core
    case Some(c) => c.title.GetOr("")
    case None => AfterLast(path, '/')
  }

  /** The title is what `metadata.get("title", basename)` finds. */
  lemma TitleFromMetadata(path: string, doc: WordDoc)
    ensures GetOr(Metadata(doc), "title", PStr(AfterLast(path, '/'))) == PStr(Title(path, doc))
  {
    var m := Metadata(doc);
    if doc.core.Some? {
      assert m[..5][4].0 == "section_count";
      assert "title" !in Keys(m[..5]);
      assert m[5..][0] == ("title", PStr(Title(path, doc)));
      assert m == m[..5] + m[5..];
      LookupAppend(m[..5], m[5..], "title");
    }
  }

  const Caution := "Word文档可能包含图片、表格和格式化内容，当前仅提取文本内容"
  const Wrap := "Word文档处理失败: "

  /** `extract`: the opened document, or the reader's failure message; every
      failure, the empty-content one included, is wrapped as no valid content. */
  function Extract(path: string, reading: Result<WordDoc, string>): (r: Result<Doc, ContentError>)
    ensures reading.Failure? ==> r == Failure(NoValidContent(Wrap + reading.error))
    ensures reading.Success? && ExtractContent(reading.value) == [] ==>
      r == Failure(NoValidContent(Wrap + "无法从Word文档中提取有效内容"))
    ensures r.Success? <==> reading.Success? && ExtractContent(reading.value) != []
    ensures r.Success? ==> r.value == Doc("file", Title(path, reading.value), Metadata(reading.value),
                                          ExtractContent(reading.value), [], Some(Caution))
  {
    FileDoc(Wrap, "无法从Word文档中提取有效内容", Caution,
            match reading
            case Failure(m) => Failure(m)
            case Success(doc) => Success(Reading(Title(path, doc), Metadata(doc), ExtractContent(doc))))
  }

  /** A document with only blank paragraphs and row-less tables is refused. */
  lemma {:induction false} BlankDocumentRefused(path: string, doc: WordDoc)
    requires forall i :: 0 <= i < |doc.paragraphs| ==> IsBlank(doc.paragraphs[i].text)
    requires forall i :: 0 <= i < |doc.tables| ==> doc.tables[i] == []
    ensures Extract(path, Success(doc)) == Failure(NoValidContent(Wrap + "无法从Word文档中提取有效内容"))
  {
    NoParaEntries(doc.paragraphs, None);
    NoTableEntries(doc.tables, SectionAfter(doc.paragraphs, None).GetOr(Untitled));
  }

  lemma {:induction false} NoParaEntries(ps: seq<Para>, section: Option<string>)
    requires section.Some? ==> section.value != ""
    requires forall i :: 0 <= i < |ps| ==> IsBlank(ps[i].text)
    ensures ParaEntries(ps, section) == []
    decreases |ps|
  {
    if |ps| > 0 {
      assert IsBlank(ps[0].text);
      NoParaEntries(ps[1..], NextSection(ps[0], section));
    }
  }

  lemma {:induction false} NoTableEntries(tables: seq<seq<seq<string>>>, section: string)
    requires forall i :: 0 <= i < |tables| ==> tables[i] == []
    ensures TableEntries(tables, section) == []
    decreases |tables|
  {
    if |tables| > 0 {
      NoTableEntries(tables[1..], section);
    }
  }
}
