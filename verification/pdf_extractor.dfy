/** The PDF extractor: every page with non-blank text becomes one paragraph
    entry named after its page number; the document information supplies
    the metadata. */
module PdfExtractor {
  import opened Wrappers
  import opened Strings
  import opened Py
  import opened Document
  import opened ContentErrors

  /** An opened PDF: the text of each page, and the document information
      dictionary when there is one. */
  datatype PdfDoc = PdfDoc(pages: seq<string>, info: Option<seq<(string, string)>>)

  /** `info.get(key, "")`: the value under the first occurrence of `key`. */
  function InfoGet(info: seq<(string, string)>, key: string): (r: string)
    ensures (forall i :: 0 <= i < |info| ==> info[i].0 != key) ==> r == ""
    ensures |info| > 0 && info[0].0 == key ==> r == info[0].1
  {
    if |info| == 0 then ""
    else if info[0].0 == key then info[0].1
    else InfoGet(info[1..], key)
  }

  /** The section name of page `n`: "第n页". */
  function PageName(n: nat): (r: string)
    ensures |r| >= 3 && r[0] == '第' && r[|r| - 1] == '页'
  {
    "第" + NatToString(n) + "页"
  }

  /** Different pages have different section names. */
  lemma PageNamesDistinct(a: nat, b: nat)
    ensures PageName(a) == PageName(b) <==> a == b
  {
    if PageName(a) == PageName(b) {
      var x := NatToString(a);
      var y := NatToString(b);
      assert x == PageName(a)[1..|PageName(a)| - 1];
      assert y == PageName(b)[1..|PageName(b)| - 1];
      NatToStringRoundTrip(a);
      NatToStringRoundTrip(b);
    }
  }

  /** The entry of page number `n` with text `text`. */
  function PageEntry(text: string, n: nat): (e: Entry)
    ensures e.page == Some(n) && e.section == PageName(n)
  {
    Entry(PageName(n), Paragraph(text), Some(n))
  }

  /** Page number `n`'s contribution: its entry, unless its text is blank. */
  function PageOption(text: string, n: nat): (o: Option<Entry>)
    ensures o.Some? <==> !IsBlank(text)
    ensures o.Some? ==> o.value == PageEntry(text, n)
  {
    if IsBlank(text) then None else Some(PageEntry(text, n))
  }

  /** What each page contributes, the page at index `j` being number `j + 1`. */
  function PageOptions(pages: seq<string>): (os: seq<Option<Entry>>)
    ensures |os| == |pages| && forall j :: 0 <= j < |pages| ==> os[j] == PageOption(pages[j], j + 1)
  {
    seq(|pages|, j requires 0 <= j < |pages| => PageOption(pages[j], j + 1))
  }

  /** `_extract_content`: the entries of the non-blank pages, in page order,
      numbered from 1. */
  function ExtractContent(doc: PdfDoc): (r: seq<Entry>)
    ensures |r| <= |doc.pages|
  {
    Somes(PageOptions(doc.pages))
  }

  /** Each entry holds its page's text as extracted (not trimmed), and that
      text is not blank. */
  lemma PagesHoldText(doc: PdfDoc)
    ensures forall e :: e in ExtractContent(doc) ==>
      e.page.Some? && 0 < e.page.value <= |doc.pages|
      && e == PageEntry(doc.pages[e.page.value - 1], e.page.value) && !IsBlank(doc.pages[e.page.value - 1])
  {
    var os := PageOptions(doc.pages);
    SomesFrom(os);
    forall e | e in ExtractContent(doc)
      ensures e.page.Some? && 0 < e.page.value <= |doc.pages|
      ensures e == PageEntry(doc.pages[e.page.value - 1], e.page.value) && !IsBlank(doc.pages[e.page.value - 1])
    {
      var j :| 0 <= j < |os| && os[j] == Some(e);
    }
  }

  /** Every entry is numbered, and the numbers strictly increase. */
  predicate Ascending(r: seq<Entry>) {
    forall i, j :: 0 <= i < j < |r| ==> r[i].page.Some? && r[j].page.Some? && r[i].page.value < r[j].page.value
  }

  function PageKey(e: Entry): int {
    if e.page.Some? then e.page.value else 0
  }

  /** Page numbers strictly increase along the entries. */
  lemma PagesAscend(doc: PdfDoc)
    ensures Ascending(ExtractContent(doc))
  {
    var os, r := PageOptions(doc.pages), ExtractContent(doc);
    SomesAscend(os, PageKey);
    PagesHoldText(doc);
    assert forall i :: 0 <= i < |r| ==> r[i] in r;
  }

  /** The page numbers of a run of entries. */
  function PagesOf(es: seq<Entry>): (r: seq<Option<nat>>)
    ensures |r| == |es| && forall i :: 0 <= i < |es| ==> r[i] == es[i].page
  {
    seq(|es|, i requires 0 <= i < |es| => es[i].page)
  }

  /** Page `j + 1` has an entry exactly when its text is not blank. */
  lemma NonBlankPagesKept(doc: PdfDoc, j: nat)
    requires j < |doc.pages|
    ensures Some(j + 1) in PagesOf(ExtractContent(doc)) <==> !IsBlank(doc.pages[j])
  {
    if !IsBlank(doc.pages[j]) {
      NonBlankPageListed(doc, j);
    }
    if Some(j + 1) in PagesOf(ExtractContent(doc)) {
      ListedPageNotBlank(doc, j);
    }
  }

  lemma NonBlankPageListed(doc: PdfDoc, j: nat)
    requires j < |doc.pages| && !IsBlank(doc.pages[j])
    ensures Some(j + 1) in PagesOf(ExtractContent(doc))
  {
    var os, r := PageOptions(doc.pages), ExtractContent(doc);
    SomesKeep(os);
    assert os[j].value in r;
    var i :| 0 <= i < |r| && r[i] == os[j].value;
    assert PagesOf(r)[i] == Some(j + 1);
  }

  lemma ListedPageNotBlank(doc: PdfDoc, j: nat)
    requires j < |doc.pages| && Some(j + 1) in PagesOf(ExtractContent(doc))
    ensures !IsBlank(doc.pages[j])
  {
    var r := ExtractContent(doc);
    var ps := PagesOf(r);
    var i :| 0 <= i < |ps| && ps[i] == Some(j + 1);
    PagesHoldText(doc);
    assert r[i] in r;
  }

  /** No entry comes out exactly when every page is blank. */
  lemma NothingIffAllBlank(doc: PdfDoc)
    ensures ExtractContent(doc) == [] <==> forall k :: 0 <= k < |doc.pages| ==> IsBlank(doc.pages[k])
  {
    SomesFrom(PageOptions(doc.pages));
  }

  /** `_extract_metadata`: empty without (or with empty) document
      information, otherwise the five text fields and the page count. */
  function Metadata(doc: PdfDoc): (r: seq<(string, Value)>)
    ensures doc.info.None? || doc.info.value == [] ==> r == []
    ensures doc.info.Some? && doc.info.value != [] ==>
      Keys(r) == ["author", "creator", "producer", "subject", "title", "page_count"]
      && r[5] == ("page_count", PInt(|doc.pages|))
  {
    match doc.info
    case None => []
    case Some(info) =>
      if info == [] then []
      else
        var author, creator, producer := InfoGet(info, "/Author"), InfoGet(info, "/Creator"), InfoGet(info, "/Producer");
        var subject, title := InfoGet(info, "/Subject"), InfoGet(info, "/Title");
        [("author", PStr(author)), ("creator", PStr(creator)), ("producer", PStr(producer)),
         ("subject", PStr(subject)), ("title", PStr(title)), ("page_count", PInt(|doc.pages|))]
  }

  /** The title: the information's `/Title` (empty when missing) if there is
      any information, else the file's base name. */
  function Title(path: string, doc: PdfDoc): (t: string)
    ensures doc.info.None? || doc.info.value == [] ==> t == AfterLast(path, '/')
    ensures doc.info.Some? && doc.info.value != [] ==> t == InfoGet(doc.info.value, "/Title")
  {
    if doc.info.None? || doc.info.value == [] then AfterLast(path, '/') else InfoGet(doc.info.value, "/Title")
  }

  /** The title is what `metadata.get("title", basename)` finds. */
  lemma TitleFromMetadata(path: string, doc: PdfDoc)
    ensures GetOr(Metadata(doc), "title", PStr(AfterLast(path, '/'))) == PStr(Title(path, doc))
  {
    var m := Metadata(doc);
    if doc.info.Some? && doc.info.value != [] {
      assert "title" !in Keys(m[..4]);
      assert m[4..][0] == ("title", PStr(Title(path, doc)));
      assert m == m[..4] + m[4..];
      LookupAppend(m[..4], m[4..], "title");
    }
  }

  const Caution := "PDF文件可能包含图片和表格，当前仅提取文本内容"
  const Wrap := "PDF处理失败: "

  /** `extract`: the opened PDF, or the reader's failure message; every
      failure, the empty-content one included, is wrapped as no valid content. */
  function Extract(path: string, reading: Result<PdfDoc, string>): (r: Result<Doc, ContentError>)
    ensures reading.Failure? ==> r == Failure(NoValidContent(Wrap + reading.error))
    ensures reading.Success? && ExtractContent(reading.value) == [] ==>
      r == Failure(NoValidContent(Wrap + "无法从PDF中提取有效内容"))
    ensures r.Success? <==> reading.Success? && ExtractContent(reading.value) != []
    ensures r.Success? ==> r.value == Doc("file", Title(path, reading.value), Metadata(reading.value),
                                          ExtractContent(reading.value), [], Some(Caution))
  {
    FileDoc(Wrap, "无法从PDF中提取有效内容", Caution,
            match reading
            case Failure(m) => Failure(m)
            case Success(doc) => Success(Reading(Title(path, doc), Metadata(doc), ExtractContent(doc))))
  }

  /** A PDF whose pages are all blank is refused. */
  lemma BlankPdfRefused(path: string, doc: PdfDoc)
    requires forall k :: 0 <= k < |doc.pages| ==> IsBlank(doc.pages[k])
    ensures Extract(path, Success(doc)) == Failure(NoValidContent(Wrap + "无法从PDF中提取有效内容"))
  {
    NothingIffAllBlank(doc);
  }
}
