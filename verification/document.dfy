/** The record every extractor returns: a source type, a title, metadata,
    the structured content entries, key points and a caution, together with
    its rendering as the Python dictionary the web layer serialises. */
module Document {
  import opened Wrappers
  import opened Py
  import opened ContentErrors

  /** The section name used before any heading has been seen. */
  const Untitled := "未命名章节"

  /** The kinds of list the plain-text extractor recognises. */
  datatype ListType = Number | Alpha | AlphaUpper | Chinese | Bullet | Symbol

  function ListTypeName(t: ListType): (r: string)
    ensures r != "" && r != "unknown"
  {
    match t
    case Number => "number"
    case Alpha => "alpha"
    case AlphaUpper => "alpha_upper"
    case Chinese => "chinese"
    case Bullet => "bullet"
    case Symbol => "symbol"
  }

  /** Distinct list types have distinct names. */
  lemma ListTypeNamesDistinct(a: ListType, b: ListType)
    ensures ListTypeName(a) == ListTypeName(b) <==> a == b
  {
  }

  datatype ListItem = ListItem(text: string, kind: ListType)

  /** What an entry holds: a heading of some level, a paragraph of text, the
      items of a list with the list's type, or the rows of a table. */
  datatype Body =
    | Heading(level: int)
    | Paragraph(text: string)
    | ListBlock(items: seq<ListItem>, listType: ListType)
    | Table(rows: seq<seq<string>>)

  /** One content entry: the section it belongs to, its body, and the page
      it came from when the source has pages. */
  datatype Entry = Entry(section: string, body: Body, page: Option<nat>)

  datatype Doc = Doc(
    sourceType: string,
    title: string,
    metadata: seq<(string, Value)>,
    content: seq<Entry>,
    keyPoints: seq<string>,
    cautions: Option<string>)

  /** What a file extractor read from an opened file: its title, metadata
      and content entries. */
  datatype Reading = Reading(title: string, metadata: seq<(string, Value)>, content: seq<Entry>)

  /** The common end of the PDF and Word `extract`: a reader failure, and
      content with no entry, become no valid content under the extractor's
      prefix; otherwise a file document with no key points and the
      extractor's caution. */
  function FileDoc(wrap: string, emptyMessage: string, caution: string, read: Result<Reading, string>)
    : (r: Result<Doc, ContentError>)
    ensures read.Failure? ==> r == Failure(NoValidContent(wrap + read.error))
    ensures read.Success? && read.value.content == [] ==> r == Failure(NoValidContent(wrap + emptyMessage))
    ensures r.Success? <==> read.Success? && read.value.content != []
    ensures r.Success? ==>
      r.value == Doc("file", read.value.title, read.value.metadata, read.value.content, [], Some(caution))
  {
    match read
    case Failure(m) => Failure(NoValidContent(wrap + m))
    case Success(x) =>
      if x.content == [] then Failure(NoValidContent(wrap + emptyMessage))
      else Success(Doc("file", x.title, x.metadata, x.content, [], Some(caution)))
  }

  function ItemToPy(item: ListItem): (v: Value)
    ensures v.PDict? && Keys(v.entries) == ["text", "type"]
  {
    PDict([("text", PStr(item.text)), ("type", PStr(ListTypeName(item.kind)))])
  }

  function ItemsToPy(items: seq<ListItem>): (v: seq<Value>)
    ensures |v| == |items|
    ensures forall i :: 0 <= i < |items| ==> v[i] == ItemToPy(items[i])
  {
    if |items| == 0 then [] else [ItemToPy(items[0])] + ItemsToPy(items[1..])
  }

  function StringsToPy(ss: seq<string>): (v: seq<Value>)
    ensures |v| == |ss|
    ensures forall i :: 0 <= i < |ss| ==> v[i] == PStr(ss[i])
  {
    if |ss| == 0 then [] else [PStr(ss[0])] + StringsToPy(ss[1..])
  }

  function RowsToPy(rows: seq<seq<string>>): (v: seq<Value>)
    ensures |v| == |rows|
    ensures forall i :: 0 <= i < |rows| ==> v[i] == PList(StringsToPy(rows[i]))
  {
    if |rows| == 0 then [] else [PList(StringsToPy(rows[0]))] + RowsToPy(rows[1..])
  }

  /** The name stored under `content_type`. */
  function ContentType(b: Body): string {
    match b
    case Heading(_) => "heading"
    case Paragraph(_) => "paragraph"
    case ListBlock(_, _) => "list"
    case Table(_) => "table"
  }

  /** The value stored under `text`: empty for a heading, the items as
      `{'text', 'type'}` dictionaries for a list, the rows for a table. */
  function BodyText(b: Body): Value {
    match b
    case Heading(_) => PStr("")
    case Paragraph(t) => PStr(t)
    case ListBlock(items, _) => PList(ItemsToPy(items))
    case Table(rows) => PList(RowsToPy(rows))
  }

  /** The three fields every entry dictionary starts with. */
  function CommonFields(e: Entry): (r: seq<(string, Value)>)
    ensures Keys(r) == ["section_title", "text", "content_type"]
  {
    [("section_title", PStr(e.section)), ("text", BodyText(e.body)), ("content_type", PStr(ContentType(e.body)))]
  }

  /** The field that follows them: a heading's level, a list's type, or a
      paragraph's page number when it has one. */
  function ExtraFields(e: Entry): seq<(string, Value)> {
    match e.body
    case Heading(level) => [("level", PInt(level))]
    case ListBlock(_, t) => [("list_type", PStr(ListTypeName(t)))]
    case _ => if e.page.Some? then [("page_number", PInt(e.page.value))] else []
  }

  /** The dictionary an extractor appends for one entry. */
  function EntryToPy(e: Entry): (v: Value)
    ensures v.PDict? && |v.entries| >= 3
    ensures Keys(v.entries)[..3] == ["section_title", "text", "content_type"]
  {
    var common := CommonFields(e);
    assert Keys(common + ExtraFields(e))[..3] == Keys(common);
    PDict(common + ExtraFields(e))
  }

  function EntriesToPy(es: seq<Entry>): (v: seq<Value>)
    ensures |v| == |es|
    ensures forall i :: 0 <= i < |es| ==> v[i] == EntryToPy(es[i])
  {
    if |es| == 0 then [] else [EntryToPy(es[0])] + EntriesToPy(es[1..])
  }

  /** The dictionary an extractor returns. */
  function ToPy(d: Doc): (v: Value)
    ensures v.PDict? && Keys(v.entries) == ["source_type", "title", "metadata", "content", "key_points", "cautions"]
  {
    PDict([("source_type", PStr(d.sourceType)), ("title", PStr(d.title)), ("metadata", PDict(d.metadata)),
           ("content", PList(EntriesToPy(d.content))), ("key_points", PList(StringsToPy(d.keyPoints))),
           ("cautions", OfOption(d.cautions))])
  }

  /** Every entry dictionary carries its section, text and content type;
      a heading also carries its level and a list its type. */
  lemma EntryShape(e: Entry)
    ensures var v := EntryToPy(e);
      Lookup(v.entries, "section_title") == Some(PStr(e.section))
      && Lookup(v.entries, "content_type") == Some(PStr(ContentType(e.body)))
      && Lookup(v.entries, "text") == Some(BodyText(e.body))
      && (e.body.Heading? ==> Lookup(v.entries, "level") == Some(PInt(e.body.level)))
      && (e.body.ListBlock? ==> Lookup(v.entries, "list_type") == Some(PStr(ListTypeName(e.body.listType))))
  {
    LookupFirst(e);
    LookupSecond(e);
    LookupThird(e);
    LookupExtra(e, "level");
    LookupExtra(e, "list_type");
  }

  lemma LookupFirst(e: Entry)
    ensures Lookup(EntryToPy(e).entries, "section_title") == Some(PStr(e.section))
  {
    LookupAppend(CommonFields(e), ExtraFields(e), "section_title");
  }

  lemma LookupSecond(e: Entry)
    ensures Lookup(EntryToPy(e).entries, "text") == Some(BodyText(e.body))
  {
    var common := CommonFields(e);
    assert common[1..] == [("text", BodyText(e.body)), ("content_type", PStr(ContentType(e.body)))];
    LookupAppend(common, ExtraFields(e), "text");
  }

  lemma LookupThird(e: Entry)
    ensures Lookup(EntryToPy(e).entries, "content_type") == Some(PStr(ContentType(e.body)))
  {
    var common := CommonFields(e);
    var tail := [("content_type", PStr(ContentType(e.body)))];
    assert common[1..][1..] == tail;
    assert Lookup(common[1..], "content_type") == Lookup(tail, "content_type");
    LookupAppend(common, ExtraFields(e), "content_type");
  }

  lemma LookupExtra(e: Entry, key: string)
    requires key !in Keys(CommonFields(e))
    ensures Lookup(EntryToPy(e).entries, key) == Lookup(ExtraFields(e), key)
  {
    LookupAppend(CommonFields(e), ExtraFields(e), key);
  }

  /** Every heading opens a section; every other entry belongs to the
      section of the latest heading before it, or to `section` when there is
      none. */
  predicate SectionsFollowHeadings(es: seq<Entry>, section: string)
    decreases |es|
  {
    |es| == 0 ||
    (if es[0].body.Heading? then SectionsFollowHeadings(es[1..], es[0].section)
     else es[0].section == section && SectionsFollowHeadings(es[1..], section))
  }
}
