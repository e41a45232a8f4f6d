/** The podcast script generator: the guard on its input, the choices that
    shape the prompt (language branch, length instruction, cast, preview and
    introduction rules), the serialisation of extracted content into the
    text the language model reads, and the show-notes fallback. The language
    model is a parameter that receives those choices; the wording of the
    prompts around them is not modelled. */
module PodcastGenerator {
  import opened Wrappers
  import opened Strings
  import opened Py
  import opened Document

  const EmptyContent := "传入的内容为空或无效，无法生成播客脚本。"
  const CallFailedPrefix := "生成播客脚本失败: "
  const NotesFallback := "Show Notes生成失败，请稍后重试。"

  // ---------------------------------------------------------------------
  // `str.title()` on metadata keys

  function UpperChar(c: char): char {
    if 'a' <= c <= 'z' then (c as int - 32) as char else c
  }

  /** The case `str.title()` gives one character: a letter right after a
      letter is lower-cased, any other letter upper-cased. */
  function Cased(c: char, afterLetter: bool): char {
    if !IsAsciiLetter(c) then c else if afterLetter then LowerChar(c) else UpperChar(c)
  }

  /** `str.title()` on the rest of a string, `afterLetter` telling whether
      the character before it was a letter. */
  function TitleFrom(s: string, afterLetter: bool): (r: string)
    ensures |r| == |s|
    ensures forall k :: 0 <= k < |s| ==> r[k] == Cased(s[k], if k == 0 then afterLetter else IsAsciiLetter(s[k - 1]))
  {
    if |s| == 0 then ""
    else
      var rest := TitleFrom(s[1..], IsAsciiLetter(s[0]));
      var r := [Cased(s[0], afterLetter)] + rest;
      assert forall k :: 1 <= k < |s| ==> r[k] == rest[k - 1] && s[k] == s[1..][k - 1];
      r
  }

  function TitleCase(s: string): (r: string)
    ensures |r| == |s|
  {
    TitleFrom(s, false)
  }

  /** Title-casing twice changes nothing more: letters stay letters, so
      every word boundary stays where it was. */
  lemma TitleCaseIdempotent(s: string)
    ensures TitleCase(TitleCase(s)) == TitleCase(s)
  {
    var t := TitleCase(s);
    forall k | 0 <= k < |s|
      ensures TitleCase(t)[k] == t[k]
    {
      CasedKeepsLetters(s[k], if k == 0 then false else IsAsciiLetter(s[k - 1]));
      if k > 0 {
        CasedKeepsLetters(s[k - 1], if k == 1 then false else IsAsciiLetter(s[k - 2]));
      }
    }
  }

  /** Changing case keeps letters letters and everything else as it is,
      and a letter once cased is cased again the same way. */
  lemma CasedKeepsLetters(c: char, afterLetter: bool)
    ensures IsAsciiLetter(Cased(c, afterLetter)) <==> IsAsciiLetter(c)
    ensures Cased(Cased(c, afterLetter), afterLetter) == Cased(c, afterLetter)
  {
  }

  /** `key.replace('_', ' ')`. */
  function Underscores(s: string): (r: string)
    ensures |r| == |s|
    ensures forall k :: 0 <= k < |s| ==> r[k] == (if s[k] == '_' then ' ' else s[k])
  {
    seq(|s|, k requires 0 <= k < |s| => if s[k] == '_' then ' ' else s[k])
  }

  /** How a metadata key is shown. */
  function KeyLabel(key: string): (r: string)
    ensures |r| == |key|
  {
    TitleCase(Underscores(key))
  }

  /** The extractors' keys come out as words: `page_count` reads "Page Count". */
  lemma PageCountLabel()
    ensures KeyLabel("page_count") == "Page Count"
  {
    PageCountWords();
    PageCountTitled();
  }

  lemma PageCountWords()
    ensures Underscores("page_count") == "page count"
  {
  }

  lemma PageCountTitled()
    ensures TitleCase("page count") == "Page Count"
  {
    var u := "page count";
    TwoWordsTitled(u, 4);
  }

  /** Two lower-case words joined by one space come out capitalised. */
  lemma TwoWordsTitled(u: string, space: nat)
    requires 0 < space < |u| - 1 && u[space] == ' '
    requires forall k :: 0 <= k < |u| && k != space ==> 'a' <= u[k] <= 'z'
    ensures var t := TitleCase(u);
      |t| == |u| && t[space] == ' ' && t[0] == UpperChar(u[0]) && t[space + 1] == UpperChar(u[space + 1])
      && forall k :: 0 < k < |u| && k != space && k != space + 1 ==> t[k] == u[k]
  {
    var t := TitleCase(u);
    assert t[0] == Cased(u[0], false);
    assert t[space] == Cased(u[space], IsAsciiLetter(u[space - 1]));
    assert t[space + 1] == Cased(u[space + 1], false);
    forall k | 0 < k < |u| && k != space && k != space + 1
      ensures t[k] == u[k]
    {
      assert IsAsciiLetter(u[k - 1]);
      assert t[k] == Cased(u[k], true);
    }
  }

  // ---------------------------------------------------------------------
  // Serialising extracted content

  /** The fixed texts of one language's serialisation. */
  datatype Labels = Labels(title: string, untitled: string, metadata: string, content: string,
                           keyPoints: string, cautions: string)

  const EnglishLabels := Labels("# Title: ", "Unknown Title", "## Metadata:\n", "## Content:\n",
                                "## Key Points:\n", "## Cautions:\n")
  const ChineseLabels := Labels("# 标题: ", "未知标题", "## 元数据:\n", "## 内容:\n",
                                "## 关键点:\n", "## 注意事项:\n")

  /** The line of one metadata entry: "- Key Label: value", or nothing
      for a falsy value. */
  function MetadataLine(entry: (string, Value), repr: Value -> string): (r: string)
    ensures r == "" <==> !Truthy(entry.1)
  {
    if Truthy(entry.1) then "- " + KeyLabel(entry.0) + ": " + Show(entry.1, repr) + "\n" else ""
  }

  /** The lines of all entries, in order. */
  function MetadataLines(es: seq<(string, Value)>, repr: Value -> string): (r: string)
    ensures r == "" <==> forall i :: 0 <= i < |es| ==> !Truthy(es[i].1)
  {
    var lines := EntryLines(es, repr);
    ConcatEmpty(lines);
    Concat(lines)
  }

  function EntryLines(es: seq<(string, Value)>, repr: Value -> string): (r: seq<string>)
    ensures |r| == |es| && forall i :: 0 <= i < |es| ==> r[i] == MetadataLine(es[i], repr)
  {
    seq(|es|, i requires 0 <= i < |es| => MetadataLine(es[i], repr))
  }

  /** The lines of a dictionary are those of its parts in order. */
  lemma MetadataLinesAppend(a: seq<(string, Value)>, b: seq<(string, Value)>, repr: Value -> string)
    ensures MetadataLines(a + b, repr) == MetadataLines(a, repr) + MetadataLines(b, repr)
  {
    assert EntryLines(a + b, repr) == EntryLines(a, repr) + EntryLines(b, repr);
    ConcatAppend(EntryLines(a, repr), EntryLines(b, repr));
  }

  /** One "- x" line per element. */
  function Bullets(xs: seq<Value>, repr: Value -> string): (r: string)
    ensures xs == [] <==> r == ""
  {
    if |xs| == 0 then "" else "- " + Show(xs[0], repr) + "\n" + Bullets(xs[1..], repr)
  }

  /** The line a truthy field gives, "" for a falsy or missing one. */
  function FieldLine(es: seq<(string, Value)>, key: string, before: string, repr: Value -> string): (r: string)
    ensures Truthy(GetOr(es, key, PNone)) ==> r == before + Show(GetOr(es, key, PNone), repr) + "\n"
    ensures !Truthy(GetOr(es, key, PNone)) ==> r == ""
  {
    var v := GetOr(es, key, PNone);
    if Truthy(v) then before + Show(v, repr) + "\n" else ""
  }

  /** The block of one content entry: its section title, its text, its
      `items` when it is a list that has them, and a blank line. Only a
      dictionary has `.get`. */
  function SectionBlock(item: Value, repr: Value -> string): (r: Result<string, PyError>)
    ensures r.Failure? <==> !item.PDict?
    ensures r.Failure? ==> r.error == AttributeError
    ensures r.Success? ==> EndsWith(r.value, "\n")
  {
    if !item.PDict? then Failure(AttributeError)
    else
      var es := item.entries;
      var items := GetOr(es, "items", PNone);
      var bullets := if GetOr(es, "content_type", PNone) == PStr("list") && items.PList? then Bullets(items.items, repr) else "";
      var r := FieldLine(es, "section_title", "### ", repr) + FieldLine(es, "text", "", repr) + bullets + "\n";
      assert r[|r| - 1..] == "\n";
      Success(r)
  }

  /** The blocks of all entries, in order; the first entry that is not a
      dictionary raises. */
  function SectionBlocks(items: seq<Value>, repr: Value -> string): (r: Result<string, PyError>)
    ensures r.Failure? <==> exists i :: 0 <= i < |items| && !items[i].PDict?
    ensures r.Failure? ==> r.error == AttributeError
  {
    if |items| == 0 then Success("")
    else
      match SectionBlock(items[0], repr)
      case Failure(e) => Failure(e)
      case Success(b) =>
        match SectionBlocks(items[1..], repr)
        case Failure(e) =>
          assert exists i :: 0 <= i < |items| && !items[i].PDict? by {
            var i :| 0 <= i < |items[1..]| && !items[1..][i].PDict?;
            assert !items[i + 1].PDict?;
          }
          Failure(e)
        case Success(rest) =>
          assert forall i :: 1 <= i < |items| ==> items[i] == items[1..][i - 1];
          Success(b + rest)
  }

  /** The metadata section: absent when the metadata is falsy; `.items()`
      needs a dictionary. */
  function MetadataPart(metadata: Value, labels: Labels, repr: Value -> string): (r: Result<string, PyError>)
    ensures !Truthy(metadata) ==> r == Success("")
    ensures Truthy(metadata) && !metadata.PDict? ==> r == Failure(AttributeError)
    ensures Truthy(metadata) && metadata.PDict? ==>
      r == Success(labels.metadata + MetadataLines(metadata.entries, repr) + "\n")
  {
    if !Truthy(metadata) then Success("")
    else if !metadata.PDict? then Failure(AttributeError)
    else Success(labels.metadata + MetadataLines(metadata.entries, repr) + "\n")
  }

  /** The content section: absent when the entries are falsy. */
  function SectionsPart(sections: Value, labels: Labels, repr: Value -> string): (r: Result<string, PyError>)
    ensures !Truthy(sections) ==> r == Success("")
    ensures sections.PList? && sections.items != [] ==>
      (r.Success? <==> forall i :: 0 <= i < |sections.items| ==> sections.items[i].PDict?)
    ensures r.Success? && Truthy(sections) ==> StartsWith(r.value, labels.content)
  {
    if !Truthy(sections) then Success("")
    else
      match Iter(sections)
      case Failure(e) => Failure(e)
      case Success(items) =>
        match SectionBlocks(items, repr)
        case Failure(e) => Failure(e)
        case Success(b) => Success(labels.content + b)
  }

  /** The key-point section: absent when falsy; one line per element that
      iteration visits, so a string lists its characters. */
  function KeyPointsPart(keyPoints: Value, labels: Labels, repr: Value -> string): (r: Result<string, PyError>)
    ensures !Truthy(keyPoints) ==> r == Success("")
    ensures Truthy(keyPoints) && Iter(keyPoints).Failure? ==> r == Failure(TypeError)
    ensures Truthy(keyPoints) && Iter(keyPoints).Success? ==>
      r == Success(labels.keyPoints + Bullets(Iter(keyPoints).value, repr) + "\n")
  {
    if !Truthy(keyPoints) then Success("")
    else
      match Iter(keyPoints)
      case Failure(e) => Failure(e)
      case Success(ps) => Success(labels.keyPoints + Bullets(ps, repr) + "\n")
  }

  /** The cautions section: absent when falsy. */
  function CautionsPart(cautions: Value, labels: Labels, repr: Value -> string): (r: string)
    ensures r == "" <==> !Truthy(cautions)
  {
    if Truthy(cautions) then labels.cautions + Show(cautions, repr) + "\n\n" else ""
  }

  /** The first line: the title, or the language's placeholder when missing. */
  function Header(content: seq<(string, Value)>, english: bool, repr: Value -> string): (r: string)
  {
    var labels := if english then EnglishLabels else ChineseLabels;
    labels.title + Show(GetOr(content, "title", PStr(labels.untitled)), repr) + "\n\n"
  }

  /** `_format_content_for_llm`: the header, then the metadata, content,
      key-point and caution sections, each present only when its field is
      truthy. English labels for language 'en', Chinese ones otherwise. */
  function FormatContent(content: seq<(string, Value)>, english: bool, repr: Value -> string): (r: Result<string, PyError>)
    ensures r.Success? ==> StartsWith(r.value, Header(content, english, repr))
    ensures
      var labels := if english then EnglishLabels else ChineseLabels;
      r.Failure? <==>
        MetadataPart(GetOr(content, "metadata", PDict([])), labels, repr).Failure?
        || SectionsPart(GetOr(content, "content", PList([])), labels, repr).Failure?
        || KeyPointsPart(GetOr(content, "key_points", PList([])), labels, repr).Failure?
  {
    var labels := if english then EnglishLabels else ChineseLabels;
    var meta := MetadataPart(GetOr(content, "metadata", PDict([])), labels, repr);
    var sections := SectionsPart(GetOr(content, "content", PList([])), labels, repr);
    var points := KeyPointsPart(GetOr(content, "key_points", PList([])), labels, repr);
    if meta.Failure? then Failure(meta.error)
    else if sections.Failure? then Failure(sections.error)
    else if points.Failure? then Failure(points.error)
    else
      var head := Header(content, english, repr);
      var tail := meta.value + sections.value + points.value + CautionsPart(GetOr(content, "cautions", PStr("")), labels, repr);
      assert (head + tail)[..|head|] == head;
      Success(head + tail)
  }

  /** Content with nothing but (perhaps) a title serialises to the header alone. */
  lemma TitleOnly(content: seq<(string, Value)>, english: bool, repr: Value -> string)
    requires !Truthy(GetOr(content, "metadata", PNone)) && !Truthy(GetOr(content, "content", PNone))
    requires !Truthy(GetOr(content, "key_points", PNone)) && !Truthy(GetOr(content, "cautions", PNone))
    ensures FormatContent(content, english, repr) == Success(Header(content, english, repr))
  {
    var labels := if english then EnglishLabels else ChineseLabels;
    var h := Header(content, english, repr);
    EmptyParts(content, labels, repr);
    assert h + ("" + "" + "" + "") == h;
  }

  /** Falsy fields give empty parts. */
  lemma EmptyParts(content: seq<(string, Value)>, labels: Labels, repr: Value -> string)
    requires !Truthy(GetOr(content, "metadata", PNone)) && !Truthy(GetOr(content, "content", PNone))
    requires !Truthy(GetOr(content, "key_points", PNone)) && !Truthy(GetOr(content, "cautions", PNone))
    ensures MetadataPart(GetOr(content, "metadata", PDict([])), labels, repr) == Success("")
    ensures SectionsPart(GetOr(content, "content", PList([])), labels, repr) == Success("")
    ensures KeyPointsPart(GetOr(content, "key_points", PList([])), labels, repr) == Success("")
    ensures CautionsPart(GetOr(content, "cautions", PStr("")), labels, repr) == ""
  {
    FalsyField(content, "metadata", PDict([]));
    FalsyField(content, "content", PList([]));
    FalsyField(content, "key_points", PList([]));
    FalsyField(content, "cautions", PStr(""));
  }

  /** A field that is missing or falsy reads as falsy whatever falsy default is given. */
  lemma FalsyField(content: seq<(string, Value)>, key: string, default: Value)
    requires !Truthy(GetOr(content, key, PNone)) && !Truthy(default)
    ensures !Truthy(GetOr(content, key, default))
  {
  }

  /** A list entry built by an extractor keeps its items under `text`, not
      `items`, so it is shown as the repr of that list and never as bullet
      lines. */
  lemma ExtractedListShownWhole(e: Entry, repr: Value -> string)
    requires e.body.ListBlock? && e.section != "" && e.body.items != []
    ensures var heading := "### " + e.section + "\n";
      var body := repr(PList(ItemsToPy(e.body.items))) + "\n";
      SectionBlock(EntryToPy(e), repr) == Success(heading + body + "\n")
  {
    var es := EntryToPy(e).entries;
    LookupFirst(e);
    LookupSecond(e);
    LookupExtra(e, "items");
    assert Lookup(ExtraFields(e), "items") == None by {
      assert Keys(ExtraFields(e)) == ["list_type"];
    }
    NoItemsNoBullets(es, repr);
    var text := PList(ItemsToPy(e.body.items));
    FieldLineOf(es, "section_title", "### ", repr, PStr(e.section));
    FieldLineOf(es, "text", "", repr, text);
    assert "" + repr(text) == repr(text);
  }

  /** The line of a field holding a truthy value shows that value. */
  lemma FieldLineOf(es: seq<(string, Value)>, key: string, before: string, repr: Value -> string, v: Value)
    requires Lookup(es, key) == Some(v) && Truthy(v)
    ensures FieldLine(es, key, before, repr) == before + Show(v, repr) + "\n"
  {
  }

  /** An entry without `items` has no bullet lines. */
  lemma NoItemsNoBullets(es: seq<(string, Value)>, repr: Value -> string)
    requires "items" !in Keys(es)
    ensures SectionBlock(PDict(es), repr) ==
      Success(FieldLine(es, "section_title", "### ", repr) + FieldLine(es, "text", "", repr) + "\n")
  {
    var x := FieldLine(es, "section_title", "### ", repr) + FieldLine(es, "text", "", repr);
    assert x + "" == x;
  }

  /** Every block of an extractor's entries is well formed. */
  lemma ExtractedBlocks(es: seq<Entry>, repr: Value -> string)
    ensures SectionBlocks(EntriesToPy(es), repr).Success?
  {
    var vs := EntriesToPy(es);
    assert forall i :: 0 <= i < |vs| ==> vs[i].PDict?;
  }

  /** Where an extractor's result keeps its metadata, entries and key points. */
  lemma DocFields(doc: Doc)
    ensures GetOr(ToPy(doc).entries, "metadata", PDict([])) == PDict(doc.metadata)
    ensures GetOr(ToPy(doc).entries, "content", PList([])) == PList(EntriesToPy(doc.content))
    ensures GetOr(ToPy(doc).entries, "content", PNone) == PList(EntriesToPy(doc.content))
    ensures GetOr(ToPy(doc).entries, "key_points", PList([])) == PList(StringsToPy(doc.keyPoints))
  {
    var es := ToPy(doc).entries;
    assert es[2] == ("metadata", PDict(doc.metadata)) && es[3] == ("content", PList(EntriesToPy(doc.content)));
    assert es[4] == ("key_points", PList(StringsToPy(doc.keyPoints)));
    LookupAt(es, 2);
    LookupAt(es, 3);
    LookupAt(es, 4);
  }

  /** Whatever an extractor returns serialises without raising. */
  lemma ExtractedDocFormats(doc: Doc, english: bool, repr: Value -> string)
    ensures FormatContent(ToPy(doc).entries, english, repr).Success?
  {
    DocFields(doc);
    ExtractedParts(doc, if english then EnglishLabels else ChineseLabels, repr);
  }

  lemma ExtractedParts(doc: Doc, labels: Labels, repr: Value -> string)
    ensures MetadataPart(PDict(doc.metadata), labels, repr).Success?
    ensures SectionsPart(PList(EntriesToPy(doc.content)), labels, repr).Success?
    ensures KeyPointsPart(PList(StringsToPy(doc.keyPoints)), labels, repr).Success?
  {
    var items := EntriesToPy(doc.content);
    assert forall i :: 0 <= i < |items| ==> items[i].PDict?;
  }

  // ---------------------------------------------------------------------
  // Choosing the prompt

  datatype Branch = EnglishPrompt | ChinesePrompt
  datatype Tier = Short | Medium | Long

  /** `length_instructions.get(script_length, length_instructions['medium'])`:
      an unknown length means medium; a list or dict cannot be a key. */
  function TierOf(scriptLength: Value): (r: Result<Tier, PyError>)
    ensures r.Failure? <==> scriptLength.PList? || scriptLength.PDict?
    ensures r == Success(Short) <==> scriptLength == PStr("short")
    ensures r == Success(Long) <==> scriptLength == PStr("long")
  {
    if scriptLength.PList? || scriptLength.PDict? then Failure(TypeError)
    else if scriptLength == PStr("short") then Success(Short)
    else if scriptLength == PStr("long") then Success(Long)
    else Success(Medium)
  }

  /** The length instruction: the Chinese table for language 'zh', the
      English one for every other language. */
  function LengthInstruction(tier: Tier, chineseTable: bool): string
  {
    if chineseTable then
      match tier
      case Short => "请生成一个简洁的摘要式脚本，总字数控制在300-500字。只提取最核心的观点和要点，用简洁明了的语言表达，适合快速了解主题。"
      case Medium => "请生成一个标准长度的脚本，总字数在800-1200字。内容要完整，包含主要观点、相关背景和基本分析，适合一般听众理解。"
      case Long => "请生成一个内容详尽、深度分析的长篇脚本，总字数在2000-3000字。要求：1) 深入分析每个重要观点；2) 提供丰富的背景信息和上下文；3) 加入多个具体案例和例子；4) 进行多角度思考和讨论；5) 可以适当扩展和深化原材料，增加相关知识点；6) 包含总结和展望部分。"
    else
      match tier
      case Short => "Please generate a concise, summary-style script, around 300-500 words total. Extract only the most essential points and key insights, using clear and straightforward language suitable for quick topic understanding."
      case Medium => "Please generate a standard-length script, around 800-1200 words total. Content should be comprehensive, including main points, relevant background, and basic analysis suitable for general audience understanding."
      case Long => "Please generate a detailed, in-depth, comprehensive script, around 2000-3000 words total. Requirements: 1) Deep analysis of each important point; 2) Provide rich background information and context; 3) Include multiple specific cases and examples; 4) Multi-perspective thinking and discussion; 5) Feel free to expand and deepen the source material, adding related knowledge points; 6) Include summary and outlook sections."
  }

  /** Python's `v or default`. */
  function OrElse(v: Value, default: string): (r: Value)
    ensures Truthy(v) ==> r == v
    ensures !Truthy(v) ==> r == PStr(default)
  {
    if Truthy(v) then v else PStr(default)
  }

  /** Who speaks: one role with a style, or two with styles and duties. */
  datatype Cast =
    | Solo(role: Value, style: Value)
    | Duo(roleA: Value, styleA: Value, dutyA: Value, roleB: Value, styleB: Value, dutyB: Value)

  /** What the prompts are built from: the branch, the length instruction,
      the cast, the title, the preview when one is given, whether the
      speakers introduce themselves, and the serialised content. */
  datatype Prompt = Prompt(branch: Branch, lengthInstruction: string, cast: Cast, title: Value,
                           preview: Option<Value>, selfIntroduction: bool, content: string)

  /** The arguments `generate_podcast_script` receives. `host` is accepted
      and never used. */
  datatype Request = Request(
    content: Value, title: Value, host: Value, preview: Value, mode: Value, length: Value,
    role1Name: Value, role1Style: Value,
    roleAName: Value, roleAStyle: Value, roleADuty: Value,
    roleBName: Value, roleBStyle: Value, roleBDuty: Value,
    language: Value)

  /** The cast for the request: single mode has one role (default none),
      any other mode two, with the branch's default names and styles. */
  function CastOf(req: Request, branch: Branch): (c: Cast)
    ensures c.Solo? <==> req.mode == PStr("single")
  {
    var mild := if branch == EnglishPrompt then "mild" else "温和";
    if req.mode == PStr("single") then Solo(OrElse(req.role1Name, ""), OrElse(req.role1Style, mild))
    else
      Duo(OrElse(req.roleAName, if branch == EnglishPrompt then "HostA" else "角色A"), OrElse(req.roleAStyle, mild),
          OrElse(req.roleADuty, ""),
          OrElse(req.roleBName, if branch == EnglishPrompt then "HostB" else "角色B"), OrElse(req.roleBStyle, mild),
          OrElse(req.roleBDuty, ""))
  }

  /** The prompt's choices for a request, a tier and serialised content. */
  function PromptOf(req: Request, tier: Tier, content: string): (p: Prompt)
    ensures p.branch == EnglishPrompt <==> req.language == PStr("en")
    ensures p.lengthInstruction == LengthInstruction(tier, req.language == PStr("zh"))
    ensures p.preview.Some? <==> Truthy(req.preview)
    ensures p.preview.Some? ==> p.preview.value == req.preview
    ensures p.cast.Solo? ==> (p.selfIntroduction <==> Truthy(req.role1Name))
    ensures p.cast.Duo? ==> (p.selfIntroduction <==> Truthy(req.roleAName) || Truthy(req.roleBName))
    ensures p.content == content
  {
    var branch := if req.language == PStr("en") then EnglishPrompt else ChinesePrompt;
    var cast := CastOf(req, branch);
    Prompt(branch, LengthInstruction(tier, req.language == PStr("zh")), cast, req.title,
           if Truthy(req.preview) then Some(req.preview) else None,
           if cast.Solo? then Truthy(req.role1Name) else Truthy(req.roleAName) || Truthy(req.roleBName),
           content)
  }

  /** A language other than 'en' and 'zh' gets the Chinese prompt with the
      English length instruction. */
  lemma OtherLanguageMixes(req: Request, tier: Tier, content: string)
    requires req.language != PStr("en") && req.language != PStr("zh")
    ensures PromptOf(req, tier, content).branch == ChinesePrompt
    ensures PromptOf(req, tier, content).lengthInstruction == LengthInstruction(tier, false)
  {
  }

  /** Without names the cast takes the branch's defaults. */
  lemma DefaultCast(req: Request, branch: Branch)
    requires !Truthy(req.roleAName) && !Truthy(req.roleBName) && !Truthy(req.roleAStyle) && !Truthy(req.roleBStyle)
    requires req.mode != PStr("single")
    ensures CastOf(req, branch).roleA == PStr(if branch == EnglishPrompt then "HostA" else "角色A")
    ensures CastOf(req, branch).roleB == PStr(if branch == EnglishPrompt then "HostB" else "角色B")
    ensures CastOf(req, branch).styleA == CastOf(req, branch).styleB == PStr(if branch == EnglishPrompt then "mild" else "温和")
  {
  }

  /** Why generation stops: a Python error, or the model call failed with
      the given (already prefixed) message. */
  datatype GenFailure = Raised(error: PyError) | CallFailed(message: string)

  /** `generate_podcast_script`: empty content raises before anything else;
      the content is serialised, the length looked up, the model asked, and
      its answer stripped. `llm` stands for the model call and answers with
      the script or the message of its exception. */
  function Generate(req: Request, repr: Value -> string, llm: Prompt -> Result<string, string>): (r: Result<string, GenFailure>)
    ensures !Truthy(req.content) ==> r == Failure(Raised(ValueError(EmptyContent)))
    ensures req.content.PDict? && !Truthy(GetOr(req.content.entries, "content", PNone)) ==>
      r == Failure(Raised(ValueError(EmptyContent)))
    ensures r.Success? ==> Unpadded(r.value)
    ensures r.Success? ==> (req.content.PDict? &&
      var text := FormatContent(req.content.entries, req.language == PStr("en"), repr);
      text.Success? && TierOf(req.length).Success?
      && llm(PromptOf(req, TierOf(req.length).value, text.value)).Success?
      && r.value == Trim(llm(PromptOf(req, TierOf(req.length).value, text.value)).value))
    ensures r.Failure? && r.error.CallFailed? ==> StartsWith(r.error.message, CallFailedPrefix)
  {
    if !Truthy(req.content) then Failure(Raised(ValueError(EmptyContent)))
    else if !req.content.PDict? then Failure(Raised(AttributeError))
    else if !Truthy(GetOr(req.content.entries, "content", PNone)) then Failure(Raised(ValueError(EmptyContent)))
    else
      match FormatContent(req.content.entries, req.language == PStr("en"), repr)
      case Failure(e) => Failure(Raised(e))
      case Success(text) =>
        match TierOf(req.length)
        case Failure(e) => Failure(Raised(e))
        case Success(tier) =>
          match llm(PromptOf(req, tier, text))
          case Failure(m) =>
            var msg := CallFailedPrefix + m;
            assert msg[..|CallFailedPrefix|] == CallFailedPrefix;
            Failure(CallFailed(msg))
          case Success(s) => Success(Trim(s))
  }

  /** The host argument makes no difference. */
  lemma HostIgnored(req: Request, host: Value, repr: Value -> string, llm: Prompt -> Result<string, string>)
    ensures Generate(req.(host := host), repr, llm) == Generate(req, repr, llm)
  {
    var other := req.(host := host);
    if Truthy(req.content) && req.content.PDict? {
      forall tier: Tier, text: string
        ensures PromptOf(other, tier, text) == PromptOf(req, tier, text)
      {
        assert CastOf(other, EnglishPrompt) == CastOf(req, EnglishPrompt);
        assert CastOf(other, ChinesePrompt) == CastOf(req, ChinesePrompt);
      }
    }
  }

  /** Once the guard, the serialisation and the length lookup pass, the
      answer is the model's, stripped, or its failure, prefixed. */
  lemma ModelAsked(req: Request, repr: Value -> string, llm: Prompt -> Result<string, string>)
    requires req.content.PDict? && req.content.entries != [] && Truthy(GetOr(req.content.entries, "content", PNone))
    requires FormatContent(req.content.entries, req.language == PStr("en"), repr).Success?
    requires TierOf(req.length).Success?
    ensures var text := FormatContent(req.content.entries, req.language == PStr("en"), repr).value;
      match llm(PromptOf(req, TierOf(req.length).value, text))
      case Success(s) => Generate(req, repr, llm) == Success(Trim(s))
      case Failure(m) => Generate(req, repr, llm) == Failure(CallFailed(CallFailedPrefix + m))
  {
    var text := FormatContent(req.content.entries, req.language == PStr("en"), repr);
    var tier := TierOf(req.length);
    assert Truthy(req.content);
    assert Generate(req, repr, llm) ==
      match llm(PromptOf(req, tier.value, text.value))
      case Failure(m) => Failure(CallFailed(CallFailedPrefix + m))
      case Success(s) => Success(Trim(s));
  }

  /** An extractor's result with some content is accepted: the model is
      asked, and its stripped answer returned. */
  lemma ExtractedDocAccepted(doc: Doc, req: Request, repr: Value -> string, llm: Prompt -> Result<string, string>)
    requires req.content == ToPy(doc) && doc.content != []
    requires !req.length.PList? && !req.length.PDict?
    ensures var text := FormatContent(ToPy(doc).entries, req.language == PStr("en"), repr);
      text.Success? &&
      match llm(PromptOf(req, TierOf(req.length).value, text.value))
      case Success(s) => Generate(req, repr, llm) == Success(Trim(s))
      case Failure(m) => Generate(req, repr, llm) == Failure(CallFailed(CallFailedPrefix + m))
  {
    ExtractedDocFormats(doc, req.language == PStr("en"), repr);
    DocFields(doc);
    assert EntriesToPy(doc.content) != [];
    ModelAsked(req, repr, llm);
  }

  // ---------------------------------------------------------------------
  // Show notes

  /** What the show-notes prompt is built from: its language (Chinese for
      'zh' only), the title or the language's placeholder, the script. */
  datatype NotesPrompt = NotesPrompt(chinese: bool, title: Value, script: string)

  /** `_generate_show_notes`: the model's stripped answer, or a fixed
      apology when the call fails. */
  function ShowNotes(script: string, title: Value, language: Value, llm: NotesPrompt -> Result<string, string>): (r: string)
    ensures r == NotesFallback || Unpadded(r)
    ensures var p := NotesPrompt(language == PStr("zh"), OrElse(title, if language == PStr("zh") then "播客节目" else "Podcast Episode"), script);
      (llm(p).Failure? ==> r == NotesFallback) && (llm(p).Success? ==> r == Trim(llm(p).value))
  {
    var chinese := language == PStr("zh");
    var p := NotesPrompt(chinese, OrElse(title, if chinese then "播客节目" else "Podcast Episode"), script);
    match llm(p)
    case Success(s) => Trim(s)
    case Failure(_) => NotesFallback
  }

  /** Every language other than 'zh' gets the same English notes. */
  lemma NotesSameForNonChinese(script: string, title: Value, l1: Value, l2: Value,
                               llm: NotesPrompt -> Result<string, string>)
    requires l1 != PStr("zh") && l2 != PStr("zh")
    ensures ShowNotes(script, title, l1, llm) == ShowNotes(script, title, l2, llm)
  {
  }

  /** An answer without surrounding white space is returned as it is. */
  lemma TrimmedNotesKept(script: string, title: Value, language: Value, llm: NotesPrompt -> Result<string, string>,
                         answer: string)
    requires Unpadded(answer)
    requires var chinese := language == PStr("zh");
      llm(NotesPrompt(chinese, OrElse(title, if chinese then "播客节目" else "Podcast Episode"), script)) == Success(answer)
    ensures ShowNotes(script, title, language, llm) == answer
  {
    TrimUnpadded(answer);
  }
}
