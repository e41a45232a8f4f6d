/** The extraction engine's entry point: a file path is dispatched on its
    lower-cased extension to the PDF, Word or plain-text extractor, after
    checking that the file exists. */
module Extractor {
  import opened Wrappers
  import opened Strings
  import opened ContentErrors
  import opened Document

  /** The extractors the engine holds. */
  datatype Kind = PdfKind | DocKind | TxtKind

  /** The engine's table: `.pdf`, `.docx`, `.doc` and `.txt`. */
  function ExtractorFor(ext: string): (r: Option<Kind>)
    ensures r == Some(PdfKind) <==> ext == ".pdf"
    ensures r == Some(DocKind) <==> ext == ".docx" || ext == ".doc"
    ensures r == Some(TxtKind) <==> ext == ".txt"
  {
    if ext == ".pdf" then Some(PdfKind)
    else if ext == ".docx" || ext == ".doc" then Some(DocKind)
    else if ext == ".txt" then Some(TxtKind)
    else None
  }

  predicate AllDots(s: string) {
    forall k :: 0 <= k < |s| ==> s[k] == '.'
  }

  /** `os.path.splitext(p)[1]` on POSIX: from the last dot of the last path
      component, provided something other than dots comes before that dot
      in the component; otherwise empty. */
  function Extension(p: string): (e: string)
    ensures |e| <= |p| && e == p[|p| - |e|..]
    ensures e == "" || (e[0] == '.' && '/' !in e && '.' !in e[1..])
  {
    var b := StartAfterLast(p, '/', |p|);
    var i := StartAfterLast(p, '.', |p|);
    if i == 0 || i - 1 < b || AllDots(p[b..i - 1]) then ""
    else
      var e := p[i - 1..];
      assert forall k :: 1 <= k < |e| ==> e[k] == p[i - 1 + k];
      e
  }

  /** `StartAfterLast` does not see past characters other than `c`. */
  lemma {:induction false} StartAfterLastSkip(s: string, c: char, j: nat, m: nat)
    requires m <= j <= |s|
    requires forall k :: m <= k < j ==> s[k] != c
    ensures StartAfterLast(s, c, j) == StartAfterLast(s, c, m)
    decreases j
  {
    if j > m {
      StartAfterLastSkip(s, c, j - 1, m);
    }
  }

  /** A stem ending in an ordinary character, followed by a dot and a
      dot-free, slash-free suffix, has exactly that suffix as extension. */
  lemma ExtensionOf(stem: string, suffix: string)
    requires stem != [] && stem[|stem| - 1] != '.' && stem[|stem| - 1] != '/'
    requires '.' !in suffix && '/' !in suffix
    ensures Extension(stem + "." + suffix) == "." + suffix
  {
    var p := stem + "." + suffix;
    var d := |stem|;
    assert p[d] == '.' && p[d - 1] == stem[d - 1];
    assert forall k :: d < k < |p| ==> p[k] == suffix[k - d - 1];
    LastDot(p, d);
    assert p[d..] == "." + suffix;
  }

  /** A dot after an ordinary character, with neither dot nor slash after
      it, starts the extension. */
  lemma LastDot(p: string, d: nat)
    requires 0 < d < |p| && p[d] == '.' && p[d - 1] != '.' && p[d - 1] != '/'
    requires forall k :: d < k < |p| ==> p[k] != '.' && p[k] != '/'
    ensures Extension(p) == p[d..]
  {
    StartAfterLastSkip(p, '.', |p|, d + 1);
    StartAfterLastSkip(p, '/', |p|, d + 1);
    assert StartAfterLast(p, '/', d + 1) == StartAfterLast(p, '/', d);
    var b := StartAfterLast(p, '/', |p|);
    assert !AllDots(p[b..d]) by {
      assert p[b..d][d - 1 - b] == p[d - 1];
    }
    ExtensionFrom(p, b, d + 1);
  }

  /** How `Extension` reads a path once both last positions are known. */
  lemma ExtensionFrom(p: string, b: nat, i: nat)
    requires b == StartAfterLast(p, '/', |p|) && i == StartAfterLast(p, '.', |p|)
    requires 0 < i && b <= i - 1 && !AllDots(p[b..i - 1])
    ensures Extension(p) == p[i - 1..]
  {
  }

  /** A path whose last component has no ordinary character before a dot,
      or has no dot at all, has no extension. */
  lemma NoDotNoExtension(p: string)
    requires '.' !in p
    ensures Extension(p) == ""
  {
    StartAfterLastSkip(p, '.', |p|, 0);
  }

  /** `process_file`: a missing file is reported before its extension is
      looked at; an extension outside the table (after lower-casing) is
      refused; otherwise the matching extractor runs. */
  function ProcessFile(path: string, present: bool, run: Kind -> Result<Doc, ContentError>)
    : (r: Result<Doc, ContentError>)
    ensures !present ==> r == Failure(FileNotFound("文件不存在: " + path))
    ensures present && ExtractorFor(LowerAscii(Extension(path))).None? ==>
      r == Failure(UnsupportedFormat("不支持的文件格式: " + LowerAscii(Extension(path))))
    ensures present && ExtractorFor(LowerAscii(Extension(path))).Some? ==>
      r == run(ExtractorFor(LowerAscii(Extension(path))).value)
  {
    if !present then Failure(FileNotFound("文件不存在: " + path))
    else
      var ext := LowerAscii(Extension(path));
      match ExtractorFor(ext)
      case None => Failure(UnsupportedFormat("不支持的文件格式: " + ext))
      case Some(k) => run(k)
  }

  /** For an existing file only the lower-cased extension matters: changing
      the case of the extension changes neither the extractor nor the error. */
  lemma CaseInsensitiveDispatch(stem: string, suffix: string, run: Kind -> Result<Doc, ContentError>)
    requires stem != [] && stem[|stem| - 1] != '.' && stem[|stem| - 1] != '/'
    requires '.' !in suffix && '/' !in suffix
    ensures ProcessFile(stem + "." + suffix, true, run) == ProcessFile(stem + "." + LowerAscii(suffix), true, run)
  {
    ExtensionOf(stem, suffix);
    LowerNoDotSlash(suffix);
    ExtensionOf(stem, LowerAscii(suffix));
    LowerAppend(".", suffix);
    LowerAppend(".", LowerAscii(suffix));
    LowerIdempotent(suffix);
  }

  lemma LowerNoDotSlash(s: string)
    requires '.' !in s && '/' !in s
    ensures '.' !in LowerAscii(s) && '/' !in LowerAscii(s)
  {
    forall k | 0 <= k < |s|
      ensures LowerAscii(s)[k] != '.' && LowerAscii(s)[k] != '/'
    {
      assert s[k] != '.' && s[k] != '/';
    }
  }

  /** `_format_output`: the fields as given, with absent key points as an empty list. */
  function FormatOutput(sourceType: string, title: string, metadata: seq<(string, Py.Value)>, content: seq<Entry>,
                        keyPoints: Option<seq<string>>, cautions: Option<string>): (r: Doc)
    ensures r.keyPoints == keyPoints.GetOr([])
    ensures r.sourceType == sourceType && r.title == title && r.metadata == metadata
    ensures r.content == content && r.cautions == cautions
  {
    Doc(sourceType, title, metadata, content, keyPoints.GetOr([]), cautions)
  }

  /** `key_points or []`: an empty list and no list give the same output. */
  lemma EmptyKeyPointsAsAbsent(sourceType: string, title: string, metadata: seq<(string, Py.Value)>,
                               content: seq<Entry>, cautions: Option<string>)
    ensures FormatOutput(sourceType, title, metadata, content, Some([]), cautions)
         == FormatOutput(sourceType, title, metadata, content, None, cautions)
  {
  }

  /** The dictionary handed to callers reads back the fields it was built from. */
  lemma FormatOutputReadsBack(sourceType: string, title: string, metadata: seq<(string, Py.Value)>, content: seq<Entry>,
                              keyPoints: Option<seq<string>>, cautions: Option<string>)
    ensures var d := ToPy(FormatOutput(sourceType, title, metadata, content, keyPoints, cautions)).entries;
      Py.Lookup(d, "source_type") == Some(Py.PStr(sourceType)) && Py.Lookup(d, "title") == Some(Py.PStr(title))
      && Py.Lookup(d, "metadata") == Some(Py.PDict(metadata))
      && Py.Lookup(d, "key_points") == Some(Py.PList(StringsToPy(keyPoints.GetOr([]))))
      && Py.Lookup(d, "cautions") == Some(Py.OfOption(cautions))
  {
    var doc := FormatOutput(sourceType, title, metadata, content, keyPoints, cautions);
    LeadingFieldsRead(doc);
    TrailingFieldsRead(doc);
  }

  lemma LeadingFieldsRead(doc: Doc)
    ensures var d := ToPy(doc).entries;
      Py.Lookup(d, "source_type") == Some(Py.PStr(doc.sourceType)) && Py.Lookup(d, "title") == Some(Py.PStr(doc.title))
      && Py.Lookup(d, "metadata") == Some(Py.PDict(doc.metadata))
  {
    var d := ToPy(doc).entries;
    assert d[0].0 == "source_type" && d[1].0 == "title" && d[2].0 == "metadata";
    Py.LookupAt(d, 0);
    Py.LookupAt(d, 1);
    Py.LookupAt(d, 2);
  }

  lemma TrailingFieldsRead(doc: Doc)
    ensures var d := ToPy(doc).entries;
      Py.Lookup(d, "key_points") == Some(Py.PList(StringsToPy(doc.keyPoints)))
      && Py.Lookup(d, "cautions") == Some(Py.OfOption(doc.cautions))
  {
    var d := ToPy(doc).entries;
    assert d[4].0 == "key_points" && d[5].0 == "cautions";
    assert d[0].0 == "source_type" && d[1].0 == "title" && d[2].0 == "metadata" && d[3].0 == "content";
    Py.LookupAt(d, 4);
    Py.LookupAt(d, 5);
  }
}
