/** The content step: a file checked by type and size and sent for
    extraction, or a web address sent for extraction; the extracted content is
    kept, shown, and reported to the wizard. */
module ContentUpload {
  import opened Wrappers
  import opened Strings
  import opened Json

  datatype UploadMethod = FileMethod | UrlMethod

  /** What the browser knows about a chosen file. */
  datatype FileInfo = FileInfo(mime: string, size: nat)

  datatype Panel = Panel(uploadMethod: UploadMethod, fileList: seq<FileInfo>, url: string, extracted: Value)

  const Initial := Panel(FileMethod, [], "", Str(""))

  /** PDF, Word (both formats) and plain text. */
  const AcceptedTypes: set<string> := {"application/pdf",
    "application/vnd.openxmlformats-officedocument.wordprocessingml.document",
    "application/msword", "text/plain"}

  /** Ten mebibytes. */
  const MaxBytes: nat := 10 * 1024 * 1024

  datatype FileCheck = Accepted | WrongType | TooLarge

  /** The type test comes first; the size test divides by 1024 twice and
      compares with 10, which accepts exactly the sizes below ten mebibytes. */
  function CheckFile(f: FileInfo): (c: FileCheck)
    ensures c == WrongType <==> f.mime !in AcceptedTypes
    ensures c == Accepted <==> f.mime in AcceptedTypes && f.size < MaxBytes
  {
    if f.mime !in AcceptedTypes then WrongType
    else
      var mib := (f.size as real) / 1024.0 / 1024.0;
      assert mib == (f.size as real) / 1048576.0;
      if mib < 10.0 then Accepted else TooLarge
  }

  /** A request the panel sends to the backend. */
  datatype Request = ExtractFile(file: FileInfo) | ExtractUrl(url: string)

  /** The effect of one action: the new panel, the request sent (if any), the
      content reported to the wizard (if any), and whether the upload widget
      goes on to upload by itself. */
  datatype Outcome = Outcome(panel: Panel, sent: Option<Request>, reported: Option<Value>, autoUpload: bool)

  /** Handling the backend's answer: the `content` member on success (a
      missing member reads as `null`), an error message otherwise. On success
      the content is kept and reported; on failure nothing changes. */
  function Receive(p: Panel, answer: Result<Value, string>): (r: (Panel, Option<Value>))
    ensures answer.Success? ==> r == (p.(extracted := answer.value), Some(answer.value))
    ensures answer.Failure? ==> r == (p, None)
  {
    match answer
    case Success(v) => (p.(extracted := v), Some(v))
    case Failure(_) => (p, None)
  }

  /** Choosing a file: rejected files change nothing and send nothing; an
      accepted file replaces the file list and is sent at once. The widget's
      own upload is always suppressed. */
  function BeforeUpload(p: Panel, f: FileInfo, answer: Result<Value, string>): (o: Outcome)
    ensures !o.autoUpload
    ensures CheckFile(f) != Accepted ==> o == Outcome(p, None, None, false)
    ensures CheckFile(f) == Accepted ==> o.sent == Some(ExtractFile(f)) && o.panel.fileList == [f]
    ensures CheckFile(f) == Accepted && answer.Success? ==>
      o.panel.extracted == answer.value && o.reported == Some(answer.value)
    ensures CheckFile(f) == Accepted && answer.Failure? ==> o.panel.extracted == p.extracted && o.reported == None
    ensures o.panel.uploadMethod == p.uploadMethod && o.panel.url == p.url
  {
    if CheckFile(f) != Accepted then Outcome(p, None, None, false)
    else
      var (q, reported) := Receive(p.(fileList := [f]), answer);
      Outcome(q, Some(ExtractFile(f)), reported, false)
  }

  /** Extracting a web page: refused while the trimmed address is empty,
      otherwise the trimmed address is sent. */
  function UrlExtract(p: Panel, answer: Result<Value, string>): (o: Outcome)
    ensures IsBlank(p.url) ==> o == Outcome(p, None, None, false)
    ensures !IsBlank(p.url) ==> o.sent == Some(ExtractUrl(Trim(p.url)))
    ensures !IsBlank(p.url) && answer.Success? ==> o.panel.extracted == answer.value && o.reported == Some(answer.value)
    ensures !IsBlank(p.url) && answer.Failure? ==> o.panel == p && o.reported == None
    ensures o.panel.uploadMethod == p.uploadMethod && o.panel.url == p.url && o.panel.fileList == p.fileList
  {
    if IsBlank(p.url) then Outcome(p, None, None, false)
    else
      var (q, reported) := Receive(p, answer);
      Outcome(q, Some(ExtractUrl(Trim(p.url))), reported, false)
  }

  /** Switching between file and address input keeps whatever was extracted. */
  function SwitchMethod(p: Panel, m: UploadMethod): (r: Panel)
    ensures r.uploadMethod == m
    ensures r.extracted == p.extracted && r.fileList == p.fileList && r.url == p.url
  {
    p.(uploadMethod := m)
  }

  /** Removing the file clears the list and the shown content; the wizard is
      not told, so it keeps the content it was last given. */
  function RemoveFile(p: Panel): (o: Outcome)
    ensures o.panel.fileList == [] && !Truthy(o.panel.extracted)
    ensures o.reported == None && o.sent == None
    ensures o.panel.uploadMethod == p.uploadMethod && o.panel.url == p.url
  {
    Outcome(p.(fileList := [], extracted := Str("")), None, None, false)
  }

  /** The read-only preview: hidden for falsy content; a string as is; an
      object's truthy `text` member; anything else pretty-printed. */
  function Preview(v: Value, pretty: Printer): (r: Option<Value>)
    ensures r.None? <==> !Truthy(v)
    ensures Truthy(v) && v.Str? ==> r == Some(v)
    ensures Truthy(v) && !v.Str? && Get(v, "text").Some? && Truthy(Get(v, "text").value) ==> r == Get(v, "text")
    ensures Truthy(v) && !v.Str? && !(Get(v, "text").Some? && Truthy(Get(v, "text").value)) ==> r == Some(Str(pretty(v)))
  {
    if !Truthy(v) then None
    else if v.Str? then Some(v)
    else match Get(v, "text")
      case Some(t) => if Truthy(t) then Some(t) else Some(Str(pretty(v)))
      case None => Some(Str(pretty(v)))
  }

  /** After a successful extraction of non-empty content the preview shows it;
      after removing the file the preview disappears. */
  lemma PreviewFollowsExtraction(p: Panel, f: FileInfo, v: Value, pretty: Printer)
    requires CheckFile(f) == Accepted && Truthy(v)
    ensures Preview(BeforeUpload(p, f, Success(v)).panel.extracted, pretty).Some?
    ensures Preview(RemoveFile(p).panel.extracted, pretty).None?
  {
  }
}
