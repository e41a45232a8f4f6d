/** The web API's routes: extraction from an upload or a URL, the voice
    list for the front end, audio generation from a script, and script
    generation. Each route is a function from its inputs to the response;
    the extractor, the speech service and the language model are
    parameters. */
module Api {
  import opened Wrappers
  import opened Strings
  import opened Py
  import opened Document
  import opened ContentErrors
  import MinimaxTts
  import PodcastGenerator

  /** What a route answers: a JSON body with its status, an audio stream
      spliced from the given pieces (the splicing itself is the audio
      library's), or the framework's error page for an exception the route
      does not catch. */
  datatype Response =
    | JsonResponse(status: nat, body: seq<(string, Value)>)
    | AudioStream(pieces: seq<seq<MinimaxTts.Byte>>)
    | ServerError(error: PyError)

  /** `str(e)` for the built-in errors: a `ValueError` shows its message,
      the others whatever `explain` says. */
  function ErrorText(e: PyError, explain: PyError -> string): (r: string)
    ensures e.ValueError? ==> r == e.message
  {
    if e.ValueError? then e.message else explain(e)
  }

  // ---------------------------------------------------------------------
  // Extraction

  /** A form field: an uploaded file (its name when it has one, and whether
      it carries a stream) or plain text. */
  datatype Field = Upload(filename: Option<string>, hasStream: bool) | Text(value: string)

  /** The fields `/api/extract` looks at. */
  datatype Form = Form(file: Option<Field>, url: Option<string>)

  const InvalidFile := "无效的文件对象"
  const NothingToExtract := "未提供文件或URL"

  /** An upload with a non-empty name and a stream. */
  predicate ValidUpload(f: Field) {
    f.Upload? && f.filename.GetOr("") != "" && f.hasStream
  }

  /** `extract_file`: an invalid upload is refused with 400; otherwise
      `process` (the engine's `process_file` on the saved copy) decides
      between the content and a 500 carrying the error's message. */
  function ExtractFile(file: Field, process: string -> Result<Doc, ContentError>): (r: Response)
    ensures r.JsonResponse? && r.status in {200, 400, 500}
    ensures r.status == 400 <==> !ValidUpload(file)
    ensures r.status == 400 ==> r.body == [("error", PStr(InvalidFile))]
    ensures r.status == 200 <==> ValidUpload(file) && process(file.filename.value).Success?
    ensures r.status == 200 ==> r.body == [("success", PBool(true)), ("content", ToPy(process(file.filename.value).value))]
    ensures r.status == 500 ==> r.body == [("error", PStr(process(file.filename.value).error.message))]
  {
    if !ValidUpload(file) then JsonResponse(400, [("error", PStr(InvalidFile))])
    else
      match process(file.filename.value)
      case Success(doc) => JsonResponse(200, [("success", PBool(true)), ("content", ToPy(doc))])
      case Failure(e) => JsonResponse(500, [("error", PStr(e.message))])
  }

  /** `extract_url`: the web extractor's content, or a 500 with its message. */
  function ExtractUrl(url: string, processUrl: string -> Result<Doc, string>): (r: Response)
    ensures r.JsonResponse?
    ensures r.status == 200 <==> processUrl(url).Success?
    ensures processUrl(url).Success? ==> r.body == [("success", PBool(true)), ("content", ToPy(processUrl(url).value))]
    ensures processUrl(url).Failure? ==> r == JsonResponse(500, [("error", PStr(processUrl(url).error))])
  {
    match processUrl(url)
    case Success(doc) => JsonResponse(200, [("success", PBool(true)), ("content", ToPy(doc))])
    case Failure(m) => JsonResponse(500, [("error", PStr(m))])
  }

  /** `/api/extract`: the file field wins over the URL field; with neither
      the request is refused with 400. */
  function Extract(form: Form, process: string -> Result<Doc, ContentError>, processUrl: string -> Result<Doc, string>)
    : (r: Response)
    ensures form.file.Some? ==> r == ExtractFile(form.file.value, process)
    ensures form.file.None? && form.url.Some? ==> r == ExtractUrl(form.url.value, processUrl)
    ensures form.file.None? && form.url.None? ==> r == JsonResponse(400, [("error", PStr(NothingToExtract))])
  {
    match form.file
    case Some(f) => ExtractFile(f, process)
    case None =>
      match form.url
      case Some(u) => ExtractUrl(u, processUrl)
      case None => JsonResponse(400, [("error", PStr(NothingToExtract))])
  }

  /** Sending a URL along with a file changes nothing, and a text value in
      the file field is refused even when a URL is present. */
  lemma FileFieldWins(f: Field, u: Option<string>, process: string -> Result<Doc, ContentError>,
                      processUrl: string -> Result<Doc, string>)
    ensures Extract(Form(Some(f), u), process, processUrl) == Extract(Form(Some(f), None), process, processUrl)
    ensures f.Text? ==> Extract(Form(Some(f), u), process, processUrl).status == 400
  {
  }

  /** The response succeeds exactly when some source was given and its
      extraction succeeded. */
  lemma ExtractSucceeds(form: Form, process: string -> Result<Doc, ContentError>, processUrl: string -> Result<Doc, string>)
    ensures var r := Extract(form, process, processUrl);
      r.JsonResponse? && (r.status == 200 <==>
        (form.file.Some? && ValidUpload(form.file.value) && process(form.file.value.filename.value).Success?)
        || (form.file.None? && form.url.Some? && processUrl(form.url.value).Success?))
  {
  }

  // ---------------------------------------------------------------------
  // Voices

  /** What the front end is sent for one voice. */
  function VoiceOption(id: Value, name: Value): (r: Value)
    ensures r.PDict? && GetOr(r.entries, "value", PNone) == id && GetOr(r.entries, "label", PNone) == name
    ensures GetOr(r.entries, "voice_id", PNone) == PNone && GetOr(r.entries, "voice_name", PNone) == PNone
  {
    var es := [("value", id), ("label", name)];
    assert Keys(es) == ["value", "label"];
    LookupAt(es, 0);
    LookupAt(es, 1);
    PDict(es)
  }

  /** One element of the service's list: kept as `{value, label}` when both
      `voice_id` and `voice_name` are truthy; `.get` needs a dictionary. */
  function VoiceEntry(v: Value): (r: Result<Option<Value>, PyError>)
    ensures r.Failure? <==> !v.PDict?
    ensures r.Failure? ==> r.error == AttributeError
    ensures v.PDict? ==>
      var id := GetOr(v.entries, "voice_id", PNone);
      var name := GetOr(v.entries, "voice_name", PNone);
      r == Success(if Truthy(id) && Truthy(name) then Some(VoiceOption(id, name)) else None)
  {
    if !v.PDict? then Failure(AttributeError)
    else
      var id := GetOr(v.entries, "voice_id", PNone);
      var name := GetOr(v.entries, "voice_name", PNone);
      Success(if Truthy(id) && Truthy(name) then Some(VoiceOption(id, name)) else None)
  }

  /** The list comprehension over the service's voices: the kept entries in
      order; the first element that is not a dictionary raises. */
  function FormatVoices(raw: seq<Value>): (r: Result<seq<Value>, PyError>)
    ensures r.Failure? <==> exists i :: 0 <= i < |raw| && !raw[i].PDict?
    ensures r.Success? ==> |r.value| <= |raw|
    ensures r.Success? ==> forall k :: 0 <= k < |r.value| ==>
      r.value[k].PDict? && Keys(r.value[k].entries) == ["value", "label"]
      && Truthy(r.value[k].entries[0].1) && Truthy(r.value[k].entries[1].1)
  {
    var outs := VoiceEntries(raw);
    CollectSucceeds(outs);
    Collect(outs)
  }

  function VoiceEntries(raw: seq<Value>): (outs: seq<Result<Option<Value>, PyError>>)
    ensures |outs| == |raw| && forall i :: 0 <= i < |raw| ==> outs[i] == VoiceEntry(raw[i])
  {
    seq(|raw|, i requires 0 <= i < |raw| => VoiceEntry(raw[i]))
  }

  /** A one-voice list formats as its one entry. */
  lemma FormatVoicesOne(v: Value)
    ensures FormatVoices([v]) == match VoiceEntry(v)
      case Failure(e) => Failure(e)
      case Success(o) => Success(if o.Some? then [o.value] else [])
  {
    var outs := VoiceEntries([v]);
    assert outs == [VoiceEntry(v)];
    assert Collect(outs[1..]) == Success([]) by {
      assert outs[1..] == [];
    }
    assert FormatVoices([v]) == Collect(outs);
    match VoiceEntry(v)
    case Failure(e) =>
      assert Collect(outs) == Failure(e);
    case Success(o) =>
      var kept: seq<Value> := if o.Some? then [o.value] else [];
      assert Collect(outs) == Success(kept + []);
      assert kept + [] == kept;
  }

  /** The voices the route keeps, by the filter of the comprehension: the
      dictionaries whose `voice_id` and `voice_name` are both truthy, in
      order, as `{value, label}`. */
  function KeptVoices(raw: seq<Value>): (r: seq<Value>)
    ensures |r| <= |raw|
  {
    if |raw| == 0 then []
    else
      var v := raw[0];
      var id := if v.PDict? then GetOr(v.entries, "voice_id", PNone) else PNone;
      var name := if v.PDict? then GetOr(v.entries, "voice_name", PNone) else PNone;
      (if Truthy(id) && Truthy(name) then [VoiceOption(id, name)] else []) + KeptVoices(raw[1..])
  }

  /** A list of dictionaries formats to exactly the kept voices. */
  lemma {:induction false} FormatVoicesKeeps(raw: seq<Value>)
    requires forall i :: 0 <= i < |raw| ==> raw[i].PDict?
    ensures FormatVoices(raw) == Success(KeptVoices(raw))
  {
    if |raw| > 0 {
      assert raw == [raw[0]] + raw[1..];
      FormatVoicesAppend([raw[0]], raw[1..]);
      FormatVoicesOne(raw[0]);
      FormatVoicesKeeps(raw[1..]);
    } else {
      assert VoiceEntries(raw) == [];
    }
  }

  /** Formatting a list is formatting its two halves and concatenating;
      with the entry case above this pins the result down. */
  lemma FormatVoicesAppend(a: seq<Value>, b: seq<Value>)
    ensures FormatVoices(a + b).Success? <==> FormatVoices(a).Success? && FormatVoices(b).Success?
    ensures FormatVoices(a + b).Success? ==> FormatVoices(a + b).value == FormatVoices(a).value + FormatVoices(b).value
  {
    VoiceEntriesAppend(a, b);
    CollectAppend(VoiceEntries(a), VoiceEntries(b));
  }

  lemma VoiceEntriesAppend(a: seq<Value>, b: seq<Value>)
    ensures VoiceEntries(a + b) == VoiceEntries(a) + VoiceEntries(b)
  {
    var l, r := VoiceEntries(a + b), VoiceEntries(a) + VoiceEntries(b);
    assert |l| == |r|;
    forall i | 0 <= i < |l|
      ensures l[i] == r[i]
    {
      if i < |a| {
        assert (a + b)[i] == a[i];
      } else {
        assert (a + b)[i] == b[i - |a|];
      }
    }
  }

  /** `/api/available_voices`: the client (built on first use), the
      service's answer, its voice list, and the formatted entries; any
      failure on the way is a 500 with the error's text. `fetch` is the
      request to the service, answering the decoded body or the message of
      its exception. */
  function AvailableVoices(client: Result<MinimaxTts.Client, PyError>,
                           fetch: MinimaxTts.Client -> Result<Value, string>,
                           explain: PyError -> string): (r: Response)
    ensures r.JsonResponse? && (r.status == 200 || r.status == 500)
    ensures r.status == 200 <==>
      (client.Success? && fetch(client.value).Success?
       && MinimaxTts.VoiceList(fetch(client.value).value).Success?
       && FormatVoices(MinimaxTts.VoiceList(fetch(client.value).value).value).Success?)
    ensures r.status == 200 ==>
      r.body == [("success", PBool(true)),
                 ("voices", PList(FormatVoices(MinimaxTts.VoiceList(fetch(client.value).value).value).value))]
    ensures client.Failure? ==> r == JsonResponse(500, [("success", PBool(false)), ("message", PStr(ErrorText(client.error, explain)))])
  {
    match client
    case Failure(e) => Fail(ErrorText(e, explain))
    case Success(c) =>
      match fetch(c)
      case Failure(m) => Fail(m)
      case Success(answer) =>
        match MinimaxTts.VoiceList(answer)
        case Failure(e) => Fail(ErrorText(e, explain))
        case Success(raw) =>
          match FormatVoices(raw)
          case Failure(e) => Fail(ErrorText(e, explain))
          case Success(vs) => JsonResponse(200, [("success", PBool(true)), ("voices", PList(vs))])
  }

  /** The 500 answer of the voice and audio routes. */
  function Fail(message: string): (r: Response)
    ensures r.JsonResponse? && r.status == 500
  {
    JsonResponse(500, [("success", PBool(false)), ("message", PStr(message))])
  }

  /** Missing credentials reach the front end as the constructor's message. */
  lemma MissingCredentialsReported(held: Option<MinimaxTts.Client>, apiKey: Option<string>, groupId: Option<string>,
                                   fetch: MinimaxTts.Client -> Result<Value, string>, explain: PyError -> string)
    requires held.None? && (apiKey.GetOr("") == "" || groupId.GetOr("") == "")
    ensures AvailableVoices(MinimaxTts.GetClient(held, apiKey, groupId).client, fetch, explain)
      == Fail(MinimaxTts.MissingCredentials)
  {
  }

  // ---------------------------------------------------------------------
  // Audio generation: reading the script

  /** Who speaks a piece of text: role A or B with their voice and
      parameters, or the single narrator. */
  datatype Speaker = RoleA | RoleB | Narrator

  /** One `synthesize_long_text` call. */
  datatype Call = Call(text: string, speaker: Speaker)

  /** The calls a script asks for, in order, and the error that stops the
      reading after them, if any. */
  datatype Plan = Plan(calls: seq<Call>, failure: Option<PyError>)

  /** A name that can match: given and non-empty. */
  predicate Usable(name: Option<string>) {
    name.Some? && name.value != ""
  }

  /** The script item built for one line of a plain-text double script: a
      line starting with role A's name, else with role B's, becomes that
      role with the rest of the line stripped; any other line is dropped. */
  function LineItem(line: string, a: Option<string>, b: Option<string>): (r: Option<(string, string)>)
    ensures Usable(a) && StartsWith(line, a.value) ==> r == Some((a.value, Trim(line[|a.value|..])))
    ensures !(Usable(a) && StartsWith(line, a.value)) && Usable(b) && StartsWith(line, b.value) ==>
      r == Some((b.value, Trim(line[|b.value|..])))
    ensures r.None? <==> !(Usable(a) && StartsWith(line, a.value)) && !(Usable(b) && StartsWith(line, b.value))
  {
    if Usable(a) && StartsWith(line, a.value) then Some((a.value, Trim(line[|a.value|..])))
    else if Usable(b) && StartsWith(line, b.value) then Some((b.value, Trim(line[|b.value|..])))
    else None
  }

  /** The script item as the loop over it sees it. */
  function ItemValue(role: string, text: string): Value {
    PDict([("role", PStr(role)), ("text", PStr(text))])
  }

  /** What `.get` finds in a script item. */
  lemma ItemValueFields(role: string, text: string)
    ensures GetOr(ItemValue(role, text).entries, "role", PNone) == PStr(role)
    ensures GetOr(ItemValue(role, text).entries, "text", PStr("")) == PStr(text)
  {
    var es := ItemValue(role, text).entries;
    assert Keys(es) == ["role", "text"];
    LookupAt(es, 0);
    LookupAt(es, 1);
  }

  /** The call an item of the fallback asks for: none for a blank text,
      otherwise the stripped text spoken by the role its name matches. */
  lemma ItemValueCall(role: string, text: string, a: Option<string>, b: Option<string>)
    ensures ItemCall(ItemValue(role, text), a, b).Success?
    ensures Trim(text) != "" && SpeakerOf(PStr(role), a, b).Some? ==>
      ItemCall(ItemValue(role, text), a, b) == Success(Some(Call(Trim(text), SpeakerOf(PStr(role), a, b).value)))
  {
    ItemValueFields(role, text);
  }

  /** The items of the given lines, in order. */
  function LineItems(lines: seq<string>, a: Option<string>, b: Option<string>): (r: seq<Value>)
    ensures |r| <= |lines|
    ensures forall k :: 0 <= k < |r| ==> exists role, t :: r[k] == ItemValue(role, t)
  {
    Kept(seq(|lines|, i requires 0 <= i < |lines| => LineItem(lines[i], a, b)))
  }

  /** The script items of the lines that gave one, in order. */
  function Kept(found: seq<Option<(string, string)>>): (r: seq<Value>)
    ensures |r| <= |found|
    ensures forall k :: 0 <= k < |r| ==> exists role, t :: r[k] == ItemValue(role, t)
  {
    if |found| == 0 then []
    else
      var rest := Kept(found[1..]);
      match found[0]
      case None => rest
      case Some((role, text)) =>
        var r := [ItemValue(role, text)] + rest;
        assert forall k :: 1 <= k < |r| ==> r[k] == rest[k - 1];
        r
  }

  /** When every line gave an item, the items are those of the lines. */
  lemma {:induction false} KeptAll(found: seq<Option<(string, string)>>)
    requires forall i :: 0 <= i < |found| ==> found[i].Some?
    ensures |Kept(found)| == |found|
    ensures forall k :: 0 <= k < |found| ==> Kept(found)[k] == ItemValue(found[k].value.0, found[k].value.1)
    decreases |found|
  {
    if |found| > 0 {
      KeptAll(found[1..]);
      var rest := Kept(found[1..]);
      assert Kept(found) == [ItemValue(found[0].value.0, found[0].value.1)] + rest;
      assert forall k :: 1 <= k < |found| ==> found[k] == found[1..][k - 1];
    }
  }

  /** The fallback reading of a double script: its lines split at "\n". */
  function FallbackScript(text: string, a: Option<string>, b: Option<string>): (r: seq<Value>)
    ensures |r| <= |SplitOn(text, "\n")|
    ensures forall k :: 0 <= k < |r| ==> exists role, t :: r[k] == ItemValue(role, t)
  {
    LineItems(SplitOn(text, "\n"), a, b)
  }

  /** A line written as a role's name followed by a stripped text. */
  function Spoken(line: (bool, string), a: string, b: string): string {
    (if line.0 then a else b) + line.1
  }

  /** Lines written as "name + text" come back as the same roles and texts,
      provided the names are non-empty, start differently and hold no
      newline, and each text is stripped and newline-free. */
  lemma {:induction false} FallbackRoundTrip(lines: seq<(bool, string)>, a: string, b: string)
    requires |lines| > 0 && a != "" && b != "" && a[0] != b[0]
    requires '\n' !in a && '\n' !in b
    requires forall k :: 0 <= k < |lines| ==> '\n' !in lines[k].1 && Unpadded(lines[k].1)
    ensures var items := FallbackScript(Join(SpokenLines(lines, a, b), "\n"), Some(a), Some(b));
      |items| == |lines| && forall k :: 0 <= k < |lines| ==> items[k] == ItemValue(if lines[k].0 then a else b, lines[k].1)
  {
    var spoken := SpokenLines(lines, a, b);
    assert forall k :: 0 <= k < |spoken| ==> '\n' !in spoken[k] by {
      forall k | 0 <= k < |spoken|
        ensures '\n' !in spoken[k]
      {
        assert spoken[k] == Spoken(lines[k], a, b);
      }
    }
    SplitJoin(spoken, "\n");
    ItemsOfSpoken(lines, a, b);
  }

  function SpokenLines(lines: seq<(bool, string)>, a: string, b: string): (r: seq<string>)
    ensures |r| == |lines| && forall k :: 0 <= k < |lines| ==> r[k] == Spoken(lines[k], a, b)
  {
    seq(|lines|, k requires 0 <= k < |lines| => Spoken(lines[k], a, b))
  }

  lemma ItemsOfSpoken(lines: seq<(bool, string)>, a: string, b: string)
    requires a != "" && b != "" && a[0] != b[0]
    requires forall k :: 0 <= k < |lines| ==> Unpadded(lines[k].1)
    ensures var items := LineItems(SpokenLines(lines, a, b), Some(a), Some(b));
      |items| == |lines| && forall k :: 0 <= k < |lines| ==> items[k] == ItemValue(if lines[k].0 then a else b, lines[k].1)
  {
    var spoken := SpokenLines(lines, a, b);
    var found := seq(|spoken|, i requires 0 <= i < |spoken| => LineItem(spoken[i], Some(a), Some(b)));
    forall k | 0 <= k < |lines|
      ensures found[k] == Some((if lines[k].0 then a else b, lines[k].1))
    {
      SpokenLineItem(lines[k], a, b);
    }
    KeptAll(found);
  }

  lemma SpokenLineItem(line: (bool, string), a: string, b: string)
    requires a != "" && b != "" && a[0] != b[0] && Unpadded(line.1)
    ensures LineItem(Spoken(line, a, b), Some(a), Some(b)) == Some((if line.0 then a else b, line.1))
  {
    var s := Spoken(line, a, b);
    var name := if line.0 then a else b;
    assert s[..|name|] == name && s[|name|..] == line.1;
    if !line.0 {
      assert s[0] == b[0];
      assert !StartsWith(s, a);
    }
    TrimUnpadded(line.1);
  }

  /** The roles A or B a script item belongs to: Python compares the
      item's `role` with the names, so a missing role matches a missing
      name. */
  function SpeakerOf(role: Value, a: Option<string>, b: Option<string>): (r: Option<Speaker>)
    ensures r == Some(RoleA) <==> role == OfOption(a)
    ensures r == Some(RoleB) <==> role != OfOption(a) && role == OfOption(b)
    ensures r != Some(Narrator)
  {
    if role == OfOption(a) then Some(RoleA) else if role == OfOption(b) then Some(RoleB) else None
  }

  /** One item of a double script: its stripped text, skipped when blank,
      spoken by the role it names, and by nobody when it names neither.
      `.get` needs a dictionary and `.strip` a string. */
  function ItemCall(item: Value, a: Option<string>, b: Option<string>): (r: Result<Option<Call>, PyError>)
    ensures r.Failure? <==> !item.PDict? || !GetOr(item.entries, "text", PStr("")).PStr?
    ensures r.Failure? ==> r.error == AttributeError
    ensures r.Success? && r.value.Some? ==>
      var t := GetOr(item.entries, "text", PStr(""));
      r.value.value.text == Trim(t.s) && r.value.value.text != ""
      && Some(r.value.value.speaker) == SpeakerOf(GetOr(item.entries, "role", PNone), a, b)
    ensures r.Success? && r.value.None? ==>
      Trim(GetOr(item.entries, "text", PStr("")).s) == "" || SpeakerOf(GetOr(item.entries, "role", PNone), a, b).None?
  {
    if !item.PDict? then Failure(AttributeError)
    else
      var role := GetOr(item.entries, "role", PNone);
      var t := GetOr(item.entries, "text", PStr(""));
      if !t.PStr? then Failure(AttributeError)
      else
        var txt := Trim(t.s);
        if txt == "" then Success(None)
        else
          match SpeakerOf(role, a, b)
          case None => Success(None)
          case Some(who) => Success(Some(Call(txt, who)))
  }

  /** What each item of a double script asks for, in order. */
  function Outcomes(items: seq<Value>, a: Option<string>, b: Option<string>): (r: seq<Result<Option<Call>, PyError>>)
    ensures |r| == |items| && forall i :: 0 <= i < |items| ==> r[i] == ItemCall(items[i], a, b)
  {
    Map(item => ItemCall(item, a, b), items)
  }

  /** A loop that collects the calls of its steps until one raises. */
  function Stopping(outs: seq<Result<Option<Call>, PyError>>): (p: Plan)
    ensures |p.calls| <= |outs|
  {
    if |outs| == 0 then Plan([], None)
    else
      match outs[0]
      case Failure(e) => Plan([], Some(e))
      case Success(c) =>
        var rest := Stopping(outs[1..]);
        Plan((if c.Some? then [c.value] else []) + rest.calls, rest.failure)
  }

  /** The double-mode loop over the items: each item's call in order, up to
      the first item that raises. */
  function DoublePlan(items: seq<Value>, a: Option<string>, b: Option<string>): (p: Plan)
    ensures |p.calls| <= |items|
  {
    Stopping(Outcomes(items, a, b))
  }

  /** The loop ends without an error exactly when no step raises, and then
      every call comes from some step. */
  lemma {:induction false} StoppingCompletes(outs: seq<Result<Option<Call>, PyError>>)
    ensures Stopping(outs).failure.None? <==> forall i :: 0 <= i < |outs| ==> outs[i].Success?
    ensures forall k :: 0 <= k < |Stopping(outs).calls| ==> Success(Some(Stopping(outs).calls[k])) in outs
    decreases |outs|
  {
    if |outs| > 0 {
      StoppingCompletes(outs[1..]);
      assert forall i :: 1 <= i < |outs| ==> outs[i] == outs[1..][i - 1];
    }
  }

  /** Steps that all ask for a call give those calls, in order. */
  lemma {:induction false} StoppingAllCalls(cs: seq<Call>)
    ensures Stopping(seq(|cs|, k requires 0 <= k < |cs| => Success(Some(cs[k])))) == Plan(cs, None)
    decreases |cs|
  {
    if |cs| > 0 {
      var outs: seq<Result<Option<Call>, PyError>> := seq(|cs|, k requires 0 <= k < |cs| => Success(Some(cs[k])));
      var tail: seq<Result<Option<Call>, PyError>> := seq(|cs[1..]|, k requires 0 <= k < |cs[1..]| => Success(Some(cs[1..][k])));
      assert outs[1..] == tail;
      StoppingAllCalls(cs[1..]);
      assert [cs[0]] + cs[1..] == cs;
    }
  }

  /** The loop over two runs of steps: the first run's calls, then, unless
      it stopped, the second's. */
  lemma {:induction false} StoppingAppend(x: seq<Result<Option<Call>, PyError>>, y: seq<Result<Option<Call>, PyError>>)
    ensures var px := Stopping(x);
      Stopping(x + y) == if px.failure.Some? then px else Plan(px.calls + Stopping(y).calls, Stopping(y).failure)
    decreases |x|
  {
    if |x| == 0 {
      assert x + y == y;
    } else {
      assert (x + y)[0] == x[0];
      assert (x + y)[1..] == x[1..] + y;
      StoppingAppend(x[1..], y);
      if x[0].Success? {
        var head := if x[0].value.Some? then [x[0].value.value] else [];
        var px, py := Stopping(x[1..]), Stopping(y);
        assert head + (px.calls + py.calls) == (head + px.calls) + py.calls;
      }
    }
  }

  /** The loop runs to the end exactly when no item raises, and then it
      reports no error. */
  lemma DoublePlanCompletes(items: seq<Value>, a: Option<string>, b: Option<string>)
    ensures DoublePlan(items, a, b).failure.None? <==> forall i :: 0 <= i < |items| ==> ItemCall(items[i], a, b).Success?
  {
    StoppingCompletes(Outcomes(items, a, b));
  }

  /** The plan of two runs of items: the first run's calls, then, unless it
      stopped, the second's. */
  lemma DoublePlanAppend(x: seq<Value>, y: seq<Value>, a: Option<string>, b: Option<string>)
    ensures var px := DoublePlan(x, a, b);
      DoublePlan(x + y, a, b) ==
        if px.failure.Some? then px else Plan(px.calls + DoublePlan(y, a, b).calls, DoublePlan(y, a, b).failure)
  {
    MapAppend(item => ItemCall(item, a, b), x, y);
    StoppingAppend(Outcomes(x, a, b), Outcomes(y, a, b));
  }

  /** The fallback's items never raise: every one is a dictionary with a
      string text. */
  lemma {:induction false} FallbackNeverFails(text: string, a: Option<string>, b: Option<string>)
    ensures DoublePlan(FallbackScript(text, a, b), a, b).failure.None?
  {
    var items := FallbackScript(text, a, b);
    DoublePlanCompletes(items, a, b);
    forall i | 0 <= i < |items|
      ensures ItemCall(items[i], a, b).Success?
    {
      BuiltItemSucceeds(items[i], a, b);
    }
  }

  lemma BuiltItemSucceeds(item: Value, a: Option<string>, b: Option<string>)
    requires exists role, t :: item == ItemValue(role, t)
    ensures ItemCall(item, a, b).Success?
  {
    var role, t :| item == ItemValue(role, t);
    ItemValueCall(role, t, a, b);
  }

  /** Role A's name is tried first: a line starting with both names goes
      to A. */
  lemma RoleAFirst(line: string, a: string, b: string)
    requires a != "" && StartsWith(line, a) && StartsWith(line, b)
    ensures LineItem(line, Some(a), Some(b)) == Some((a, Trim(line[|a|..])))
  {
  }

  /** An item without a role is spoken by role A when no name for A was
      sent, since both are `None`. */
  lemma MissingRoleMatchesMissingName(text: string, b: Option<string>)
    requires Trim(text) != ""
    ensures ItemCall(PDict([("text", PStr(text))]), None, b) == Success(Some(Call(Trim(text), RoleA)))
  {
    assert GetOr([("text", PStr(text))], "role", PNone) == PNone;
  }

  // ---------------------------------------------------------------------
  // Audio generation: single mode

  /** The characters the plain-text fallback splits sentences at. */
  const Stops: set<char> := {'。', '！', '？', '!', '?', '.', '\n'}

  /** The plain-text reading: the pieces between stops, stripped, blank
      ones dropped. */
  function Sentences(text: string): (r: seq<string>)
    ensures forall k :: 0 <= k < |r| ==> r[k] != "" && Unpadded(r[k])
  {
    TrimmedNonBlank(SplitAny(text, Stops))
  }

  /** Non-empty stripped sentences without stops, joined by "。", are read
      back one by one. */
  lemma SentencesRoundTrip(sentences: seq<string>)
    requires |sentences| > 0
    requires forall k :: 0 <= k < |sentences| ==> sentences[k] != "" && Unpadded(sentences[k])
    requires forall k, j :: 0 <= k < |sentences| && 0 <= j < |sentences[k]| ==> sentences[k][j] !in Stops
    ensures Sentences(Join(sentences, "。")) == sentences
  {
    SplitAnyJoin(sentences, '。', Stops);
    TrimmedNonBlankKeeps(sentences);
  }

  /** One item of a single-mode JSON script: its stripped `text` when the
      item has one that is not blank. `in` and indexing follow Python, so
      a string item containing "text", or a list containing it, raises;
      a text that is not a string has no `.strip`. */
  function SingleText(item: Value): (r: Result<Option<string>, PyError>)
    ensures item.PDict? && GetOr(item.entries, "text", PNone).PStr? ==>
      r == Success(if Trim(GetOr(item.entries, "text", PNone).s) == "" then None
                   else Some(Trim(GetOr(item.entries, "text", PNone).s)))
    ensures item.PDict? && "text" !in Keys(item.entries) ==> r == Success(None)
    ensures r.Success? && r.value.Some? ==> r.value.value != "" && Unpadded(r.value.value)
  {
    match In(PStr("text"), item)
    case Failure(e) => Failure(e)
    case Success(has) =>
      if !has then Success(None)
      else
        match Index(item, "text")
        case Failure(e) => Failure(e)
        case Success(v) =>
          if !v.PStr? then Failure(AttributeError)
          else if Trim(v.s) == "" then Success(None)
          else Success(Some(Trim(v.s)))
  }

  /** The comprehension over a single-mode JSON script; any item that
      raises makes the whole reading raise. */
  function SingleTexts(items: seq<Value>): (r: Result<seq<string>, PyError>)
    ensures r.Success? <==> forall i :: 0 <= i < |items| ==> SingleText(items[i]).Success?
    ensures r.Success? ==> |r.value| <= |items| && forall k :: 0 <= k < |r.value| ==> r.value[k] != "" && Unpadded(r.value[k])
  {
    var outs := ItemTexts(items);
    CollectSucceeds(outs);
    Collect(outs)
  }

  function ItemTexts(items: seq<Value>): (outs: seq<Result<Option<string>, PyError>>)
    ensures |outs| == |items| && forall i :: 0 <= i < |items| ==> outs[i] == SingleText(items[i])
  {
    seq(|items|, i requires 0 <= i < |items| => SingleText(items[i]))
  }

  /** The reading of two runs of items is the two readings laid end to end. */
  lemma SingleTextsAppend(x: seq<Value>, y: seq<Value>)
    ensures SingleTexts(x + y).Success? <==> SingleTexts(x).Success? && SingleTexts(y).Success?
    ensures SingleTexts(x + y).Success? ==> SingleTexts(x + y).value == SingleTexts(x).value + SingleTexts(y).value
  {
    assert ItemTexts(x + y) == ItemTexts(x) + ItemTexts(y);
    CollectAppend(ItemTexts(x), ItemTexts(y));
  }

  /** Single mode's texts: those of a JSON list of items when the reading
      succeeds, else the sentences of the raw text. */
  function SingleScript(text: string, loads: Loader): (r: seq<string>)
    ensures forall k :: 0 <= k < |r| ==> r[k] != "" && Unpadded(r[k])
    ensures (loads(text).None? || !loads(text).value.PList?) ==> r == Sentences(text)
    ensures loads(text).Some? && loads(text).value.PList? && SingleTexts(loads(text).value.items).Failure? ==>
      r == Sentences(text)
  {
    match loads(text)
    case Some(PList(items)) =>
      (match SingleTexts(items)
       case Success(ts) => ts
       case Failure(_) => Sentences(text))
    case _ => Sentences(text)
  }

  // ---------------------------------------------------------------------
  // Audio generation: the route

  /** The fields `generate_audio` uses to read the script. */
  datatype AudioForm = AudioForm(text: string, mode: string, roleAName: Option<string>, roleBName: Option<string>)

  /** The calls for a form: double mode reads a JSON list of items, or the
      text line by line; every other mode is single. */
  function PlanOf(form: AudioForm, loads: Loader): (p: Plan)
    ensures form.mode != "double" ==> p.failure.None? && forall k :: 0 <= k < |p.calls| ==> p.calls[k].speaker == Narrator
    ensures form.mode == "double" ==> forall k :: 0 <= k < |p.calls| ==> p.calls[k].speaker != Narrator
  {
    if form.mode == "double" then
      var items := match loads(form.text)
                   case Some(PList(xs)) => xs
                   case _ => FallbackScript(form.text, form.roleAName, form.roleBName);
      var p := DoublePlan(items, form.roleAName, form.roleBName);
      assert forall k :: 0 <= k < |p.calls| ==> p.calls[k].speaker != Narrator by {
        DoubleCallsSpoken(items, form.roleAName, form.roleBName);
      }
      p
    else
      var texts := SingleScript(form.text, loads);
      Plan(seq(|texts|, k requires 0 <= k < |texts| => Call(texts[k], Narrator)), None)
  }

  lemma DoubleCallsSpoken(items: seq<Value>, a: Option<string>, b: Option<string>)
    ensures forall k :: 0 <= k < |DoublePlan(items, a, b).calls| ==>
      DoublePlan(items, a, b).calls[k].speaker != Narrator && DoublePlan(items, a, b).calls[k].text != ""
  {
    var outs := Outcomes(items, a, b);
    var calls := DoublePlan(items, a, b).calls;
    StoppingCompletes(outs);
    forall k | 0 <= k < |calls|
      ensures calls[k].speaker != Narrator && calls[k].text != ""
    {
      var i :| 0 <= i < |outs| && outs[i] == Success(Some(calls[k]));
      assert ItemCall(items[i], a, b) == Success(Some(calls[k]));
    }
  }

  /** Running the calls: the non-empty audio of each call in order; the
      first failing call ends everything with its message. Each call is one
      `synthesize_long_text` with the default maximum length, which
      `MinimaxTts.LongTextDefault` models: ceil(len / 800) segment
      syntheses, spliced. */
  function Run(calls: seq<Call>, synth: Call -> Result<seq<MinimaxTts.Byte>, string>)
    : (r: Result<seq<seq<MinimaxTts.Byte>>, string>)
    ensures r.Success? <==> forall i :: 0 <= i < |calls| ==> synth(calls[i]).Success?
    ensures r.Success? ==> |r.value| <= |calls| && forall k :: 0 <= k < |r.value| ==> r.value[k] != []
  {
    if |calls| == 0 then Success([])
    else
      match synth(calls[0])
      case Failure(m) => Failure(m)
      case Success(audio) =>
        match Run(calls[1..], synth)
        case Failure(m) =>
          assert exists i :: 0 <= i < |calls| && !synth(calls[i]).Success? by {
            var i :| 0 <= i < |calls[1..]| && !synth(calls[1..][i]).Success?;
            assert calls[1..][i] == calls[i + 1];
          }
          Failure(m)
        case Success(rest) =>
          assert forall i :: 1 <= i < |calls| ==> calls[i] == calls[1..][i - 1];
          var r := (if audio != [] then [audio] else []) + rest;
          assert forall k :: 0 <= k < |r| ==> r[k] != [];
          Success(r)
  }

  /** `generate_audio`: the client is fetched outside the handler, so its
      failure is not caught; otherwise the script's calls run in order, and
      the audio is streamed unless a call or the reading of the script
      failed. `synth` stands for `synthesize_long_text`
      (`MinimaxTts.LongTextDefault`, spliced) with the voice and parameters
      of the call's speaker. */
  function GenerateAudio(form: AudioForm, client: Result<MinimaxTts.Client, PyError>, loads: Loader,
                         synth: Call -> Result<seq<MinimaxTts.Byte>, string>, explain: PyError -> string): (r: Response)
    ensures client.Failure? ==> r == ServerError(client.error)
    ensures client.Success? ==>
      var plan := PlanOf(form, loads);
      match Run(plan.calls, synth)
      case Failure(m) => r == Fail(m)
      case Success(pieces) =>
        r == if plan.failure.Some? then Fail(ErrorText(plan.failure.value, explain)) else AudioStream(pieces)
  {
    if client.Failure? then ServerError(client.error)
    else
      var plan := PlanOf(form, loads);
      match Run(plan.calls, synth)
      case Failure(m) => Fail(m)
      case Success(pieces) =>
        if plan.failure.Some? then Fail(ErrorText(plan.failure.value, explain)) else AudioStream(pieces)
  }

  /** A plain-text double script whose lines carry the role names gives one
      call per line, in order, with that line's role and stripped text. */
  lemma PlainDoubleScript(lines: seq<(bool, string)>, a: string, b: string, loads: Loader)
    requires |lines| > 0 && a != "" && b != "" && a[0] != b[0]
    requires '\n' !in a && '\n' !in b
    requires forall k :: 0 <= k < |lines| ==> '\n' !in lines[k].1 && Unpadded(lines[k].1) && lines[k].1 != ""
    requires var text := Join(SpokenLines(lines, a, b), "\n"); loads(text).None?
    ensures var p := PlanOf(AudioForm(Join(SpokenLines(lines, a, b), "\n"), "double", Some(a), Some(b)), loads);
      p.failure.None? && |p.calls| == |lines|
      && forall k :: 0 <= k < |lines| ==> p.calls[k] == Call(lines[k].1, if lines[k].0 then RoleA else RoleB)
  {
    var text := Join(SpokenLines(lines, a, b), "\n");
    FallbackRoundTrip(lines, a, b);
    var items := FallbackScript(text, Some(a), Some(b));
    PlanOfItems(items, lines, a, b);
  }

  lemma PlanOfItems(items: seq<Value>, lines: seq<(bool, string)>, a: string, b: string)
    requires a != b && |items| == |lines|
    requires forall k :: 0 <= k < |lines| ==> Unpadded(lines[k].1) && lines[k].1 != ""
    requires forall k :: 0 <= k < |lines| ==> items[k] == ItemValue(if lines[k].0 then a else b, lines[k].1)
    ensures var p := DoublePlan(items, Some(a), Some(b));
      p.failure.None? && |p.calls| == |lines|
      && forall k :: 0 <= k < |lines| ==> p.calls[k] == Call(lines[k].1, if lines[k].0 then RoleA else RoleB)
  {
    var cs := seq(|lines|, k requires 0 <= k < |lines| => Call(lines[k].1, if lines[k].0 then RoleA else RoleB));
    forall k | 0 <= k < |lines|
      ensures ItemCall(items[k], Some(a), Some(b)) == Success(Some(cs[k]))
    {
      TrimUnpadded(lines[k].1);
      ItemValueCall(if lines[k].0 then a else b, lines[k].1, Some(a), Some(b));
    }
    assert Outcomes(items, Some(a), Some(b)) == seq(|cs|, k requires 0 <= k < |cs| => Success(Some(cs[k])));
    StoppingAllCalls(cs);
  }

  // ---------------------------------------------------------------------
  // Script generation

  const NoContent := "内容为空，无法生成播客脚本"

  /** `re.sub(r"^```[a-zA-Z]*\s*", "", s)`: the position after an opening
      fence, its language tag and the whitespace after it. */
  function FenceEnd(s: string): (i: nat)
    requires StartsWith(s, "```")
    ensures 3 <= i <= |s|
  {
    SkipSpaces(s, SkipLetters(s, 3))
  }

  function SkipLetters(s: string, i: nat): (j: nat)
    requires i <= |s|
    ensures i <= j <= |s|
    ensures forall k :: i <= k < j ==> IsAsciiLetter(s[k])
    ensures j == |s| || !IsAsciiLetter(s[j])
    decreases |s| - i
  {
    if i == |s| || !IsAsciiLetter(s[i]) then i else SkipLetters(s, i + 1)
  }

  /** The fence stripping of `generate_podcast_script`: strip, drop an
      opening fence with its tag, strip, drop a closing fence, strip. */
  function StripFences(script: string): (r: string)
    ensures Unpadded(r)
    ensures |r| <= |script|
  {
    var t := Trim(script);
    var t1 := if StartsWith(t, "```") then t[FenceEnd(t)..] else t;
    var t2 := Trim(t1);
    var t3 := if EndsWith(t2, "```") then t2[..|t2| - 3] else t2;
    Trim(t3)
  }

  /** A fenced block with a language tag gives back its body. */
  lemma FencedBody(lang: string, body: string)
    requires lang != [] && forall k :: 0 <= k < |lang| ==> IsAsciiLetter(lang[k])
    requires body != [] && Unpadded(body)
    ensures StripFences("```" + lang + "\n" + body + "\n```") == body
  {
    var rest := body + "\n```";
    var s := "```" + lang + "\n" + body + "\n```";
    assert s == "```" + lang + "\n" + rest;
    assert Trim(s) == s by {
      assert s[0] == '`' && s[|s| - 1] == '`';
      UnpaddedIsTrimmed(s);
    }
    assert StartsWith(s, "```") && s[FenceEnd(s)..] == rest by {
      assert rest[0] == body[0];
      OpeningFence(lang, rest);
    }
    ClosingFence(body);
    FenceSteps(s, rest);
  }

  /** How `StripFences` goes through a trimmed text with both fences. */
  lemma FenceSteps(s: string, rest: string)
    requires Trim(s) == s && StartsWith(s, "```") && s[FenceEnd(s)..] == rest
    requires Trim(rest) == rest && EndsWith(rest, "```")
    ensures StripFences(s) == Trim(rest[..|rest| - 3])
  {
  }

  /** After an opening fence, its tag and a newline, the text goes on. */
  lemma OpeningFence(lang: string, rest: string)
    requires lang != [] && forall k :: 0 <= k < |lang| ==> IsAsciiLetter(lang[k])
    requires rest != [] && !IsSpace(rest[0])
    ensures var s := "```" + lang + "\n" + rest;
      StartsWith(s, "```") && FenceEnd(s) == |lang| + 4 && s[|lang| + 4..] == rest
  {
    var s := "```" + lang + "\n" + rest;
    var n := |lang|;
    assert s[..3] == "```";
    assert forall k :: 3 <= k < 3 + n ==> s[k] == lang[k - 3];
    assert !IsAsciiLetter(s[3 + n]);
    SkipLettersTo(s, 3, 3 + n);
    assert s[4 + n] == rest[0];
    SkipSpacesTo(s, 3 + n, 4 + n);
    assert s[4 + n..] == rest;
  }

  /** A body followed by a newline and a closing fence: stripping keeps it,
      the fence is dropped and the newline stripped. */
  lemma ClosingFence(body: string)
    requires body != [] && Unpadded(body)
    ensures var t := body + "\n```";
      Trim(t) == t && EndsWith(t, "```") && Trim(t[..|t| - 3]) == body
  {
    var t := body + "\n```";
    assert Trim(t) == t by {
      assert t[0] == body[0] && t[|t| - 1] == '`';
      UnpaddedIsTrimmed(t);
    }
    assert EndsWith(t, "```") by {
      assert t[|t| - 3..] == "```";
    }
    assert Trim(t[..|t| - 3]) == body by {
      assert t[..|t| - 3] == "" + body + "\n";
      TrimPadding("", body, "\n");
    }
  }

  lemma {:induction false} SkipLettersTo(s: string, i: nat, m: nat)
    requires i <= m < |s|
    requires forall k :: i <= k < m ==> IsAsciiLetter(s[k])
    requires !IsAsciiLetter(s[m])
    ensures SkipLetters(s, i) == m
    decreases m - i
  {
    if i < m {
      SkipLettersTo(s, i + 1, m);
    }
  }

  /** Text without fences is only stripped. */
  lemma UnfencedStripped(script: string)
    requires !StartsWith(Trim(script), "```") && !EndsWith(Trim(script), "```")
    ensures StripFences(script) == Trim(script)
  {
    TrimIdempotent(script);
    TrimIdempotent(Trim(script));
  }

  /** The arguments the route passes on: the payload's fields, with mode
      'single', length 'medium' and language 'zh' when absent. */
  function RequestOf(payload: seq<(string, Value)>): (req: PodcastGenerator.Request)
    ensures req.content == GetOr(payload, "content", PNone)
    ensures "podcast_mode" !in Keys(payload) ==> req.mode == PStr("single")
    ensures "scriptLength" !in Keys(payload) ==> req.length == PStr("medium")
    ensures "language" !in Keys(payload) ==> req.language == PStr("zh")
  {
    PodcastGenerator.Request(
      GetOr(payload, "content", PNone), GetOr(payload, "podcast_title", PNone), GetOr(payload, "podcast_host", PNone),
      GetOr(payload, "next_episode_preview", PNone), GetOr(payload, "podcast_mode", PStr("single")),
      GetOr(payload, "scriptLength", PStr("medium")),
      GetOr(payload, "role1_name", PNone), GetOr(payload, "role1_style", PNone),
      GetOr(payload, "roleA_name", PNone), GetOr(payload, "roleA_style", PNone), GetOr(payload, "roleA_duty", PNone),
      GetOr(payload, "roleB_name", PNone), GetOr(payload, "roleB_style", PNone), GetOr(payload, "roleB_duty", PNone),
      GetOr(payload, "language", PStr("zh")))
  }

  /** `/api/generate_podcast_script`: falsy content is refused with 400;
      otherwise the generator's script, with code fences removed, or a 500
      with the error's text. */
  function GenerateScript(payload: seq<(string, Value)>, repr: Value -> string,
                          llm: PodcastGenerator.Prompt -> Result<string, string>, explain: PyError -> string): (r: Response)
    ensures r.JsonResponse?
    ensures !Truthy(GetOr(payload, "content", PNone)) ==> r == JsonResponse(400, [("error", PStr(NoContent))])
    ensures r.status == 200 <==>
      Truthy(GetOr(payload, "content", PNone)) && PodcastGenerator.Generate(RequestOf(payload), repr, llm).Success?
    ensures r.status == 200 ==>
      r.body == [("success", PBool(true)),
                 ("podcast_script", PStr(StripFences(PodcastGenerator.Generate(RequestOf(payload), repr, llm).value)))]
  {
    if !Truthy(GetOr(payload, "content", PNone)) then JsonResponse(400, [("error", PStr(NoContent))])
    else
      match PodcastGenerator.Generate(RequestOf(payload), repr, llm)
      case Success(script) => JsonResponse(200, [("success", PBool(true)), ("podcast_script", PStr(StripFences(script)))])
      case Failure(f) =>
        JsonResponse(500, [("error", PStr(if f.Raised? then ErrorText(f.error, explain) else f.message))])
  }

  /** The route's refusal does not depend on the model: it is decided
      before the generator runs. */
  lemma EmptyContentRefused(payload: seq<(string, Value)>, repr: Value -> string,
                            llm1: PodcastGenerator.Prompt -> Result<string, string>,
                            llm2: PodcastGenerator.Prompt -> Result<string, string>, explain: PyError -> string)
    requires !Truthy(GetOr(payload, "content", PNone))
    ensures GenerateScript(payload, repr, llm1, explain) == GenerateScript(payload, repr, llm2, explain)
    ensures GenerateScript(payload, repr, llm1, explain).status == 400
  {
  }
}
