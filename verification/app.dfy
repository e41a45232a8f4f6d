/** The four-step wizard: upload content, set parameters, generate and edit
    the script, synthesize speech. It owns the shared state, decides when a
    step may be entered, and builds the script generation request. */
module App {
  import opened Wrappers
  import opened Strings
  import opened Json
  import opened Settings
  import ScriptEditor
  import TtsSynthesis
  import ContentUpload

  /** The text of the extracted content, whatever shape the backend gave it:
      a string as is, an object's string `text` (else its string `content`),
      the first element of a non-empty array, anything else stringified.
      Falsy values, `true` and non-zero numbers give "". */
  function ExtractedText(content: Value, stringify: Printer): (r: string)
    ensures !Truthy(content) ==> r == ""
    ensures content.Str? ==> r == content.s
    ensures content.Obj? && GetString(content, "text").Some? ==> r == GetString(content, "text").value
    ensures content.Obj? && GetString(content, "text").None? && GetString(content, "content").Some? ==>
      r == GetString(content, "content").value
    ensures content.Obj? && GetString(content, "text").None? && GetString(content, "content").None? ==>
      r == stringify(content)
    ensures content.Arr? && |content.items| > 0 ==> r == ExtractedText(content.items[0], stringify)
    ensures content.Arr? && |content.items| == 0 ==> r == stringify(content)
  {
    if !Truthy(content) then ""
    else match content
      case Str(s) => s
      case Obj(_) =>
        if GetString(content, "text").Some? then GetString(content, "text").value
        else if GetString(content, "content").Some? then GetString(content, "content").value
        else stringify(content)
      case Arr(items) => if |items| > 0 then ExtractedText(items[0], stringify) else stringify(content)
      case _ => ""
  }

  /** The shapes the backend may use for one text all read as that text. */
  lemma ShapesAgree(t: string, stringify: Printer)
    ensures ExtractedText(Obj(map["text" := Str(t)]), stringify) == t
    ensures ExtractedText(Obj(map["content" := Str(t)]), stringify) == t
    ensures ExtractedText(Arr([Obj(map["text" := Str(t)])]), stringify) == t
    ensures t != "" ==> ExtractedText(Str(t), stringify) == t
  {
    assert GetString(Obj(map["content" := Str(t)]), "text").None?;
  }

  /** An object's `text` wins over its `content`. */
  lemma TextWinsOverContent(t: string, c: string, stringify: Printer)
    ensures ExtractedText(Obj(map["text" := Str(t), "content" := Str(c)]), stringify) == t
  {
  }

  /** `depth` levels of single-element arrays around a value. */
  function Nest(v: Value, depth: nat): Value {
    if depth == 0 then v else Arr([Nest(v, depth - 1)])
  }

  /** Wrapping content in arrays of one element any number of times changes nothing. */
  lemma {:induction false} NestingIsTransparent(v: Value, depth: nat, stringify: Printer)
    ensures ExtractedText(Nest(v, depth), stringify) == ExtractedText(v, stringify)
  {
    if depth > 0 {
      NestingIsTransparent(v, depth - 1, stringify);
    }
  }

  /** The preview of the upload step and the wizard read string content and
      objects with a non-empty string `text` the same way. */
  lemma PreviewAgreesWithWizard(v: Value, pretty: Printer, stringify: Printer)
    requires Truthy(v)
    requires v.Str? || (v.Obj? && GetString(v, "text").Some? && GetString(v, "text").value != "")
    ensures ContentUpload.Preview(v, pretty) == Some(Str(ExtractedText(v, stringify)))
  {
  }

  /** The last step's index: upload, settings, script, synthesis. */
  const LastStep: nat := 3

  /** The wizard's state. */
  datatype Wizard = Wizard(
    step: nat,
    content: Value,
    script: string,
    settings: PodcastSettings,
    audio: Option<TtsSynthesis.Audio>,
    tts: TtsSynthesis.TtsParams)

  const Initial := Wizard(0, Str(""), "", Defaults, None, TtsSynthesis.DefaultTtsParams)

  predicate ValidStep(w: Wizard) {
    w.step <= LastStep
  }

  /** The upload gate: the extracted text is not blank. */
  predicate ContentReady(w: Wizard, stringify: Printer) {
    !IsBlank(ExtractedText(w.content, stringify))
  }

  /** Whether "next" is enabled on the current step. The script step asks for
      a non-empty script; blank text counts. */
  function CanGoNext(w: Wizard, stringify: Printer): (ok: bool)
    ensures w.step == 0 ==> (ok <==> JumpTo(w, 1, stringify).MoveTo?)
    ensures w.step == 2 ==> (JumpTo(w, 3, stringify).MoveTo? ==> ok)
    ensures w.step == 2 ==> (ok && !JumpTo(w, 3, stringify).MoveTo? <==> w.script != "" && IsBlank(w.script))
  {
    match w.step
    case 0 => ContentReady(w, stringify)
    case 2 => w.script != ""
    case _ => true
  }

  datatype Warning = NeedContent | NeedSettings | NeedScript

  /** The result of clicking a step in the step bar. */
  datatype Jump = MoveTo(step: nat) | Stay(warning: Option<Warning>)

  /** Step 0 is always reachable; steps 1 and 2 need content; step 3 needs a
      non-blank script (and nothing else). Refusals warn for steps 1 to 3. */
  function JumpTo(w: Wizard, target: int, stringify: Printer): (j: Jump)
    ensures j.MoveTo? ==> j.step == target
    ensures target == 0 ==> j.MoveTo?
    ensures target == 1 || target == 2 ==> (j.MoveTo? <==> ContentReady(w, stringify))
    ensures target == 3 ==> (j.MoveTo? <==> !IsBlank(w.script))
    ensures j.Stay? ==> (j.warning.Some? <==> 1 <= target <= 3)
    ensures !(0 <= target <= 3) ==> j == Stay(None)
  {
    if target == 0 then MoveTo(0)
    else if (target == 1 || target == 2) && ContentReady(w, stringify) then MoveTo(target)
    else if target == 3 && w.script != "" && !IsBlank(w.script) then MoveTo(3)
    else if target == 1 then Stay(Some(NeedContent))
    else if target == 2 then Stay(Some(NeedSettings))
    else if target == 3 then Stay(Some(NeedScript))
    else Stay(None)
  }

  /** Navigation: the "previous" and "next" buttons and the step bar. */
  datatype Nav = Prev | Next | Bar(target: int)

  /** "Previous" exists above step 0; "next" exists below the last step and
      works only when enabled. */
  function Navigate(w: Wizard, n: Nav, stringify: Printer): (r: Wizard)
    ensures ValidStep(w) ==> ValidStep(r)
    ensures r == w.(step := r.step)
    ensures n.Next? ==> (r.step == w.step + 1 <==> w.step < LastStep && CanGoNext(w, stringify))
    ensures n.Prev? ==> r.step == if w.step > 0 then w.step - 1 else w.step
  {
    match n
    case Prev => if w.step > 0 then w.(step := w.step - 1) else w
    case Next => if w.step < LastStep && CanGoNext(w, stringify) then w.(step := w.step + 1) else w
    case Bar(k) =>
      match JumpTo(w, k, stringify)
      case MoveTo(s) => w.(step := s)
      case Stay(_) => w
  }

  function Run(w: Wizard, navs: seq<Nav>, stringify: Printer): (r: Wizard)
    ensures r == w.(step := r.step)
    decreases |navs|
  {
    if |navs| == 0 then w else Run(Navigate(w, navs[0], stringify), navs[1..], stringify)
  }

  /** No sequence of clicks leaves the four steps. */
  lemma {:induction false} RunStaysValid(w: Wizard, navs: seq<Nav>, stringify: Printer)
    requires ValidStep(w)
    ensures ValidStep(Run(w, navs, stringify))
    decreases |navs|
  {
    if |navs| > 0 {
      RunStaysValid(Navigate(w, navs[0], stringify), navs[1..], stringify);
    }
  }

  /** Leaving the upload step, by any route, needs ready content or a
      non-blank script. */
  lemma {:induction false} LeavingUploadNeedsInput(w: Wizard, navs: seq<Nav>, stringify: Printer)
    requires w.step == 0 || ContentReady(w, stringify) || !IsBlank(w.script)
    ensures var r := Run(w, navs, stringify);
      r.step == 0 || ContentReady(r, stringify) || !IsBlank(r.script)
    decreases |navs|
  {
    if |navs| > 0 {
      var next := Navigate(w, navs[0], stringify);
      assert next.content == w.content && next.script == w.script;
      LeavingUploadNeedsInput(next, navs[1..], stringify);
    }
  }

  predicate ButtonsOnly(navs: seq<Nav>) {
    forall i :: 0 <= i < |navs| ==> !navs[i].Bar?
  }

  /** Using only the buttons, every step past the first was earned: content is
      ready beyond the upload step, and a script exists on the last step. */
  lemma {:induction false} ButtonsEarnEachStep(w: Wizard, navs: seq<Nav>, stringify: Printer)
    requires ButtonsOnly(navs)
    requires w.step >= 1 ==> ContentReady(w, stringify)
    requires w.step >= 3 ==> w.script != ""
    ensures var r := Run(w, navs, stringify);
      (r.step >= 1 ==> ContentReady(r, stringify)) && (r.step >= 3 ==> r.script != "")
    decreases |navs|
  {
    if |navs| > 0 {
      var next := Navigate(w, navs[0], stringify);
      assert next.content == w.content && next.script == w.script;
      ButtonsEarnEachStep(next, navs[1..], stringify);
    }
  }

  /** The role fields of a generation request. */
  datatype RoleFields =
    | OneHost(role1Name: string, role1Style: string)
    | TwoHosts(roleAName: string, roleAStyle: string, roleBName: string, roleBStyle: string)

  /** The JSON body of a script generation request. */
  datatype GenerationRequest = GenerationRequest(
    content: Value, podcastTitle: string, nextEpisodePreview: string,
    podcastMode: string, language: string, scriptLength: string, roles: RoleFields)

  datatype GenerationRefusal = NoContent

  /** Refused when the content is falsy; otherwise the settings are copied,
      with only the single host's or only the two hosts' role fields. */
  function BuildGenerationRequest(w: Wizard): (r: Result<GenerationRequest, GenerationRefusal>)
    ensures r.Failure? <==> !Truthy(w.content)
    ensures r.Success? ==> (r.value.content == w.content && r.value.podcastMode == w.settings.mode
      && r.value.language == w.settings.language && r.value.scriptLength == w.settings.scriptLength
      && r.value.podcastTitle == w.settings.podcastTitle && r.value.nextEpisodePreview == w.settings.nextEpisodePreview)
    ensures r.Success? ==> (r.value.roles.OneHost? <==> IsSingle(w.settings))
    ensures r.Success? && IsSingle(w.settings) ==> r.value.roles == OneHost(w.settings.role1Name, w.settings.role1Style)
    ensures r.Success? && !IsSingle(w.settings) ==>
      r.value.roles == TwoHosts(w.settings.roleAName, w.settings.roleAStyle, w.settings.roleBName, w.settings.roleBStyle)
  {
    if !Truthy(w.content) then Failure(NoContent)
    else
      var s := w.settings;
      var roles := if IsSingle(s) then OneHost(s.role1Name, s.role1Style)
                   else TwoHosts(s.roleAName, s.roleAStyle, s.roleBName, s.roleBStyle);
      Success(GenerationRequest(w.content, s.podcastTitle, s.nextEpisodePreview, s.mode, s.language, s.scriptLength, roles))
  }

  /** The generation answer: the script on success; an HTTP failure or an
      `error` member is a failure and leaves the previous script. */
  function OnGenerated(w: Wizard, answer: Result<string, string>): (r: Wizard)
    ensures answer.Success? ==> r == w.(script := answer.value)
    ensures answer.Failure? ==> r == w
  {
    match answer
    case Success(s) => w.(script := s)
    case Failure(_) => w
  }

  /** New content reported by the upload step replaces the old. */
  function OnContentExtracted(w: Wizard, v: Value): (r: Wizard)
    ensures r.content == v && r == w.(content := v)
  {
    w.(content := v)
  }

  /** An edit in the script editor is stored as the stringified array of lines. */
  function OnScriptEdit(w: Wizard, lines: seq<ScriptEditor.Line>, stringify: Printer): (r: Wizard)
    ensures r == w.(script := r.script)
    ensures r.script == stringify(Arr(ScriptEditor.EncodeLines(lines)))
  {
    w.(script := stringify(Arr(ScriptEditor.EncodeLines(lines))))
  }

  /** Storing an edit and parsing it back returns the edited lines. */
  lemma EditRoundTrip(w: Wizard, lines: seq<ScriptEditor.Line>, parse: Parser, stringify: Printer)
    requires RoundTrips(parse, stringify)
    ensures ScriptEditor.Load(Str(OnScriptEdit(w, lines, stringify).script), parse) == Some(lines)
  {
    ScriptEditor.LoadAfterEdit(lines, parse, stringify);
  }

  /** A finished synthesis replaces the audio and nothing else. */
  function OnSynthesisComplete(w: Wizard, a: TtsSynthesis.Audio): (r: Wizard)
    ensures r.audio == Some(a) && r == w.(audio := Some(a))
  {
    w.(audio := Some(a))
  }

  /** A synthesis run hands audio to the wizard only on success, so a failed
      request keeps the previous audio. */
  lemma FailedSynthesisKeepsAudio(w: Wizard, ticks: nat, progress: int, err: string)
    requires w.script != ""
    ensures TtsSynthesis.Synthesize(w.script, w.settings.mode, w.settings.roleAName, w.settings.roleBName,
      w.tts, progress, ticks, Failure(err)).delivered.None?
  {
  }
}
