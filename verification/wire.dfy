/** What crosses the HTTP boundary between the React wizard and the Python
    routes: the JSON body of a script generation request, read by the route
    as a dictionary, and the multipart synthesis form, read as the route's
    form fields. */
module Wire {
  import opened Wrappers
  import opened Strings
  import Json
  import opened Py
  import Settings
  import App
  import TtsSynthesis
  import Api
  import PodcastGenerator
  import DomPage

  // ---------------------------------------------------------------------
  // The script generation request

  /** The keys of the request body, in the order the page adds them. */
  function PayloadKeys(roles: App.RoleFields): (ks: seq<string>)
    ensures |ks| == if roles.OneHost? then 8 else 10
  {
    ["content", "podcast_title", "next_episode_preview", "podcast_mode", "language", "scriptLength"]
    + if roles.OneHost? then ["role1_name", "role1_style"]
      else ["roleA_name", "roleA_style", "roleB_name", "roleB_style"]
  }

  /** The request body as the route's `payload` dictionary: `JSON.stringify`
      then `json.loads`, with keys in the order the page adds them. Strings
      stay strings; how the extracted content converts is `toPy`. */
  function GenerationPayload(req: App.GenerationRequest, toPy: Json.Value -> Value): (r: seq<(string, Value)>)
    ensures Keys(r) == PayloadKeys(req.roles)
    ensures r[0].1 == toPy(req.content)
  {
    var base := [("content", toPy(req.content)), ("podcast_title", PStr(req.podcastTitle)),
                 ("next_episode_preview", PStr(req.nextEpisodePreview)), ("podcast_mode", PStr(req.podcastMode)),
                 ("language", PStr(req.language)), ("scriptLength", PStr(req.scriptLength))];
    var roles := match req.roles
      case OneHost(n, s) => [("role1_name", PStr(n)), ("role1_style", PStr(s))]
      case TwoHosts(an, ast, bn, bst) =>
        [("roleA_name", PStr(an)), ("roleA_style", PStr(ast)), ("roleB_name", PStr(bn)), ("roleB_style", PStr(bst))];
    var r := base + roles;
    assert forall i :: 0 <= i < |r| ==> r[i].0 == PayloadKeys(req.roles)[i];
    r
  }

  /** No key of the body repeats an earlier one. */
  lemma EarlierKeysDiffer(roles: App.RoleFields, i: nat)
    requires i < |PayloadKeys(roles)|
    ensures PayloadKeys(roles)[i] !in PayloadKeys(roles)[..i]
  {
    var ks := PayloadKeys(roles);
    if i < 6 {
      assert ks[..i] == ["content", "podcast_title", "next_episode_preview", "podcast_mode", "language", "scriptLength"][..i];
    } else if roles.OneHost? {
      assert ks[..i] == ["content", "podcast_title", "next_episode_preview", "podcast_mode", "language", "scriptLength",
                         "role1_name"][..i];
    } else {
      assert ks[..i] == ["content", "podcast_title", "next_episode_preview", "podcast_mode", "language", "scriptLength",
                         "roleA_name", "roleA_style", "roleB_name"][..i];
    }
  }

  /** The body never holds the host or duty fields. */
  lemma UnsentKeys(roles: App.RoleFields)
    ensures var ks := PayloadKeys(roles);
      "podcast_host" !in ks && "roleA_duty" !in ks && "roleB_duty" !in ks
  {
  }

  /** Each mode's body leaves out the other mode's role fields. */
  lemma OtherModeKeys(roles: App.RoleFields)
    ensures var ks := PayloadKeys(roles);
      (roles.OneHost? ==> "roleA_name" !in ks && "roleB_name" !in ks && "roleA_style" !in ks && "roleB_style" !in ks)
      && (roles.TwoHosts? ==> "role1_name" !in ks && "role1_style" !in ks)
  {
  }

  /** Every field of the body is what the route finds under its key. */
  lemma FieldArrives(req: App.GenerationRequest, toPy: Json.Value -> Value, i: nat)
    requires i < |PayloadKeys(req.roles)|
    ensures GetOr(GenerationPayload(req, toPy), PayloadKeys(req.roles)[i], PNone) == GenerationPayload(req, toPy)[i].1
  {
    var es := GenerationPayload(req, toPy);
    var ks := Keys(es);
    EarlierKeysDiffer(req.roles, i);
    assert forall k :: 0 <= k < i ==> es[k].0 == ks[..i][k];
    LookupAt(es, i);
  }

  /** A field the body does not hold arrives as `None`. */
  lemma FieldAbsent(req: App.GenerationRequest, toPy: Json.Value -> Value, key: string)
    requires key !in PayloadKeys(req.roles)
    ensures GetOr(GenerationPayload(req, toPy), key, PNone) == PNone
  {
  }

  /** The general fields of the request reach the generator as they were set. */
  lemma GeneralFieldsArrive(req: App.GenerationRequest, toPy: Json.Value -> Value)
    ensures var got := Api.RequestOf(GenerationPayload(req, toPy));
      got.content == toPy(req.content) && got.title == PStr(req.podcastTitle)
      && got.preview == PStr(req.nextEpisodePreview) && got.mode == PStr(req.podcastMode)
      && got.language == PStr(req.language) && got.length == PStr(req.scriptLength)
      && got.host == PNone && got.roleADuty == PNone && got.roleBDuty == PNone
  {
    FieldArrives(req, toPy, 0);
    FieldArrives(req, toPy, 1);
    FieldArrives(req, toPy, 2);
    FieldArrives(req, toPy, 3);
    FieldArrives(req, toPy, 4);
    FieldArrives(req, toPy, 5);
    UnsentKeys(req.roles);
    FieldAbsent(req, toPy, "podcast_host");
    FieldAbsent(req, toPy, "roleA_duty");
    FieldAbsent(req, toPy, "roleB_duty");
  }

  /** In single mode exactly the single host's fields arrive; the two
      hosts' are absent. */
  lemma OneHostFieldsArrive(req: App.GenerationRequest, toPy: Json.Value -> Value)
    requires req.roles.OneHost?
    ensures var got := Api.RequestOf(GenerationPayload(req, toPy));
      got.role1Name == PStr(req.roles.role1Name) && got.role1Style == PStr(req.roles.role1Style)
      && got.roleAName == PNone && got.roleBName == PNone && got.roleAStyle == PNone && got.roleBStyle == PNone
  {
    FieldArrives(req, toPy, 6);
    FieldArrives(req, toPy, 7);
    OtherModeKeys(req.roles);
    FieldAbsent(req, toPy, "roleA_name");
    FieldAbsent(req, toPy, "roleB_name");
    FieldAbsent(req, toPy, "roleA_style");
    FieldAbsent(req, toPy, "roleB_style");
  }

  /** In two-host mode the first host's fields arrive as set. */
  lemma HostAFieldsArrive(req: App.GenerationRequest, toPy: Json.Value -> Value)
    requires req.roles.TwoHosts?
    ensures var got := Api.RequestOf(GenerationPayload(req, toPy));
      got.roleAName == PStr(req.roles.roleAName) && got.roleAStyle == PStr(req.roles.roleAStyle)
  {
    var payload := GenerationPayload(req, toPy);
    FieldArrives(req, toPy, 6);
    FieldArrives(req, toPy, 7);
    assert PayloadKeys(req.roles)[6] == "roleA_name" && payload[6].1 == PStr(req.roles.roleAName);
    assert PayloadKeys(req.roles)[7] == "roleA_style" && payload[7].1 == PStr(req.roles.roleAStyle);
  }

  /** In two-host mode the second host's fields arrive as set. */
  lemma HostBFieldsArrive(req: App.GenerationRequest, toPy: Json.Value -> Value)
    requires req.roles.TwoHosts?
    ensures var got := Api.RequestOf(GenerationPayload(req, toPy));
      got.roleBName == PStr(req.roles.roleBName) && got.roleBStyle == PStr(req.roles.roleBStyle)
  {
    var payload := GenerationPayload(req, toPy);
    FieldArrives(req, toPy, 8);
    FieldArrives(req, toPy, 9);
    assert PayloadKeys(req.roles)[8] == "roleB_name" && payload[8].1 == PStr(req.roles.roleBName);
    assert PayloadKeys(req.roles)[9] == "roleB_style" && payload[9].1 == PStr(req.roles.roleBStyle);
  }

  /** In two-host mode the single host's fields are absent. */
  lemma SingleHostFieldsAbsent(req: App.GenerationRequest, toPy: Json.Value -> Value)
    requires req.roles.TwoHosts?
    ensures var got := Api.RequestOf(GenerationPayload(req, toPy));
      got.role1Name == PNone && got.role1Style == PNone
  {
    OtherModeKeys(req.roles);
    FieldAbsent(req, toPy, "role1_name");
    FieldAbsent(req, toPy, "role1_style");
  }

  /** The request the wizard builds reaches the generator with the
      wizard's mode, length and language, and with the role fields of the
      wizard's mode only. */
  lemma WizardRequestArrives(w: App.Wizard, toPy: Json.Value -> Value)
    requires App.BuildGenerationRequest(w).Success?
    ensures var got := Api.RequestOf(GenerationPayload(App.BuildGenerationRequest(w).value, toPy));
      got.content == toPy(w.content) && got.mode == PStr(w.settings.mode)
      && got.length == PStr(w.settings.scriptLength) && got.language == PStr(w.settings.language)
      && (Settings.IsSingle(w.settings) ==> got.role1Name == PStr(w.settings.role1Name) && got.roleAName == PNone)
      && (!Settings.IsSingle(w.settings) ==>
            got.roleAName == PStr(w.settings.roleAName) && got.roleBName == PStr(w.settings.roleBName)
            && got.role1Name == PNone)
  {
    var req := App.BuildGenerationRequest(w).value;
    GeneralFieldsArrive(req, toPy);
    if req.roles.OneHost? {
      OneHostFieldsArrive(req, toPy);
    } else {
      HostAFieldsArrive(req, toPy);
      HostBFieldsArrive(req, toPy);
      SingleHostFieldsAbsent(req, toPy);
    }
  }

  // ---------------------------------------------------------------------
  // The synthesis form

  /** The fields `generate_audio` reads the script with: `text` is
      required (without it the route answers 422 and `None` stands for
      that), `mode` defaults to 'single', the role names to `None`. Every
      multipart value arrives as text. */
  function Received(form: TtsSynthesis.Form): (r: Option<Api.AudioForm>)
    ensures r.Some? <==> "text" in form
    ensures r.Some? ==> "mode" !in form ==> r.value.mode == "single"
    ensures r.Some? ==> ("roleAName" in form <==> r.value.roleAName.Some?)
  {
    if "text" !in form then None
    else Some(Api.AudioForm(FieldText(form["text"]),
                            if "mode" in form then FieldText(form["mode"]) else "single",
                            if "roleAName" in form then Some(FieldText(form["roleAName"])) else None,
                            if "roleBName" in form then Some(FieldText(form["roleBName"])) else None))
  }

  /** A form value as the text it is sent as; numbers are not needed here. */
  function FieldText(v: TtsSynthesis.FormValue): string {
    if v.FText? then v.text else ""
  }

  /** The synthesis form reaches the route with the script, the mode, and
      in two-host mode the host names with their defaults. */
  lemma SynthesisFormArrives(script: string, mode: string, a: string, b: string, p: TtsSynthesis.TtsParams)
    requires script != ""
    ensures Received(TtsSynthesis.SynthesisForm(script, mode, a, b, p).value)
      == Some(Api.AudioForm(script, mode,
                            if mode == "single" then None else Some(Or(a, "角色A")),
                            if mode == "single" then None else Some(Or(b, "角色B"))))
  {
    var form := TtsSynthesis.SynthesisForm(script, mode, a, b, p).value;
    if mode == "single" {
      assert form.Keys == TtsSynthesis.SingleFields;
      assert "roleAName" !in form && "roleBName" !in form;
    } else {
      assert form.Keys == TtsSynthesis.DoubleFields;
      assert "roleAName" in form && "roleBName" in form;
    }
  }

  /** A single-host script from the wizard is spoken by the narrator
      throughout, and reading it never fails. */
  lemma SingleSynthesisNarrated(script: string, a: string, b: string, p: TtsSynthesis.TtsParams, loads: Loader)
    requires script != ""
    ensures var plan := Api.PlanOf(Received(TtsSynthesis.SynthesisForm(script, "single", a, b, p).value).value, loads);
      plan.failure.None? && forall k :: 0 <= k < |plan.calls| ==> plan.calls[k].speaker == Api.Narrator
  {
    SynthesisFormArrives(script, "single", a, b, p);
  }

  /** A plain two-host script from the wizard, each line starting with its
      host's name, is spoken line by line by the right host. */
  lemma DoubleSynthesisLineByLine(lines: seq<(bool, string)>, a: string, b: string, p: TtsSynthesis.TtsParams,
                                  loads: Loader)
    requires |lines| > 0 && a != "" && b != "" && a[0] != b[0]
    requires '\n' !in a && '\n' !in b
    requires forall k :: 0 <= k < |lines| ==> '\n' !in lines[k].1 && Unpadded(lines[k].1) && lines[k].1 != ""
    requires var text := Join(Api.SpokenLines(lines, a, b), "\n"); loads(text).None?
    ensures var script := Join(Api.SpokenLines(lines, a, b), "\n");
      script != "" &&
      var plan := Api.PlanOf(Received(TtsSynthesis.SynthesisForm(script, "double", a, b, p).value).value, loads);
      plan.failure.None? && |plan.calls| == |lines|
      && forall k :: 0 <= k < |lines| ==> plan.calls[k] == Api.Call(lines[k].1, if lines[k].0 then Api.RoleA else Api.RoleB)
  {
    var script := Join(Api.SpokenLines(lines, a, b), "\n");
    assert script != "" by {
      assert |Api.SpokenLines(lines, a, b)| == |lines|;
      assert Api.SpokenLines(lines, a, b)[0] == Api.Spoken(lines[0], a, b) != "";
      JoinStartsWithFirst(Api.SpokenLines(lines, a, b), "\n");
    }
    SynthesisFormArrives(script, "double", a, b, p);
    assert Or(a, "角色A") == a && Or(b, "角色B") == b;
    Api.PlainDoubleScript(lines, a, b, loads);
  }

  // ---------------------------------------------------------------------
  // The voice list

  /** The voice route sends each voice as `{value, label}`, while the page
      reads `voice_id` from each entry. Whatever the service offers, every
      option the page builds has the value "undefined". The synthesize
      button posts the selected option's value as it is, so "undefined" is
      what the page posts; and since that text is not empty, even the
      fallback of `generateAudio` (which nothing calls) would not apply.
      `toJs` is the JSON encoding of the route's answer, which keeps a
      dictionary's keys. */
  lemma PageVoiceOptionsUndefined(raw: seq<Value>, toJs: Value -> Json.Value, fallback: string)
    requires Api.FormatVoices(raw).Success?
    requires forall k :: 0 <= k < |Api.FormatVoices(raw).value| ==>
      var o := toJs(Api.FormatVoices(raw).value[k]);
      o.Obj? && o.fields.Keys == {"value", "label"}
    ensures var sent := Api.FormatVoices(raw).value;
      forall k :: 0 <= k < |sent| ==>
        DomPage.OptionId(toJs(sent[k])) == "undefined"
        && DomPage.PostedVoice(DomPage.OptionId(toJs(sent[k])), fallback) == "undefined"
  {
    var sent := Api.FormatVoices(raw).value;
    forall k | 0 <= k < |sent|
      ensures DomPage.OptionId(toJs(sent[k])) == "undefined"
    {
      assert "voice_id" !in toJs(sent[k]).fields.Keys;
    }
  }
}
