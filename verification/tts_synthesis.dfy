/** The speech synthesis panel: per-voice parameters, voice defaults filled
    from the voice list, the form sent to the synthesis endpoint, the
    simulated progress bar, and the player's time display. */
module TtsSynthesis {
  import opened Wrappers
  import opened Strings

  /** The parameters of one voice. */
  datatype VoiceParams = VoiceParams(voice: string, speed: real, volume: real, pitch: int, emotion: string)

  /** Parameters for the single host and for the two hosts. */
  datatype TtsParams = TtsParams(single: VoiceParams, roleA: VoiceParams, roleB: VoiceParams)

  /** No voice chosen yet, neutral speed, volume, pitch and emotion. */
  const DefaultVoiceParams := VoiceParams("", 1.0, 1.0, 0, "neutral")

  const DefaultTtsParams := TtsParams(DefaultVoiceParams, DefaultVoiceParams, DefaultVoiceParams)

  /** An entry of the voice list. */
  datatype VoiceOption = VoiceOption(value: string, caption: string)

  /** The option offered when the voice list cannot be fetched. */
  const FallbackVoice := VoiceOption("male-qn-qingse", "青涩男声 (默认)")

  /** Fills in the voices still unset from a non-empty list: the first voice
      for the single host and host A, the second (else the first) for host B. */
  function ApplyDefaultVoices(p: TtsParams, voices: seq<VoiceOption>): (r: TtsParams)
    ensures |voices| == 0 ==> r == p
    ensures r.single == p.single.(voice := r.single.voice)
    ensures r.roleA == p.roleA.(voice := r.roleA.voice)
    ensures r.roleB == p.roleB.(voice := r.roleB.voice)
    ensures p.single.voice != "" ==> r.single.voice == p.single.voice
    ensures p.roleA.voice != "" ==> r.roleA.voice == p.roleA.voice
    ensures p.roleB.voice != "" ==> r.roleB.voice == p.roleB.voice
    ensures |voices| > 0 && p.single.voice == "" ==> r.single.voice == voices[0].value
    ensures |voices| > 0 && p.roleA.voice == "" ==> r.roleA.voice == voices[0].value
    ensures |voices| > 0 && p.roleB.voice == "" ==>
      r.roleB.voice == (if |voices| > 1 then Or(voices[1].value, voices[0].value) else voices[0].value)
  {
    if |voices| == 0 then p
    else
      var first := voices[0].value;
      var second := if |voices| > 1 then Or(voices[1].value, first) else first;
      TtsParams(
        p.single.(voice := Or(p.single.voice, first)),
        p.roleA.(voice := Or(p.roleA.voice, first)),
        p.roleB.(voice := Or(p.roleB.voice, second)))
  }

  /** Filling defaults twice is the same as filling them once. */
  lemma DefaultVoicesIdempotent(p: TtsParams, voices: seq<VoiceOption>)
    ensures ApplyDefaultVoices(ApplyDefaultVoices(p, voices), voices) == ApplyDefaultVoices(p, voices)
  {
  }

  /** Once voices with non-empty names are filled in, every role has a voice. */
  lemma DefaultVoicesFillAll(p: TtsParams, voices: seq<VoiceOption>)
    requires |voices| > 0 && voices[0].value != ""
    ensures var r := ApplyDefaultVoices(p, voices);
      r.single.voice != "" && r.roleA.voice != "" && r.roleB.voice != ""
  {
  }

  /** What fetching the voice list produced: the `voices` array when the
      answer had one, nothing when it did not, or a failed request. */
  datatype VoiceFetch = Fetched(voices: Option<seq<VoiceOption>>) | FetchFailed

  datatype VoicePanel = VoicePanel(options: seq<VoiceOption>, params: TtsParams)

  function OnVoicesFetched(panel: VoicePanel, f: VoiceFetch): (r: VoicePanel)
    ensures f.FetchFailed? ==> r == VoicePanel([FallbackVoice], panel.params)
    ensures f.Fetched? && f.voices.None? ==> r == panel
    ensures f.Fetched? && f.voices.Some? ==>
      r.options == f.voices.value && r.params == ApplyDefaultVoices(panel.params, f.voices.value)
  {
    match f
    case FetchFailed => panel.(options := [FallbackVoice])
    case Fetched(None) => panel
    case Fetched(Some(vs)) => VoicePanel(vs, ApplyDefaultVoices(panel.params, vs))
  }

  /** The three speakers whose parameters the panel edits. */
  datatype Speaker = SingleHost | HostA | HostB

  function ParamsOf(p: TtsParams, who: Speaker): VoiceParams {
    match who
    case SingleHost => p.single
    case HostA => p.roleA
    case HostB => p.roleB
  }

  /** One control of the panel changed. */
  datatype Control = SetVoice(voice: string) | SetEmotion(emotion: string) | SetSpeed(speed: real)
                   | SetVolume(volume: real) | SetPitch(pitch: int)

  function ApplyControl(v: VoiceParams, c: Control): (r: VoiceParams)
    ensures r.voice == if c.SetVoice? then c.voice else v.voice
    ensures r.emotion == if c.SetEmotion? then c.emotion else v.emotion
    ensures r.speed == if c.SetSpeed? then c.speed else v.speed
    ensures r.volume == if c.SetVolume? then c.volume else v.volume
    ensures r.pitch == if c.SetPitch? then c.pitch else v.pitch
  {
    match c
    case SetVoice(x) => v.(voice := x)
    case SetEmotion(x) => v.(emotion := x)
    case SetSpeed(x) => v.(speed := x)
    case SetVolume(x) => v.(volume := x)
    case SetPitch(x) => v.(pitch := x)
  }

  /** Changing one control of one speaker leaves every other speaker alone. */
  function Update(p: TtsParams, who: Speaker, c: Control): (r: TtsParams)
    ensures ParamsOf(r, who) == ApplyControl(ParamsOf(p, who), c)
    ensures forall o: Speaker :: o != who ==> ParamsOf(r, o) == ParamsOf(p, o)
  {
    match who
    case SingleHost => p.(single := ApplyControl(p.single, c))
    case HostA => p.(roleA := ApplyControl(p.roleA, c))
    case HostB => p.(roleB := ApplyControl(p.roleB, c))
  }

  /** Changes to different speakers commute. */
  lemma UpdatesCommute(p: TtsParams, a: Speaker, c: Control, b: Speaker, d: Control)
    requires a != b
    ensures Update(Update(p, a, c), b, d) == Update(Update(p, b, d), a, c)
  {
    var l := Update(Update(p, a, c), b, d);
    var r := Update(Update(p, b, d), a, c);
    assert forall o: Speaker :: ParamsOf(l, o) == ParamsOf(r, o);
    assert l.single == ParamsOf(l, SingleHost) && l.roleA == ParamsOf(l, HostA) && l.roleB == ParamsOf(l, HostB);
    assert r.single == ParamsOf(r, SingleHost) && r.roleA == ParamsOf(r, HostA) && r.roleB == ParamsOf(r, HostB);
  }

  /** Setting the same control twice keeps only the second value. */
  lemma LastWriteWins(p: TtsParams, who: Speaker, x: string, y: string)
    ensures Update(Update(p, who, SetVoice(x)), who, SetVoice(y)) == Update(p, who, SetVoice(y))
  {
  }

  /** A value in the synthesis form. */
  datatype FormValue = FText(text: string) | FReal(number: real) | FInt(whole: int)

  /** The multipart form: every field name is appended once. */
  type Form = map<string, FormValue>

  const SingleFields: set<string> := {"text", "mode", "language", "voice", "speed", "volume", "pitch", "emotion"}

  const DoubleFields: set<string> := {"text", "mode", "language", "roleAName", "roleBName", "roleAVoice", "roleBVoice",
    "speedA", "volumeA", "pitchA", "emotionA", "speedB", "volumeB", "pitchB", "emotionB"}

  datatype SynthesisRefusal = NoScript

  /** The multipart form posted to the synthesis endpoint. The language is
      always Chinese; the two-host form falls back to "角色A"/"角色B" for
      unnamed hosts. Refused when there is no script. */
  function SynthesisForm(script: string, mode: string, roleAName: string, roleBName: string, p: TtsParams)
    : (r: Result<Form, SynthesisRefusal>)
    ensures r.Failure? <==> script == ""
    ensures r.Success? && mode == "single" ==> r.value.Keys == SingleFields
    ensures r.Success? && mode != "single" ==> r.value.Keys == DoubleFields
    ensures r.Success? ==> (r.value["text"] == FText(script) && r.value["mode"] == FText(mode)
      && r.value["language"] == FText("zh"))
    ensures r.Success? && mode == "single" ==>
      r.value["voice"] == FText(p.single.voice) && r.value["speed"] == FReal(p.single.speed)
      && r.value["volume"] == FReal(p.single.volume) && r.value["pitch"] == FInt(p.single.pitch)
      && r.value["emotion"] == FText(p.single.emotion)
    ensures r.Success? && mode != "single" ==>
      r.value["roleAName"] == FText(Or(roleAName, "角色A")) && r.value["roleBName"] == FText(Or(roleBName, "角色B"))
      && r.value["roleAVoice"] == FText(p.roleA.voice) && r.value["roleBVoice"] == FText(p.roleB.voice)
      && r.value["speedA"] == FReal(p.roleA.speed) && r.value["speedB"] == FReal(p.roleB.speed)
      && r.value["volumeA"] == FReal(p.roleA.volume) && r.value["volumeB"] == FReal(p.roleB.volume)
      && r.value["pitchA"] == FInt(p.roleA.pitch) && r.value["pitchB"] == FInt(p.roleB.pitch)
      && r.value["emotionA"] == FText(p.roleA.emotion) && r.value["emotionB"] == FText(p.roleB.emotion)
  {
    if script == "" then Failure(NoScript)
    else
      var common := map["text" := FText(script), "mode" := FText(mode), "language" := FText("zh")];
      if mode == "single" then
        var v := p.single;
        Success(common["voice" := FText(v.voice)]["speed" := FReal(v.speed)]["volume" := FReal(v.volume)]
          ["pitch" := FInt(v.pitch)]["emotion" := FText(v.emotion)])
      else
        var a := p.roleA;
        var b := p.roleB;
        Success(common["roleAName" := FText(Or(roleAName, "角色A"))]["roleBName" := FText(Or(roleBName, "角色B"))]
          ["roleAVoice" := FText(a.voice)]["roleBVoice" := FText(b.voice)]
          ["speedA" := FReal(a.speed)]["volumeA" := FReal(a.volume)]["pitchA" := FInt(a.pitch)]["emotionA" := FText(a.emotion)]
          ["speedB" := FReal(b.speed)]["volumeB" := FReal(b.volume)]["pitchB" := FInt(b.pitch)]["emotionB" := FText(b.emotion)])
  }

  /** One tick of the simulated progress bar: up by ten, held at ninety. */
  function Tick(p: int): (r: int)
    ensures p < 90 ==> r == p + 10
    ensures p >= 90 ==> r == 90
  {
    if p >= 90 then 90 else p + 10
  }

  function Ticks(p: int, n: nat): int
    decreases n
  {
    if n == 0 then p else Ticks(Tick(p), n - 1)
  }

  function Min(a: int, b: int): int {
    if a <= b then a else b
  }

  /** Starting from zero, the bar shows ten per tick until it stops at ninety. */
  lemma {:induction false} TicksFromZero(n: nat)
    ensures Ticks(0, n) == Min(10 * n, 90)
  {
    TicksFrom(0, n);
  }

  lemma {:induction false} TicksFrom(k: nat, n: nat)
    requires k <= 9
    ensures Ticks(10 * k, n) == Min(10 * (k + n), 90)
    decreases n
  {
    if n > 0 {
      if k == 9 {
        TicksAtTop(n - 1);
      } else {
        TicksFrom(k + 1, n - 1);
      }
    }
  }

  lemma {:induction false} TicksAtTop(n: nat)
    ensures Ticks(90, n) == 90
  {
    if n > 0 {
      TicksAtTop(n - 1);
    }
  }

  /** The synthesized audio: an object URL and the bytes behind it. */
  datatype Audio = Audio(url: string, blob: seq<bv8>)

  /** One press of the synthesis button: the form sent (if any), the
      progress shown while `ticks` ticks elapse before the answer, the final
      progress, and the audio handed to the wizard on success. */
  datatype SynthesisRun = SynthesisRun(sent: Option<Form>, waiting: int, progress: int, delivered: Option<Audio>)

  function Synthesize(script: string, mode: string, roleAName: string, roleBName: string, p: TtsParams,
                      progress: int, ticks: nat, answer: Result<Audio, string>): (r: SynthesisRun)
    ensures script == "" ==> r == SynthesisRun(None, progress, progress, None)
    ensures script != "" ==> r.sent == Some(SynthesisForm(script, mode, roleAName, roleBName, p).value)
    ensures script != "" ==> r.waiting == Min(10 * ticks, 90)
    ensures script != "" && answer.Success? ==> r.progress == 100 && r.delivered == Some(answer.value)
    ensures script != "" && answer.Failure? ==> r.progress == 0 && r.delivered == None
  {
    if script == "" then SynthesisRun(None, progress, progress, None)
    else
      TicksFromZero(ticks);
      var form := SynthesisForm(script, mode, roleAName, roleBName, p).value;
      match answer
      case Success(audio) => SynthesisRun(Some(form), Ticks(0, ticks), 100, Some(audio))
      case Failure(_) => SynthesisRun(Some(form), Ticks(0, ticks), 0, None)
  }

  /** JavaScript `Math.trunc`. */
  function Trunc(x: real): int {
    if x >= 0.0 then x.Floor else -((-x).Floor)
  }

  function Minutes(t: real): int {
    (t / 60.0).Floor
  }

  /** `Math.floor(t % 60)` with JavaScript's truncating remainder. */
  function Seconds(t: real): int {
    (t - 60.0 * (Trunc(t / 60.0) as real)).Floor
  }

  /** The player's clock, `mm:ss`; `None` stands for an unknown (NaN) time. */
  function FormatTime(t: Option<real>): (r: string)
    ensures t.None? || t == Some(0.0) ==> r == "00:00"
    ensures t.Some? && t.value != 0.0 ==>
      r == PadStart2(IntToString(Minutes(t.value))) + ":" + PadStart2(IntToString(Seconds(t.value)))
  {
    match t
    case None => "00:00"
    case Some(x) =>
      if x == 0.0 then "00:00"
      else PadStart2(IntToString(Minutes(x))) + ":" + PadStart2(IntToString(Seconds(x)))
  }

  /** For a positive time the seconds field is below sixty and the two fields
      together give back the whole seconds elapsed. */
  lemma ClockFields(t: real)
    requires t > 0.0
    ensures 0 <= Seconds(t) < 60
    ensures 60 * Minutes(t) + Seconds(t) == t.Floor
  {
    var m := Minutes(t);
    assert (m as real) <= t / 60.0 < (m as real) + 1.0;
    assert Trunc(t / 60.0) == m;
    assert 60.0 * (m as real) <= t < 60.0 * (m as real) + 60.0;
    var d := t - 60.0 * (m as real);
    assert 0.0 <= d < 60.0;
    assert (t).Floor == 60 * m + d.Floor by {
      assert t == (60 * m) as real + d;
    }
  }

  /** The clock text reads back as the minutes and seconds elapsed. */
  lemma ClockReadsBack(t: real)
    requires t > 0.0
    ensures var r := FormatTime(Some(t)); var k := |r| - 3;
      k >= 2 && r[k] == ':' && r[..k] == PadStart2(NatToString(Minutes(t))) && r[k + 1..] == PadStart2(NatToString(Seconds(t)))
  {
    ClockFields(t);
    var m, sec := Minutes(t), Seconds(t);
    assert FormatTime(Some(t)) == PadStart2(IntToString(m)) + ":" + PadStart2(IntToString(sec));
    ClockText(m, sec);
    ColonJoin(PadStart2(NatToString(m)), PadStart2(NatToString(sec)));
  }

  /** The clock fields of whole minutes and seconds below sixty: the
      seconds take exactly two characters. */
  lemma ClockText(m: nat, sec: nat)
    requires sec < 60
    ensures PadStart2(IntToString(m)) + ":" + PadStart2(IntToString(sec))
         == PadStart2(NatToString(m)) + ":" + PadStart2(NatToString(sec))
    ensures |PadStart2(NatToString(sec))| == 2
  {
    ShortNumber(sec);
  }

  /** A number below a hundred has at most two digits. */
  lemma ShortNumber(n: nat)
    requires n < 100
    ensures |NatToString(n)| <= 2
  {
    if n >= 10 {
      assert n / 10 < 10;
    }
  }

  /** `a + ":" + b` with a two-character `b` splits back at its third-last character. */
  lemma ColonJoin(a: string, b: string)
    requires |a| >= 2 && |b| == 2
    ensures var r := a + ":" + b; var k := |r| - 3;
      k >= 2 && r[k] == ':' && r[..k] == a && r[k + 1..] == b
  {
  }
}
