/** The MiniMax speech client: its construction from the environment, the
    selection of the voice list from the service's answer, the decoding of
    the hex audio a synthesis request returns, the cutting of long text into
    segments, and the module-level client that is built once. The HTTP
    requests and the audio splicing are parameters. */
module MinimaxTts {
  import opened Wrappers
  import opened Strings
  import opened Py

  // ---------------------------------------------------------------------
  // The client and its singleton

  datatype Client = Client(apiKey: string, groupId: string)

  const MissingCredentials := "请配置 MINIMAX_API_KEY 和 MINIMAX_GROUP_ID 环境变量"

  /** The constructor: both environment variables must be set and non-empty. */
  function NewClient(apiKey: Option<string>, groupId: Option<string>): (r: Result<Client, PyError>)
    ensures r.Success? <==> apiKey.GetOr("") != "" && groupId.GetOr("") != ""
    ensures r.Success? ==> r.value == Client(apiKey.GetOr(""), groupId.GetOr(""))
    ensures r.Failure? ==> r.error == ValueError(MissingCredentials)
  {
    if apiKey.GetOr("") == "" || groupId.GetOr("") == "" then Failure(ValueError(MissingCredentials))
    else Success(Client(apiKey.GetOr(""), groupId.GetOr("")))
  }

  /** The result of `get_tts_client` and the module's client afterwards. */
  datatype Fetched = Fetched(client: Result<Client, PyError>, held: Option<Client>)

  /** `get_tts_client`: the held client if there is one, else a new one,
      which is kept when construction succeeds. */
  function GetClient(held: Option<Client>, apiKey: Option<string>, groupId: Option<string>): (f: Fetched)
    ensures held.Some? ==> f == Fetched(Success(held.value), held)
    ensures held.None? ==> f.client == NewClient(apiKey, groupId)
    ensures f.client.Success? ==> f.held == Some(f.client.value)
    ensures f.client.Failure? ==> f.held == None
  {
    match held
    case Some(c) => Fetched(Success(c), held)
    case None =>
      match NewClient(apiKey, groupId)
      case Success(c) => Fetched(Success(c), Some(c))
      case Failure(e) => Fetched(Failure(e), None)
  }

  /** Once a call succeeds, every later call returns that same client,
      whatever the environment then says. */
  lemma ClientBuiltOnce(held: Option<Client>, k1: Option<string>, g1: Option<string>, k2: Option<string>, g2: Option<string>)
    requires GetClient(held, k1, g1).client.Success?
    ensures var first := GetClient(held, k1, g1);
      GetClient(first.held, k2, g2) == Fetched(first.client, first.held)
  {
  }

  // ---------------------------------------------------------------------
  // Voices

  /** Reads `result[key]` when `key in result` and the value is a list. */
  function ListUnder(result: Value, key: string): (r: Result<Option<seq<Value>>, PyError>)
    ensures result.PDict? ==> r.Success?
    ensures result.PDict? && r.value.Some? ==> Lookup(result.entries, key) == Some(PList(r.value.value))
    ensures result.PDict? && r.value.None? ==> Lookup(result.entries, key).None? || !Lookup(result.entries, key).value.PList?
  {
    match In(PStr(key), result)
    case Failure(e) => Failure(e)
    case Success(found) =>
      if !found then Success(None)
      else
        match Index(result, key)
        case Failure(e) => Failure(e)
        case Success(v) => if v.PList? then Success(Some(v.items)) else Success(None)
  }

  /** `get_available_voices` after the request: a `system_voice` list, else
      a `voices` list, else the empty list. An answer that is not an object
      raises as Python would on `in` or on indexing. */
  function VoiceList(result: Value): (r: Result<seq<Value>, PyError>)
    ensures result.PDict? ==> r.Success?
    ensures result.PDict? ==>
      match Lookup(result.entries, "system_voice")
      case Some(PList(xs)) => r.value == xs
      case _ =>
        match Lookup(result.entries, "voices")
        case Some(PList(ys)) => r.value == ys
        case _ => r.value == []
    ensures result.PNone? || result.PBool? || result.PInt? ==> r == Failure(TypeError)
  {
    match ListUnder(result, "system_voice")
    case Failure(e) => Failure(e)
    case Success(Some(xs)) => Success(xs)
    case Success(None) =>
      match ListUnder(result, "voices")
      case Failure(e) => Failure(e)
      case Success(Some(ys)) => Success(ys)
      case Success(None) => Success([])
  }

  /** A list answer raises only when it contains the string "system_voice"
      (or "voices"), since a list cannot be indexed by a string. */
  lemma ListAnswer(xs: seq<Value>)
    ensures VoiceList(PList(xs)).Success? <==> PStr("system_voice") !in xs && PStr("voices") !in xs
    ensures VoiceList(PList(xs)).Success? ==> VoiceList(PList(xs)).value == []
  {
  }

  // ---------------------------------------------------------------------
  // Hex audio

  type Byte = b: int | 0 <= b < 256

  predicate IsHexDigit(c: char) {
    '0' <= c <= '9' || 'a' <= c <= 'f' || 'A' <= c <= 'F'
  }

  function HexValue(c: char): (v: nat)
    requires IsHexDigit(c)
    ensures v < 16
  {
    if '0' <= c <= '9' then c as int - '0' as int
    else if 'a' <= c <= 'f' then c as int - 'a' as int + 10
    else c as int - 'A' as int + 10
  }

  /** `bytes.fromhex(s)` from position `i`: whitespace between pairs is
      skipped, each byte is two hex digits of either case, anything else
      raises `ValueError` (here `None`). */
  function FromHexAt(s: string, i: nat): (r: Option<seq<Byte>>)
    requires i <= |s|
    decreases |s| - i
  {
    var j := SkipSpaces(s, i);
    if j == |s| then Some([])
    else if j + 1 < |s| && IsHexDigit(s[j]) && IsHexDigit(s[j + 1]) then
      match FromHexAt(s, j + 2)
      case None => None
      case Some(rest) => Some([16 * HexValue(s[j]) + HexValue(s[j + 1])] + rest)
    else None
  }

  function FromHex(s: string): (r: Option<seq<Byte>>)
    ensures AllSpace(s) ==> r == Some([])
  {
    FromHexAt(s, 0)
  }

  function HexDigit(v: nat): (c: char)
    requires v < 16
    ensures IsHexDigit(c) && HexValue(c) == v
  {
    if v < 10 then ('0' as int + v) as char else ('a' as int + v - 10) as char
  }

  /** Lower-case hex, two digits per byte. */
  function ToHex(bs: seq<Byte>): (s: string)
    ensures |s| == 2 * |bs|
    ensures forall k :: 0 <= k < |s| ==> IsHexDigit(s[k])
  {
    if |bs| == 0 then ""
    else
      var rest := ToHex(bs[1..]);
      var s := [HexDigit(bs[0] / 16), HexDigit(bs[0] % 16)] + rest;
      assert forall k :: 2 <= k < |s| ==> s[k] == rest[k - 2];
      s
  }

  /** Byte `k` is written as the two digits at `2k`: high half, then low. */
  lemma {:induction false} ToHexDigits(bs: seq<Byte>, k: nat)
    requires k < |bs|
    ensures ToHex(bs)[2 * k] == HexDigit(bs[k] / 16) && ToHex(bs)[2 * k + 1] == HexDigit(bs[k] % 16)
    decreases k
  {
    if k > 0 {
      ToHexDigits(bs[1..], k - 1);
      var rest := ToHex(bs[1..]);
      assert ToHex(bs)[2 * k] == rest[2 * (k - 1)];
      assert ToHex(bs)[2 * k + 1] == rest[2 * (k - 1) + 1];
    }
  }

  /** Decoding the hex text of some bytes gives the bytes back. */
  lemma HexRoundTrip(bs: seq<Byte>)
    ensures FromHex(ToHex(bs)) == Some(bs)
  {
    HexRoundTripFrom(bs, 0);
  }

  lemma {:induction false} HexRoundTripFrom(bs: seq<Byte>, k: nat)
    requires k <= |bs|
    ensures FromHexAt(ToHex(bs), 2 * k) == Some(bs[k..])
    decreases |bs| - k
  {
    var s := ToHex(bs);
    if k < |bs| {
      ToHexDigits(bs, k);
      assert !IsSpace(s[2 * k]);
      assert SkipSpaces(s, 2 * k) == 2 * k;
      HexRoundTripFrom(bs, k + 1);
      assert 16 * HexValue(s[2 * k]) + HexValue(s[2 * k + 1]) == bs[k];
      assert bs[k..] == [bs[k]] + bs[k + 1..];
    } else {
      assert SkipSpaces(s, 2 * k) == |s|;
      assert bs[k..] == [];
    }
  }

  /** The audio of a synthesis answer: `data.audio` decoded from hex. An
      answer without it raises the "unexpected content" error, showing the
      answer through `show`; Python's own exceptions are shown through
      `explain`. Every failure is wrapped with the synchronous-call prefix. */
  function AudioOf(result: Value, show: Value -> string, explain: PyError -> string): (r: Result<seq<Byte>, string>)
    ensures AudioOfInner(result, show, explain).Success? ==> r == AudioOfInner(result, show, explain)
    ensures AudioOfInner(result, show, explain).Failure? ==>
      r == Failure("同步TTS失败: " + AudioOfInner(result, show, explain).error)
  {
    match AudioOfInner(result, show, explain)
    case Success(bs) => Success(bs)
    case Failure(m) => Failure("同步TTS失败: " + m)
  }

  /** The answer the service gives for some audio decodes to that audio. */
  lemma AudioRoundTrip(bs: seq<Byte>, show: Value -> string, explain: PyError -> string)
    ensures AudioOf(PDict([("data", PDict([("audio", PStr(ToHex(bs)))]))]), show, explain) == Success(bs)
  {
    HexRoundTrip(bs);
  }

  /** An answer without `data` raises the unexpected-content error. */
  lemma MissingDataRaises(entries: seq<(string, Value)>, show: Value -> string, explain: PyError -> string)
    requires "data" !in Keys(entries)
    ensures AudioOf(PDict(entries), show, explain) == Failure("同步TTS失败: TTS返回内容异常: " + show(PDict(entries)))
  {
    var m := show(PDict(entries));
    InnerMissingData(entries, show, explain);
    assert "同步TTS失败: " + ("TTS返回内容异常: " + m) == "同步TTS失败: TTS返回内容异常: " + m;
  }

  lemma InnerMissingData(entries: seq<(string, Value)>, show: Value -> string, explain: PyError -> string)
    requires "data" !in Keys(entries)
    ensures AudioOfInner(PDict(entries), show, explain) == Failure("TTS返回内容异常: " + show(PDict(entries)))
  {
    assert Lookup(entries, "data").None?;
  }

  function AudioOfInner(result: Value, show: Value -> string, explain: PyError -> string): (r: Result<seq<Byte>, string>)
    ensures result.PDict? && Lookup(result.entries, "data").Some? && Lookup(result.entries, "data").value.PDict? ==>
      var data := Lookup(result.entries, "data").value;
      match Lookup(data.entries, "audio")
      case None => r == Failure("TTS返回内容异常: " + show(result))
      case Some(PStr(h)) => r == (match FromHex(h) case Some(bs) => Success(bs) case None => Failure(explain(ValueError("fromhex"))))
      case Some(_) => r == Failure(explain(TypeError))
    ensures result.PDict? && Lookup(result.entries, "data").None? ==> r == Failure("TTS返回内容异常: " + show(result))
  {
    match In(PStr("data"), result)
    case Failure(e) => Failure(explain(e))
    case Success(hasData) =>
      if !hasData then Failure("TTS返回内容异常: " + show(result))
      else
        match Index(result, "data")
        case Failure(e) => Failure(explain(e))
        case Success(data) =>
          match In(PStr("audio"), data)
          case Failure(e) => Failure(explain(e))
          case Success(hasAudio) =>
            if !hasAudio then Failure("TTS返回内容异常: " + show(result))
            else
              match Index(data, "audio")
              case Failure(e) => Failure(explain(e))
              case Success(PStr(h)) =>
                (match FromHex(h)
                 case Some(bs) => Success(bs)
                 case None => Failure(explain(ValueError("fromhex"))))
              case Success(_) => Failure(explain(TypeError))
  }

  // ---------------------------------------------------------------------
  // Long text

  const DefaultMaxLength: int := 800

  function Min(a: int, b: int): int {
    if a <= b then a else b
  }

  /** `[text[i:i+m] for i in range(start, len(text), m)]` for a positive `m`:
      the segments laid end to end are the text from `start` on, each has
      between 1 and `m` characters, all but the last have exactly `m`, and
      their number n is the ceiling of the remaining length over m,
      (n - 1) * m < remaining <= n * m. */
  function SlicesFrom(text: string, m: nat, start: nat): (r: seq<string>)
    requires m > 0 && start <= |text|
    ensures Concat(r) == text[start..]
    ensures forall k :: 0 <= k < |r| ==> 0 < |r[k]| <= m
    ensures forall k :: 0 <= k < |r| - 1 ==> |r[k]| == m
    ensures |r| * m >= |text| - start
    ensures |r| == 0 || (|r| - 1) * m < |text| - start
    decreases |text| - start
  {
    if start == |text| then []
    else
      var j := Min(start + m, |text|);
      var rest := SlicesFrom(text, m, j);
      var r := [text[start..j]] + rest;
      assert r[1..] == rest;
      assert text[start..j] + text[j..] == text[start..];
      MulSucc(|rest|, m);
      MulSucc(if |rest| > 0 then |rest| - 1 else 0, m);
      assert forall k :: 1 <= k < |r| ==> r[k] == rest[k - 1];
      r
  }

  lemma MulSucc(n: nat, m: nat)
    ensures (n + 1) * m == n * m + m
  {
  }

  /** The segment count is ceil(len / m). */
  lemma SegmentCount(text: string, m: nat)
    requires m > 0
    ensures |SlicesFrom(text, m, 0)| == (|text| + m - 1) / m
  {
    CeilDiv(|text|, m, |SlicesFrom(text, m, 0)|);
  }

  /** The ceiling characterised by multiplication is the one computed by division. */
  lemma CeilDiv(len: nat, m: nat, n: nat)
    requires m > 0 && n * m >= len && (n == 0 || (n - 1) * m < len)
    ensures n == (len + m - 1) / m
  {
    var q := (len + m - 1) / m;
    var r := (len + m - 1) % m;
    assert len + m - 1 == q * m + r;
    assert n * m < (q + 1) * m by {
      if n > 0 { assert n * m == (n - 1) * m + m; }
    }
    MulLt(n, q + 1, m);
    assert q * m < (n + 1) * m;
    MulLt(q, n + 1, m);
  }

  lemma MulLt(a: int, b: int, m: nat)
    requires m > 0 && a * m < b * m
    ensures a < b
  {
  }

  /** `synthesize_long_text` before the splicing: the segments for the given
      maximum length. A zero length raises as `range` does; a negative one
      gives no segment. */
  function Segments(text: string, maxLength: int): (r: Result<seq<string>, PyError>)
    ensures maxLength == 0 ==> r == Failure(ValueError("range() arg 3 must not be zero"))
    ensures maxLength < 0 ==> r == Success([])
    ensures maxLength > 0 ==> r == Success(SlicesFrom(text, maxLength, 0))
  {
    if maxLength == 0 then Failure(ValueError("range() arg 3 must not be zero"))
    else if maxLength < 0 then Success([])
    else Success(SlicesFrom(text, maxLength, 0))
  }

  /** Empty text is never sent. */
  lemma EmptyTextNoSegments(maxLength: int)
    requires maxLength != 0
    ensures Segments("", maxLength) == Success([])
  {
  }

  /** The synthesis calls one after another; the first failure stops the
      rest. */
  function SynthesizeAll<A>(segments: seq<string>, synth: string -> Result<A, string>): (r: Result<seq<A>, string>)
    ensures r.Success? ==> |r.value| == |segments| && forall i :: 0 <= i < |segments| ==> synth(segments[i]) == Success(r.value[i])
    ensures r.Failure? <==> exists i :: 0 <= i < |segments| && synth(segments[i]).Failure?
  {
    if |segments| == 0 then Success([])
    else
      match synth(segments[0])
      case Failure(e) => Failure(e)
      case Success(a) =>
        match SynthesizeAll(segments[1..], synth)
        case Failure(e) =>
          assert exists i :: 0 <= i < |segments| && synth(segments[i]).Failure? by {
            var i :| 0 <= i < |segments[1..]| && synth(segments[1..][i]).Failure?;
            assert synth(segments[i + 1]).Failure?;
          }
          Failure(e)
        case Success(rest) =>
          var r := [a] + rest;
          assert forall i :: 1 <= i < |segments| ==> segments[i] == segments[1..][i - 1];
          Success(r)
  }

  /** With a positive maximum length the segments laid end to end are the
      text, and there are ceil(len / maxLength) of them. */
  lemma SegmentsPartition(text: string, maxLength: int)
    requires maxLength > 0
    ensures Segments(text, maxLength).Success?
    ensures Concat(Segments(text, maxLength).value) == text
    ensures |Segments(text, maxLength).value| == (|text| + maxLength - 1) / maxLength
  {
    SegmentCount(text, maxLength);
    assert text[0..] == text;
  }

  /** Why `synthesize_long_text` stops: the segment range raised, or a
      segment's synthesis failed with the given message. */
  datatype LongTextFailure = RangeFailed(error: PyError) | SegmentFailed(message: string)

  /** `synthesize_long_text` up to the splicing: the audio of every segment,
      in order; `synth` stands for `synthesize_text_sync` with the other
      arguments fixed. */
  function LongText<A>(text: string, maxLength: int, synth: string -> Result<A, string>): (r: Result<seq<A>, LongTextFailure>)
    ensures Segments(text, maxLength).Failure? ==> r == Failure(RangeFailed(Segments(text, maxLength).error))
    ensures Segments(text, maxLength).Success? ==>
      var segs := Segments(text, maxLength).value;
      (r.Success? <==> forall i :: 0 <= i < |segs| ==> synth(segs[i]).Success?)
      && (r.Success? ==> |r.value| == |segs| && forall i :: 0 <= i < |segs| ==> synth(segs[i]) == Success(r.value[i]))
  {
    match Segments(text, maxLength)
    case Failure(e) => Failure(RangeFailed(e))
    case Success(segs) =>
      match SynthesizeAll(segs, synth)
      case Failure(m) => Failure(SegmentFailed(m))
      case Success(pieces) => Success(pieces)
  }

  /** `synthesize_long_text` as the audio route calls it, with the default
      maximum length of 800 characters: one synthesis per 800-character
      segment of the text, ceil(len / 800) of them, the segments laid end to
      end being the text. */
  function LongTextDefault<A>(text: string, synth: string -> Result<A, string>): (r: Result<seq<A>, LongTextFailure>)
    ensures r.Failure? ==> r.error.SegmentFailed?
    ensures r.Success? ==> |r.value| == (|text| + DefaultMaxLength - 1) / DefaultMaxLength
    ensures r.Success? <==> forall i :: 0 <= i < |SlicesFrom(text, 800, 0)| ==> synth(SlicesFrom(text, 800, 0)[i]).Success?
  {
    SegmentsPartition(text, DefaultMaxLength);
    assert Segments(text, DefaultMaxLength).value == SlicesFrom(text, 800, 0);
    LongText(text, DefaultMaxLength, synth)
  }

  /** Text of at most 800 characters is synthesized in one call, or none
      when it is empty. */
  lemma ShortTextOneCall<A>(text: string, synth: string -> Result<A, string>)
    requires 0 < |text| <= DefaultMaxLength
    requires synth(text).Success?
    ensures LongTextDefault(text, synth) == Success([synth(text).value])
  {
    var segs := SlicesFrom(text, 800, 0);
    SegmentsPartition(text, DefaultMaxLength);
    assert |segs| == 1;
    assert segs[1..] == [];
    assert Concat(segs) == segs[0] + Concat(segs[1..]);
    assert segs[0] == text;
    var r := LongTextDefault(text, synth);
    assert r.Success? && |r.value| == 1;
    assert r.value == [r.value[0]];
  }
}
