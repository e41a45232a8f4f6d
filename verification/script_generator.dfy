/** The script generation panel: which view it shows for the current script,
    the role choices it derives from the settings, and the plain-text form of
    the script it copies to the clipboard or downloads. */
module ScriptGenerator {
  import opened Wrappers
  import opened Strings
  import opened Json
  import opened Settings
  import opened ScriptEditor

  /** The script as the panel reads it: parsed, or `[]` when parsing throws. */
  function ScriptArr(script: string, parse: Parser): Value {
    parse(script).GetOr(Arr([]))
  }

  /** JavaScript's `v.length > 0`; `None` when reading `length` throws (on
      `null`). An object's `length` is its member of that name, compared with
      0 as JavaScript compares it; a number or boolean has none. */
  function HasLength(v: Value): (r: Option<bool>)
    ensures r.None? <==> v.Null?
    ensures v.Arr? ==> r == Some(|v.items| > 0)
    ensures v.Obj? ==> r == Some("length" in v.fields && ExceedsZero(v.fields["length"]))
    ensures v.Num? || v.Bool? ==> r == Some(false)
  {
    match v
    case Null => None
    case Arr(items) => Some(|items| > 0)
    case Str(s) => Some(|s| > 0)
    case Obj(m) => Some("length" in m && ExceedsZero(m["length"]))
    case _ => Some(false)
  }

  /** What the panel body shows. */
  datatype View = Spinner | Editor(script: Value) | RawText | Prompt | RenderError

  function ViewOf(loading: bool, script: string, parse: Parser): (w: View)
    ensures loading <==> w.Spinner?
    ensures w.Editor? ==> w.script == ScriptArr(script, parse) && HasLength(w.script) == Some(true)
    ensures w.RawText? ==> script != "" && HasLength(ScriptArr(script, parse)) == Some(false)
    ensures w.Prompt? ==> script == "" && HasLength(ScriptArr(script, parse)) == Some(false)
    ensures !loading && parse(script) == Some(Null) ==> w.RenderError?
    ensures !loading && HasLength(ScriptArr(script, parse)) == Some(true) ==> w == Editor(ScriptArr(script, parse))
    ensures !loading && HasLength(ScriptArr(script, parse)) == Some(false) ==>
      (w.RawText? <==> script != "") && (w.Prompt? <==> script == "")
  {
    if loading then Spinner
    else
      var arr := ScriptArr(script, parse);
      match HasLength(arr)
      case None => RenderError
      case Some(true) => Editor(arr)
      case Some(false) => if script != "" then RawText else Prompt
  }

  /** After an edit is stored, the panel shows the editor again, and the editor
      loads exactly the edited lines. */
  lemma EditedScriptReopens(ls: seq<Line>, parse: Parser, stringify: Printer)
    requires RoundTrips(parse, stringify)
    requires |ls| > 0
    ensures var w := ViewOf(false, stringify(Arr(EncodeLines(ls))), parse);
      w.Editor? && Load(w.script, parse) == Some(ls)
  {
    var v := Arr(EncodeLines(ls));
    assert parse(stringify(v)) == Some(v);
    DecodeEncodeLines(ls);
  }

  /** One entry of the role list: its name and whether it is locked. */
  datatype RoleOption = RoleOption(value: string, disabled: bool)

  /** The role list for the current settings: one host in single mode (named,
      or a locked "Host" in English), otherwise the two named hosts, with
      language-dependent fallback names. */
  function RoleChoices(s: PodcastSettings): (r: seq<RoleOption>)
    ensures IsSingle(s) ==> |r| == 1
    ensures !IsSingle(s) ==> |r| == 2
    ensures forall i :: 0 <= i < |r| ==> r[i].value != ""
    ensures forall i :: 0 <= i < |r| ==> (r[i].disabled <==> IsSingle(s) && s.language == "en" && s.role1Name == "")
    ensures IsSingle(s) && s.role1Name != "" ==> r[0].value == s.role1Name
    ensures IsSingle(s) && s.role1Name == "" ==> r[0].value == (if s.language == "en" then "Host" else "主播")
    ensures !IsSingle(s) ==> r[0].value == Or(s.roleAName, if s.language == "en" then "HostA" else "角色A")
    ensures !IsSingle(s) ==> r[1].value == Or(s.roleBName, if s.language == "en" then "HostB" else "角色B")
  {
    var en := s.language == "en";
    if IsSingle(s) then
      if en && s.role1Name == "" then [RoleOption("Host", true)]
      else [RoleOption(Or(s.role1Name, if en then "Host" else "主播"), false)]
    else
      [RoleOption(Or(s.roleAName, if en then "HostA" else "角色A"), false),
       RoleOption(Or(s.roleBName, if en then "HostB" else "角色B"), false)]
  }

  /** A repeat-free list has as many entries as it has distinct values. */
  lemma {:induction false} RepeatFreeCount(xs: seq<string>)
    requires forall i, k :: 0 <= i < k < |xs| ==> xs[i] != xs[k]
    ensures |set x | x in xs| == |xs|
  {
    if |xs| > 0 {
      var n := |xs| - 1;
      var init := xs[..n];
      RepeatFreeCount(init);
      assert (set x | x in xs) == (set x | x in init) + {xs[n]};
      assert xs[n] !in (set x | x in init);
    }
  }

  /** A repeat-free list of two distinct values, holding both and nothing
      else, has exactly two entries. */
  lemma PairOfDistinct(xs: seq<string>, a: string, b: string)
    requires a != b && a in xs && b in xs
    requires forall x :: x in xs ==> x == a || x == b
    requires forall i, k :: 0 <= i < k < |xs| ==> xs[i] != xs[k]
    ensures |xs| == 2
  {
    RepeatFreeCount(xs);
    assert (set x | x in xs) == {a, b};
  }

  /** A two-host script that opens with the first host and uses only the
      two hosts the settings offer, both of them, gives the editor the same
      two role options, in the same order. */
  lemma TwoHostRoleOptions(s: PodcastSettings, ls: seq<Line>, j: nat)
    requires !IsSingle(s) && RoleChoices(s)[0].value != RoleChoices(s)[1].value
    requires |ls| > 0 && ls[0].role == RoleChoices(s)[0].value
    requires j < |ls| && ls[j].role == RoleChoices(s)[1].value
    requires forall i :: 0 <= i < |ls| ==> ls[i].role == RoleChoices(s)[0].value || ls[i].role == RoleChoices(s)[1].value
    ensures RoleOptions(ls) == [RoleChoices(s)[0].value, RoleChoices(s)[1].value]
  {
    var a, b := RoleChoices(s)[0].value, RoleChoices(s)[1].value;
    var xs, opts := RolesOf(ls), RoleOptions(ls);
    assert xs[0] == a && xs[j] == b;
    assert a in opts && b in opts;
    assert forall x :: x in opts ==> x == a || x == b;
    PairOfDistinct(opts, a, b);
    assert FirstIndex(xs, a) == 0;
    assert opts[0] == a;
    assert opts == [a, b];
  }

  /** One line in plain text: the bare text for a single host, `role：text` otherwise. */
  function LineText(l: Line, single: bool): string {
    if single then l.text else l.role + "：" + l.text
  }

  function LineTexts(lines: seq<Line>, single: bool): (r: seq<string>)
    ensures |r| == |lines|
    ensures forall i :: 0 <= i < |lines| ==> r[i] == LineText(lines[i], single)
  {
    seq(|lines|, i requires 0 <= i < |lines| => LineText(lines[i], single))
  }

  /** The plain-text script: the lines' texts separated by blank lines. */
  function FormatLines(lines: seq<Line>, single: bool): (r: string)
    ensures |lines| == 0 ==> r == ""
  {
    Join(LineTexts(lines, single), "\n\n")
  }

  lemma {:induction false} JoinOfManyIsLong(parts: seq<string>, sep: string)
    requires |parts| >= 2
    ensures |Join(parts, sep)| >= |sep|
  {
  }

  /** The plain text is empty exactly when there are no lines, or a single
      host has one line with no text. */
  lemma FormatEmpty(lines: seq<Line>, single: bool)
    ensures FormatLines(lines, single) == "" <==>
      |lines| == 0 || (single && |lines| == 1 && lines[0].text == "")
  {
    if |lines| >= 2 {
      JoinOfManyIsLong(LineTexts(lines, single), "\n\n");
    } else if |lines| == 1 && !single {
      assert |LineText(lines[0], false)| > 0;
    }
  }

  /** Cutting the plain text at its blank lines gives back one piece per line,
      as long as no piece contains a newline of its own. */
  lemma FormatSplitsBack(lines: seq<Line>, single: bool)
    requires |lines| > 0
    requires forall i :: 0 <= i < |lines| ==> '\n' !in LineText(lines[i], single)
    ensures SplitOn(FormatLines(lines, single), "\n\n") == LineTexts(lines, single)
  {
    SplitJoin(LineTexts(lines, single), "\n\n");
  }

  /** One script item in plain text, as `formatScriptText` builds it: the
      single host's `text` as `join` shows it (nothing when missing or
      `null`), or `${role}：${text}` for two hosts, where a missing member
      reads "undefined" and any other value its JavaScript text. */
  function ItemLine(item: Value, single: bool): string {
    if single then JoinedText(Get(item, "text"))
    else TemplateText(Get(item, "role")) + "：" + TemplateText(Get(item, "text"))
  }

  function ItemLines(items: seq<Value>, single: bool): (r: seq<string>)
    ensures |r| == |items|
    ensures forall i :: 0 <= i < |items| ==> r[i] == ItemLine(items[i], single)
  {
    seq(|items|, i requires 0 <= i < |items| => ItemLine(items[i], single))
  }

  /** Items written by the editor format exactly as the lines they encode. */
  lemma ItemLinesOfEncoded(ls: seq<Line>, single: bool)
    ensures ItemLines(EncodeLines(ls), single) == LineTexts(ls, single)
  {
    var xs, ys := ItemLines(EncodeLines(ls), single), LineTexts(ls, single);
    forall i | 0 <= i < |ls|
      ensures xs[i] == ys[i]
    {
      var item := EncodeLine(ls[i]);
      assert Get(item, "role") == Some(Str(ls[i].role));
      assert Get(item, "text") == Some(Str(ls[i].text));
    }
  }

  /** `formatScriptText` on the parsed script; `None` when it throws (a
      non-empty string or an object has no `map`, a `null` line has no
      `text`). A value whose `length` is falsy formats as "". */
  function FormatScript(arr: Value, single: bool): (r: Option<string>)
    ensures arr.Arr? ==> (r.Some? <==> (|arr.items| == 0 || Null !in arr.items))
    ensures arr.Arr? && r.Some? ==> r.value == Join(ItemLines(arr.items, single), "\n\n")
    ensures arr.Num? || arr.Bool? ==> r == Some("")
    ensures arr.Obj? ==> (r.None? <==> "length" in arr.fields && Truthy(arr.fields["length"]))
    ensures arr.Obj? && r.Some? ==> r.value == ""
    ensures arr.Str? ==> (r.Some? <==> arr.s == "")
    ensures arr.Null? ==> r.None?
  {
    match arr
    case Arr(items) =>
      if |items| == 0 then Some("")
      else if Null in items then None
      else Some(Join(ItemLines(items, single), "\n\n"))
    case Str(s) => if s == "" then Some("") else None
    case Null => None
    case Obj(m) => if "length" in m && Truthy(m["length"]) then None else Some("")
    case _ => Some("")
  }

  /** A script that parses to an object with a positive `length` opens the
      editor on that object, and formatting it throws at `map`. */
  lemma LengthMemberOpensEditor(script: string, parse: Parser, n: int, single: bool)
    requires n > 0 && parse(script) == Some(Obj(map["length" := Num(n)]))
    ensures ViewOf(false, script, parse) == Editor(Obj(map["length" := Num(n)]))
    ensures FormatScript(Obj(map["length" := Num(n)]), single).None?
  {
    var o := Obj(map["length" := Num(n)]);
    assert ScriptArr(script, parse) == o;
    assert HasLength(o) == Some(true);
  }

  /** A `length` written as a decimal string is compared as its number. */
  lemma TextLengthOpensEditor(script: string, parse: Parser)
    requires parse(script) == Some(Obj(map["length" := Str("2")]))
    ensures ViewOf(false, script, parse).Editor?
  {
    var t := "2";
    assert Trim(t) == t by { TrimUnpadded(t); }
    assert t[0] in "123456789";
    assert DecimalLiteral(t);
  }

  /** Lines the editor stored format as the lines themselves. */
  lemma FormatEncoded(ls: seq<Line>, single: bool)
    ensures FormatScript(Arr(EncodeLines(ls)), single) == Some(FormatLines(ls, single))
  {
    ItemLinesOfEncoded(ls, single);
    assert Null !in EncodeLines(ls) by {
      forall i | 0 <= i < |ls| ensures EncodeLines(ls)[i] != Null { }
    }
  }

  /** A two-host line without a role shows "undefined" for it. */
  lemma MissingRoleShowsUndefined(text: string)
    ensures FormatScript(Arr([Obj(map["text" := Str(text)])]), false) == Some("undefined：" + text)
  {
    var item := Obj(map["text" := Str(text)]);
    assert Get(item, "role").None? && Get(item, "text") == Some(Str(text));
    assert ItemLine(item, false) == "undefined" + "：" + text;
    assert "undefined" + "：" == "undefined：";
    assert ItemLines([item], false) == ["undefined：" + text];
  }

  /** A two-host line whose role is `null` shows "null" for it. */
  lemma NullRoleShowsNull(text: string)
    ensures FormatScript(Arr([Obj(map["role" := Null, "text" := Str(text)])]), false) == Some("null：" + text)
  {
    var item := Obj(map["role" := Null, "text" := Str(text)]);
    assert Get(item, "role") == Some(Null) && Get(item, "text") == Some(Str(text));
    assert ItemLine(item, false) == "null" + "：" + text;
    assert "null" + "：" == "null：";
    assert ItemLines([item], false) == ["null：" + text];
  }

  /** A bare string in the array has neither member. */
  lemma StringItemShowsUndefined(s: string)
    ensures FormatScript(Arr([Str(s)]), false) == Some("undefined：undefined")
  {
    assert Get(Str(s), "role").None? && Get(Str(s), "text").None?;
    assert ItemLine(Str(s), false) == "undefined" + "：" + "undefined";
    assert "undefined" + "：" + "undefined" == "undefined：undefined";
    assert ItemLines([Str(s)], false) == ["undefined：undefined"];
  }

  /** What the copy and download buttons do: nothing while disabled (no
      script), an error message when the plain text is empty, the export of
      the plain text otherwise. */
  datatype Export = Disabled | NothingToExport | Exported(text: string) | Throws

  function ExportScript(script: string, single: bool, parse: Parser): (e: Export)
    ensures e.Disabled? <==> script == ""
    ensures e.Exported? ==> e.text != "" && Some(e.text) == FormatScript(ScriptArr(script, parse), single)
    ensures e.NothingToExport? <==> script != "" && FormatScript(ScriptArr(script, parse), single) == Some("")
    ensures e.Throws? <==> script != "" && FormatScript(ScriptArr(script, parse), single).None?
  {
    if script == "" then Disabled
    else match FormatScript(ScriptArr(script, parse), single)
      case None => Throws
      case Some(t) => if t == "" then NothingToExport else Exported(t)
  }

  /** A two-host script that parses to an array of lines always exports, and
      the export is its formatted text. */
  lemma TwoHostScriptExports(script: string, ls: seq<Line>, parse: Parser)
    requires script != "" && |ls| > 0
    requires parse(script) == Some(Arr(EncodeLines(ls)))
    ensures ExportScript(script, false, parse) == Exported(FormatLines(ls, false))
  {
    FormatEncoded(ls, false);
    FormatEmpty(ls, false);
  }

  /** A single host's numeric text is exported as its digits. */
  lemma NumericTextExports(script: string, parse: Parser)
    requires script != ""
    requires parse(script) == Some(Arr([Obj(map["text" := Num(5)])]))
    ensures ExportScript(script, true, parse) == Exported("5")
  {
    var item := Obj(map["text" := Num(5)]);
    assert JsString(Num(5)) == "5";
    assert ItemLines([item], true) == ["5"];
  }
}
