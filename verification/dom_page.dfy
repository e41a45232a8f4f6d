/** The standalone page script: decoding the generated script, rendering it as
    editable lines with role buttons, reading it back from the page, the
    synthesis guards, step navigation, voice list refresh and display lookups. */
module DomPage {
  import opened Wrappers
  import opened Strings
  import opened Json
  import ScriptEditor

  /** Reference for the decode loop: parse at most `n` more times while the
      value is still a string, stopping at the first failed parse. */
  function ParseAtMost(v: Value, n: nat, parse: Parser): Value
    decreases n
  {
    if n == 0 || !v.Str? then v
    else match parse(v.s)
      case None => v
      case Some(w) => ParseAtMost(w, n - 1, parse)
  }

  /** The array of script items decoded from `podcast_script`: up to three
      parses, and anything that is not then an array counts as empty. */
  function ScriptItems(payload: Value, parse: Parser): seq<Value> {
    match ParseAtMost(payload, 3, parse)
    case Arr(items) => items
    case _ => []
  }

  /** The decode loop as written: at most three parse attempts, breaking on
      the first failure, then a non-array becomes []. */
  method DecodeScript(payload: Value, parse: Parser) returns (items: seq<Value>)
    ensures items == ScriptItems(payload, parse)
  {
    var arr := payload;
    var tryCount := 0;
    while arr.Str? && tryCount < 3
      invariant 0 <= tryCount <= 3
      invariant ParseAtMost(arr, 3 - tryCount, parse) == ParseAtMost(payload, 3, parse)
      decreases 3 - tryCount
    {
      var parsed := parse(arr.s);
      if parsed.None? {
        break;
      }
      arr := parsed.value;
      tryCount := tryCount + 1;
    }
    if arr.Arr? {
      items := arr.items;
    } else {
      items := [];
    }
  }

  /** `depth` rounds of stringification around a value. */
  function Encode(v: Value, depth: nat, stringify: Printer): Value {
    if depth == 0 then v else Str(stringify(Encode(v, depth - 1, stringify)))
  }

  lemma {:induction false} ParseUndoesEncode(v: Value, depth: nat, n: nat, parse: Parser, stringify: Printer)
    requires RoundTrips(parse, stringify)
    requires !v.Str? && n <= depth
    ensures ParseAtMost(Encode(v, depth, stringify), n, parse) == Encode(v, depth - n, stringify)
    decreases n
  {
    if n > 0 {
      var inner := Encode(v, depth - 1, stringify);
      assert parse(stringify(inner)) == Some(inner);
      ParseUndoesEncode(v, depth - 1, n - 1, parse, stringify);
    }
  }

  /** An array stringified up to three times decodes to its items; four times
      is one time too many and decodes to nothing. */
  lemma NestedEncodings(xs: seq<Value>, depth: nat, parse: Parser, stringify: Printer)
    requires RoundTrips(parse, stringify)
    requires depth <= 4
    ensures depth <= 3 ==> ScriptItems(Encode(Arr(xs), depth, stringify), parse) == xs
    ensures depth == 4 ==> ScriptItems(Encode(Arr(xs), depth, stringify), parse) == []
  {
    if depth <= 3 {
      ParseUndoesEncode(Arr(xs), depth, depth, parse, stringify);
    } else {
      ParseUndoesEncode(Arr(xs), 4, 3, parse, stringify);
    }
  }

  /** One editor row on the page: the role button's text and the text box. */
  datatype Row = Row(button: string, input: string)

  /** The role names of the two-host mode: the inputs, or "角色A"/"角色B" when empty. */
  function HostNames(aInput: string, bInput: string): (r: (string, string))
    ensures r.0 != "" && r.1 != ""
    ensures r.0 == Or(aInput, "角色A") && r.1 == Or(bInput, "角色B")
  {
    (Or(aInput, "角色A"), Or(bInput, "角色B"))
  }

  /** The role a new row starts with: the given role if it is one of the two
      hosts, else host A. */
  function InitialRole(role: string, a: string, b: string): (r: string)
    ensures r == a || r == b
    ensures (role == a || role == b) <==> r == role
  {
    if role == a || role == b then role else a
  }

  /** A click on the role button swaps between the two hosts. */
  function ToggleRole(current: string, a: string, b: string): (r: string)
    ensures r == a || r == b
    ensures current == a ==> r == b
    ensures current != a ==> r == a
  {
    if current == a then b else a
  }

  /** With two different host names, two clicks restore the role. */
  lemma ToggleTwice(role: string, a: string, b: string)
    requires a != b
    ensures var r := InitialRole(role, a, b); ToggleRole(ToggleRole(r, a, b), a, b) == r
  {
  }

  /** The role of a script item as the row builder receives it: a missing
      member takes the default "角色A"; a non-string never matches a host name. */
  function ItemRole(v: Value): string {
    match Get(v, "role")
    case None => "角色A"
    case Some(Str(s)) => s
    case Some(_) => ""
  }

  /** The text box of a script item, `text || ''`: a falsy or missing text
      shows as "", anything else as its JavaScript text. */
  function ItemText(v: Value): (r: string)
    ensures Get(v, "text").None? || !Truthy(Get(v, "text").value) ==> r == ""
    ensures GetString(v, "text").Some? ==> r == GetString(v, "text").value
  {
    match Get(v, "text")
    case None => ""
    case Some(t) => if Truthy(t) then JsString(t) else ""
  }

  /** The row rendered for one item: the fixed single-host name, or the
      item's host followed by the swap symbol. */
  function RenderRow(item: Value, double: bool, singleName: string, aInput: string, bInput: string): (r: Row)
    ensures r.input == ItemText(item)
    ensures !double ==> r.button == singleName
    ensures double ==> var (a, b) := HostNames(aInput, bInput);
      r.button == InitialRole(ItemRole(item), a, b) + " ⇄"
  {
    if !double then Row(singleName, ItemText(item))
    else
      var (a, b) := HostNames(aInput, bInput);
      Row(InitialRole(ItemRole(item), a, b) + " ⇄", ItemText(item))
  }

  /** A non-zero numeric text is shown as its digits. */
  lemma NumericTextShown(n: int, double: bool, singleName: string, aInput: string, bInput: string)
    requires n != 0
    ensures RenderRow(Obj(map["text" := Num(n)]), double, singleName, aInput, bInput).input == IntToString(n)
  {
    assert Get(Obj(map["text" := Num(n)]), "text") == Some(Num(n));
  }

  /** The rows the editor holds after rendering: the editor is cleared, then
      one row per item, in order, until a `null` item, whose `role` cannot
      be read, throws and stops the loop. */
  function RenderRows(items: seq<Value>, double: bool, singleName: string, aInput: string, bInput: string)
    : (r: seq<Row>)
    ensures |r| <= |items|
    ensures forall i :: 0 <= i < |r| ==> items[i] != Null
    ensures |r| < |items| ==> items[|r|] == Null
    ensures Null !in items ==> |r| == |items|
    ensures forall i {:trigger r[i]} :: 0 <= i < |r| ==> r[i] == RenderRow(items[i], double, singleName, aInput, bInput)
  {
    if |items| == 0 || items[0] == Null then []
    else [RenderRow(items[0], double, singleName, aInput, bInput)] + RenderRows(items[1..], double, singleName, aInput, bInput)
  }

  /** A `null` after the first item leaves exactly the first item's row. */
  lemma NullStopsAfterFirstRow(item: Value, double: bool, singleName: string, aInput: string, bInput: string)
    requires item != Null
    ensures RenderRows([item, Null], double, singleName, aInput, bInput) == [RenderRow(item, double, singleName, aInput, bInput)]
  {
    assert [item, Null][1..] == [Null];
  }

  /** The role read back from a button: the text before the first swap symbol, trimmed. */
  function RoleOfLabel(caption: string): string {
    Trim(SplitOn(caption, "⇄")[0])
  }

  /** A line as the page keeps it: its text is trimmed and not empty. */
  predicate Kept(l: ScriptEditor.Line) {
    l.text != "" && Unpadded(l.text)
  }

  /** The line read back from one row, unless its trimmed text is empty. */
  function LineOfRow(row: Row): (r: Option<ScriptEditor.Line>)
    ensures r.None? <==> IsBlank(row.input)
    ensures r.Some? ==> Kept(r.value) && r.value.text == Trim(row.input)
  {
    var text := Trim(row.input);
    if text == [] then None
    else
      Some(ScriptEditor.Line(RoleOfLabel(row.button), text))
  }

  /** The script read back from the page: one line per row whose trimmed
      text is not empty, in page order, with trimmed role and text. */
  function ScriptFromRows(rows: seq<Row>): (r: seq<ScriptEditor.Line>)
    ensures |r| <= |rows|
  {
    if |rows| == 0 then [] else Lines(LineOfRow(rows[0])) + ScriptFromRows(rows[1..])
  }

  /** The lines one row contributes: none or one. */
  function Lines(o: Option<ScriptEditor.Line>): (r: seq<ScriptEditor.Line>)
    ensures o.None? ==> r == []
    ensures o.Some? ==> r == [o.value]
  {
    if o.None? then [] else [o.value]
  }

  /** Every line read back has trimmed, non-empty text. */
  lemma {:induction false} ScriptFromRowsKept(rows: seq<Row>)
    ensures forall i :: 0 <= i < |ScriptFromRows(rows)| ==> Kept(ScriptFromRows(rows)[i])
  {
    if |rows| > 0 {
      ScriptFromRowsKept(rows[1..]);
      var head := Lines(LineOfRow(rows[0]));
      var rest := ScriptFromRows(rows[1..]);
      var r := ScriptFromRows(rows);
      assert r == head + rest;
      forall i | 0 <= i < |r|
        ensures Kept(r[i])
      {
        if i < |head| {
          assert r[i] == LineOfRow(rows[0]).value;
        } else {
          assert r[i] == rest[i - |head|];
        }
      }
    }
  }

  /** The page reads back no line exactly when every row's text is blank. */
  lemma {:induction false} ScriptFromRowsEmpty(rows: seq<Row>)
    ensures |ScriptFromRows(rows)| == 0 <==> forall i :: 0 <= i < |rows| ==> IsBlank(rows[i].input)
  {
    if |rows| > 0 {
      ScriptFromRowsEmpty(rows[1..]);
      assert forall i :: 1 <= i < |rows| ==> rows[i] == rows[1..][i - 1];
    }
  }

  /** Reading back is row by row: the rows of two parts read as the two parts' lines. */
  lemma {:induction false} ScriptFromRowsAppend(a: seq<Row>, b: seq<Row>)
    ensures ScriptFromRows(a + b) == ScriptFromRows(a) + ScriptFromRows(b)
  {
    if |a| > 0 {
      assert (a + b)[0] == a[0];
      assert (a + b)[1..] == a[1..] + b;
      ScriptFromRowsAppend(a[1..], b);
      var h := Lines(LineOfRow(a[0]));
      assert ScriptFromRows(a + b) == h + (ScriptFromRows(a[1..]) + ScriptFromRows(b));
      assert h + (ScriptFromRows(a[1..]) + ScriptFromRows(b)) == (h + ScriptFromRows(a[1..])) + ScriptFromRows(b);
    } else {
      assert a + b == b;
    }
  }

  /** A trimmed host name with no swap symbol in it reads back from its button unchanged. */
  lemma LabelReadsBack(a: string)
    requires a != "" && Unpadded(a) && '⇄' !in a
    ensures RoleOfLabel(a + " ⇄") == a
  {
    var p := a + " ";
    assert a + " ⇄" == p + "⇄";
    assert '⇄' !in p;
    SplitOnFreePrefix(p, "⇄", "⇄");
    assert SplitOn("⇄", "⇄") == [""] + SplitOn("", "⇄");
    assert p + "" == p;
    assert !IsSpace(a[0]) && !IsSpace(a[|a| - 1]);
    assert "" + a + " " == p;
    TrimPadding("", a, " ");
  }

  /** A host name the page can show on a button and read back: the label
      is written as HTML, so a name holding markup ('<') or a character
      reference ('&') would be parsed rather than shown. */
  predicate GoodHostName(a: string) {
    a != "" && Unpadded(a) && '⇄' !in a && '<' !in a && '&' !in a
  }

  /** One line of a host, rendered in two-host mode and read back, is unchanged. */
  lemma RowRoundTrip(l: ScriptEditor.Line, aInput: string, bInput: string)
    requires GoodHostName(Or(aInput, "角色A")) && GoodHostName(Or(bInput, "角色B"))
    requires l.role == Or(aInput, "角色A") || l.role == Or(bInput, "角色B")
    requires Kept(l)
    ensures LineOfRow(RenderRow(ScriptEditor.EncodeLine(l), true, "", aInput, bInput)) == Some(l)
  {
    var item := ScriptEditor.EncodeLine(l);
    assert ItemRole(item) == l.role && ItemText(item) == l.text;
    TrimUnpadded(l.text);
    LabelReadsBack(l.role);
  }

  /** Reading back is row by row: the first row contributes the first line. */
  lemma ScriptFromRowsCons(row: Row, rest: seq<Row>, l: ScriptEditor.Line)
    requires LineOfRow(row) == Some(l)
    ensures ScriptFromRows([row] + rest) == [l] + ScriptFromRows(rest)
  {
    assert ([row] + rest)[1..] == rest;
  }

  /** In two-host mode, rendering a script whose lines belong to the two
      hosts and carry trimmed non-empty text, then reading the page back,
      gives the same script. */
  lemma {:induction false} TwoHostRoundTrip(ls: seq<ScriptEditor.Line>, aInput: string, bInput: string)
    requires GoodHostName(Or(aInput, "角色A")) && GoodHostName(Or(bInput, "角色B"))
    requires forall i :: 0 <= i < |ls| ==> ls[i].role == Or(aInput, "角色A") || ls[i].role == Or(bInput, "角色B")
    requires forall i :: 0 <= i < |ls| ==> Kept(ls[i])
    ensures var items := ScriptEditor.EncodeLines(ls);
      Null !in items && ScriptFromRows(RenderRows(items, true, "", aInput, bInput)) == ls
    decreases |ls|
  {
    var items := ScriptEditor.EncodeLines(ls);
    assert Null !in items by {
      forall i | 0 <= i < |items| ensures items[i] != Null { }
    }
    if |ls| > 0 {
      assert ls == [ls[0]] + ls[1..];
      var row0 := RenderRow(items[0], true, "", aInput, bInput);
      var tail := RenderRows(items[1..], true, "", aInput, bInput);
      assert items[1..] == ScriptEditor.EncodeLines(ls[1..]);
      assert ScriptFromRows(tail) == ls[1..] by {
        TwoHostRoundTrip(ls[1..], aInput, bInput);
      }
      assert LineOfRow(row0) == Some(ls[0]) by {
        RowRoundTrip(ls[0], aInput, bInput);
      }
      assert RenderRows(items, true, "", aInput, bInput) == [row0] + tail;
      ScriptFromRowsCons(row0, tail, ls[0]);
    }
  }

  /** The word and minute counters: the trimmed length, and one minute per
      started 200 characters. */
  function ScriptStats(text: string): (r: (nat, nat))
    ensures r.0 == |Trim(text)|
    ensures r.1 == 0 <==> r.0 == 0
    ensures r.0 > 0 ==> 200 * (r.1 - 1) < r.0 <= 200 * r.1
  {
    var words := |Trim(text)|;
    (words, (words + 199) / 200)
  }

  /** The page after a generated script arrives: the rows in the editor, the
      counters shown, the script kept in `window.lastScriptJson`, and whether
      `handleGenerateScript` ran to its end. */
  datatype GeneratedView = GeneratedView(rows: seq<Row>, stats: (nat, nat), saved: Value, completed: bool)

  /** What generating a script does to the page. The editor is cleared and
      filled row by row; a `null` item throws inside the loop, the promise
      nobody awaits is rejected, and the counters `before` and the saved
      script `savedBefore` stay. Otherwise the decoded array is saved and the
      counters are those of the item texts joined by newlines. */
  function ShowGeneratedScript(payload: Value, parse: Parser, double: bool, singleName: string,
                               aInput: string, bInput: string, before: (nat, nat), savedBefore: Value)
    : (r: GeneratedView)
    ensures var items := ScriptItems(payload, parse);
      r.completed <==> Null !in items
    ensures var items := ScriptItems(payload, parse);
      |r.rows| <= |items| && (r.completed ==> |r.rows| == |items|)
      && (!r.completed ==> |r.rows| < |items| && items[|r.rows|] == Null)
    ensures forall i :: 0 <= i < |r.rows| ==>
      r.rows[i] == RenderRow(ScriptItems(payload, parse)[i], double, singleName, aInput, bInput)
    ensures r.completed ==> r.stats == ScriptStats(Join(ItemTexts(ScriptItems(payload, parse)), "\n"))
    ensures r.completed ==> r.saved == Arr(ScriptItems(payload, parse))
    ensures !r.completed ==> r.stats == before && r.saved == savedBefore
  {
    var items := ScriptItems(payload, parse);
    var rows := RenderRows(items, double, singleName, aInput, bInput);
    if Null in items then GeneratedView(rows, before, savedBefore, false)
    else GeneratedView(rows, ScriptStats(Join(ItemTexts(items), "\n")), Arr(items), true)
  }

  /** `arr.map(item => item.text || '')`. */
  function ItemTexts(items: seq<Value>): (r: seq<string>)
    ensures |r| == |items|
    ensures forall i :: 0 <= i < |items| ==> r[i] == ItemText(items[i])
  {
    seq(|items|, i requires 0 <= i < |items| => ItemText(items[i]))
  }

  /** The texts in the rows' text boxes, in order. */
  function RowInputs(rows: seq<Row>): (r: seq<string>)
    ensures |r| == |rows|
    ensures forall i :: 0 <= i < |rows| ==> r[i] == rows[i].input
  {
    seq(|rows|, i requires 0 <= i < |rows| => rows[i].input)
  }

  /** The counters shown after generation count exactly the text the rows'
      text boxes show, joined by newlines. */
  lemma StatsCountShownText(payload: Value, parse: Parser, double: bool, singleName: string,
                            aInput: string, bInput: string, before: (nat, nat), savedBefore: Value)
    requires Null !in ScriptItems(payload, parse)
    ensures var r := ShowGeneratedScript(payload, parse, double, singleName, aInput, bInput, before, savedBefore);
      r.completed && r.stats == ScriptStats(Join(RowInputs(r.rows), "\n"))
      && r.stats.0 == |Trim(Join(RowInputs(r.rows), "\n"))|
  {
    var items := ScriptItems(payload, parse);
    var r := ShowGeneratedScript(payload, parse, double, singleName, aInput, bInput, before, savedBefore);
    assert RowInputs(r.rows) == ItemTexts(items);
  }

  /** `JSON.stringify` writes an array as a non-empty text, and "[]" for
      the empty array and only for it. */
  ghost predicate EmptyArrayIsBrackets(stringify: Printer) {
    forall xs :: stringify(Arr(xs)) != "" && (stringify(Arr(xs)) == "[]" <==> |xs| == 0)
  }

  datatype SynthesisAlert = NoScript | MissingHostNames

  /** The synthesis guards: the page's script, stringified, must not be empty
      or "[]"; in two-host mode both trimmed host names must be non-empty. */
  function SynthesisGuard(rows: seq<Row>, double: bool, aInput: string, bInput: string, stringify: Printer)
    : (r: Option<SynthesisAlert>)
    ensures r == Some(NoScript) <==>
      (var t := stringify(Arr(ScriptEditor.EncodeLines(ScriptFromRows(rows)))); t == "" || t == "[]")
    ensures r == Some(MissingHostNames) ==> double && (IsBlank(aInput) || IsBlank(bInput))
    ensures r == None ==> !double || (!IsBlank(aInput) && !IsBlank(bInput))
  {
    var t := stringify(Arr(ScriptEditor.EncodeLines(ScriptFromRows(rows))));
    if t == "" || t == "[]" then Some(NoScript)
    else if double && (IsBlank(aInput) || IsBlank(bInput)) then Some(MissingHostNames)
    else None
  }

  /** With a standard stringifier, synthesis is refused for want of a script
      exactly when every row's text is blank. */
  lemma NoScriptExactlyWhenAllBlank(rows: seq<Row>, double: bool, aInput: string, bInput: string, stringify: Printer)
    requires EmptyArrayIsBrackets(stringify)
    ensures SynthesisGuard(rows, double, aInput, bInput, stringify) == Some(NoScript)
      <==> forall i :: 0 <= i < |rows| ==> IsBlank(rows[i].input)
  {
    var lines := ScriptFromRows(rows);
    var xs := ScriptEditor.EncodeLines(lines);
    assert |xs| == |lines|;
    assert stringify(Arr(xs)) == "[]" <==> |xs| == 0;
    ScriptFromRowsEmpty(rows);
  }

  /** The state of the upload section that the "next" button inspects. */
  datatype UploadSection = UploadSection(activeMethod: string, fileAreaShown: bool, fileCount: nat,
                                         urlAreaShown: bool, url: string)

  /** Something to upload has been given for the active method. */
  predicate UploadGiven(u: UploadSection) {
    (u.activeMethod == "file" && u.fileAreaShown && u.fileCount > 0)
    || (u.activeMethod != "file" && u.activeMethod == "url" && u.urlAreaShown && !IsBlank(u.url))
  }

  datatype PageAlert = ChooseFile | EnterUrl | ChooseMethod | GenerateFirst

  /** The outcome of a navigation click; a target that is not a number is `None`. */
  datatype PageMove = Show(step: int) | Alert(alert: PageAlert) | Ignore

  const TotalSteps := 3

  /** "Next": the upload check guards step 2, a non-blank editor row guards
      step 3, and targets outside 1..3 are ignored. */
  function NextClick(target: Option<int>, u: UploadSection, rowTexts: seq<string>): (m: PageMove)
    ensures m.Show? ==> target == Some(m.step) && 1 <= m.step <= TotalSteps
    ensures target == Some(2) ==> (m == Show(2) <==> UploadGiven(u))
    ensures target == Some(3) ==> (m == Show(3) <==> exists i :: 0 <= i < |rowTexts| && !IsBlank(rowTexts[i]))
    ensures target == Some(1) ==> m == Show(1)
    ensures target.None? || !(1 <= target.value <= TotalSteps) ==> m == Ignore
  {
    if target == Some(2) && !UploadGiven(u) then
      if u.activeMethod == "file" && u.fileAreaShown then Alert(ChooseFile)
      else if u.activeMethod == "url" && u.urlAreaShown then Alert(EnterUrl)
      else Alert(ChooseMethod)
    else if target == Some(3) && forall i :: 0 <= i < |rowTexts| ==> IsBlank(rowTexts[i]) then Alert(GenerateFirst)
    else if target.Some? && 1 <= target.value <= TotalSteps then Show(target.value)
    else Ignore
  }

  /** "Previous" moves to any target in 1..3 without checks. */
  function PrevClick(target: Option<int>): (m: PageMove)
    ensures m.Show? <==> target.Some? && 1 <= target.value <= TotalSteps
    ensures m.Show? ==> m.step == target.value
    ensures !m.Show? ==> m == Ignore
  {
    if target.Some? && 1 <= target.value <= TotalSteps then Show(target.value) else Ignore
  }

  /** A click on the `idx`-th step of the bar shows step `idx + 1` without checks. */
  function BarClick(idx: nat): (m: PageMove)
    ensures m == Show(idx + 1)
  {
    Show(idx + 1)
  }

  /** A navigation event of the page. */
  datatype PageNav = NextBtn(next: Option<int>) | PrevBtn(prev: Option<int>) | BarStep(idx: nat)

  /** The step shown after one click: a bar click always moves; a button
      moves only to a target in 1..3, and "next" to step 3 only past a
      non-blank row. */
  function PageStep(current: int, e: PageNav, u: UploadSection, rowTexts: seq<string>): (r: int)
    ensures e.BarStep? ==> r == e.idx + 1
    ensures !e.BarStep? ==> r == current || 1 <= r <= TotalSteps
    ensures e.PrevBtn? && r != current ==> e.prev == Some(r)
    ensures e.NextBtn? && r != current ==> e.next == Some(r)
    ensures e.NextBtn? && r == 3 && current != 3 ==> exists i :: 0 <= i < |rowTexts| && !IsBlank(rowTexts[i])
  {
    var m := match e
      case NextBtn(t) => NextClick(t, u, rowTexts)
      case PrevBtn(t) => PrevClick(t)
      case BarStep(i) => BarClick(i);
    if m.Show? then m.step else current
  }

  function PageRun(current: int, es: seq<PageNav>, u: UploadSection, rowTexts: seq<string>): int
    decreases |es|
  {
    if |es| == 0 then current else PageRun(PageStep(current, es[0], u, rowTexts), es[1..], u, rowTexts)
  }

  /** With a three-step bar, every sequence of clicks keeps the page on steps 1 to 3. */
  lemma {:induction false} PageStaysInRange(current: int, es: seq<PageNav>, u: UploadSection, rowTexts: seq<string>)
    requires 1 <= current <= TotalSteps
    requires forall i :: 0 <= i < |es| && es[i].BarStep? ==> es[i].idx < TotalSteps
    ensures 1 <= PageRun(current, es, u, rowTexts) <= TotalSteps
    decreases |es|
  {
    if |es| > 0 {
      PageStaysInRange(PageStep(current, es[0], u, rowTexts), es[1..], u, rowTexts);
    }
  }

  /** The value a voice selector shows after its options are replaced: a
      previously chosen voice survives if still offered and is lost otherwise;
      with nothing chosen, the first option is selected. */
  function RefreshedVoice(current: string, ids: seq<string>): (r: string)
    ensures r == "" || r in ids
    ensures current != "" && current in ids ==> r == current
    ensures current != "" && current !in ids ==> r == ""
    ensures current == "" && |ids| > 0 ==> r == ids[0]
  {
    if current != "" then (if current in ids then current else "")
    else if |ids| > 0 then ids[0] else ""
  }

  /** The value of the voice option the page builds from one entry of the
      voice list: `${v.voice_id}` in the option markup, or the same text
      assigned to `option.value`. A missing member reads "undefined". */
  function OptionId(voice: Value): (r: string)
    ensures GetString(voice, "voice_id").Some? ==> r == GetString(voice, "voice_id").value
    ensures Get(voice, "voice_id").None? ==> r == "undefined"
  {
    TemplateText(Get(voice, "voice_id"))
  }

  /** The option values of a whole voice list, in order. */
  function OptionIds(voices: seq<Value>): (ids: seq<string>)
    ensures |ids| == |voices|
    ensures forall i :: 0 <= i < |voices| ==> ids[i] == OptionId(voices[i])
  {
    seq(|voices|, i requires 0 <= i < |voices| => OptionId(voices[i]))
  }

  /** The voice `generateAudio` reads: the selector's value, or the fixed
      fallback when that value is empty. Nothing calls `generateAudio`; the
      synthesize button posts the selector's value with no fallback. */
  function PostedVoice(selected: string, fallback: string): (r: string)
    ensures selected != "" ==> r == selected
    ensures selected == "" ==> r == fallback
  {
    Or(selected, fallback)
  }

  /** A voice that survives a refresh survives the next one with the same list. */
  lemma RefreshStable(current: string, ids: seq<string>)
    requires RefreshedVoice(current, ids) != ""
    ensures RefreshedVoice(RefreshedVoice(current, ids), ids) == RefreshedVoice(current, ids)
  {
  }

  const StatusNames: map<string, string> := map["processing" := "处理中", "completed" := "已完成", "failed" := "失败"]

  const VoiceNames: map<string, string> := map[
    "male-qn-qingse" := "青涩男声", "female-qn-qingse" := "青涩女声",
    "male-qn-zhongxing" := "中性男声", "female-qn-zhongxing" := "中性女声"]

  /** `table[key] || key`: the display name, or the key itself when unknown. */
  function DisplayName(table: map<string, string>, key: string): (r: string)
    ensures key in table && table[key] != "" ==> r == table[key]
    ensures key !in table ==> r == key
    ensures key in table && table[key] == "" ==> r == key
  {
    if key in table then Or(table[key], key) else key
  }

  /** A table whose names are all non-empty and pairwise different. */
  ghost predicate NamesEveryKey(table: map<string, string>) {
    (forall k :: k in table ==> table[k] != "")
    && forall k, l :: k in table && l in table && k != l ==> table[k] != table[l]
  }

  /** Under such a table every known key shows its own name, and two
      different known keys never show the same name. */
  lemma DisplayNamesDistinct(table: map<string, string>)
    requires NamesEveryKey(table)
    ensures forall k :: k in table ==> DisplayName(table, k) == table[k]
    ensures forall k, l :: k in table && l in table && k != l ==> DisplayName(table, k) != DisplayName(table, l)
  {
  }

  /** The status table names every key, each differently from its key. */
  lemma StatusTableNamesEveryKey()
    ensures NamesEveryKey(StatusNames)
    ensures forall k :: k in StatusNames ==> DisplayName(StatusNames, k) != k
  {
    assert StatusNames.Keys == {"processing", "completed", "failed"};
  }

  /** The voice table names every key, each differently from its key. */
  lemma VoiceTableNamesEveryKey()
    ensures NamesEveryKey(VoiceNames)
    ensures forall k :: k in VoiceNames ==> DisplayName(VoiceNames, k) != k
  {
    assert VoiceNames.Keys == {"male-qn-qingse", "female-qn-qingse", "male-qn-zhongxing", "female-qn-zhongxing"};
  }

  /** Task statuses and voice identifiers display by name when known and as
      themselves otherwise. */
  lemma KnownNames()
    ensures DisplayName(StatusNames, "completed") == "已完成"
    ensures DisplayName(VoiceNames, "female-qn-qingse") == "青涩女声"
    ensures DisplayName(StatusNames, "queued") == "queued"
    ensures DisplayName(VoiceNames, "x") == "x"
  {
  }
}
