/** The line-by-line script editor: it loads a script array, derives the role
    choices from the roles in use, and changes, inserts or deletes one line at
    a time, reporting every change to its owner. */
module ScriptEditor {
  import opened Wrappers
  import opened Json

  /** One line of dialogue. Missing or non-string members read as "". */
  datatype Line = Line(role: string, text: string)

  function DecodeLine(v: Value): (l: Line)
    ensures v.Obj? && "role" in v.fields && v.fields["role"].Str? ==> l.role == v.fields["role"].s
    ensures v.Obj? && "text" in v.fields && v.fields["text"].Str? ==> l.text == v.fields["text"].s
  {
    Line(GetString(v, "role").GetOr(""), GetString(v, "text").GetOr(""))
  }

  /** A line as the JSON object `{role, text}`. */
  function EncodeLine(l: Line): Value {
    Obj(map["role" := Str(l.role), "text" := Str(l.text)])
  }

  lemma DecodeEncode(l: Line)
    ensures DecodeLine(EncodeLine(l)) == l
  {
  }

  function DecodeLines(vs: seq<Value>): (r: seq<Line>)
    ensures |r| == |vs|
    ensures forall i {:trigger r[i]} :: 0 <= i < |vs| ==> r[i] == DecodeLine(vs[i])
  {
    seq(|vs|, i requires 0 <= i < |vs| => DecodeLine(vs[i]))
  }

  function EncodeLines(ls: seq<Line>): (r: seq<Value>)
    ensures |r| == |ls|
    ensures forall i {:trigger r[i]} :: 0 <= i < |ls| ==> r[i] == EncodeLine(ls[i])
  {
    seq(|ls|, i requires 0 <= i < |ls| => EncodeLine(ls[i]))
  }

  /** Encoding a script and decoding it again gives the same lines. */
  lemma DecodeEncodeLines(ls: seq<Line>)
    ensures DecodeLines(EncodeLines(ls)) == ls
  {
    var r := DecodeLines(EncodeLines(ls));
    forall i | 0 <= i < |ls|
      ensures r[i] == ls[i]
    {
      DecodeEncode(ls[i]);
    }
  }

  /** The lines the editor shows for a script: a string is parsed (a failed
      parse shows nothing), an array is used as is, anything else shows
      nothing. `None` when rendering throws: a parsed non-array, or a `null`
      line, has no `role` to read. */
  function Load(script: Value, parse: Parser): (r: Option<seq<Line>>)
    ensures script.Arr? ==> (r.Some? <==> Null !in script.items)
    ensures script.Arr? && r.Some? ==> r.value == DecodeLines(script.items)
    ensures !script.Arr? && !script.Str? ==> r == Some([])
    ensures script.Str? && parse(script.s).None? ==> r == Some([])
    ensures script.Str? && parse(script.s).Some? && !parse(script.s).value.Arr? ==> r.None?
    ensures script.Str? && parse(script.s).Some? && parse(script.s).value.Arr? ==>
      (r.Some? <==> Null !in parse(script.s).value.items)
      && (r.Some? ==> r.value == DecodeLines(parse(script.s).value.items))
  {
    var arr := match script
      case Str(s) => parse(s).GetOr(Arr([]))
      case Arr(_) => script
      case _ => Arr([]);
    match arr
    case Arr(items) => if Null in items then None else Some(DecodeLines(items))
    case _ => None
  }

  /** Reloading what the editor reported, after a stringify/parse round trip,
      gives back the edited lines. */
  lemma LoadAfterEdit(ls: seq<Line>, parse: Parser, stringify: Printer)
    requires RoundTrips(parse, stringify)
    ensures Load(Str(stringify(Arr(EncodeLines(ls)))), parse) == Some(ls)
  {
    var v := Arr(EncodeLines(ls));
    assert parse(stringify(v)) == Some(v);
    DecodeEncodeLines(ls);
  }

  function RolesOf(lines: seq<Line>): (r: seq<string>)
    ensures |r| == |lines|
    ensures forall i :: 0 <= i < |lines| ==> r[i] == lines[i].role
  {
    seq(|lines|, i requires 0 <= i < |lines| => lines[i].role)
  }

  /** The position of the first occurrence of `x` in `xs`. */
  function FirstIndex(xs: seq<string>, x: string): (k: nat)
    requires x in xs
    ensures k < |xs| && xs[k] == x
    ensures forall j :: 0 <= j < k ==> xs[j] != x
  {
    if xs[0] == x then 0 else 1 + FirstIndex(xs[1..], x)
  }

  lemma {:induction false} FirstIndexPrefix(xs: seq<string>, n: nat, x: string)
    requires n <= |xs| && x in xs[..n]
    ensures FirstIndex(xs, x) == FirstIndex(xs[..n], x)
  {
    if xs[0] != x {
      assert xs[..n][1..] == xs[1..][..n - 1];
      FirstIndexPrefix(xs[1..], n - 1, x);
    }
  }

  /** The non-empty strings of `xs`, each once, in order of first
      occurrence: `Array.from(new Set(xs.filter(Boolean)))`. */
  function DistinctNonEmpty(xs: seq<string>): (r: seq<string>)
    ensures forall x :: x in r <==> x != "" && x in xs
    ensures forall i, j :: 0 <= i < j < |r| ==> r[i] != r[j]
    ensures forall i, j :: 0 <= i < j < |r| ==> FirstIndex(xs, r[i]) < FirstIndex(xs, r[j])
  {
    if |xs| == 0 then []
    else
      var n := |xs| - 1;
      var init := xs[..n];
      var prev := DistinctNonEmpty(init);
      var x := xs[n];
      assert xs == init + [x];
      forall y | y in prev
        ensures FirstIndex(xs, y) == FirstIndex(init, y) < n
      {
        FirstIndexPrefix(xs, n, y);
      }
      if x == "" || x in prev then prev
      else
        assert x !in init;
        assert FirstIndex(xs, x) == n;
        prev + [x]
  }

  /** The roles the selector offers: the distinct non-empty roles of the
      lines, in the order they first appear. */
  function RoleOptions(lines: seq<Line>): (r: seq<string>)
    ensures forall x :: x in r <==> x != "" && x in RolesOf(lines)
    ensures forall i, j :: 0 <= i < j < |r| ==> r[i] != r[j]
    ensures forall i, j :: 0 <= i < j < |r| ==> FirstIndex(RolesOf(lines), r[i]) < FirstIndex(RolesOf(lines), r[j])
  {
    DistinctNonEmpty(RolesOf(lines))
  }

  /** What one editing action produces: the new lines, the array reported to
      the owner (if any), and whether the "keep at least one line" warning shows. */
  datatype Edit = Edit(lines: seq<Line>, reported: Option<seq<Line>>, warned: bool)

  /** Choosing a role for line `idx`. */
  function ChangeRole(lines: seq<Line>, idx: nat, role: string): (e: Edit)
    requires idx < |lines|
    ensures |e.lines| == |lines|
    ensures e.lines[idx] == Line(role, lines[idx].text)
    ensures forall j :: 0 <= j < |lines| && j != idx ==> e.lines[j] == lines[j]
    ensures e.reported == Some(e.lines) && !e.warned
  {
    var nl := lines[idx := lines[idx].(role := role)];
    Edit(nl, Some(nl), false)
  }

  /** Typing into line `idx`. */
  function ChangeText(lines: seq<Line>, idx: nat, text: string): (e: Edit)
    requires idx < |lines|
    ensures |e.lines| == |lines|
    ensures e.lines[idx] == Line(lines[idx].role, text)
    ensures forall j :: 0 <= j < |lines| && j != idx ==> e.lines[j] == lines[j]
    ensures e.reported == Some(e.lines) && !e.warned
  {
    var nl := lines[idx := lines[idx].(text := text)];
    Edit(nl, Some(nl), false)
  }

  /** `xs.filter((_, i) => i !== idx)`. */
  function DropIndex(xs: seq<Line>, idx: int): (r: seq<Line>)
    ensures 0 <= idx < |xs| ==> r == xs[..idx] + xs[idx + 1..]
    ensures !(0 <= idx < |xs|) ==> r == xs
  {
    if |xs| == 0 then []
    else
      var rest := DropIndex(xs[1..], idx - 1);
      if idx == 0 then
        assert xs[1..] == xs[..0] + xs[1..];
        rest
      else if 0 < idx < |xs| then
        assert xs[..idx] == [xs[0]] + xs[1..][..idx - 1];
        assert xs[idx + 1..] == xs[1..][idx..];
        [xs[0]] + rest
      else
        [xs[0]] + rest
  }

  /** Deleting line `idx`; refused, with a warning and no report, on the last remaining line. */
  function Delete(lines: seq<Line>, idx: nat): (e: Edit)
    requires idx < |lines|
    ensures |lines| == 1 ==> e == Edit(lines, None, true)
    ensures |lines| > 1 ==> e.lines == lines[..idx] + lines[idx + 1..] && e.reported == Some(e.lines) && !e.warned
  {
    if |lines| == 1 then Edit(lines, None, true)
    else
      var nl := DropIndex(lines, idx);
      Edit(nl, Some(nl), false)
  }

  /** The role a freshly inserted line gets: the first role on offer, or "". */
  function DefaultRole(options: seq<string>): (r: string)
    ensures |options| == 0 ==> r == ""
    ensures |options| > 0 ==> r == options[0]
  {
    if |options| > 0 then options[0] else ""
  }

  /** Inserting an empty line directly below line `idx`. */
  function Insert(lines: seq<Line>, idx: nat, options: seq<string>): (e: Edit)
    requires idx < |lines|
    ensures |e.lines| == |lines| + 1
    ensures e.lines[idx + 1] == Line(DefaultRole(options), "")
    ensures forall j :: 0 <= j <= idx ==> e.lines[j] == lines[j]
    ensures forall j :: idx + 1 < j < |e.lines| ==> e.lines[j] == lines[j - 1]
    ensures e.reported == Some(e.lines) && !e.warned
  {
    var nl := lines[..idx + 1] + [Line(DefaultRole(options), "")] + lines[idx + 1..];
    Edit(nl, Some(nl), false)
  }

  /** Deleting the line just inserted restores the script. */
  lemma DeleteUndoesInsert(lines: seq<Line>, idx: nat, options: seq<string>)
    requires idx < |lines|
    ensures Delete(Insert(lines, idx, options).lines, idx + 1).lines == lines
  {
    var nl := Insert(lines, idx, options).lines;
    assert nl[..idx + 1] + nl[idx + 2..] == lines;
  }

  /** Inserting with the editor's own role options never adds a new role. */
  lemma InsertKeepsRoleOptions(lines: seq<Line>, idx: nat)
    requires idx < |lines|
    ensures var after := Insert(lines, idx, RoleOptions(lines)).lines;
      forall x :: x in RoleOptions(after) <==> x in RoleOptions(lines)
  {
    var opts := RoleOptions(lines);
    var after := Insert(lines, idx, opts).lines;
    forall x | x != "" && x in RolesOf(after)
      ensures x in RolesOf(lines)
    {
      var k :| 0 <= k < |after| && RolesOf(after)[k] == x;
      if k == idx + 1 {
        assert x == opts[0] && opts[0] in opts;
      } else if k <= idx {
        assert lines[k].role == x;
      } else {
        assert lines[k - 1].role == x;
      }
    }
    forall x | x in RolesOf(lines)
      ensures x in RolesOf(after)
    {
      var k :| 0 <= k < |lines| && RolesOf(lines)[k] == x;
      if k <= idx {
        assert after[k].role == x;
      } else {
        assert after[k + 1].role == x;
      }
    }
  }

  /** The selector of one line: a disabled placeholder when there is nothing
      to choose from, otherwise the shown value and whether it is locked. */
  datatype Selector = Placeholder | Choice(shown: string, disabled: bool)

  function SelectorFor(line: Line, options: seq<string>): (s: Selector)
    ensures s.Placeholder? <==> |options| == 0
    ensures s.Choice? ==> s.shown in options
    ensures s.Choice? ==> (s.shown == line.role <==> line.role in options)
    ensures s.Choice? ==> (s.disabled <==> |options| == 1)
  {
    if |options| == 0 then Placeholder
    else if line.role in options then Choice(line.role, |options| == 1)
    else Choice(options[0], |options| == 1)
  }
}
