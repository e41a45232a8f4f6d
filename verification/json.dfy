/** JSON values as the browser and the backend exchange them, with the
    JavaScript notion of truthiness. Parsing and serialising are not
    implemented: callers receive them as functions. */
module Json {
  import opened Wrappers
  import opened Strings

  /** A JSON value. Numbers are integers; objects map keys to values. */
  datatype Value =
    | Null
    | Bool(b: bool)
    | Num(n: int)
    | Str(s: string)
    | Arr(items: seq<Value>)
    | Obj(fields: map<string, Value>)

  /** JavaScript truthiness: `null`, `false`, `0` and `''` are falsy; every array and object is truthy. */
  predicate Truthy(v: Value) {
    match v
    case Null => false
    case Bool(b) => b
    case Num(n) => n != 0
    case Str(s) => s != ""
    case Arr(_) => true
    case Obj(_) => true
  }

  /** The member `key` of an object; absent for anything else or a missing key. */
  function Get(v: Value, key: string): (r: Option<Value>)
    ensures r.Some? <==> v.Obj? && key in v.fields
  {
    if v.Obj? && key in v.fields then Some(v.fields[key]) else None
  }

  /** The member `key` when it holds a string (`typeof v[key] === 'string'`). */
  function GetString(v: Value, key: string): (r: Option<string>)
    ensures r.Some? <==> v.Obj? && key in v.fields && v.fields[key].Str?
    ensures r.Some? ==> v.fields[key] == Str(r.value)
  {
    match Get(v, key)
    case Some(Str(s)) => Some(s)
    case _ => None
  }

  /** `String(v)`: JavaScript's conversion to text. An array shows its
      elements separated by commas, a `null` element as nothing; an object
      shows "[object Object]". */
  function JsString(v: Value): (r: string)
    ensures v.Str? ==> r == v.s
    ensures v.Null? ==> r == "null"
    ensures v.Num? ==> r == IntToString(v.n)
    ensures v.Arr? && v.items == [] ==> r == ""
  {
    match v
    case Null => "null"
    case Bool(b) => if b then "true" else "false"
    case Num(n) => IntToString(n)
    case Str(s) => s
    case Arr(items) =>
      Join(seq(|items|, i requires 0 <= i < |items| => if items[i].Null? then "" else JsString(items[i])), ",")
    case Obj(_) => "[object Object]"
  }

  /** A member interpolated into a template literal, `${x.key}`: a missing
      member shows as "undefined". */
  function TemplateText(m: Option<Value>): (r: string)
    ensures m.None? ==> r == "undefined"
    ensures m.Some? ==> r == JsString(m.value)
  {
    match m
    case None => "undefined"
    case Some(x) => JsString(x)
  }

  /** A member as `Array.prototype.join` shows it: a missing or `null`
      member shows as nothing. */
  function JoinedText(m: Option<Value>): (r: string)
    ensures m.None? || m == Some(Null) ==> r == ""
    ensures m.Some? && !m.value.Null? ==> r == JsString(m.value)
  {
    match m
    case None => ""
    case Some(Null) => ""
    case Some(x) => JsString(x)
  }

  /** JavaScript's `v > 0`: the value is turned into a primitive (an array
      into its `String` form, an object into "[object Object]"), then into a
      number, and `NaN` compares false. */
  predicate ExceedsZero(v: Value) {
    match v
    case Null => false
    case Bool(b) => b
    case Num(n) => n > 0
    case Str(s) => TextExceedsZero(s)
    case Arr(_) => TextExceedsZero(JsString(v))
    case Obj(_) => false
  }

  /** `Number(s) > 0` for the numeric forms the model reads: blank text is
      0, a leading '-' gives zero, a negative number or `NaN`, and otherwise
      a decimal literal (digits with at most one point), `Infinity`, or a
      hexadecimal literal `0x…` without a sign; anything else is `NaN`. */
  predicate TextExceedsZero(s: string) {
    var t := Trim(s);
    if t == [] || t[0] == '-' then false
    else if t[0] == '+' then
      var u := t[1..];
      u == "Infinity" || (DecimalLiteral(u) && exists k :: 0 <= k < |u| && u[k] in "123456789")
    else
      t == "Infinity"
      || (DecimalLiteral(t) && exists k :: 0 <= k < |t| && t[k] in "123456789")
      || (HexLiteral(t) && exists k :: 2 <= k < |t| && t[k] != '0')
  }

  /** Decimal digits with at most one point and at least one digit. */
  predicate DecimalLiteral(u: string) {
    (exists k :: 0 <= k < |u| && u[k] in "0123456789")
    && (forall k :: 0 <= k < |u| ==> u[k] in "0123456789.")
    && (forall j, k :: 0 <= j < k < |u| && u[j] == '.' ==> u[k] != '.')
  }

  /** "0x" or "0X" followed by at least one hexadecimal digit. */
  predicate HexLiteral(u: string) {
    |u| > 2 && u[0] == '0' && u[1] in "xX"
    && forall k :: 2 <= k < |u| ==> u[k] in "0123456789abcdefABCDEF"
  }

  /** `JSON.parse` / `json.loads`: a partial decoder, `None` when it throws. */
  type Parser = string -> Option<Value>

  /** `JSON.stringify` / `json.dumps`. */
  type Printer = Value -> string

  /** A parser that reads back everything the stringifier writes, as JSON's
      parse and stringify do. */
  ghost predicate RoundTrips(parse: Parser, stringify: Printer) {
    forall v :: parse(stringify(v)) == Some(v)
  }
}
