/** Python values as the backend handles them: what `json.loads` returns and
    what the extractors build. Dictionaries keep their insertion order, as
    Python's do, and Python's notions of truthiness, `in`, indexing and
    `str()` are spelled out. */
module Py {
  import opened Wrappers
  import opened Strings

  /** A Python value built from JSON: `None`, a bool, an int, a str, a list
      or a dict with string keys in insertion order. */
  datatype Value =
    | PNone
    | PBool(b: bool)
    | PInt(i: int)
    | PStr(s: string)
    | PList(items: seq<Value>)
    | PDict(entries: seq<(string, Value)>)

  /** The built-in exceptions the modelled code can run into. */
  datatype PyError =
    | TypeError
    | AttributeError
    | KeyError
    | ValueError(message: string)

  /** `bool(v)`: `None`, `False`, `0`, `''`, `[]` and `{}` are falsy. */
  predicate Truthy(v: Value) {
    match v
    case PNone => false
    case PBool(b) => b
    case PInt(i) => i != 0
    case PStr(s) => s != ""
    case PList(xs) => xs != []
    case PDict(es) => es != []
  }

  /** `None` for an absent optional string, the string otherwise. */
  function OfOption(o: Option<string>): (v: Value)
    ensures o.None? <==> v == PNone
    ensures o.Some? <==> v == PStr(o.GetOr(""))
  {
    match o
    case None => PNone
    case Some(s) => PStr(s)
  }

  /** The keys of a dictionary, in order. */
  function Keys(es: seq<(string, Value)>): (ks: seq<string>)
    ensures |ks| == |es|
    ensures forall i :: 0 <= i < |es| ==> ks[i] == es[i].0
  {
    if |es| == 0 then [] else [es[0].0] + Keys(es[1..])
  }

  /** `d.get(key)`: the value stored under `key`, if any. */
  function Lookup(es: seq<(string, Value)>, key: string): (r: Option<Value>)
    ensures r.None? <==> key !in Keys(es)
  {
    if |es| == 0 then None
    else if es[0].0 == key then Some(es[0].1)
    else
      assert Keys(es) == [es[0].0] + Keys(es[1..]);
      Lookup(es[1..], key)
  }

  /** Looking a key up in two dictionaries laid end to end. */
  lemma {:induction false} LookupAppend(a: seq<(string, Value)>, b: seq<(string, Value)>, key: string)
    ensures Lookup(a + b, key) == if key in Keys(a) then Lookup(a, key) else Lookup(b, key)
  {
    if |a| > 0 {
      assert (a + b)[1..] == a[1..] + b;
      assert Keys(a) == [a[0].0] + Keys(a[1..]);
      LookupAppend(a[1..], b, key);
    } else {
      assert a + b == b;
    }
  }

  /** An entry whose key does not occur before it is what lookup finds. */
  lemma {:induction false} LookupAt(es: seq<(string, Value)>, i: nat)
    requires i < |es| && forall k :: 0 <= k < i ==> es[k].0 != es[i].0
    ensures Lookup(es, es[i].0) == Some(es[i].1)
  {
    if i > 0 {
      assert es[0].0 != es[i].0;
      LookupAt(es[1..], i - 1);
    }
  }

  /** `d.get(key, default)`. */
  function GetOr(es: seq<(string, Value)>, key: string, default: Value): (r: Value)
    ensures key !in Keys(es) ==> r == default
    ensures key in Keys(es) ==> Some(r) == Lookup(es, key)
  {
    Lookup(es, key).GetOr(default)
  }

  /** `d[key] = v`: an existing key keeps its place, a new one goes last. */
  function Set(es: seq<(string, Value)>, key: string, v: Value): (r: seq<(string, Value)>)
    ensures key in Keys(es) ==> Keys(r) == Keys(es)
    ensures key !in Keys(es) ==> Keys(r) == Keys(es) + [key]
  {
    if |es| == 0 then [(key, v)]
    else if es[0].0 == key then
      var r := [(key, v)] + es[1..];
      assert Keys(r) == [key] + Keys(es[1..]);
      assert Keys(es) == [es[0].0] + Keys(es[1..]);
      r
    else
      var rest := Set(es[1..], key, v);
      var r := [es[0]] + rest;
      assert Keys(r) == [es[0].0] + Keys(rest);
      assert Keys(es) == [es[0].0] + Keys(es[1..]);
      r
  }

  /** After `d[key] = v`, `d.get(key)` is `v`. */
  lemma {:induction false} LookupAfterSet(es: seq<(string, Value)>, key: string, v: Value)
    ensures Lookup(Set(es, key, v), key) == Some(v)
  {
    if |es| > 0 && es[0].0 != key {
      LookupAfterSet(es[1..], key, v);
    }
  }

  /** `d[key] = v` leaves every other key's value alone. */
  lemma {:induction false} LookupOtherAfterSet(es: seq<(string, Value)>, key: string, v: Value, other: string)
    requires other != key
    ensures Lookup(Set(es, key, v), other) == Lookup(es, other)
  {
    if |es| > 0 && es[0].0 != key {
      LookupOtherAfterSet(es[1..], key, v, other);
    }
  }

  /** `str(v)` for use in an f-string: strings as they are, numbers in
      decimal, `True`/`False`/`None` by name, lists and dicts through `repr`,
      which the model takes as given. */
  function Show(v: Value, repr: Value -> string): (r: string)
    ensures v.PStr? ==> r == v.s
    ensures v.PInt? ==> r == IntToString(v.i)
    ensures v.PList? || v.PDict? ==> r == repr(v)
  {
    match v
    case PNone => "None"
    case PBool(b) => if b then "True" else "False"
    case PInt(i) => IntToString(i)
    case PStr(s) => s
    case PList(_) => repr(v)
    case PDict(_) => repr(v)
  }

  /** Python `x in container`: a key of a dict, an element of a list, a
      substring of a str. A list or dict looked up in a dict, a non-string
      looked for in a str, and any other container raise `TypeError`. List
      membership compares structurally, so Python's `True == 1` is not modelled. */
  function In(x: Value, container: Value): (r: Result<bool, PyError>)
    ensures r.Failure? <==>
      !((container.PDict? && !x.PList? && !x.PDict?) || container.PList? || (container.PStr? && x.PStr?))
    ensures r.Failure? ==> r.error == TypeError
    ensures container.PDict? && r.Success? ==> r.value == (x.PStr? && x.s in Keys(container.entries))
    ensures container.PList? ==> r == Success(x in container.items)
    ensures container.PStr? && r.Success? ==> r.value == Contains(container.s, x.s)
  {
    match container
    case PDict(es) =>
      if x.PList? || x.PDict? then Failure(TypeError) else Success(x.PStr? && x.s in Keys(es))
    case PList(xs) => Success(x in xs)
    case PStr(s) =>
      if x.PStr? then Success(Contains(s, x.s)) else Failure(TypeError)
    case _ => Failure(TypeError)
  }

  /** Python `container[key]` with a string key: a dict looks the key up
      (`KeyError` when absent); a list or str refuses a string index and other
      values are not subscriptable (`TypeError`). */
  function Index(container: Value, key: string): (r: Result<Value, PyError>)
    ensures r.Success? <==> container.PDict? && key in Keys(container.entries)
    ensures r.Success? ==> Lookup(container.entries, key) == Some(r.value)
    ensures r.Failure? ==> r.error == (if container.PDict? then KeyError else TypeError)
  {
    if container.PDict? then
      match Lookup(container.entries, key)
      case Some(v) => Success(v)
      case None => Failure(KeyError)
    else Failure(TypeError)
  }

  /** The elements `for x in v` visits: a list's items, a str's characters,
      a dict's keys. `None`, bools and ints are not iterable. */
  function Iter(v: Value): (r: Result<seq<Value>, PyError>)
    ensures r.Failure? <==> v.PNone? || v.PBool? || v.PInt?
    ensures r.Failure? ==> r.error == TypeError
    ensures v.PList? ==> r == Success(v.items)
    ensures v.PStr? ==> |r.value| == |v.s| && forall k :: 0 <= k < |v.s| ==> r.value[k] == PStr([v.s[k]])
    ensures v.PDict? ==> |r.value| == |v.entries| && forall k :: 0 <= k < |v.entries| ==> r.value[k] == PStr(v.entries[k].0)
  {
    match v
    case PList(xs) => Success(xs)
    case PStr(s) => Success(seq(|s|, k requires 0 <= k < |s| => PStr([s[k]])))
    case PDict(es) => Success(seq(|es|, k requires 0 <= k < |es| => PStr(es[k].0)))
    case _ => Failure(TypeError)
  }

  /** A filtered comprehension whose steps may raise: each step keeps a
      value, skips, or raises; the result is the kept values in order, or
      the first error. */
  function Collect<T>(outs: seq<Result<Option<T>, PyError>>): (r: Result<seq<T>, PyError>)
    ensures r.Success? ==> |r.value| <= |outs|
  {
    if |outs| == 0 then Success([])
    else
      match outs[0]
      case Failure(e) => Failure(e)
      case Success(o) =>
        match Collect(outs[1..])
        case Failure(e) => Failure(e)
        case Success(rest) => Success((if o.Some? then [o.value] else []) + rest)
  }

  /** The comprehension succeeds exactly when no step raises, and then
      every value it keeps is one a step kept. */
  lemma {:induction false} CollectSucceeds<T>(outs: seq<Result<Option<T>, PyError>>)
    ensures Collect(outs).Success? <==> forall i :: 0 <= i < |outs| ==> outs[i].Success?
    ensures Collect(outs).Success? ==> forall k :: 0 <= k < |Collect(outs).value| ==>
      exists i :: 0 <= i < |outs| && outs[i] == Success(Some(Collect(outs).value[k]))
    decreases |outs|
  {
    if |outs| > 0 {
      CollectSucceeds(outs[1..]);
      assert forall i :: 1 <= i < |outs| ==> outs[i] == outs[1..][i - 1];
      if Collect(outs).Success? {
        var r := Collect(outs).value;
        var rest := Collect(outs[1..]).value;
        var head := if outs[0].value.Some? then [outs[0].value.value] else [];
        assert r == head + rest;
        forall k | 0 <= k < |r|
          ensures exists i :: 0 <= i < |outs| && outs[i] == Success(Some(r[k]))
        {
          if k < |head| {
            assert outs[0] == Success(Some(r[k]));
          } else {
            assert r[k] == rest[k - |head|];
            var i :| 0 <= i < |outs[1..]| && outs[1..][i] == Success(Some(rest[k - |head|]));
            assert outs[i + 1] == Success(Some(r[k]));
          }
        }
      }
    }
  }

  /** The comprehension over two runs of steps is the two comprehensions
      laid end to end. */
  lemma {:induction false} CollectAppend<T>(x: seq<Result<Option<T>, PyError>>, y: seq<Result<Option<T>, PyError>>)
    ensures Collect(x + y).Success? <==> Collect(x).Success? && Collect(y).Success?
    ensures Collect(x + y).Success? ==> Collect(x + y).value == Collect(x).value + Collect(y).value
    decreases |x|
  {
    if |x| == 0 {
      assert x + y == y;
    } else {
      assert (x + y)[0] == x[0];
      assert (x + y)[1..] == x[1..] + y;
      CollectAppend(x[1..], y);
      if x[0].Success? && Collect(x[1..] + y).Success? {
        var head := if x[0].value.Some? then [x[0].value.value] else [];
        var cx, cy := Collect(x[1..]).value, Collect(y).value;
        assert head + (cx + cy) == (head + cx) + cy;
      }
    }
  }

  /** `json.loads`: a partial decoder, `None` when it raises. */
  type Loader = string -> Option<Value>
}
