/** Failure-carrying datatypes shared by every module of the model. */
module Wrappers {

  /** A value that may be absent: Python's `None`, a missing key, a failed parse. */
  datatype Option<+T> = None | Some(value: T) {

    /** The carried value, or `default` when absent. */
    function GetOr(default: T): T {
      match this
      case Some(v) => v
      case None => default
    }
  }

  /** The outcome of an operation that can raise or be refused. */
  datatype Result<+R, +E> = Success(value: R) | Failure(error: E) {

    predicate IsFailure() {
      Failure?
    }

    function PropagateFailure<U>(): Result<U, E>
      requires Failure?
    {
      Failure(error)
    }

    function Extract(): R
      requires Success?
    {
      value
    }
  }

  /** The carried values of a run of options, in order, the absent ones skipped. */
  function Somes<T>(os: seq<Option<T>>): (r: seq<T>)
    ensures |r| <= |os|
  {
    if |os| == 0 then []
    else if os[0].Some? then [os[0].value] + Somes(os[1..])
    else Somes(os[1..])
  }

  /** Skipping the absent values of two runs one after the other. */
  lemma {:induction false} SomesAppend<T>(a: seq<Option<T>>, b: seq<Option<T>>)
    ensures Somes(a + b) == Somes(a) + Somes(b)
  {
    if |a| == 0 {
      assert a + b == b;
    } else {
      assert (a + b)[0] == a[0];
      assert (a + b)[1..] == a[1..] + b;
      SomesAppend(a[1..], b);
    }
  }

  /** Every kept value is carried by some option, and nothing is kept
      exactly when every option is absent. */
  lemma {:induction false} SomesFrom<T>(os: seq<Option<T>>)
    ensures forall x :: x in Somes(os) ==> exists i :: 0 <= i < |os| && os[i] == Some(x)
    ensures Somes(os) == [] <==> forall i :: 0 <= i < |os| ==> os[i].None?
  {
    if |os| > 0 {
      SomesFrom(os[1..]);
      assert forall i :: 1 <= i < |os| ==> os[i] == os[1..][i - 1];
    }
  }

  /** Every present value is kept. */
  lemma {:induction false} SomesKeep<T>(os: seq<Option<T>>)
    ensures forall i :: 0 <= i < |os| && os[i].Some? ==> os[i].value in Somes(os)
  {
    if |os| > 0 {
      SomesKeep(os[1..]);
      assert forall i :: 1 <= i < |os| ==> os[i] == os[1..][i - 1];
    }
  }

  /** Values whose keys increase along the options keep increasing once
      the absent ones are skipped. */
  lemma {:induction false} SomesAscend<T>(os: seq<Option<T>>, key: T -> int)
    requires forall a, b :: 0 <= a < b < |os| && os[a].Some? && os[b].Some? ==> key(os[a].value) < key(os[b].value)
    ensures forall i, j :: 0 <= i < j < |Somes(os)| ==> key(Somes(os)[i]) < key(Somes(os)[j])
  {
    if |os| > 0 {
      var rest := os[1..];
      assert forall a :: 0 <= a < |rest| ==> rest[a] == os[a + 1];
      SomesAscend(rest, key);
      var tail := Somes(rest);
      if os[0].Some? {
        SomesFrom(rest);
        var r := Somes(os);
        assert r == [os[0].value] + tail;
        forall j | 1 <= j < |r|
          ensures key(r[0]) < key(r[j])
        {
          assert r[j] == tail[j - 1];
          var a :| 0 <= a < |rest| && rest[a] == Some(tail[j - 1]);
          assert os[a + 1] == Some(r[j]);
        }
        assert forall i, j :: 1 <= i < j < |r| ==> r[i] == tail[i - 1] && r[j] == tail[j - 1];
      } else {
        assert Somes(os) == tail;
      }
    }
  }

  /** `f` applied to each element, in order. */
  function Map<A, B>(f: A -> B, s: seq<A>): (r: seq<B>)
    ensures |r| == |s| && forall i :: 0 <= i < |s| ==> r[i] == f(s[i])
  {
    seq(|s|, i requires 0 <= i < |s| => f(s[i]))
  }

  /** Mapping two runs one after the other. */
  lemma MapAppend<A, B>(f: A -> B, a: seq<A>, b: seq<A>)
    ensures Map(f, a + b) == Map(f, a) + Map(f, b)
  {
    var r := Map(f, a + b);
    assert forall i :: 0 <= i < |a| ==> r[i] == f(a[i]);
    assert forall i :: 0 <= i < |b| ==> r[|a| + i] == f(b[i]);
  }
}
