/** Optional values and results with an error, for the lookups and checks
    that the Python source expresses with `None` or with an exception. */
module Wrappers {

  datatype Option<+T> = None | Some(value: T) {
    function GetOr(default: T): T {
      match this
      case Some(v) => v
      case None => default
    }
  }

  /** The exceptions the reporting scripts raise on bad input. */
  datatype Error =
    | KeyError(key: string)       // a dictionary lookup of an absent key
    | ValueError(message: string) // an explicit `raise ValueError(...)`
    | AssertionError              // a failed `assert`
    | IndexError                  // a list index past the end
    | NameError(name: string)     // a local variable read before any assignment
    | AttributeError(name: string) // an attribute the object does not have
    | TypeError(message: string)   // an operation on values of the wrong type

  datatype Result<+T> = Success(value: T) | Failure(error: Error) {
    predicate IsFailure() { Failure? }

    function PropagateFailure<U>(): Result<U>
      requires Failure?
    {
      Failure(error)
    }

    function Extract(): T
      requires Success?
    {
      value
    }
  }

  /** The values of `rs` in order, or the first failure among them: what
      a loop that collects results into a list returns when it stops at
      the first exception. */
  function AllValues<T>(rs: seq<Result<T>>): (r: Result<seq<T>>)
    ensures r.Success? <==> forall i :: 0 <= i < |rs| ==> rs[i].Success?
    ensures r.Success? ==> |r.value| == |rs| && forall i :: 0 <= i < |rs| ==> r.value[i] == rs[i].value
    ensures r.Failure? ==> exists i :: FirstFailure(rs, i) && rs[i].error == r.error
    decreases |rs|
  {
    if rs == [] then Success([])
    else
      var n := |rs|;
      var prefix := AllValues(rs[..n - 1]);
      assert forall i :: 0 <= i < n - 1 ==> rs[..n - 1][i] == rs[i];
      if prefix.Failure? then
        assert exists i :: FirstFailure(rs, i) && rs[i].error == prefix.error by {
          var i :| FirstFailure(rs[..n - 1], i) && rs[..n - 1][i].error == prefix.error;
          assert FirstFailure(rs, i);
        }
        Failure(prefix.error)
      else if rs[n - 1].Failure? then
        assert FirstFailure(rs, n - 1);
        Failure(rs[n - 1].error)
      else
        Success(prefix.value + [rs[n - 1].value])
  }

  /** `rs[i]` is the first failure in `rs`. */
  predicate FirstFailure<T>(rs: seq<Result<T>>, i: int)
  {
    0 <= i < |rs| && rs[i].Failure? && forall j :: 0 <= j < i ==> rs[j].Success?
  }

  /** One more step of such a loop: a success extends the list, and a
      failure is the result of the whole loop. */
  lemma AllValuesStep<T>(rs: seq<Result<T>>, i: int, acc: seq<T>)
    requires 0 <= i < |rs| && AllValues(rs[..i]) == Success(acc)
    ensures rs[i].Success? ==> AllValues(rs[..i + 1]) == Success(acc + [rs[i].value])
    ensures rs[i].Failure? ==> AllValues(rs) == Failure(rs[i].error)
  {
    var next := rs[..i + 1];
    assert next[..i] == rs[..i];
    if rs[i].Failure? {
      assert forall j :: 0 <= j < i ==> rs[j] == rs[..i][j] && rs[..i][j].Success?;
      var r := AllValues(rs);
      assert !r.Success?;
      var k :| FirstFailure(rs, k) && rs[k].error == r.error;
      assert k == i;
    }
  }

  /** Results that all succeed give their values. */
  lemma AllValuesOf<T>(rs: seq<Result<T>>, vs: seq<T>)
    requires |rs| == |vs| && forall k :: 0 <= k < |rs| ==> rs[k] == Success(vs[k])
    ensures AllValues(rs) == Success(vs)
  {
    var r := AllValues(rs);
    assert r.Success?;
    assert |r.value| == |vs| && forall k :: 0 <= k < |vs| ==> r.value[k] == vs[k];
    assert r.value == vs;
  }

  /** The first failure is the failure of all. */
  lemma AllValuesFailAt<T>(rs: seq<Result<T>>, i: int)
    requires FirstFailure(rs, i)
    ensures AllValues(rs) == Failure(rs[i].error)
  {
    var r := AllValues(rs);
    assert !r.Success?;
    var j :| FirstFailure(rs, j) && rs[j].error == r.error;
    assert !(j < i) && !(i < j);
  }

  /** A first result in front of others: all succeed exactly when the first
      and the others do, and the values are the first's followed by the
      others'. */
  lemma AllValuesCons<T>(x: Result<T>, rs: seq<Result<T>>)
    ensures AllValues([x] + rs).Success? <==> x.Success? && AllValues(rs).Success?
    ensures AllValues([x] + rs).Success? ==> AllValues([x] + rs).value == [x.value] + AllValues(rs).value
  {
    if x.Failure? {
      assert FirstFailure([x] + rs, 0);
      AllValuesFailAt([x] + rs, 0);
    } else if AllValues(rs).Failure? {
      AllValuesConsFailure(x, rs);
    } else {
      AllValuesConsSuccess(x, rs);
    }
  }

  /** A failure among the others fails the whole. */
  lemma AllValuesConsFailure<T>(x: Result<T>, rs: seq<Result<T>>)
    requires x.Success? && AllValues(rs).Failure?
    ensures AllValues([x] + rs).Failure?
  {
    var s := [x] + rs;
    var j :| FirstFailure(rs, j);
    forall k | 0 <= k < j + 1 ensures s[k].Success? {
      if k > 0 {
        assert s[k] == rs[k - 1];
      }
    }
    assert s[j + 1] == rs[j];
    assert FirstFailure(s, j + 1);
    AllValuesFailAt(s, j + 1);
  }

  /** All succeeding, the first's value goes in front. */
  lemma AllValuesConsSuccess<T>(x: Result<T>, rs: seq<Result<T>>)
    requires x.Success? && AllValues(rs).Success?
    ensures AllValues([x] + rs) == Success([x.value] + AllValues(rs).value)
  {
    var s := [x] + rs;
    var v := AllValues(rs).value;
    var vs := [x.value] + v;
    forall k | 0 <= k < |s| ensures s[k] == Success(vs[k]) {
      if k > 0 {
        assert s[k] == rs[k - 1] && vs[k] == v[k - 1];
      }
    }
    AllValuesOf(s, vs);
  }

  /** The outputs of several items appended in order, stopping at the first
      item whose output fails: a loop that extends a list item by item
      and ends at the first exception. */
  function Gather<T, U>(items: seq<T>, outputOf: T -> Result<seq<U>>): Result<seq<U>>
    decreases |items|
  {
    if items == [] then Success([])
    else
      var before :- Gather(items[..|items| - 1], outputOf);
      var more :- outputOf(items[|items| - 1]);
      Success(before + more)
  }

  /** Gathering succeeds exactly when every item's output does, and then
      holds exactly their elements. */
  lemma GatherContents<T, U>(items: seq<T>, outputOf: T -> Result<seq<U>>)
    ensures Gather(items, outputOf).Success? <==> forall i :: 0 <= i < |items| ==> outputOf(items[i]).Success?
    ensures Gather(items, outputOf).Success? ==> forall x :: x in Gather(items, outputOf).value <==>
      exists i :: 0 <= i < |items| && outputOf(items[i]).Success? && x in outputOf(items[i]).value
  {
    GatherSucceeds(items, outputOf);
    if Gather(items, outputOf).Success? {
      forall x ensures x in Gather(items, outputOf).value <==>
        exists i :: 0 <= i < |items| && outputOf(items[i]).Success? && x in outputOf(items[i]).value
      {
        if x in Gather(items, outputOf).value {
          GatherFrom(items, outputOf, x);
        }
        if exists i :: 0 <= i < |items| && outputOf(items[i]).Success? && x in outputOf(items[i]).value {
          var i :| 0 <= i < |items| && outputOf(items[i]).Success? && x in outputOf(items[i]).value;
          GatherHas(items, outputOf, i, x);
        }
      }
    }
  }

  lemma {:induction false} GatherSucceeds<T, U>(items: seq<T>, outputOf: T -> Result<seq<U>>)
    ensures Gather(items, outputOf).Success? <==> forall i :: 0 <= i < |items| ==> outputOf(items[i]).Success?
    decreases |items|
  {
    if items != [] {
      var n := |items|;
      var prefix := items[..n - 1];
      GatherSucceeds(prefix, outputOf);
      assert forall i :: 0 <= i < n - 1 ==> prefix[i] == items[i];
    }
  }

  /** Every element gathered comes from some item's output. */
  lemma {:induction false} GatherFrom<T, U>(items: seq<T>, outputOf: T -> Result<seq<U>>, x: U)
    requires Gather(items, outputOf).Success? && x in Gather(items, outputOf).value
    ensures exists i :: 0 <= i < |items| && outputOf(items[i]).Success? && x in outputOf(items[i]).value
    decreases |items|
  {
    var n := |items|;
    var prefix := items[..n - 1];
    if x !in outputOf(items[n - 1]).value {
      GatherFrom(prefix, outputOf, x);
      var i :| 0 <= i < n - 1 && outputOf(prefix[i]).Success? && x in outputOf(prefix[i]).value;
      assert prefix[i] == items[i];
    }
  }

  /** Every element of every item's output is gathered. */
  lemma {:induction false} GatherHas<T, U>(items: seq<T>, outputOf: T -> Result<seq<U>>, i: int, x: U)
    requires Gather(items, outputOf).Success? && 0 <= i < |items|
    requires outputOf(items[i]).Success? && x in outputOf(items[i]).value
    ensures x in Gather(items, outputOf).value
    decreases |items|
  {
    var n := |items|;
    var prefix := items[..n - 1];
    if i < n - 1 {
      assert prefix[i] == items[i];
      GatherHas(prefix, outputOf, i, x);
    }
  }

  /** Once a prefix fails, the whole gathering fails the same way. */
  lemma {:induction false} GatherFailed<T, U>(items: seq<T>, outputOf: T -> Result<seq<U>>, j: int)
    requires 0 <= j <= |items| && Gather(items[..j], outputOf).Failure?
    ensures Gather(items, outputOf) == Gather(items[..j], outputOf)
    decreases |items|
  {
    var n := |items|;
    if j < n {
      var prefix := items[..n - 1];
      assert prefix[..j] == items[..j];
      GatherFailed(prefix, outputOf, j);
    } else {
      assert items[..j] == items;
    }
  }

  /** One more item of the loop that gathers outputs. */
  lemma GatherStep<T, U>(items: seq<T>, outputOf: T -> Result<seq<U>>, i: int, acc: seq<U>)
    requires 0 <= i < |items| && Gather(items[..i], outputOf) == Success(acc)
    ensures outputOf(items[i]).Success? ==> Gather(items[..i + 1], outputOf) == Success(acc + outputOf(items[i]).value)
    ensures outputOf(items[i]).Failure? ==> Gather(items, outputOf) == Failure(outputOf(items[i]).error)
  {
    assert items[..i + 1][..i] == items[..i];
    if outputOf(items[i]).Failure? {
      GatherFailed(items, outputOf, i + 1);
    }
  }

  /** A failed gathering fails with the error of some item. */
  lemma {:induction false} GatherFirstError<T, U>(items: seq<T>, outputOf: T -> Result<seq<U>>)
    requires Gather(items, outputOf).Failure?
    ensures exists i :: 0 <= i < |items| && outputOf(items[i]).Failure? && outputOf(items[i]).error == Gather(items, outputOf).error
    decreases |items|
  {
    var n := |items|;
    var prefix := items[..n - 1];
    if Gather(prefix, outputOf).Failure? {
      GatherFirstError(prefix, outputOf);
      var i :| 0 <= i < n - 1 && outputOf(prefix[i]).Failure? && outputOf(prefix[i]).error == Gather(prefix, outputOf).error;
      assert prefix[i] == items[i];
    }
  }
}
