/** Error values shared by every sink, and the first-error rule of joinErrors. */
module Basics {

  datatype Option<+T> = None | Some(value: T)

  datatype Err =
    | SinkClosed
    | CircuitOpen
    | Cancelled(cause: int)
    | Downstream(code: int)
    | Joined(errs: seq<Err>)
    | RetriesFailed(attempts: int, last: Err)

  datatype OverflowPolicy = DropNewest | Block | Unknown(code: int)

  /** Go's `error` result: None is nil. */
  type Result = Option<Err>

  /** The first non-nil error, nil when there is none. */
  function FirstError(errs: seq<Result>): (r: Result)
    ensures r.None? <==> forall i :: 0 <= i < |errs| ==> errs[i].None?
    ensures r.Some? ==> exists i :: 0 <= i < |errs| && errs[i] == r && forall j :: 0 <= j < i ==> errs[j].None?
  {
    if errs == [] then None
    else if errs[0].Some? then errs[0]
    else
      var r := FirstError(errs[1..]);
      assert r.Some? ==> exists i :: 0 <= i < |errs[1..]| && errs[1..][i] == r && errs[i + 1] == r && forall j :: 0 <= j < i ==> errs[1..][j].None?;
      r
  }

  /** Reading the list from its end: the earlier error still wins. */
  lemma {:induction false} FirstErrorSnoc(errs: seq<Result>, r: Result)
    ensures FirstError(errs + [r]) == if FirstError(errs).Some? then FirstError(errs) else r
  {
    if errs == [] {
      assert errs + [r] == [r];
    } else {
      assert (errs + [r])[1..] == errs[1..] + [r];
      FirstErrorSnoc(errs[1..], r);
    }
  }

  lemma FirstOfTwo(a: Result, b: Result)
    ensures FirstError([a, b]) == if a.Some? then a else b
  {
    FirstErrorSnoc([a], b);
    assert [a] + [b] == [a, b];
  }

  lemma FirstOfThree(a: Result, b: Result, c: Result)
    ensures FirstError([a, b, c]) == if a.Some? then a else if b.Some? then b else c
  {
    FirstErrorSnoc([a, b], c);
    FirstOfTwo(a, b);
    assert [a, b] + [c] == [a, b, c];
  }

  /** joinErrors: collect the non-nil errors, answer with the first. */
  method JoinErrors(errs: seq<Result>) returns (r: Result)
    ensures r == FirstError(errs)
  {
    var nonNil: seq<Err> := [];
    for i := 0 to |errs|
      invariant FirstError(errs[..i]) == if nonNil == [] then None else Some(nonNil[0])
    {
      assert errs[..i + 1] == errs[..i] + [errs[i]];
      FirstErrorSnoc(errs[..i], errs[i]);
      if errs[i].Some? {
        nonNil := nonNil + [errs[i].value];
      }
    }
    assert errs[..|errs|] == errs;
    if |nonNil| == 0 {
      return None;
    }
    return Some(nonNil[0]);
  }
}
