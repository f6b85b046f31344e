/**
 * A pass over a list that stops at the first element whose step raises: which exception
 * escapes, if any.
 */
module Raising {

  import opened Wrappers

  /** The exception of the first element `f` raises on; the pass stops there. */
  function FirstRaised<T, E>(f: T -> Option<E>, xs: seq<T>): Option<E> {
    if |xs| == 0 then None
    else if FirstRaised(f, xs[..|xs| - 1]).Some? then FirstRaised(f, xs[..|xs| - 1])
    else f(xs[|xs| - 1])
  }

  /** The pass over one more element raises what the shorter pass raised, or else what the
      element raises. */
  lemma FirstRaisedStep<T, E>(f: T -> Option<E>, xs: seq<T>, i: nat)
    requires i < |xs|
    ensures FirstRaised(f, xs[..i + 1]) == if FirstRaised(f, xs[..i]).Some? then FirstRaised(f, xs[..i]) else f(xs[i])
  {
    assert xs[..i + 1][..i] == xs[..i];
  }

  /** Once an element has raised, the elements after it do not matter. */
  lemma {:induction false} FirstRaisedSticks<T, E>(f: T -> Option<E>, xs: seq<T>, n: nat)
    requires n <= |xs| && FirstRaised(f, xs[..n]).Some?
    ensures FirstRaised(f, xs) == FirstRaised(f, xs[..n])
  {
    if n == |xs| {
      assert xs[..n] == xs;
    } else {
      var init := xs[..|xs| - 1];
      assert init[..n] == xs[..n];
      FirstRaisedSticks(f, init, n);
    }
  }

  /** The pass raises the exception of element `i` when the elements before it raise nothing. */
  lemma FirstRaisedAt<T, E>(f: T -> Option<E>, xs: seq<T>, i: nat)
    requires i < |xs| && FirstRaised(f, xs[..i]).None? && f(xs[i]).Some?
    ensures FirstRaised(f, xs) == f(xs[i])
  {
    FirstRaisedStep(f, xs, i);
    FirstRaisedSticks(f, xs, i + 1);
  }

  /** The pass raises nothing exactly when no element raises. */
  lemma {:induction false} FirstRaisedNone<T, E>(f: T -> Option<E>, xs: seq<T>)
    ensures FirstRaised(f, xs).None? <==> forall j :: 0 <= j < |xs| ==> f(xs[j]).None?
  {
    if |xs| > 0 {
      var init := xs[..|xs| - 1];
      FirstRaisedNone(f, init);
      if FirstRaised(f, xs).None? {
        forall j | 0 <= j < |xs| ensures f(xs[j]).None? {
          if j < |init| {
            assert xs[j] == init[j];
          }
        }
      }
    }
  }

  /** When the pass raises, it is the exception of an element before which none raises. */
  lemma {:induction false} FirstRaisedSome<T, E>(f: T -> Option<E>, xs: seq<T>) returns (p: nat)
    requires FirstRaised(f, xs).Some?
    ensures p < |xs| && f(xs[p]) == FirstRaised(f, xs)
    ensures forall j :: 0 <= j < p ==> f(xs[j]).None?
  {
    var init := xs[..|xs| - 1];
    if FirstRaised(f, init).Some? {
      p := FirstRaisedSome(f, init);
    } else {
      p := |xs| - 1;
      FirstRaisedNone(f, init);
    }
  }

  // ---------------------------------------------------------------- building a list

  /** A pass that builds one result per element, `f` seeing each element with its 1-based
      position: the list of results, or the exception of the first element `f` raises on. */
  function MapAll<T, U, E>(f: (T, nat) -> Result<U, E>, xs: seq<T>): Result<seq<U>, E> {
    if |xs| == 0 then Success([])
    else
      match MapAll(f, xs[..|xs| - 1])
      case Failure(e) => Failure(e)
      case Success(ys) =>
        match f(xs[|xs| - 1], |xs|)
        case Failure(e) => Failure(e)
        case Success(y) => Success(ys + [y])
  }

  /** Once an element has raised, the elements after it do not matter. */
  lemma {:induction false} MapAllSticks<T, U, E>(f: (T, nat) -> Result<U, E>, xs: seq<T>, n: nat)
    requires n <= |xs| && MapAll(f, xs[..n]).Failure?
    ensures MapAll(f, xs) == MapAll(f, xs[..n])
  {
    if n == |xs| {
      assert xs[..n] == xs;
    } else {
      var init := xs[..|xs| - 1];
      assert init[..n] == xs[..n];
      MapAllSticks(f, init, n);
    }
  }

  /** A pass that raises nothing has one result per element: `f`'s result on it. */
  lemma {:induction false} MapAllRecord<T, U, E>(f: (T, nat) -> Result<U, E>, xs: seq<T>, i: nat)
    requires MapAll(f, xs).Success? && i < |xs|
    ensures |MapAll(f, xs).value| == |xs| && f(xs[i], i + 1) == Success(MapAll(f, xs).value[i])
  {
    var init := xs[..|xs| - 1];
    if i < |init| {
      MapAllRecord(f, init, i);
      assert init[i] == xs[i];
    } else {
      if |init| > 0 {
        MapAllRecord(f, init, 0);
      }
    }
  }

  /** The pass raises nothing exactly when `f` raises on no element. */
  lemma {:induction false} MapAllSucceeds<T, U, E>(f: (T, nat) -> Result<U, E>, xs: seq<T>)
    ensures MapAll(f, xs).Success? <==> forall i :: 0 <= i < |xs| ==> f(xs[i], i + 1).Success?
  {
    if |xs| > 0 {
      var init := xs[..|xs| - 1];
      MapAllSucceeds(f, init);
      if MapAll(f, xs).Success? {
        forall i | 0 <= i < |xs| ensures f(xs[i], i + 1).Success? {
          if i < |init| {
            assert init[i] == xs[i];
          }
        }
      }
    }
  }

  /** When the pass raises, it raises what `f` raises on the first element it fails on. */
  lemma {:induction false} MapAllError<T, U, E>(f: (T, nat) -> Result<U, E>, xs: seq<T>) returns (p: nat)
    requires MapAll(f, xs).Failure?
    ensures p < |xs| && f(xs[p], p + 1).Failure? && MapAll(f, xs).error == f(xs[p], p + 1).error
    ensures forall i :: 0 <= i < p ==> f(xs[i], i + 1).Success?
  {
    var init := xs[..|xs| - 1];
    if MapAll(f, init).Failure? {
      p := MapAllError(f, init);
      assert forall i :: 0 <= i <= p ==> init[i] == xs[i];
    } else {
      p := |xs| - 1;
      MapAllSucceeds(f, init);
      assert forall i :: 0 <= i < p ==> init[i] == xs[i];
    }
  }

  /** A one-element pass gives `f`'s result on that element as a one-element list. */
  lemma MapAllSingle<T, U, E>(f: (T, nat) -> Result<U, E>, x: T)
    ensures MapAll(f, [x]) == match f(x, 1) case Failure(e) => Failure(e) case Success(y) => Success([y])
  {
    assert [x][..0] == [];
    assert MapAll(f, [x][..0]) == Success([]);
    match f(x, 1)
    case Failure(e) =>
    case Success(y) => assert [] + [y] == [y];
  }
}
