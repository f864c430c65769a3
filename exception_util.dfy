/** Peeling reflection wrappers off an exception to reach the one the invoked
    code actually threw. */
module ExceptionUtil {

  /** The throwables the unwrapping distinguishes.  A wrapper's cause may itself
      be a wrapper; `NoThrowable` stands for Java's null. */
  datatype Throwable =
    | InvocationTargetException(target: Throwable)
    | UndeclaredThrowableException(undeclared: Throwable)
    | Thrown(className: string, message: string)
    | NoThrowable
  {
    predicate IsWrapper() {
      InvocationTargetException? || UndeclaredThrowableException?
    }

    /** The wrapped throwable one level down. */
    function Cause(): Throwable
      requires IsWrapper()
    {
      if InvocationTargetException? then target else undeclared
    }
  }

  /** Applying `Cause` `n` times: it never adds a layer, and peeling at least
      as many times as there are wrappers leaves none. */
  function Peel(t: Throwable, n: nat): (r: Throwable)
    ensures WrapDepth(r) <= WrapDepth(t)
    ensures n >= WrapDepth(t) ==> !r.IsWrapper()
  {
    if n == 0 || !t.IsWrapper() then t else Peel(t.Cause(), n - 1)
  }

  /** The number of wrappers around the innermost throwable. */
  function WrapDepth(t: Throwable): nat
  {
    if t.IsWrapper() then 1 + WrapDepth(t.Cause()) else 0
  }

  /** ExceptionUtil.unwrapThrowable: follows getTargetException and
      getUndeclaredThrowable until the throwable is neither wrapper. */
  method UnwrapThrowable(wrapped: Throwable) returns (r: Throwable)
    ensures !r.IsWrapper()
    ensures r == Peel(wrapped, WrapDepth(wrapped))
  {
    var unwrapped := wrapped;
    ghost var peeled: nat := 0;
    while true
      invariant peeled <= WrapDepth(wrapped)
      invariant unwrapped == Peel(wrapped, peeled)
      invariant WrapDepth(unwrapped) == WrapDepth(wrapped) - peeled
      decreases WrapDepth(unwrapped)
    {
      PeelStep(wrapped, peeled);
      if unwrapped.InvocationTargetException? {
        unwrapped := unwrapped.target;
      } else if unwrapped.UndeclaredThrowableException? {
        unwrapped := unwrapped.undeclared;
      } else {
        return unwrapped;
      }
      peeled := peeled + 1;
    }
  }

  /** One more peel is one more step of `Cause` while the result is still a wrapper. */
  lemma {:induction false} PeelStep(t: Throwable, n: nat)
    requires n <= WrapDepth(t)
    ensures WrapDepth(Peel(t, n)) == WrapDepth(t) - n
    ensures Peel(t, n).IsWrapper() ==> Peel(t, n + 1) == Peel(t, n).Cause()
  {
    if n > 0 && t.IsWrapper() {
      PeelStep(t.Cause(), n - 1);
    }
  }

  /** Unwrapping is idempotent: the result of peeling every wrapper has nothing
      left to peel, and a throwable that is not a wrapper is returned as is. */
  lemma {:induction false} PeelAllIdempotent(t: Throwable)
    ensures var u := Peel(t, WrapDepth(t));
      !u.IsWrapper() && WrapDepth(u) == 0 && Peel(u, WrapDepth(u)) == u
  {
    PeelStep(t, WrapDepth(t));
  }
}
