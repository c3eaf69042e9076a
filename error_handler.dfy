/**
 * The crawl's error policy. A policy receives the exception raised while fetching
 * or handling a page, together with a retry callback bound to that page, and
 * either re-raises it (Throwing), logs it and returns (Logging), or calls the
 * retry callback once and then delegates to an inner policy (Retrying).
 */
module ErrorHandler {
  import opened Wrappers

  datatype Policy = Throwing | Logging | Retrying(inner: Policy)

  /** What handling an error does, in the order it happens. */
  datatype Effect<E> = RetryCall | Log(err: E) | Raise(err: E)

  /** How many Retrying layers wrap the innermost policy. */
  function Depth(p: Policy): nat
  {
    match p
    case Retrying(inner) => 1 + Depth(inner)
    case _ => 0
  }

  /** The policy at the bottom of a chain of Retrying layers. */
  function Innermost(p: Policy): (q: Policy)
    ensures !q.Retrying?
  {
    match p
    case Retrying(inner) => Innermost(inner)
    case _ => p
  }

  /** The single effect of a policy that does not retry. */
  function Final<E>(p: Policy, err: E): Effect<E>
    requires !p.Retrying?
  {
    if p.Throwing? then Raise(err) else Log(err)
  }

  /** `n` Retrying layers around `p`. */
  function Nest(n: nat, p: Policy): (q: Policy)
  {
    if n == 0 then p else Retrying(Nest(n - 1, p))
  }

  function Repeat<T>(x: T, n: nat): (s: seq<T>)
    ensures |s| == n && forall i :: 0 <= i < n ==> s[i] == x
  {
    if n == 0 then [] else [x] + Repeat(x, n - 1)
  }

  /**
   * The effects of `p.handle(err, retry_callback)`: every Retrying layer calls the
   * callback once before delegating, so the trace is one RetryCall per layer
   * followed by the single effect of the innermost policy.
   */
  function Handle<E>(p: Policy, err: E): (trace: seq<Effect<E>>)
    ensures |trace| == Depth(p) + 1
    ensures forall i :: 0 <= i < Depth(p) ==> trace[i] == RetryCall
    ensures trace[Depth(p)] == Final(Innermost(p), err)
  {
    match p
    case Throwing => [Raise(err)]
    case Logging => [Log(err)]
    case Retrying(inner) => [RetryCall] + Handle(inner, err)
  }

  /** How many times a trace calls the retry callback. */
  function Retries<E>(trace: seq<Effect<E>>): nat
  {
    if trace == [] then 0
    else (if trace[0] == RetryCall then 1 else 0) + Retries(trace[1..])
  }

  /** The exception a trace ends by raising, if any. */
  function Raised<E>(trace: seq<Effect<E>>): Option<E>
  {
    if trace == [] then None
    else if trace[|trace| - 1].Raise? then Some(trace[|trace| - 1].err)
    else None
  }

  /** ThrowingHandler re-raises exactly the error it was given and never retries. */
  lemma ThrowingReraises<E>(err: E)
    ensures Raised(Handle(Throwing, err)) == Some(err)
    ensures Retries(Handle(Throwing, err)) == 0
  {
  }

  /** LoggingHandler returns normally and never retries. */
  lemma LoggingReturns<E>(err: E)
    ensures Raised(Handle(Logging, err)) == None
    ensures Retries(Handle(Logging, err)) == 0
  {
  }

  /**
   * RetryingHandler calls the callback first, exactly once more than its inner
   * handler, and raises iff the inner handler raises, with the same error.
   */
  lemma RetryingDelegates<E>(inner: Policy, err: E)
    ensures Handle(Retrying(inner), err)[0] == RetryCall
    ensures Retries(Handle(Retrying(inner), err)) == 1 + Retries(Handle(inner, err))
    ensures Raised(Handle(Retrying(inner), err)) == Raised(Handle(inner, err))
  {
    var t := Handle(Retrying(inner), err);
    assert t[1..] == Handle(inner, err);
  }

  /** `n` nested Retrying layers call the callback `n` times, then act like the inner policy. */
  lemma {:induction false} NestedRetrying<E>(n: nat, p: Policy, err: E)
    ensures Handle(Nest(n, p), err) == Repeat(RetryCall, n) + Handle(p, err)
  {
    if n > 0 {
      NestedRetrying(n - 1, p, err);
    }
  }

  /** The number of retries equals the number of Retrying layers. */
  lemma {:induction false} RetriesEqualDepth<E>(p: Policy, err: E)
    ensures Retries(Handle(p, err)) == Depth(p)
  {
    match p
    case Retrying(inner) =>
      RetriesEqualDepth(inner, err);
      assert Handle(p, err)[1..] == Handle(inner, err);
    case _ =>
  }

  /** A policy raises iff its innermost policy is Throwing, and then raises the given error. */
  lemma RaisesIffInnermostThrows<E>(p: Policy, err: E)
    ensures Raised(Handle(p, err)) == if Innermost(p).Throwing? then Some(err) else None
  {
  }
}
