/**
 * The two test decorators `skip_if_not_implemented` and
 * `skip_if_not_supported`. A wrapped test body either returns a value or
 * raises; the decorator turns some exceptions into a pytest skip. A skip is
 * pytest's own control-flow exception, which derives from BaseException, so
 * an enclosing decorator lets it through untouched.
 */
module Guards {
  import opened Common

  datatype Outcome<T> = Passed(value: T) | Skipped(reason: seq<string>) | Raised(exc: Exc)

  const NotImplementedReason: seq<string> := ["feature not implemented"]
  const NotSupportedReason: seq<string> := ["feature not supported by platform"]

  /** The exceptions `skip_if_not_implemented` catches. */
  predicate Unimplemented(e: Exc) {
    e.AttributeError? || e.NotImplementedError?
  }

  /** The netlink codes `skip_if_not_supported` turns into a skip. */
  predicate UnsupportedCode(code: int) {
    code in {EOPNOTSUPP, ENOENT}
  }

  /** `skip_if_not_implemented(func)(context)`, given what `func(context)` did. */
  function SkipIfNotImplemented<T>(body: Result<T, Exc>): (o: Outcome<T>)
    ensures body.Success? <==> o.Passed?
    ensures body.Success? ==> o.value == body.value
    ensures o.Skipped? <==> body.Failure? && Unimplemented(body.error)
    ensures o.Skipped? ==> o.reason == NotImplementedReason
    ensures o.Raised? ==> body == Failure(o.exc)
  {
    match body
    case Success(v) => Passed(v)
    case Failure(e) => if e.AttributeError? || e.NotImplementedError? then Skipped(NotImplementedReason) else Raised(e)
  }

  /**
   * `pytest.skip` takes at most one positional reason, so `pytest.skip(*e.args)`
   * raises TypeError, not a skip, when the exception carries two or more args.
   */
  const SkipTypeError: Exc := OtherError("TypeError")

  /** `skip_if_not_supported(func)(...)`, given what `func(...)` did. */
  function SkipIfNotSupported<T>(body: Result<T, Exc>): (o: Outcome<T>)
    ensures body.Success? <==> o.Passed?
    ensures body.Success? ==> o.value == body.value
    ensures o.Skipped? <==> body.Failure? && ((body.error.NetlinkError? && UnsupportedCode(body.error.code))
                                              || (IsRuntimeError(body.error) && |body.error.args| <= 1))
    ensures o.Skipped? && body.error.NetlinkError? ==> o.reason == NotSupportedReason
    ensures o.Skipped? && IsRuntimeError(body.error) ==> o.reason == body.error.args
    ensures o.Raised? && IsRuntimeError(body.error) ==> |body.error.args| > 1 && o.exc == SkipTypeError
    ensures o.Raised? && !IsRuntimeError(body.error) ==> body == Failure(o.exc)
  {
    match body
    case Success(v) => Passed(v)
    case Failure(e) =>
      match e
      case NetlinkError(code) => if code in {EOPNOTSUPP, ENOENT} then Skipped(NotSupportedReason) else Raised(e)
      case RuntimeError(args) => if |args| <= 1 then Skipped(args) else Raised(SkipTypeError)
      case NotImplementedError(args) => if |args| <= 1 then Skipped(args) else Raised(SkipTypeError)
      case _ => Raised(e)
  }

  /**
   * Applies an outer decorator to what an inner decorated call produced: the
   * inner skip passes through, a return or an exception reaches the outer one.
   */
  function Enclose<T>(inner: Outcome<T>, outer: Result<T, Exc> -> Outcome<T>): (o: Outcome<T>)
    ensures inner.Skipped? ==> o == inner
    ensures inner.Passed? ==> o == outer(Success(inner.value))
    ensures inner.Raised? ==> o == outer(Failure(inner.exc))
  {
    match inner
    case Skipped(_) => inner
    case Passed(v) => outer(Success(v))
    case Raised(e) => outer(Failure(e))
  }

  /** A netlink error with any code other than EOPNOTSUPP and ENOENT fails the test unchanged. */
  lemma NotSupportedReraisesOtherCodes<T>(code: int)
    requires code != EOPNOTSUPP && code != ENOENT
    ensures SkipIfNotSupported<T>(Failure(NetlinkError(code))) == Raised(NetlinkError(code))
  {
  }

  /**
   * Stacking the two decorators in either order skips the same test bodies,
   * except a NotImplementedError with two or more args: innermost, the
   * unsupported guard turns it into a TypeError that the other guard lets
   * through, while the other order skips it. Neither order turns a return
   * into anything else.
   */
  lemma StackingOrderKeepsSkipDecision<T>(body: Result<T, Exc>)
    ensures (Enclose(SkipIfNotSupported(body), SkipIfNotImplemented).Skipped?
             <==> Enclose(SkipIfNotImplemented(body), SkipIfNotSupported).Skipped?)
        <==> !(body.Failure? && body.error.NotImplementedError? && |body.error.args| > 1)
    ensures body.Success? ==>
              Enclose(SkipIfNotSupported(body), SkipIfNotImplemented) == Passed(body.value)
              && Enclose(SkipIfNotImplemented(body), SkipIfNotSupported) == Passed(body.value)
  {
  }

  /**
   * ... but the skip reason depends on the order: NotImplementedError is a
   * RuntimeError, so the unsupported guard, when innermost, reports its args.
   */
  lemma StackingOrderChangesReason<T>(msg: string)
    ensures Enclose(SkipIfNotSupported<T>(Failure(NotImplementedError([msg]))), SkipIfNotImplemented)
         == Skipped([msg])
    ensures Enclose(SkipIfNotImplemented<T>(Failure(NotImplementedError([msg]))), SkipIfNotSupported)
         == Skipped(NotImplementedReason)
  {
  }
}
