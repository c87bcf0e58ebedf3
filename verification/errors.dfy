/**
 Go's error values as the authentication service uses them: sentinel errors
 created by `errors.New`, chains built by `fmt.Errorf("%s: %w", op, err)`, and
 the chain walk performed by `errors.Is`.
 */
module GoErrors {

  /** Go's "value or nil". */
  datatype Option<+T> = None | Some(value: T)

  /** An error that wraps nothing, such as one made by `errors.New`. Go compares
      such errors by identity; the identity here is the declaring package and
      variable name, and `text` is what `Error()` returns. */
  datatype Origin = Origin(pkg: string, name: string, text: string)

  /** An error chain: a base error, or `fmt.Errorf("%s: %w", op, cause)`. */
  datatype Error =
    | Base(origin: Origin)
    | Wrap(op: string, cause: Error)

  /** A Go `(value, error)` return in which the value is ignored whenever the
      error is non-nil. */
  datatype Result<+T> = Ok(value: T) | Fail(error: Error)

  /** `err.Error()`: each wrap prefixes its operation name and ": ". */
  function Message(e: Error): string
  {
    match e
    case Base(o) => o.text
    case Wrap(op, c) => op + ": " + Message(c)
  }

  /** `errors.Unwrap`: the wrapped cause, or nil for a base error. */
  function Unwrap(e: Error): (r: Option<Error>)
    ensures r.None? <==> e.Base?
    ensures r.Some? ==> r.value < e
    ensures e.Wrap? ==> r == Some(e.cause)
  {
    match e
    case Base(_) => None
    case Wrap(_, c) => Some(c)
  }

  /** `errors.Is(e, target)` for a base target: does the chain reach it? */
  predicate Is(e: Error, target: Origin)
  {
    match e
    case Base(o) => o == target
    case Wrap(_, c) => Is(c, target)
  }

  /** The innermost cause of a chain. */
  function Root(e: Error): (r: Error)
    ensures r.Base?
    ensures e.Base? ==> r == e
  {
    match e
    case Base(_) => e
    case Wrap(_, c) => Root(c)
  }

  /** A chain "is" exactly one base error: the one at its root. */
  lemma {:induction false} IsIffRoot(e: Error, target: Origin)
    ensures Is(e, target) <==> Root(e) == Base(target)
  {
    match e
    case Base(_) =>
    case Wrap(_, c) => IsIffRoot(c, target);
  }

  /** Wrapping never changes which base error a chain is: the cause is kept
      for inspection. */
  lemma WrapKeepsKind(op: string, e: Error, target: Origin)
    ensures Is(Wrap(op, e), target) <==> Is(e, target)
    ensures Root(Wrap(op, e)) == Root(e)
  {
  }

  /** The text of the innermost cause survives at the end of the message of
      every chain built on it. */
  lemma {:induction false} MessageEndsWithRootText(e: Error)
    ensures |Message(Root(e))| <= |Message(e)|
    ensures Message(e)[|Message(e)| - |Message(Root(e))|..] == Message(Root(e))
  {
    match e
    case Base(_) =>
    case Wrap(op, c) =>
      MessageEndsWithRootText(c);
      var m := Message(c);
      var r := Message(Root(c));
      assert Message(e) == (op + ": ") + m;
      assert Message(e)[|Message(e)| - |r|..] == m[|m| - |r|..];
  }

  /** The loop of Go's `errors.Is`: compare, then unwrap, until nil. */
  method IsLoop(err: Error, target: Origin) returns (found: bool)
    ensures found <==> Is(err, target)
    ensures found <==> Root(err) == Base(target)
  {
    IsIffRoot(err, target);
    var cur := err;
    while true
      invariant Is(cur, target) == Is(err, target)
      decreases cur
    {
      if cur == Base(target) {
        return true;
      }
      match Unwrap(cur)
      case None =>
        return false;
      case Some(next) =>
        cur := next;
    }
  }
}
