/**
 * The error values the adapter produces, inspects or passes through,
 * together with the two standard-library operations it applies to them:
 * `errors.Is` and `errors.Join`.
 */
module Errors {
  import opened Wrappers
  import opened ByteStrings

  datatype Error =
    | ErrKeyNotFound          // blob.ErrKeyNotFound, the bare sentinel
    | KeyNotFound(key: Bytes) // blob.KeyNotFound(key): a key error wrapping ErrKeyNotFound
    | ErrKeyExists            // blob.ErrKeyExists, the bare sentinel
    | KeyExists(key: Bytes)   // blob.KeyExists(key): a key error wrapping ErrKeyExists
    | ErrStopListing          // blob.ErrStopListing
    | DBErrKeyNotFound        // rosedb.ErrKeyNotFound
    | DBErrClosed             // rosedb.ErrDBClosed
    | Opaque(code: nat)       // any other error: engine I/O or corruption, or a caller's own error
    | Wrapped(inner: Error)   // an error that wraps another one (as fmt.Errorf with %w)
    | Joined(errs: seq<Error>) // the value errors.Join builds

  /** `errors.Is(err, target)`: `err` is `target` or wraps it, through any chain of wrappers and joins. */
  predicate Is(err: Error, target: Error)
    decreases err
  {
    err == target ||
    match err
    case KeyNotFound(_) => target == ErrKeyNotFound
    case KeyExists(_) => target == ErrKeyExists
    case Wrapped(inner) => Is(inner, target)
    case Joined(errs) => exists i :: 0 <= i < |errs| && Is(errs[i], target)
    case _ => false
  }

  /** `errors.Is` on a possibly-nil error: a nil error is never any target. */
  predicate IsSome(err: Option<Error>, target: Error)
  {
    err.Some? && Is(err.value, target)
  }

  /**
   * `errors.Join(a, b)`: nil exactly when both are nil; otherwise a joined
   * error from which each non-nil argument can still be recognised, so neither
   * masks the other.
   */
  function Join(a: Option<Error>, b: Option<Error>): (r: Option<Error>)
    ensures r.None? <==> a.None? && b.None?
    ensures forall t: Error :: !t.Joined? ==> (IsSome(r, t) <==> IsSome(a, t) || IsSome(b, t))
  {
    match (a, b)
    case (None, None) => None
    case (Some(x), None) =>
      assert forall t :: Is(x, t) ==> Is(Joined([x]), t) by {
        assert [x][0] == x;
      }
      Some(Joined([x]))
    case (None, Some(y)) =>
      assert forall t :: Is(y, t) ==> Is(Joined([y]), t) by {
        assert [y][0] == y;
      }
      Some(Joined([y]))
    case (Some(x), Some(y)) =>
      assert forall t :: Is(x, t) || Is(y, t) ==> Is(Joined([x, y]), t) by {
        assert [x, y][0] == x && [x, y][1] == y;
      }
      Some(Joined([x, y]))
  }
}
