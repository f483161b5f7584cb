/** Domain errors: a code, a message and an optional cause, and the search
    along a chain of wrapped errors for the outermost domain error. */
module DomainErrors {
  import opened Wrappers

  /** An error code is an arbitrary string; eight of them are named. */
  type ErrorCode = string

  const CodeValidation: ErrorCode := "validation_error"
  const CodeNotFound: ErrorCode := "not_found"
  const CodeConflict: ErrorCode := "conflict"
  const CodeUnauthorized: ErrorCode := "unauthorized"
  const CodeForbidden: ErrorCode := "forbidden"
  const CodeRateLimited: ErrorCode := "rate_limited"
  const CodeUpstream: ErrorCode := "upstream_error"
  const CodeInternal: ErrorCode := "internal_error"

  /** The named codes, in declaration order. */
  const NamedCodes: seq<ErrorCode> :=
    [CodeValidation, CodeNotFound, CodeConflict, CodeUnauthorized,
     CodeForbidden, CodeRateLimited, CodeUpstream, CodeInternal]

  /** A Go `error` value. `Plain` is any error that is not a domain error
      (a driver error, an `fmt.Errorf` result); it may wrap another error. */
  datatype Error =
    | Plain(text: string, wrapped: Option<Error>)
    | Domain(domain: DomainError)

  datatype DomainError = DomainError(code: ErrorCode, message: string, cause: Option<Error>)

  /** `Error()`: the message alone without a cause, otherwise "message: cause". */
  function Text(e: Error): (t: string)
    ensures e.Plain? ==> t == e.text
    ensures e.Domain? ==> |e.domain.message| <= |t| && t[..|e.domain.message|] == e.domain.message
  {
    match e
    case Plain(text, _) => text
    case Domain(DomainError(_, message, cause)) =>
      match cause
      case None => message
      case Some(c) => message + ": " + Text(c)
  }

  /** `Unwrap` of any error: the cause of a domain error, the wrapped error of a plain one. */
  function Unwrap(e: Error): (cause: Option<Error>)
    ensures e.Domain? && cause.Some? ==> Text(e) == e.domain.message + ": " + Text(cause.value)
    ensures e.Domain? && cause.None? ==> Text(e) == e.domain.message
  {
    match e
    case Plain(_, wrapped) => wrapped
    case Domain(d) => d.cause
  }

  /** `New`: a domain error with no cause, whose text is the message alone. */
  function New(code: ErrorCode, message: string): (e: Error)
    ensures IsCode(e, code) && Unwrap(e).None? && Text(e) == message
  {
    Domain(DomainError(code, message, None))
  }

  /** `Wrap`: a domain error that carries its cause. */
  function Wrap(code: ErrorCode, message: string, cause: Option<Error>): (e: Error)
    ensures AsDomain(e) == Some(DomainError(code, message, cause))
    ensures IsCode(e, code) && Unwrap(e) == cause
  {
    Domain(DomainError(code, message, cause))
  }

  /** The unwrap chain: the error itself, then what `Unwrap` yields, until nothing is left. */
  function Chain(e: Error): (chain: seq<Error>)
    ensures |chain| >= 1 && chain[0] == e
  {
    match Unwrap(e)
    case None => [e]
    case Some(next) => [e] + Chain(next)
  }

  /** `errors.As(err, &de)`: the first domain error met while unwrapping. */
  function AsDomain(e: Error): (found: Option<DomainError>)
    ensures found.Some? ==> Domain(found.value) in Chain(e)
    ensures e.Domain? ==> found == Some(e.domain)
  {
    match e
    case Domain(d) => Some(d)
    case Plain(_, None) => None
    case Plain(_, Some(next)) => AsDomain(next)
  }

  /** `IsCode`: the first domain error on the chain decides; an error with no
      domain error on its chain has no code. */
  predicate IsCode(e: Error, code: ErrorCode)
    ensures e.Domain? ==> (IsCode(e, code) <==> e.domain.code == code)
    ensures IsCode(e, code) ==> exists d :: Domain(d) in Chain(e) && d.code == code
    ensures (forall d :: Domain(d) !in Chain(e)) ==> !IsCode(e, code)
  {
    match AsDomain(e)
    case Some(d) => d.code == code
    case None => false
  }

  /** The named codes are eight distinct strings. */
  lemma NamedCodesDistinct()
    ensures |NamedCodes| == 8
    ensures forall i, j :: 0 <= i < j < |NamedCodes| ==> NamedCodes[i] != NamedCodes[j]
  {
  }

  /** `AsDomain` finds exactly the first domain error of the unwrap chain, and
      finds nothing when the chain holds none. */
  lemma {:induction false} AsDomainIsFirstInChain(e: Error)
    ensures AsDomain(e).Some? <==> exists i :: 0 <= i < |Chain(e)| && Chain(e)[i].Domain?
    ensures AsDomain(e).Some? ==>
      exists i :: 0 <= i < |Chain(e)| && Chain(e)[i] == Domain(AsDomain(e).value) &&
        forall j :: 0 <= j < i ==> Chain(e)[j].Plain?
  {
    match e
    case Domain(d) =>
      assert Chain(e)[0].Domain?;
    case Plain(_, None) =>
    case Plain(_, Some(next)) =>
      AsDomainIsFirstInChain(next);
      assert Chain(e) == [e] + Chain(next);
      if AsDomain(e).Some? {
        var i :| 0 <= i < |Chain(next)| && Chain(next)[i] == Domain(AsDomain(next).value) &&
          forall j :: 0 <= j < i ==> Chain(next)[j].Plain?;
        assert Chain(e)[i + 1] == Domain(AsDomain(e).value);
      } else {
        forall i | 0 <= i < |Chain(e)|
          ensures !Chain(e)[i].Domain?
        {
          if i > 0 {
            assert Chain(e)[i] == Chain(next)[i - 1];
          }
        }
      }
  }

  /** The code given to `Wrap` is what `IsCode` reports, whatever the cause is,
      so an outer wrap hides the code of any domain error inside it. */
  lemma WrapDecidesCode(code: ErrorCode, message: string, cause: Option<Error>, other: ErrorCode)
    ensures IsCode(Wrap(code, message, cause), code)
    ensures other != code ==> !IsCode(Wrap(code, message, cause), other)
  {
  }

  /** `Unwrap` gives back exactly the cause `Wrap` stored, and nothing for `New`;
      `Wrap` with no cause is `New`. */
  lemma UnwrapInvertsWrap(code: ErrorCode, message: string, cause: Option<Error>)
    ensures Unwrap(Wrap(code, message, cause)) == cause
    ensures Unwrap(New(code, message)) == None
    ensures Wrap(code, message, None) == New(code, message)
  {
  }

  /** The text of a wrapped error is its message, ": ", then the cause's text;
      without a cause it is the message alone. In both cases the message is a prefix. */
  lemma TextOfWrap(code: ErrorCode, message: string, cause: Option<Error>)
    ensures cause.None? ==> Text(Wrap(code, message, cause)) == message
    ensures cause.Some? ==> Text(Wrap(code, message, cause)) == message + ": " + Text(cause.value)
    ensures message <= Text(Wrap(code, message, cause))
  {
  }
}
