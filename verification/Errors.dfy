/** pkg/errors: the error taxonomy, `errors.As` over wrap chains, and the retry decision. */
module Errors {
  import opened Options
  import opened Texts

  datatype Code =
    | Validation | NotFound | DuplicateKey | DataAccess
    | Unauthorized | Forbidden | Conflict | Internal
    | Other(name: string)

  /** Every error here has at most one cause; `Wrapped` is fmt.Errorf with one %w verb. */
  datatype Error =
    | AppError(code: Code, message: string, resource: string, cause: Option<Error>)
    | Wrapped(context: string, inner: Error)
    | Plain(message: string)

  function NewNotFoundError(resource: string, id: string): Error {
    AppError(NotFound, resource + " with ID '" + id + "' not found", resource, None)
  }

  function NewDuplicateKeyError(id: string, message: string, cause: Option<Error>): Error {
    AppError(DuplicateKey, message, id, cause)
  }

  function NewDataAccessError(message: string, cause: Option<Error>): Error {
    AppError(DataAccess, message, "", cause)
  }

  function NewValidationError(message: string): Error {
    AppError(Validation, message, "", None)
  }

  function CodeText(c: Code): string {
    match c
    case Validation => "VALIDATION_ERROR"
    case NotFound => "NOT_FOUND"
    case DuplicateKey => "DUPLICATE_KEY"
    case DataAccess => "DATA_ACCESS_ERROR"
    case Unauthorized => "UNAUTHORIZED"
    case Forbidden => "FORBIDDEN"
    case Conflict => "CONFLICT"
    case Internal => "INTERNAL_ERROR"
    case Other(name) => name
  }

  /** err.Error(). */
  function Text(e: Error): string {
    match e
    case AppError(code, message, _, None) => CodeText(code) + ": " + message
    case AppError(code, message, _, Some(cause)) => CodeText(code) + ": " + message + ": " + Text(cause)
    case Wrapped(context, inner) => context + ": " + Text(inner)
    case Plain(message) => message
  }

  /** errors.As with an *AppError target: the first AppError met while unwrapping. */
  function FirstAppError(e: Error): Option<Error> {
    match e
    case AppError(_, _, _, _) => Some(e)
    case Wrapped(_, inner) => FirstAppError(inner)
    case Plain(_) => None
  }

  predicate IsRetryable(err: Option<Error>) {
    match err
    case None => false
    case Some(e) =>
      match FirstAppError(e)
      case Some(AppError(code, _, _, _)) =>
        (match code
         case Validation | NotFound | DuplicateKey | DataAccess => false
         case Unauthorized | Forbidden | Conflict => false
         case Internal => true
         case Other(_) => true)
      case _ => true
  }

  function CodeOf(err: Option<Error>): Option<Code> {
    match err
    case None => None
    case Some(e) =>
      match FirstAppError(e)
      case Some(AppError(code, _, _, _)) => Some(code)
      case _ => None
  }

  /** The error and everything it wraps, outermost first. */
  function Chain(e: Error): seq<Error> {
    match e
    case AppError(_, _, _, Some(c)) => [e] + Chain(c)
    case Wrapped(_, inner) => [e] + Chain(inner)
    case _ => [e]
  }

  /** A tower of fmt.Errorf("...: %w") wraps around `e`. */
  function WrapAll(contexts: seq<string>, e: Error): Error {
    if contexts == [] then e else Wrapped(contexts[0], WrapAll(contexts[1..], e))
  }

  lemma {:induction false} WrappingIsTransparent(contexts: seq<string>, e: Error)
    ensures CodeOf(Some(WrapAll(contexts, e))) == CodeOf(Some(e))
    ensures IsRetryable(Some(WrapAll(contexts, e))) == IsRetryable(Some(e))
  {
    if contexts != [] {
      WrappingIsTransparent(contexts[1..], e);
    }
  }

  /** The position in the chain of the AppError that errors.As finds, or the chain's length. */
  function FirstAppIndex(chain: seq<Error>): (k: nat)
    ensures k <= |chain|
    ensures k < |chain| ==> chain[k].AppError?
    ensures forall j | 0 <= j < k :: !chain[j].AppError?
  {
    if chain == [] || chain[0].AppError? then 0 else 1 + FirstAppIndex(chain[1..])
  }

  function FirstOn(chain: seq<Error>): Option<Error> {
    var k := FirstAppIndex(chain);
    if k < |chain| then Some(chain[k]) else None
  }

  /** Looking along a chain, one link at a time. */
  lemma FirstLink(e: Error, rest: seq<Error>)
    ensures FirstOn([e] + rest) == if e.AppError? then Some(e) else FirstOn(rest)
  {
    assert ([e] + rest)[1..] == rest;
  }

  /** errors.As is a search along the chain. */
  lemma {:induction false} FirstAppOnChain(e: Error)
    ensures var chain := Chain(e); var k := FirstAppIndex(chain);
            FirstAppError(e) == if k < |chain| then Some(chain[k]) else None
  {
    SearchFindsFirst(e);
  }

  lemma {:induction false} SearchFindsFirst(e: Error)
    ensures FirstAppError(e) == FirstOn(Chain(e))
  {
    var rest := Chain(e)[1..];
    assert Chain(e) == [e] + rest;
    FirstLink(e, rest);
    if e.Wrapped? {
      SearchFindsFirst(e.inner);
      assert rest == Chain(e.inner);
    }
  }

  /** The outermost AppError of the chain alone decides; whatever it wraps is never consulted. */
  lemma OutermostDecides(e: Error)
    ensures var chain := Chain(e); var k := FirstAppIndex(chain);
            && CodeOf(Some(e)) == (if k < |chain| then Some(chain[k].code) else None)
            && (IsRetryable(Some(e)) <==> (k < |chain| ==> chain[k].code.Internal? || chain[k].code.Other?))
  {
    FirstAppOnChain(e);
  }

  /** What one error of a chain says itself. */
  function Label(e: Error): string {
    match e
    case AppError(code, message, _, _) => CodeText(code) + ": " + message
    case Wrapped(context, _) => context
    case Plain(message) => message
  }

  function Labels(chain: seq<Error>): (labels: seq<string>)
    ensures |labels| == |chain| && forall i | 0 <= i < |chain| :: labels[i] == Label(chain[i])
  {
    seq(|chain|, i requires 0 <= i < |chain| => Label(chain[i]))
  }

  lemma OneMoreLabel(e: Error, rest: seq<Error>)
    requires rest != []
    ensures Join(Labels([e] + rest), ": ") == Label(e) + ": " + Join(Labels(rest), ": ")
  {
    assert Labels([e] + rest)[1..] == Labels(rest);
  }

  /** err.Error() reads the chain from the outside in. */
  lemma {:induction false} TextReadsTheChain(e: Error)
    ensures Text(e) == Join(Labels(Chain(e)), ": ")
  {
    match e
    case AppError(_, _, _, Some(c)) =>
      TextReadsTheChain(c);
      OneMoreLabel(e, Chain(c));
    case Wrapped(_, inner) =>
      TextReadsTheChain(inner);
      OneMoreLabel(e, Chain(inner));
    case _ =>
  }

  /** The constructors, by the text and the code that a caller sees under any wraps. */
  lemma ConstructorsShowThrough(id: string, message: string, cause: Option<Error>, contexts: seq<string>)
    ensures var e := NewNotFoundError("User", id);
            Text(e) == "NOT_FOUND: " + ("User with ID '" + id + "' not found") &&
            CodeOf(Some(WrapAll(contexts, e))) == Some(NotFound)
    ensures var e := NewDuplicateKeyError(id, message, cause);
            "DUPLICATE_KEY: " + message <= Text(e) && CodeOf(Some(WrapAll(contexts, e))) == Some(DuplicateKey)
    ensures var e := NewDataAccessError(message, cause);
            "DATA_ACCESS_ERROR: " + message <= Text(e) && CodeOf(Some(WrapAll(contexts, e))) == Some(DataAccess)
    ensures var e := NewValidationError(message);
            Text(e) == "VALIDATION_ERROR: " + message && CodeOf(Some(WrapAll(contexts, e))) == Some(Validation)
  {
    WrappingIsTransparent(contexts, NewNotFoundError("User", id));
    WrappingIsTransparent(contexts, NewDuplicateKeyError(id, message, cause));
    WrappingIsTransparent(contexts, NewDataAccessError(message, cause));
    WrappingIsTransparent(contexts, NewValidationError(message));
  }
}
