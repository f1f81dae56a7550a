/** The exception taxonomy of `exceptions.py`: what is retried and what falls over to another vendor. */
module Errors {
  import opened Text

  datatype Category =
    | TransientProvider
    | PermanentProvider
    | ParserContract
    | AppBug
    | PersistenceFailure
    | PolicyViolation

  datatype ErrorClass =
    | TradingAgentsError
    | ConfigurationError
    | ConfigurationValidationError
    | LLMCredentialError
    | DataProviderError
    | TransientProviderError
    | PermanentProviderError
    | ProviderDisabledError
    | ProviderTimeoutError
    | ProviderRetryExhaustedError
    | HealthCheckError
    | StaleDataError
    | RateLimitError
    | LLMOutputError
    | StorageError
    | PolicyViolationError
    | AppBugError

  /** `Foreign` is any exception outside the project's hierarchy; `network` marks the built-in
      timeout and connection errors. */
  datatype Error =
    | Project(cls: ErrorClass, message: string)
    | Foreign(network: bool, message: string)

  function ClassCategory(cls: ErrorClass): Category {
    match cls
    case TradingAgentsError => AppBug
    case ConfigurationError => Category.PolicyViolation
    case ConfigurationValidationError => Category.PolicyViolation
    case LLMCredentialError => Category.PolicyViolation
    case DataProviderError => PermanentProvider
    case TransientProviderError => TransientProvider
    case PermanentProviderError => PermanentProvider
    case ProviderDisabledError => Category.PolicyViolation
    case ProviderTimeoutError => TransientProvider
    case ProviderRetryExhaustedError => TransientProvider
    case HealthCheckError => TransientProvider
    case StaleDataError => Category.PolicyViolation
    case RateLimitError => TransientProvider
    case LLMOutputError => ParserContract
    case StorageError => PersistenceFailure
    case PolicyViolationError => Category.PolicyViolation
    case AppBugError => AppBug
  }

  predicate ClassRetryable(cls: ErrorClass) {
    cls in {TransientProviderError, ProviderTimeoutError, RateLimitError, HealthCheckError}
  }

  const PERMANENT_MARKERS: seq<string> := [
    "401", "403", "unauthorized", "forbidden", "invalid api key", "authentication", "policy",
    "disabled", "parse", "schema", "contract", "disk", "database", "sqlite"
  ]

  const TRANSIENT_MARKERS: seq<string> := [
    "transient", "timeout", "timed out", "connection", "refused", "reset", "network", "dns",
    "name resolution", "temporarily unavailable", "try again", "429", "500", "502", "503", "504",
    "rate limit", "server error", "internal error", "unavailable"
  ]

  predicate HasMarker(message: string, markers: seq<string>) {
    exists i | 0 <= i < |markers| :: Contains(Lower(message), markers[i])
  }

  predicate IsRetryable(e: Error) {
    match e
    case Project(cls, _) => ClassRetryable(cls)
    case Foreign(network, message) =>
      network || (!HasMarker(message, PERMANENT_MARKERS) && HasMarker(message, TRANSIENT_MARKERS))
  }

  function CategoryOf(e: Error): Category {
    match e
    case Project(cls, _) => ClassCategory(cls)
    case Foreign(_, _) => if IsRetryable(e) then TransientProvider else AppBug
  }

  /** `_is_provider_fallbackable`. */
  predicate IsFallbackable(e: Error) {
    CategoryOf(e) == TransientProvider
  }

  /** Whatever is retried may also fall over to the next vendor, and the only error that falls
      over without being retried is the one that says the retries are used up. */
  lemma FallbackVersusRetry(e: Error)
    ensures IsRetryable(e) ==> IsFallbackable(e)
    ensures IsFallbackable(e) && !IsRetryable(e) <==>
            e.Project? && e.cls == ProviderRetryExhaustedError
  {
    match e
    case Project(cls, _) =>
      match cls {
        case ProviderRetryExhaustedError =>
        case _ =>
      }
    case Foreign(_, _) =>
  }

  // ----- the tables against the class hierarchy -----

  /** The base class within the project. */
  function Base(cls: ErrorClass): ErrorClass {
    match cls
    case ConfigurationValidationError => ConfigurationError
    case LLMCredentialError => ConfigurationError
    case TransientProviderError => DataProviderError
    case PermanentProviderError => DataProviderError
    case ProviderDisabledError => DataProviderError
    case ProviderRetryExhaustedError => DataProviderError
    case StaleDataError => DataProviderError
    case ProviderTimeoutError => TransientProviderError
    case RateLimitError => TransientProviderError
    case _ => TradingAgentsError
  }

  /** The attributes a class declares itself, `retryable` always with a category. */
  function Declared(cls: ErrorClass): Option<(Category, bool)> {
    match cls
    case TradingAgentsError => Some((AppBug, false))
    case ConfigurationError => Some((Category.PolicyViolation, false))
    case DataProviderError => Some((PermanentProvider, false))
    case TransientProviderError => Some((TransientProvider, true))
    case PermanentProviderError => Some((PermanentProvider, false))
    case ProviderDisabledError => Some((Category.PolicyViolation, false))
    case ProviderRetryExhaustedError => Some((TransientProvider, false))
    case HealthCheckError => Some((TransientProvider, true))
    case StaleDataError => Some((Category.PolicyViolation, false))
    case LLMOutputError => Some((ParserContract, false))
    case StorageError => Some((PersistenceFailure, false))
    case PolicyViolationError => Some((Category.PolicyViolation, false))
    case AppBugError => Some((AppBug, false))
    case _ => None
  }

  /** Every class has the attributes it declares, or else those of its base class. */
  lemma AttributesAreInherited(cls: ErrorClass)
    ensures (ClassCategory(cls), ClassRetryable(cls)) ==
            match Declared(cls)
            case Some(attributes) => attributes
            case None => (ClassCategory(Base(cls)), ClassRetryable(Base(cls)))
  {
  }

  /** A foreign error is retried for its type, or for its message: some transient marker in it, and no
      permanent one, in whatever case. */
  lemma ForeignRetriedIff(network: bool, message: string)
    ensures IsRetryable(Foreign(network, message)) <==>
            || network
            || (&& (exists k | 0 <= k < |TRANSIENT_MARKERS| :: Contains(Lower(message), TRANSIENT_MARKERS[k]))
                && forall k | 0 <= k < |PERMANENT_MARKERS| :: !Contains(Lower(message), PERMANENT_MARKERS[k]))
    ensures IsRetryable(Foreign(network, Lower(message))) <==> IsRetryable(Foreign(network, message))
    ensures CategoryOf(Foreign(network, message)) ==
            if IsRetryable(Foreign(network, message)) then TransientProvider else AppBug
  {
    LowerTwice(message);
    hide Contains, Lower;
  }
}
