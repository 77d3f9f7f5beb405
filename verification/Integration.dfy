/** One integration operation's failure, in its closed vocabulary. */
module Integration {
  import opened Base
  import opened Text

  const MAX_CLEANUP_ITEMS: nat := 100

  datatype Operation = ZoneLookup | CreateTxt | DeleteTxt | Provision | CacheRead | CacheWrite

  datatype Failure =
    | InvalidConfig | Unavailable | PermissionDenied | Rejected | Busy | LimitExceeded
    | Timeout | Cancelled | ClosedDown | OutcomeUnknown | CleanupIncomplete | InvalidCertificate

  datatype Retryability = Never | Safe | Unknown

  /** One record still owed; without an id when no create of it was acknowledged. */
  datatype CleanupItem = CleanupItem(domain: Text, recordId: Option<Text>, failure: Failure)

  datatype Source = NoSource | Foreign | Caused(cause: IntegrationError)

  datatype IntegrationError = IntegrationError(
    operation: Operation,
    failure: Failure,
    retryability: Retryability,
    cleanup: seq<CleanupItem>,
    source: Source)
  {
    function WithSource(error: IntegrationError): IntegrationError {
      this.(source := Caused(error))
    }

    /** At most a hundred items are kept. */
    function WithCleanup(items: seq<CleanupItem>): IntegrationError {
      this.(cleanup := if |items| > MAX_CLEANUP_ITEMS then items[..MAX_CLEANUP_ITEMS] else items)
    }
  }

  function Failed(operation: Operation, failure: Failure, retryability: Retryability): IntegrationError {
    IntegrationError(operation, failure, retryability, [], NoSource)
  }

  function RejectedBy(operation: Operation): IntegrationError {
    Failed(operation, Rejected, Never)
  }

  function OutcomeUnknownOf(operation: Operation): IntegrationError {
    Failed(operation, OutcomeUnknown, Unknown)
  }

  /** A provider's own error: typed, or anything else. */
  datatype RuntimeError = Typed(error: IntegrationError) | Other

  function ProviderFailure(operation: Operation, error: RuntimeError): IntegrationError {
    match error
    case Typed(typed) => typed
    case Other => RejectedBy(operation).(source := Foreign)
  }
}
