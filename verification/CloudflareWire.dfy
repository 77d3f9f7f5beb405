/**
 How the built-in provider reads one HTTP exchange, and what its reading proves
 about a write whose effect it cannot see.
 */
module CloudflareWire {
  import opened Base
  import opened Integration

  datatype Effect = ReadOnly | SideEffect

  /** A collected body, or why there is none; `code` is the first error code listed. */
  datatype Body<+T> = TooLarge | Broken | Malformed | Envelope(success: bool, result: Option<T>, code: Option<nat>)

  /** One request as it went: never sent, sent and unanswered, or answered. */
  datatype Exchange<+T> = Unsent(timedOut: bool) | Lost(timedOut: bool) | Answered(status: nat, body: Body<T>)

  const PERMISSION_CODES: set<nat> := {9103, 9106, 9109, 10000, 10001}

  function Unreadable(operation: Operation, effect: Effect): IntegrationError {
    if effect.ReadOnly? then RejectedBy(operation) else OutcomeUnknownOf(operation)
  }

  function Interrupted(effect: Effect, submitted: bool): Retryability {
    if effect.SideEffect? && submitted then Unknown else Safe
  }

  function Transport(operation: Operation, effect: Effect, timedOut: bool, submitted: bool): IntegrationError {
    var retryability := Interrupted(effect, submitted);
    Failed(operation,
           if timedOut then Timeout else if retryability.Unknown? then OutcomeUnknown else Unavailable,
           retryability)
  }

  predicate Denied(status: nat, code: Option<nat>) {
    status == 401 || status == 403 || (code.Some? && code.value in PERMISSION_CODES)
  }

  function RefusedBy(operation: Operation, effect: Effect, status: nat, code: Option<nat>): IntegrationError {
    if Denied(status, code) then Failed(operation, PermissionDenied, Never)
    else if status == 429 then Failed(operation, Unavailable, Safe)
    else if 500 <= status <= 599 then
      if effect.ReadOnly? then Failed(operation, Unavailable, Safe) else Unreadable(operation, effect)
    else RejectedBy(operation)
  }

  function BodyFailure(operation: Operation, effect: Effect, tooLarge: bool): IntegrationError {
    if tooLarge then Failed(operation, LimitExceeded, if effect.ReadOnly? then Never else Unknown)
    else if effect.ReadOnly? then Failed(operation, Unavailable, Safe)
    else Unreadable(operation, effect)
  }

  predicate Redirect(status: nat) {
    300 <= status <= 399
  }

  predicate Success(status: nat) {
    200 <= status <= 299
  }

  function Reading<T>(operation: Operation, effect: Effect, exchange: Exchange<T>): Result<Option<T>, IntegrationError> {
    match exchange
    case Unsent(timedOut) => Err(Transport(operation, effect, timedOut, false))
    case Lost(timedOut) => Err(Transport(operation, effect, timedOut, true))
    case Answered(status, body) =>
      if Redirect(status) then Err(RefusedBy(operation, effect, status, None))
      else
        match body
        case TooLarge => Err(BodyFailure(operation, effect, true))
        case Broken => Err(BodyFailure(operation, effect, false))
        case Malformed => Err(Unreadable(operation, effect))
        case Envelope(success, result, code) =>
          if Success(status) && success then Ok(result) else Err(RefusedBy(operation, effect, status, code))
  }

  function Required<T>(operation: Operation, effect: Effect, result: Option<T>): Result<T, IntegrationError> {
    if result.Some? then Ok(result.value) else Err(Unreadable(operation, effect))
  }

  // ---------- what an answer says happened ----------

  /** The service itself said no: a redirect, or a readable refusal that is no server fault. */
  predicate Refuses<T>(exchange: Exchange<T>) {
    && exchange.Answered?
    && (Redirect(exchange.status)
        || (exchange.body.Envelope? && !(Success(exchange.status) && exchange.body.success)
            && (Denied(exchange.status, exchange.body.code) || !(500 <= exchange.status <= 599))))
  }

  /** A write's failure has a known outcome if and only if it was never sent or was refused. */
  lemma KnownExactly<T>(operation: Operation, exchange: Exchange<T>)
    requires Reading(operation, SideEffect, exchange).Err?
    ensures !Reading(operation, SideEffect, exchange).error.retryability.Unknown? <==>
      exchange.Unsent? || Refuses(exchange)
  {
  }

  /** The service answered that it did what was asked. */
  predicate Confirms<T>(exchange: Exchange<T>) {
    && exchange.Answered? && Success(exchange.status)
    && exchange.body.Envelope? && exchange.body.success
  }

  /** What a failed exchange is called, and whether trying again is safe. */
  function Advice<T>(effect: Effect, exchange: Exchange<T>): (Failure, Retryability) {
    var write := effect.SideEffect?;
    match exchange
    case Unsent(timedOut) => (if timedOut then Timeout else Unavailable, Safe)
    case Lost(timedOut) =>
      if write then (if timedOut then Timeout else OutcomeUnknown, Unknown)
      else (if timedOut then Timeout else Unavailable, Safe)
    case Answered(status, body) =>
      if status / 100 == 3 then (Rejected, Never)
      else
        match body
        case TooLarge => (LimitExceeded, if write then Unknown else Never)
        case Broken => if write then (OutcomeUnknown, Unknown) else (Unavailable, Safe)
        case Malformed => if write then (OutcomeUnknown, Unknown) else (Rejected, Never)
        case Envelope(_, _, code) =>
          if status == 401 || status == 403 || (code.Some? && code.value in [9103, 9106, 9109, 10000, 10001]) then
            (PermissionDenied, Never)
          else if status == 429 then (Unavailable, Safe)
          else if status / 100 == 5 then if write then (OutcomeUnknown, Unknown) else (Unavailable, Safe)
          else (Rejected, Never)
  }

  /** An exchange is read as a result exactly when it confirms, and otherwise fails by this advice. */
  lemma ReadExactly<T>(operation: Operation, effect: Effect, exchange: Exchange<T>)
    ensures Confirms(exchange) ==> Reading(operation, effect, exchange) == Ok(exchange.body.result)
    ensures !Confirms(exchange) ==>
      var (failure, retryability) := Advice(effect, exchange);
      Reading(operation, effect, exchange) == Err(Failed(operation, failure, retryability))
  {
  }

  /** A query's failure is never one of unknown outcome. */
  lemma QueriesAreKnown<T>(operation: Operation, exchange: Exchange<T>)
    requires Reading(operation, ReadOnly, exchange).Err?
    ensures !Reading(operation, ReadOnly, exchange).error.retryability.Unknown?
  {
  }
}
