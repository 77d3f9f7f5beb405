/**
 One flag for an ACME write whose fate is uncertain, stepped through every order
 of sends and SDK answers, and the retry advice that rests on it.

 The SDK, the clock and the network are inputs; a send may be dropped at each of
 its waits.
 */
module AcmeProgress {
  import opened Base
  import opened Text
  import opened Integration

  datatype Method = Get | Head | Post | AnyOther

  /** `signed` is the payload the body decodes to, when it decodes as signed JSON. */
  datatype Request = Request(verb: Method, signed: Option<Text>)

  /** A read in the sense of section 6.3 of RFC 8555: GET, HEAD or POST-as-GET. */
  predicate IsRead(request: Request) {
    request.verb.Get? || request.verb.Head? || request.signed == Some([])
  }

  datatype TransportFailure = TimedOut | Undelivered | Unrebuilt | TooLarge

  datatype Problem = Problem(kind: Option<Text>, status: Option<nat>)

  datatype SdkError = Api(problem: Problem) | SdkTimeout | Transport(failure: TransportFailure) | AnyOtherError

  // ---------- classification ----------

  predicate EndsWith(s: Text, suffix: Text) {
    |suffix| <= |s| && s[|s| - |suffix|..] == suffix
  }

  predicate HasType(problem: Problem, suffix: Text) {
    problem.kind.Some? && EndsWith(problem.kind.value, suffix)
  }

  predicate ServerFailure(problem: Problem) {
    (problem.status.Some? && 500 <= problem.status.value <= 599) || HasType(problem, ":serverInternal")
  }

  predicate ExplicitRetry(problem: Problem) {
    !ServerFailure(problem)
    && (problem.status == Some(429) || HasType(problem, ":rateLimited") || HasType(problem, ":badNonce"))
  }

  function ReadFailure(error: SdkError): (Failure, Retryability) {
    match error
    case Transport(TimedOut) => (Timeout, Safe)
    case SdkTimeout => (Timeout, Safe)
    case Transport(TooLarge) => (LimitExceeded, Never)
    case Transport(_) => (Unavailable, Safe)
    case Api(_) => (Unavailable, Safe)
    case AnyOtherError => (Rejected, Never)
  }

  function RetryabilityOf(submittedWrite: bool): Retryability {
    if submittedWrite then Unknown else Safe
  }

  function Classify(submittedWrite: bool, error: SdkError): (Failure, Retryability) {
    if error.Api? && ExplicitRetry(error.problem) then (Unavailable, Safe)
    else if error.Api? && !ServerFailure(error.problem) then (Rejected, Never)
    else if ReadFailure(error).0.Timeout? then (Timeout, RetryabilityOf(submittedWrite))
    else if RetryabilityOf(submittedWrite).Unknown? then (OutcomeUnknown, Unknown)
    else ReadFailure(error)
  }

  /** The server answered, and its answer says nothing happened. */
  predicate Refused(error: SdkError) {
    error.Api? && !ServerFailure(error.problem)
  }

  /** An uncertain write stays uncertain unless the server refused it, and only then. */
  lemma UncertainStaysUnknown(submittedWrite: bool, error: SdkError)
    ensures Classify(submittedWrite, error).1.Unknown? <==> submittedWrite && !Refused(error)
    ensures Classify(submittedWrite, error).0.OutcomeUnknown? ==> Classify(submittedWrite, error).1.Unknown?
    ensures Refused(error) ==>
      (Classify(submittedWrite, error).1.Safe? <==> ExplicitRetry(error.problem))
  {
  }

  /** The problem's type is a namespace followed by `suffix`. */
  ghost predicate TypeIs(problem: Problem, suffix: Text) {
    exists namespace: Text :: problem.kind == Some(namespace + suffix)
  }

  lemma TypeIsSuffix(problem: Problem, suffix: Text)
    ensures HasType(problem, suffix) <==> TypeIs(problem, suffix)
  {
    if HasType(problem, suffix) {
      var kind := problem.kind.value;
      assert kind == kind[..|kind| - |suffix|] + suffix;
    }
    if namespace: Text :| problem.kind == Some(namespace + suffix) {
      assert (namespace + suffix)[|namespace|..] == suffix;
    }
  }

  /** A server answer by its status and type: trouble of its own, a plea to come back, or a refusal. */
  ghost function Verdict(problem: Problem, submittedWrite: bool): (Failure, Retryability) {
    if (problem.status.Some? && problem.status.value / 100 == 5) || TypeIs(problem, ":serverInternal") then
      if submittedWrite then (OutcomeUnknown, Unknown) else (Unavailable, Safe)
    else if problem.status == Some(429) || TypeIs(problem, ":rateLimited") || TypeIs(problem, ":badNonce") then
      (Unavailable, Safe)
    else (Rejected, Never)
  }

  /** The whole table: an answer speaks for itself, and anything else leaves a submitted write unknown. */
  lemma ClassifiedExactly(submittedWrite: bool, error: SdkError)
    ensures Classify(submittedWrite, error) ==
      match error
      case Api(problem) => Verdict(problem, submittedWrite)
      case SdkTimeout => (Timeout, if submittedWrite then Unknown else Safe)
      case Transport(TimedOut) => (Timeout, if submittedWrite then Unknown else Safe)
      case Transport(TooLarge) => if submittedWrite then (OutcomeUnknown, Unknown) else (LimitExceeded, Never)
      case Transport(_) => if submittedWrite then (OutcomeUnknown, Unknown) else (Unavailable, Safe)
      case AnyOtherError => if submittedWrite then (OutcomeUnknown, Unknown) else (Rejected, Never)
  {
    if error.Api? {
      TypeIsSuffix(error.problem, ":serverInternal");
      TypeIsSuffix(error.problem, ":rateLimited");
      TypeIsSuffix(error.problem, ":badNonce");
      hide TypeIs, HasType;
    }
  }

  // ---------- what the flag means ----------

  /** The steps of sends and SDK operations, as they happen. */
  datatype Event = Begin | Submit(request: Request) | ConnectFails | Accept | Reject

  predicate Write(event: Event) {
    event.Submit? && !IsRead(event.request)
  }

  function Flag(history: seq<Event>): bool {
    if history == [] then false
    else
      var last := history[|history| - 1];
      match last
      case Submit(_) => Write(last)
      case Reject => Flag(history[..|history| - 1])
      case _ => false
  }

  /** Event k submitted a write, and nothing after it settles or replaces it. */
  ghost predicate OpenAt(history: seq<Event>, k: nat) {
    && k < |history| && Write(history[k])
    && forall j :: k < j < |history| ==> history[j].Reject?
  }

  /** As `OpenAt`, though a later send may have begun without submitting anything. */
  ghost predicate LastSentAt(history: seq<Event>, k: nat) {
    && k < |history| && Write(history[k])
    && forall j :: k < j < |history| ==> history[j].Reject? || history[j].Begin?
  }

  lemma {:induction false} FlagIsOpen(history: seq<Event>)
    ensures Flag(history) <==> exists k: nat :: OpenAt(history, k)
  {
    if history != [] {
      var n := |history| - 1;
      var init := history[..n];
      if history[n].Reject? {
        FlagIsOpen(init);
        if k: nat :| OpenAt(init, k) {
          assert OpenAt(history, k);
        }
        if k: nat :| OpenAt(history, k) {
          assert OpenAt(init, k);
        }
      } else if Write(history[n]) {
        assert OpenAt(history, n);
      }
    }
  }

  ghost predicate BegunSince(history: seq<Event>, k: nat) {
    exists j :: k < j < |history| && history[j].Begin?
  }

  /**
   The last request sent was an unaccepted write over a live connection: the
   flag says so exactly when no later send has begun.
   */
  lemma UnknownExactly(history: seq<Event>, k: nat)
    requires LastSentAt(history, k)
    ensures Flag(history) <==> !BegunSince(history, k)
  {
    FlagIsOpen(history);
    if !BegunSince(history, k) {
      assert OpenAt(history, k);
    }
    if i: nat :| OpenAt(history, i) {
      assert history[i].Submit? && history[k].Submit?;
    }
  }

  /** Without such a request the outcome is never unknown. */
  lemma KnownOtherwise(history: seq<Event>)
    requires forall k: nat :: !LastSentAt(history, k)
    ensures !Flag(history)
  {
    FlagIsOpen(history);
    if k: nat :| OpenAt(history, k) {
      assert LastSentAt(history, k);
    }
  }

  /** Only what can change something raises the flag: a signed request with a payload, or one unsigned. */
  lemma SubmitRaises(history: seq<Event>, request: Request)
    ensures Flag(history + [Submit(request)]) <==>
      && (request.verb.Post? || request.verb.AnyOther?)
      && (request.signed.None? || |request.signed.value| > 0)
  {
    var now := history + [Submit(request)];
    assert now[|now| - 1] == Submit(request);
  }

  /** A send that had no time left forgets the write before it. */
  lemma BeginForgets(request: Request)
    requires !IsRead(request)
    ensures LastSentAt([Begin, Submit(request), Begin], 1) && !Flag([Begin, Submit(request), Begin])
  {
  }

  // ---------- the flag in use ----------

  datatype Execution = ConnectFailed(timedOut: bool) | Broken(timedOut: bool) | Responded(body: Body)

  datatype Body = Whole(rebuilt: bool) | Oversized | Lost(timedOut: bool)

  /** What the clock and the network do to one send; the wait it is dropped at. */
  datatype Network = Network(inTime: bool, builds: bool, execution: Execution, dropped: Option<Wait>)

  datatype Wait = Collecting | Executing | ReadingBody

  datatype Sent = Answered | FailedWith(failure: TransportFailure) | Dropped

  function Undelivery(timedOut: bool): Sent {
    FailedWith(if timedOut then TimedOut else Undelivered)
  }

  /** The request was put together and handed to the connection. */
  predicate Reached(net: Network) {
    net.inTime && net.builds && net.dropped != Some(Collecting) && net.dropped != Some(Executing)
  }

  /** The send got as far as the wait it is dropped at. */
  predicate CutShort(net: Network) {
    && net.inTime
    && match net.dropped
       case Some(Collecting) => true
       case Some(Executing) => net.builds
       case Some(ReadingBody) => net.builds && net.execution.Responded?
       case None => false
  }

  predicate RanOut(execution: Execution) {
    match execution
    case ConnectFailed(timedOut) => timedOut
    case Broken(timedOut) => timedOut
    case Responded(Lost(timedOut)) => timedOut
    case _ => false
  }

  class Progress {
    var submittedWrite: bool
    ghost var history: seq<Event>

    ghost predicate Valid()
      reads this
    {
      submittedWrite == Flag(history)
    }

    constructor ()
      ensures Valid() && history == []
    {
      submittedWrite, history := false, [];
    }

    method Submitting(request: Request)
      requires Valid()
      modifies this
      ensures Valid() && history == old(history) + [Submit(request)]
    {
      submittedWrite := !IsRead(request);
      history := history + [Submit(request)];
    }

    method Settled(ghost event: Event)
      requires Valid() && (event.Begin? || event.ConnectFails? || event.Accept?)
      modifies this
      ensures Valid() && history == old(history) + [event]
    {
      submittedWrite := false;
      history := history + [event];
    }

    /** One send; whatever cuts it short, the flag still tells its history. */
    method Send(request: Request, net: Network) returns (sent: Sent)
      requires Valid()
      modifies this
      ensures Valid()
      ensures !(net.inTime && net.builds && net.dropped != Some(Collecting)) ==> history == old(history) + [Begin]
      ensures net.inTime && net.builds && net.dropped != Some(Collecting) ==>
        history == old(history) + [Begin, Submit(request)]
          + if net.dropped != Some(Executing) && net.execution.ConnectFailed? then [ConnectFails] else []
      ensures sent.Answered? <==> Reached(net) && net.dropped.None? && net.execution == Responded(Whole(true))
      ensures sent.Dropped? <==> CutShort(net)
      ensures sent == FailedWith(TooLarge) <==> Reached(net) && net.dropped.None? && net.execution == Responded(Oversized)
      ensures sent == FailedWith(Unrebuilt) <==>
        Reached(net) && net.dropped.None? && net.execution == Responded(Whole(false))
      ensures sent == FailedWith(TimedOut) <==> !net.inTime || (!sent.Dropped? && Reached(net) && RanOut(net.execution))
    {
      Settled(Begin);
      if !net.inTime {
        return FailedWith(TimedOut);
      }
      if net.dropped == Some(Collecting) {
        return Dropped;
      }
      if !net.builds {
        return FailedWith(Undelivered);
      }
      Submitting(request);
      if net.dropped == Some(Executing) {
        return Dropped;
      }
      match net.execution {
        case ConnectFailed(timedOut) =>
          Settled(ConnectFails);
          sent := Undelivery(timedOut);
        case Broken(timedOut) =>
          sent := Undelivery(timedOut);
        case Responded(body) =>
          assert net.dropped.Some? ==> net.dropped.value.ReadingBody?;
          if net.dropped == Some(ReadingBody) {
            return Dropped;
          }
          match body {
            case Whole(rebuilt) => sent := if rebuilt then Answered else FailedWith(Unrebuilt);
            case Oversized => sent := FailedWith(TooLarge);
            case Lost(timedOut) => sent := Undelivery(timedOut);
          }
      }
    }

    /** An SDK operation ends: accepted, or failed under what the history supports. */
    method Finish(error: Option<SdkError>) returns (failed: Option<IntegrationError>)
      requires Valid()
      modifies this
      ensures Valid() && history == old(history) + [if error.None? then Accept else Reject]
      ensures failed.None? <==> error.None?
      ensures error.Some? ==>
        && failed.value.operation.Provision?
        && (failed.value.failure, failed.value.retryability) ==
             Classify(exists k: nat :: OpenAt(old(history), k), error.value)
        && (failed.value.retryability.Unknown? <==>
              (exists k: nat :: OpenAt(old(history), k)) && !Refused(error.value))
    {
      FlagIsOpen(history);
      match error {
        case None =>
          Settled(Accept);
          failed := None;
        case Some(cause) =>
          var (kind, retry) := Classify(submittedWrite, cause);
          UncertainStaysUnknown(submittedWrite, cause);
          failed := Some(Failed(Provision, kind, retry).(source := Foreign));
          history := history + [Reject];
      }
    }

    /** What a stopped order reports of the write it may have left behind. */
    method Retry() returns (retry: Retryability)
      requires Valid()
      ensures retry.Unknown? <==> exists k: nat :: OpenAt(history, k)
      ensures !retry.Never?
    {
      FlagIsOpen(history);
      retry := RetryabilityOf(submittedWrite);
    }
  }
}
