/**
 A response body under its declared length: every script of inner polls
 completes it, fails it once, or leaves it unfinished.

 The wrapped body is any script of polls, each with the end-of-stream report
 the wrapped body makes after it.
 */
module GuardedBody {
  import opened Base
  import opened Transfer

  datatype Frame = DataFrame(data: Bytes) | TrailerFrame(fields: Fields)

  datatype BodyError = TransferError(terminal: Terminal) | UpstreamProxy

  datatype Poll = NotReady | Yield(frame: Frame) | Fail(error: BodyError) | Finish

  datatype Inner = Inner(poll: Poll, atEnd: bool)

  /** The countdown, the one failure, and the guard's completion and account cell. */
  datatype Guarded = Guarded(
    remaining: Option<nat>,
    failed: bool,
    held: Option<BodyError>,
    completed: bool,
    boundary: Option<Terminal>)

  predicate Owes(g: Guarded) {
    g.remaining.Some? && g.remaining.value >= 1
  }

  function Size(frame: Frame): nat {
    if frame.DataFrame? then |frame.data| else 0
  }

  function SaturatingSub(a: nat, b: nat): nat {
    if a <= b then 0 else a - b
  }

  // ---------- construction ----------

  const SWITCHING_PROTOCOLS: nat := 101
  const NO_CONTENT: nat := 204
  const NOT_MODIFIED: nat := 304

  predicate CompletesAtConstruction(status: nat, nothingToProduce: bool, bodyless: bool) {
    if status == SWITCHING_PROTOCOLS then false
    else if status == NO_CONTENT || status == NOT_MODIFIED then true
    else nothingToProduce || bodyless
  }

  /** The exact size the body reports wins over the length its headers declare. */
  function Attach(status: nat, exact: Option<nat>, contentLength: Option<nat>, atEnd: bool, bodyless: bool): Guarded {
    var remaining := if exact.Some? then exact else contentLength;
    var g := Guarded(remaining, false, None, false, None);
    g.(completed := CompletesAtConstruction(status, EndStream(g, atEnd) || remaining == Some(0), bodyless))
  }

  /** What Hyper reads as the end of this body. */
  predicate EndStream(g: Guarded, innerAtEnd: bool) {
    innerAtEnd && !Owes(g)
  }

  // ---------- one poll ----------

  /** The cause is recorded at once, in a cell only its first writer sets. */
  function FailWith(g: Guarded, error: BodyError): Guarded {
    g.(failed := true, held := Some(error),
       boundary := if g.boundary.None? && error.TransferError? then Some(error.terminal) else g.boundary)
  }

  function CountFrame(g: Guarded, frame: Frame): Guarded {
    if g.remaining.None? then g
    else
      var remaining := SaturatingSub(g.remaining.value, Size(frame));
      g.(remaining := Some(remaining), completed := g.completed || remaining == 0)
  }

  function LastFrame(g: Guarded, innerAtEnd: bool): Guarded {
    if innerAtEnd && !Owes(g) then g.(completed := true) else g
  }

  const TRUNCATED := TransferError(SourceFailure)

  function PollFrame(g: Guarded, inner: Inner): (Guarded, Poll) {
    if g.held.Some? then (g.(held := None), Fail(g.held.value))
    else if g.failed then (g, Finish)
    else
      match inner.poll
      case NotReady => (g, NotReady)
      case Yield(frame) => (LastFrame(CountFrame(g, frame), inner.atEnd), inner.poll)
      case Fail(error) => (FailWith(g, error), NotReady)
      case Finish => if Owes(g) then (FailWith(g, TRUNCATED), NotReady) else (g.(completed := true), Finish)
  }

  /** The body object, polled in place. */
  class ResponseBody {
    var remaining: Option<nat>
    var failed: bool
    var held: Option<BodyError>
    var completed: bool
    var boundary: Option<Terminal>

    ghost function Value(): Guarded
      reads this
    {
      Guarded(remaining, failed, held, completed, boundary)
    }

    constructor (status: nat, exact: Option<nat>, contentLength: Option<nat>, atEnd: bool, bodyless: bool)
      ensures Value() == Attach(status, exact, contentLength, atEnd, bodyless)
    {
      var declared := if exact.Some? then exact else contentLength;
      var owes := declared.Some? && declared.value >= 1;
      remaining, failed, held, boundary := declared, false, None, None;
      completed := CompletesAtConstruction(status, (atEnd && !owes) || declared == Some(0), bodyless);
    }

    method EndedOn(error: BodyError)
      modifies this
      ensures Value() == FailWith(old(Value()), error)
    {
      failed := true;
      if error.TransferError? && boundary.None? {
        boundary := Some(error.terminal);
      }
      held := Some(error);
    }

    method Produced(frame: Frame)
      modifies this
      ensures Value() == CountFrame(old(Value()), frame)
    {
      if remaining.Some? {
        remaining := Some(SaturatingSub(remaining.value, Size(frame)));
        if remaining == Some(0) {
          completed := true;
        }
      }
    }

    method Poll(inner: Inner) returns (answer: Poll)
      modifies this
      ensures (Value(), answer) == PollFrame(old(Value()), inner)
    {
      if held.Some? {
        answer := Fail(held.value);
        held := None;
        return;
      }
      if failed {
        return Finish;
      }
      answer := inner.poll;
      match inner.poll {
        case NotReady =>
        case Yield(frame) =>
          Produced(frame);
          if inner.atEnd && !(remaining.Some? && remaining.value >= 1) {
            completed := true;
          }
        case Fail(error) =>
          EndedOn(error);
          answer := NotReady;
        case Finish =>
          if remaining.Some? && remaining.value >= 1 {
            EndedOn(TRUNCATED);
            answer := NotReady;
          } else {
            completed := true;
          }
      }
    }
  }

  // ---------- whole scripts ----------

  function After(g: Guarded, script: seq<Inner>): Guarded {
    if script == [] then g
    else PollFrame(After(g, script[..|script| - 1]), script[|script| - 1]).0
  }

  /** What the i-th poll of the body answers. */
  function Answer(g: Guarded, script: seq<Inner>, i: nat): Poll
    requires i < |script|
  {
    PollFrame(After(g, script[..i]), script[i]).1
  }

  /** The bytes the first i polls handed to Hyper. */
  function BytesYielded(g: Guarded, script: seq<Inner>, i: nat): nat
    requires i <= |script|
  {
    if i == 0 then 0
    else BytesYielded(g, script, i - 1)
         + if Answer(g, script, i - 1).Yield? then Size(Answer(g, script, i - 1).frame) else 0
  }

  ghost predicate Untouched(g: Guarded) {
    !g.failed && g.held.None?
  }

  lemma AfterOne(g: Guarded, script: seq<Inner>, i: nat)
    requires i < |script|
    ensures After(g, script[..i + 1]) == PollFrame(After(g, script[..i]), script[i]).0
  {
    assert script[..i + 1][..i] == script[..i];
  }

  /** Poll k finds the failure: the wrapped body failed, or ended still owing. */
  predicate Detects(g: Guarded, inner: Inner) {
    !g.failed && (inner.poll.Fail? || (inner.poll.Finish? && Owes(g)))
  }

  function Detected(inner: Inner): BodyError {
    if inner.poll.Fail? then inner.poll.error else TRUNCATED
  }

  lemma {:induction false} HeldMeansFailed(g: Guarded, script: seq<Inner>, i: nat)
    requires Untouched(g) && i <= |script|
    ensures After(g, script[..i]).held.Some? ==> After(g, script[..i]).failed
  {
    if i > 0 {
      HeldMeansFailed(g, script, i - 1);
      AfterOne(g, script, i - 1);
    }
  }

  lemma {:induction false} FailedIsFinal(g: Guarded, script: seq<Inner>, k: nat, j: nat)
    requires Untouched(g) && k < j <= |script| && After(g, script[..k]).failed
    ensures After(g, script[..j]) == After(g, script[..k]).(held := None)
    decreases j
  {
    AfterOne(g, script, j - 1);
    if k < j - 1 {
      FailedIsFinal(g, script, k, j - 1);
    }
  }

  /**
   The whole shape of a failing body: the poll that finds the cause records it
   and answers nothing, the next hands it over, and every later poll ends; from
   the cause on, no frame leaves and no completion is recorded.
   */
  lemma FailureShape(g: Guarded, script: seq<Inner>, k: nat, j: nat)
    requires Untouched(g) && k < j < |script|
    requires Detects(After(g, script[..k]), script[k])
    ensures
      var found := After(g, script[..k]);
      && Answer(g, script, k) == NotReady
      && Answer(g, script, j) == (if j == k + 1 then Fail(Detected(script[k])) else Finish)
      && After(g, script[..j]).completed == found.completed
      && After(g, script[..j]).boundary == (
           if found.boundary.Some? then found.boundary
           else if Detected(script[k]).TransferError? then Some(Detected(script[k]).terminal)
           else None)
  {
    HeldMeansFailed(g, script, k);
    AfterOne(g, script, k);
    if j > k + 1 {
      FailedIsFinal(g, script, k + 1, j);
    }
  }

  /** Until a failure is found, the body answers every poll as the wrapped one does. */
  lemma Transparent(g: Guarded, script: seq<Inner>, i: nat)
    requires Untouched(g) && i < |script| && !After(g, script[..i]).failed
    ensures Answer(g, script, i) == if Detects(After(g, script[..i]), script[i]) then NotReady else script[i].poll
  {
    HeldMeansFailed(g, script, i);
  }

  ghost predicate FoundAt(g: Guarded, script: seq<Inner>, k: nat) {
    k < |script| && Detects(After(g, script[..k]), script[k])
  }

  lemma FailsOnce(g: Guarded, script: seq<Inner>, i: nat)
    requires Untouched(g) && i < |script|
    ensures After(g, script[..i + 1]).failed <==> After(g, script[..i]).failed || FoundAt(g, script, i)
  {
    AfterOne(g, script, i);
    HeldMeansFailed(g, script, i);
  }

  /** Nothing but a failure found fails a body. */
  lemma {:induction false} FailedByDetection(g: Guarded, script: seq<Inner>, i: nat)
    requires Untouched(g) && i <= |script|
    ensures After(g, script[..i]).failed <==> exists k: nat | k < i :: FoundAt(g, script, k)
  {
    hide After, FoundAt;
    if i == 0 {
      AfterNone(g, script);
    } else {
      FailedByDetection(g, script, i - 1);
      FailsOnce(g, script, i - 1);
    }
  }

  /** Every error handed over was found by the poll just before it. */
  lemma ErrorsAreDetected(g: Guarded, script: seq<Inner>, i: nat)
    requires Untouched(g) && i < |script| && Answer(g, script, i).Fail?
    ensures i > 0 && Detects(After(g, script[..i - 1]), script[i - 1])
    ensures Answer(g, script, i) == Fail(Detected(script[i - 1]))
  {
    if i > 0 {
      HeldMeansFailed(g, script, i - 1);
      AfterOne(g, script, i - 1);
    }
  }

  lemma AtMostOneError(g: Guarded, script: seq<Inner>, i: nat, j: nat)
    requires Untouched(g) && i < j < |script| && Answer(g, script, i).Fail?
    ensures !Answer(g, script, j).Fail?
  {
    ErrorsAreDetected(g, script, i);
    FailureShape(g, script, i - 1, j);
  }

  lemma PollCountsDown(g: Guarded, inner: Inner)
    requires g.remaining.Some?
    ensures
      var (polled, answer) := PollFrame(g, inner);
      polled.remaining == Some(SaturatingSub(g.remaining.value, if answer.Yield? then Size(answer.frame) else 0))
  {
  }

  /** The countdown is exactly the declared length less what was handed out. */
  lemma {:induction false} CountdownIsExact(g: Guarded, script: seq<Inner>, i: nat)
    requires g.remaining.Some? && i <= |script|
    ensures After(g, script[..i]).remaining ==
      Some(SaturatingSub(g.remaining.value, BytesYielded(g, script, i)))
  {
    hide PollFrame;
    if i > 0 {
      CountdownIsExact(g, script, i - 1);
      AfterOne(g, script, i - 1);
      PollCountsDown(After(g, script[..i - 1]), script[i - 1]);
    }
  }

  lemma {:induction false} CompletedMeansNothingOwed(g: Guarded, script: seq<Inner>, i: nat)
    requires Untouched(g) && Owes(g) && !g.completed && i <= |script|
    ensures
      var reached := After(g, script[..i]);
      reached.remaining.Some? && (reached.completed <==> !Owes(reached))
  {
    if i > 0 {
      CompletedMeansNothingOwed(g, script, i - 1);
      AfterOne(g, script, i - 1);
    }
  }

  /** A body with a declared length completes exactly when that length was handed out. */
  lemma CompletesOnLength(g: Guarded, script: seq<Inner>, i: nat)
    requires Untouched(g) && Owes(g) && !g.completed && i <= |script|
    ensures After(g, script[..i]).completed <==> BytesYielded(g, script, i) >= g.remaining.value
  {
    hide After, BytesYielded;
    CountdownIsExact(g, script, i);
    CompletedMeansNothingOwed(g, script, i);
  }

  /** Poll j, made of a body that has not failed, is the wrapped body's last. */
  ghost predicate LastPoll(g: Guarded, script: seq<Inner>, j: nat) {
    && j < |script| && !After(g, script[..j]).failed
    && (script[j].poll.Finish? || (script[j].poll.Yield? && script[j].atEnd))
  }

  lemma NoLengthStep(g: Guarded, script: seq<Inner>, i: nat)
    requires Untouched(g) && i < |script| && After(g, script[..i]).remaining.None?
    ensures After(g, script[..i + 1]).remaining.None?
    ensures After(g, script[..i + 1]).completed == (After(g, script[..i]).completed || LastPoll(g, script, i))
  {
    HeldMeansFailed(g, script, i);
    AfterOne(g, script, i);
  }

  /** Without one, it completes exactly at a reported last frame or a clean end. */
  lemma {:induction false} CompletesOnEnd(g: Guarded, script: seq<Inner>, i: nat)
    requires Untouched(g) && g.remaining.None? && !g.completed && i <= |script|
    ensures After(g, script[..i]).remaining.None?
    ensures After(g, script[..i]).completed <==> exists j: nat | j < i :: LastPoll(g, script, j)
  {
    hide After, LastPoll;
    if i == 0 {
      assert After(g, script[..0]) == g by { AfterNone(g, script); }
    } else {
      CompletesOnEnd(g, script, i - 1);
      NoLengthStep(g, script, i - 1);
    }
  }

  lemma AfterNone(g: Guarded, script: seq<Inner>)
    ensures After(g, script[..0]) == g
  {
  }

  /** Ending cleanly takes the whole declared length, and completes. */
  lemma CleanEndIsWhole(g: Guarded, script: seq<Inner>, i: nat)
    requires Untouched(g) && i < |script|
    requires Answer(g, script, i).Finish? && !After(g, script[..i]).failed
    ensures g.remaining.Some? ==> BytesYielded(g, script, i) >= g.remaining.value
    ensures After(g, script[..i + 1]).completed
  {
    HeldMeansFailed(g, script, i);
    AfterOne(g, script, i);
    if g.remaining.Some? {
      CountdownIsExact(g, script, i);
    }
  }

  /** Hyper makes no poll after this one: the end, a reported last frame, or the full length. */
  ghost predicate StopsAt(g: Guarded, script: seq<Inner>, i: nat)
    requires i < |script|
  {
    || Answer(g, script, i).Finish?
    || (Answer(g, script, i).Yield? && EndStream(After(g, script[..i + 1]), script[i].atEnd))
    || (Answer(g, script, i).Yield? && After(g, script[..i + 1]).remaining == Some(0))
  }

  /** However Hyper stops polling, the response is completed or has failed. */
  lemma EveryStopIsResolved(g: Guarded, script: seq<Inner>, i: nat)
    requires Untouched(g) && i < |script| && StopsAt(g, script, i)
    ensures After(g, script[..i + 1]).completed || After(g, script[..i + 1]).failed
  {
    AfterOne(g, script, i);
  }

  /** Whether Hyper writes a body at all, and polls this one for it. */
  predicate HyperPolls(status: nat, g: Guarded, atEnd: bool, bodyless: bool) {
    && status !in {NO_CONTENT, NOT_MODIFIED} && !bodyless
    && !EndStream(g, atEnd) && g.remaining != Some(0)
  }

  /**
   From construction to Hyper's last poll: whatever the response and the script,
   once Hyper is done with the body the response is completed or has failed. One
   it never polls is completed at once and no other is; an upgrade stays open.
   */
  lemma EveryResponseIsResolved(status: nat, exact: Option<nat>, contentLength: Option<nat>, atEnd: bool,
                                bodyless: bool, script: seq<Inner>)
    requires
      var g := Attach(status, exact, contentLength, atEnd, bodyless);
      if script == [] then !HyperPolls(status, g, atEnd, bodyless) else StopsAt(g, script, |script| - 1)
    ensures
      var g := Attach(status, exact, contentLength, atEnd, bodyless);
      var last := After(g, script);
      && g.remaining == (if exact.Some? then exact else contentLength)
      && (g.completed <==> status != SWITCHING_PROTOCOLS && !HyperPolls(status, g, atEnd, bodyless))
      && (script != [] || status != SWITCHING_PROTOCOLS ==> last.completed || last.failed)
      && (script == [] ==> !last.failed)
  {
    var g := Attach(status, exact, contentLength, atEnd, bodyless);
    if script != [] {
      assert script[..|script| - 1 + 1] == script;
      EveryStopIsResolved(g, script, |script| - 1);
    }
  }
}
