/**
 One streaming upload under a byte grant: every poll forwards one frame, waits,
 or ends the upload and reports that end once.

 The transfer underneath is any source of reads, and the coordinator's wish to
 stop is an input of the poll.
 */
module BoundedUpload {
  import opened Base
  import opened BodyAdmission
  import opened Transfer

  /** One read of the transfer under the upload. */
  datatype Read = Idle | Frame(data: Bytes) | SourceEnd | Terminates(terminal: Terminal)

  datatype Disposition = Drained | Stopped

  datatype End = EndDrained | EndStopped | EndRefused(terminal: Terminal)

  datatype Output = NothingYet | Forward(data: Bytes) | StreamError | StreamEnd

  /** The fields the upload owns: its budget, its permit and its two senders. */
  datatype Upload = Upload(limit: nat, observed: nat, permit: bool, refusal: bool, finished: bool)

  /** What one poll lets go of: a permit, a refusal, an acknowledgement. */
  datatype Sends = Sends(released: bool, refusal: Option<Terminal>, finished: Option<Disposition>)

  const SILENT := Sends(false, None, None)

  function DispositionOf(end: End): Disposition {
    if end.EndDrained? then Drained else Stopped
  }

  function Report(u: Upload, end: End): (Upload, Sends) {
    (u.(permit := false, refusal := false, finished := false),
     Sends(u.permit,
           if u.refusal && end.EndRefused? then Some(end.terminal) else None,
           if u.finished then Some(DispositionOf(end)) else None))
  }

  function Ended(u: Upload, end: End): (Upload, Output, Sends) {
    (Report(u, end).0, if end.EndRefused? then StreamError else StreamEnd, Report(u, end).1)
  }

  /** A terminal without a refusal of its own only stops the upload. */
  function TransferEnd(terminal: Terminal): End {
    if Refusable(terminal) then EndRefused(terminal) else EndStopped
  }

  /** One `next_data`, biased on the stop. */
  function NextData(u: Upload, stopped: bool, read: Read): (Upload, Output, Sends) {
    if !u.finished then (u, StreamEnd, SILENT)
    else if u.refusal && stopped then Ended(u, EndStopped)
    else
      match read
      case Idle => (u, NothingYet, SILENT)
      case SourceEnd => Ended(u, EndDrained)
      case Terminates(terminal) => Ended(u, TransferEnd(terminal))
      case Frame(data) =>
        match CheckedTotal(u.observed, |data|, u.limit)
        case Some(total) => (u.(observed := total), Forward(data), SILENT)
        case None => Ended(u, EndRefused(RouteBodyLimit))
  }

  /** A live upload closes its stream cleanly exactly on these three reads. */
  lemma CleanEndCauses(u: Upload, stopped: bool, read: Read)
    requires u.finished && u.refusal
    ensures NextData(u, stopped, read).1.StreamEnd? <==>
      stopped || read.SourceEnd? || (read.Terminates? && !Refusable(read.terminal))
  {
  }

  /** The frame that would carry the upload past its grant. */
  predicate Crosses(u: Upload, read: Read) {
    read.Frame? && u.observed + |read.data| > u.limit
  }

  /**
   A live upload is refused exactly on a crossing frame or a terminal that has
   a refusal, never once stopped, and the refusal names that cause.
   */
  lemma RefusedExactly(u: Upload, stopped: bool, read: Read)
    requires u.finished && u.refusal && u.limit <= USIZE_MAX
    ensures
      var (_, output, sends) := NextData(u, stopped, read);
      && (output.StreamError? <==> !stopped && (Crosses(u, read) || (read.Terminates? && Refusable(read.terminal))))
      && sends.refusal == (if !output.StreamError? then None else if read.Frame? then Some(RouteBodyLimit) else Some(read.terminal))
      && (output.Forward? <==> !stopped && read.Frame? && !Crosses(u, read))
      && (output.Forward? ==> output.data == read.data)
  {
    if read.Frame? {
      CheckedTotalIsExact(u.observed, |read.data|, u.limit);
    }
  }

  /** The upload object, stepped in place. */
  class StreamingUpload {
    const budget: BodyBudget
    var permit: bool
    var refusal: bool
    var finished: bool

    ghost function State(): Upload
      reads this, budget
    {
      Upload(budget.limit, budget.observed, permit, refusal, finished)
    }

    ghost predicate Valid()
      reads this, budget
    {
      budget.Valid()
    }

    constructor (grant: Grant)
      requires grant.limit <= USIZE_MAX
      ensures Valid() && fresh(budget)
      ensures State() == Upload(grant.limit, 0, grant.permit, true, true)
    {
      budget := new BodyBudget(grant);
      permit, refusal, finished := grant.permit, true, true;
    }

    /** Gives up the permit and both senders; only held ones have an effect. */
    method Finish(end: End) returns (sends: Sends)
      requires Valid()
      modifies this
      ensures Valid() && (State(), sends) == Report(old(State()), end)
    {
      var released := permit;
      permit := false;
      var raised := if refusal && end.EndRefused? then Some(end.terminal) else None;
      refusal := false;
      var acknowledged := if finished then Some(DispositionOf(end)) else None;
      finished := false;
      sends := Sends(released, raised, acknowledged);
    }

    method Poll(stopped: bool, read: Read) returns (output: Output, sends: Sends)
      requires Valid()
      modifies this, budget
      ensures Valid() && (State(), output, sends) == NextData(old(State()), stopped, read)
    {
      output, sends := StreamEnd, SILENT;
      if !finished {
        return;
      }
      if refusal && stopped {
        sends := Finish(EndStopped);
        return;
      }
      match read {
        case Idle =>
          output := NothingYet;
        case SourceEnd =>
          sends := Finish(EndDrained);
        case Terminates(terminal) =>
          output := if Refusable(terminal) then StreamError else StreamEnd;
          sends := Finish(TransferEnd(terminal));
        case Frame(data) =>
          var admitted := budget.AdmitFrame(|data|);
          if admitted.Ok? {
            output := Forward(data);
          } else {
            output := StreamError;
            sends := Finish(EndRefused(RouteBodyLimit));
          }
      }
    }
  }
}
