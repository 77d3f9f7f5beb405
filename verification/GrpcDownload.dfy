/**
 A committed gRPC answer: tonic's payload under the transfer that bounds it,
 then the trailer set the transfer never carried, all inside the guarded body.
 */
module GrpcDownload {
  import opened Base
  import opened BodyAdmission
  import opened Transfer
  import opened GuardedBody

  datatype Phase = Streaming | Trailing | Ended

  datatype Download = Download(transfer: State, phase: Phase)

  function New(script: seq<Produced>, maxBytes: Option<nat>): Download {
    Download(State(Source(Tonic, script, None), maxBytes, 0, None), Streaming)
  }

  /** The last answer of the body: its trailers, when it captured any. */
  function HandOver(t: State): (Download, Poll) {
    (Download(t.(source := t.source.(trailers := None)), Ended),
     if t.source.trailers.Some? then Yield(TrailerFrame(t.source.trailers.value)) else Finish)
  }

  function PollBody(d: Download, carried: set<Terminal>): (Download, Poll) {
    match d.phase
    case Ended => (d, Finish)
    case Trailing => HandOver(d.transfer)
    case Streaming =>
      var (t, answer) := PollTransfer(d.transfer, carried);
      match answer
      case Pending => (Download(t, Streaming), NotReady)
      case Deliver(data) => (Download(t, Streaming), Yield(DataFrame(data)))
      case Done => HandOver(t)
      case Terminated(terminal) => (Download(t, Ended), Fail(TransferError(terminal)))
  }

  /** The answer's body object, over its own transfer. */
  class DownloadBody {
    const transfer: StreamTransfer
    var phase: Phase

    ghost function Value(): Download
      reads this, transfer
    {
      Download(transfer.Value(), phase)
    }

    constructor (script: seq<Produced>, maxBytes: Option<nat>)
      ensures Value() == New(script, maxBytes) && fresh(transfer)
    {
      transfer := new StreamTransfer(Tonic, script, maxBytes);
      phase := Streaming;
    }

    method TakeTrailers() returns (answer: Poll)
      modifies this, transfer
      ensures (Value(), answer) == HandOver(old(transfer.Value()))
    {
      phase := Ended;
      var trailers := transfer.source.trailers;
      transfer.source := transfer.source.(trailers := None);
      answer := if trailers.Some? then Yield(TrailerFrame(trailers.value)) else Finish;
    }

    method Poll(carried: set<Terminal>) returns (answer: Poll)
      modifies this, transfer
      ensures (Value(), answer) == PollBody(old(Value()), carried)
    {
      hide PollTransfer, HandOver;
      match phase {
        case Ended =>
          answer := Finish;
        case Trailing =>
          answer := TakeTrailers();
        case Streaming =>
          var polled := transfer.Poll(carried);
          match polled {
            case Pending =>
              answer := NotReady;
            case Deliver(data) =>
              answer := Yield(DataFrame(data));
            case Done =>
              phase := Trailing;
              answer := TakeTrailers();
            case Terminated(terminal) =>
              phase := Ended;
              answer := Fail(TransferError(terminal));
          }
      }
    }
  }

  // ---------- under the guard ----------

  /** The guarded answer, and everything Hyper has been handed so far. */
  datatype Stream = Stream(
    guarded: Guarded,
    download: Download,
    data: Bytes,
    trailers: seq<Fields>,
    errors: nat)

  /** What the answer's head says of its body, and whether its request takes one. */
  datatype Head = Head(status: nat, declared: Option<nat>, bodyless: bool)

  function Open(script: seq<Produced>, maxBytes: Option<nat>, head: Head): Stream {
    Stream(Attach(head.status, None, head.declared, false, head.bodyless), New(script, maxBytes), [], [], 0)
  }

  function Received(s: Stream, answer: Poll): Stream {
    match answer
    case Yield(DataFrame(data)) => s.(data := s.data + data)
    case Yield(TrailerFrame(fields)) => s.(trailers := s.trailers + [fields])
    case Fail(_) => s.(errors := s.errors + 1)
    case _ => s
  }

  /** The guard's part of a poll, given what the body under it answered. */
  function Guard(s: Stream, download: Download, polled: Poll): Stream {
    var (guarded, answer) := PollFrame(s.guarded, Inner(polled, download.phase.Ended?));
    Received(s.(guarded := guarded, download := download), answer)
  }

  /** One poll by Hyper; a body that has failed polls nothing underneath. */
  function Step(s: Stream, carried: set<Terminal>): Stream {
    var (download, polled) :=
      if s.guarded.failed || s.guarded.held.Some? then (s.download, Finish) else PollBody(s.download, carried);
    Guard(s, download, polled)
  }

  function Drive(s: Stream, polls: seq<set<Terminal>>): Stream
    decreases |polls|
  {
    if polls == [] then s else Drive(Step(s, polls[0]), polls[1..])
  }

  ghost predicate Handed(all: Future, s: Stream) {
    && s.data == all.payload && all.ends
    && s.trailers == (if all.fields.Some? then [all.fields.value] else [])
  }

  /** Tonic ends by itself, short of what its head declares. */
  ghost predicate Short(all: Future, head: Head) {
    all.ends && head.declared.Some? && |all.payload| < head.declared.value
  }

  /** While tonic streams, what left and what is still to come make up the whole. */
  ghost predicate StreamingInv(all: Future, s: Stream) {
    var t := s.download.transfer;
    && t.source.kind.Tonic? && t.ended.None? && t.source.trailers.None? && t.counted == |s.data|
    && all == Remaining(t).(payload := s.data + Remaining(t).payload)
    && s.trailers == [] && s.errors == 0 && Untouched(s.guarded) && s.guarded.boundary.None?
  }

  /** The account names the terminal that ended the transfer, or the missing bytes when it ended well. */
  ghost predicate Blames(s: Stream) {
    var ended := s.download.transfer.ended;
    ended.Some? && s.guarded.boundary == if ended.value.ResponseHead? then Some(SourceFailure) else ended
  }

  ghost predicate FailedInv(all: Future, maxBytes: Option<nat>, head: Head, quiet: bool, s: Stream) {
    && s.errors + (if s.guarded.held.Some? then 1 else 0) == 1
    && Blames(s)
    && (s.trailers != [] ==> Handed(all, s) && Short(all, head))
    && (quiet ==> |all.payload| > Ceiling(maxBytes) || Short(all, head))
  }

  /** The guard's books: what is owed, and when the answer counts as complete. */
  ghost predicate GuardInv(head: Head, s: Stream) {
    && s.guarded.remaining ==
         (if head.declared.Some? then Some(SaturatingSub(head.declared.value, |s.data|)) else None)
    && (Ordinary(head) ==> (s.guarded.completed <==> Complete(head, s)))
  }

  /** An answer whose body Hyper writes, and no upgrade. */
  predicate Ordinary(head: Head) {
    head.status !in {SWITCHING_PROTOCOLS, NO_CONTENT, NOT_MODIFIED} && !head.bodyless
  }

  ghost predicate Complete(head: Head, s: Stream) {
    if head.declared.Some? then |s.data| >= head.declared.value
    else s.download.phase.Ended? && !s.guarded.failed
  }

  ghost predicate Inv(all: Future, maxBytes: Option<nat>, head: Head, quiet: bool, s: Stream) {
    && s.download.transfer.maxBytes == maxBytes && Valid(s.download.transfer) && GuardInv(head, s)
    && s.data <= all.payload && |s.data| <= Ceiling(maxBytes)
    && match s.download.phase
       case Streaming => StreamingInv(all, s)
       case Trailing => false
       case Ended =>
         if s.guarded.failed then FailedInv(all, maxBytes, head, quiet, s)
         else s.guarded.held.None? && s.errors == 0 && Handed(all, s) && s.guarded.boundary.None?
              && s.download.transfer.ended == Some(ResponseHead)
  }

  lemma StreamsOn(all: Future, maxBytes: Option<nat>, head: Head, quiet: bool, s: Stream, carried: set<Terminal>, t: State, answer: Answer)
    requires Inv(all, maxBytes, head, quiet, s) && s.download.phase.Streaming?
    requires TurnInv(s.download.transfer, carried, t, answer) && (answer.Pending? || answer.Deliver?)
    ensures Inv(all, maxBytes, head, quiet,
                Guard(s, Download(t, Streaming), if answer.Pending? then NotReady else Yield(DataFrame(answer.data))))
  {
    hide Rest;
  }

  lemma StreamEnds(all: Future, maxBytes: Option<nat>, head: Head, quiet: bool, s: Stream, carried: set<Terminal>, t: State)
    requires Inv(all, maxBytes, head, quiet, s) && s.download.phase.Streaming?
    requires TurnInv(s.download.transfer, carried, t, Done)
    ensures Inv(all, maxBytes, head, quiet, Guard(s, HandOver(t).0, HandOver(t).1))
  {
    hide Rest;
  }

  lemma StreamFails(all: Future, maxBytes: Option<nat>, head: Head, quiet: bool, s: Stream, carried: set<Terminal>, t: State, terminal: Terminal)
    requires Inv(all, maxBytes, head, quiet, s) && s.download.phase.Streaming?
    requires TurnInv(s.download.transfer, carried, t, Terminated(terminal)) && (quiet ==> carried == {})
    ensures Inv(all, maxBytes, head, quiet, Guard(s, Download(t, Ended), Fail(TransferError(terminal))))
  {
    hide Rest;
  }

  lemma Unfailed(all: Future, maxBytes: Option<nat>, head: Head, quiet: bool, s: Stream)
    requires Inv(all, maxBytes, head, quiet, s) && s.download.phase.Streaming?
    ensures Untouched(s.guarded) && Valid(s.download.transfer) && s.download.transfer.ended.None?
  {
  }

  lemma StreamingStep(all: Future, maxBytes: Option<nat>, head: Head, quiet: bool, s: Stream, carried: set<Terminal>)
    requires Inv(all, maxBytes, head, quiet, s) && s.download.phase.Streaming? && OnlyCarried(carried)
    requires quiet ==> carried == {}
    ensures Inv(all, maxBytes, head, quiet, Step(s, carried))
  {
    hide PollTransfer, Rest, Inv, TurnInv, Guard;
    Unfailed(all, maxBytes, head, quiet, s);
    TurnConserves(s.download.transfer, carried);
    var (t, answer) := PollTransfer(s.download.transfer, carried);
    match answer
    case Done => StreamEnds(all, maxBytes, head, quiet, s, carried, t);
    case Terminated(terminal) => StreamFails(all, maxBytes, head, quiet, s, carried, t, terminal);
    case _ => StreamsOn(all, maxBytes, head, quiet, s, carried, t, answer);
  }

  lemma EndedStep(all: Future, maxBytes: Option<nat>, head: Head, quiet: bool, s: Stream, carried: set<Terminal>)
    requires Inv(all, maxBytes, head, quiet, s) && s.download.phase.Ended?
    ensures
      var t := Step(s, carried);
      && Inv(all, maxBytes, head, quiet, t) && t.download.phase.Ended?
      && t.data == s.data && t.trailers == s.trailers
      && (t.guarded.failed <==> s.guarded.failed || Owes(s.guarded))
  {
    hide PollTransfer, Rest;
  }

  lemma {:induction false} DriveInv(all: Future, maxBytes: Option<nat>, head: Head, quiet: bool, s: Stream, polls: seq<set<Terminal>>)
    requires Inv(all, maxBytes, head, quiet, s)
    requires forall carried <- polls :: OnlyCarried(carried) && (quiet ==> carried == {})
    ensures Inv(all, maxBytes, head, quiet, Drive(s, polls))
    decreases |polls|
  {
    hide Step, Inv;
    if polls != [] {
      if s.download.phase.Streaming? {
        StreamingStep(all, maxBytes, head, quiet, s, polls[0]);
      } else {
        assert s.download.phase.Ended? by { PhaseIsSettled(all, maxBytes, head, quiet, s); }
        EndedStep(all, maxBytes, head, quiet, s, polls[0]);
      }
      DriveInv(all, maxBytes, head, quiet, Step(s, polls[0]), polls[1..]);
    }
  }

  lemma PhaseIsSettled(all: Future, maxBytes: Option<nat>, head: Head, quiet: bool, s: Stream)
    requires Inv(all, maxBytes, head, quiet, s)
    ensures !s.download.phase.Trailing?
  {
  }

  lemma Reached(script: seq<Produced>, maxBytes: Option<nat>, head: Head, polls: seq<set<Terminal>>)
    requires Ceiling(maxBytes) <= USIZE_MAX && forall carried <- polls :: OnlyCarried(carried)
    ensures Inv(Rest(Tonic, script), maxBytes, head, forall carried <- polls :: carried == {},
                Drive(Open(script, maxBytes, head), polls))
  {
    hide PollTransfer;
    var quiet := forall carried <- polls :: carried == {};
    DriveInv(Rest(Tonic, script), maxBytes, head, quiet, Open(script, maxBytes, head), polls);
  }

  /**
   For every source, bound, head and run of polls: what leaves is a
   prefix of tonic's payload inside the bound; trailers leave at most once, after
   all of it; at most one failure leaves; with nothing carried, only an answer
   over its bound or short of its declaration fails; and an ordinary answer is
   complete exactly at its declared length, or without one at a clean end.
   */
  lemma AnswerShape(script: seq<Produced>, maxBytes: Option<nat>, head: Head, polls: seq<set<Terminal>>)
    requires Ceiling(maxBytes) <= USIZE_MAX && forall carried <- polls :: OnlyCarried(carried)
    ensures
      var all, s := Rest(Tonic, script), Drive(Open(script, maxBytes, head), polls);
      && s.data <= all.payload && |s.data| <= Ceiling(maxBytes)
      && (s.trailers != [] ==> s.data == all.payload && all.fields == Some(s.trailers[0]) && |s.trailers| == 1)
      && s.errors <= 1
      && (s.guarded.failed && (forall carried <- polls :: carried == {}) ==>
            |all.payload| > Ceiling(maxBytes) || Short(all, head))
      && (if s.guarded.failed then Blames(s) else s.guarded.boundary.None?)
      && (Ordinary(head) ==> (s.guarded.completed <==> Complete(head, s)))
      && (s.download.phase.Ended? && !s.guarded.failed ==> Handed(all, s))
  {
    hide PollTransfer, Rest, Drive, Open;
    Reached(script, maxBytes, head, polls);
  }

  /** A poll that carries nothing takes the stream nearer its end. */
  lemma QuietStep(all: Future, maxBytes: Option<nat>, head: Head, s: Stream)
    requires Inv(all, maxBytes, head, true, s) && s.download.phase.Streaming? && all.ends
    ensures
      var t := Step(s, {});
      && Inv(all, maxBytes, head, true, t)
      && (t.download.phase.Ended? || |t.download.transfer.source.script| < |s.download.transfer.source.script|)
  {
    StreamingStep(all, maxBytes, head, true, s, {});
    Unfailed(all, maxBytes, head, true, s);
    TurnDecides(s.download.transfer, {});
    assert s.download.transfer.source.script != [] by { EndsIsAhead(all, maxBytes, head, s); }
    hide PollTransfer, Rest, Inv, FirstReady, OwnFact, Upcoming, PollFrame;
  }

  lemma EndsIsAhead(all: Future, maxBytes: Option<nat>, head: Head, s: Stream)
    requires Inv(all, maxBytes, head, true, s) && s.download.phase.Streaming? && all.ends
    ensures s.download.transfer.source.script != []
  {
  }

  lemma {:induction false} QuietDriveEnds(all: Future, maxBytes: Option<nat>, head: Head, s: Stream,
                                          polls: seq<set<Terminal>>)
    requires Inv(all, maxBytes, head, true, s) && all.ends && !s.download.phase.Trailing?
    requires |polls| >= |s.download.transfer.source.script| && forall carried <- polls :: carried == {}
    ensures Inv(all, maxBytes, head, true, Drive(s, polls)) && Drive(s, polls).download.phase.Ended?
    decreases |polls|
  {
    hide Step, Inv;
    if s.download.phase.Ended? {
      EndedDrive(all, maxBytes, head, true, s, polls);
    } else {
      EndsIsAhead(all, maxBytes, head, s);
      assert polls[0] in polls && forall carried <- polls[1..] :: carried in polls;
      QuietStep(all, maxBytes, head, s);
      PhaseIsSettled(all, maxBytes, head, true, Step(s, {}));
      if Step(s, {}).download.phase.Ended? {
        EndedDrive(all, maxBytes, head, true, Step(s, {}), polls[1..]);
      } else {
        QuietDriveEnds(all, maxBytes, head, Step(s, {}), polls[1..]);
      }
    }
  }

  lemma {:induction false} EndedDrive(all: Future, maxBytes: Option<nat>, head: Head, quiet: bool, s: Stream,
                                      polls: seq<set<Terminal>>)
    requires Inv(all, maxBytes, head, quiet, s) && s.download.phase.Ended?
    ensures Inv(all, maxBytes, head, quiet, Drive(s, polls)) && Drive(s, polls).download.phase.Ended?
    decreases |polls|
  {
    hide Step, Inv;
    if polls != [] {
      EndedStep(all, maxBytes, head, quiet, s, polls[0]);
      EndedDrive(all, maxBytes, head, quiet, Step(s, polls[0]), polls[1..]);
    }
  }

  /**
   An answer tonic ends, inside its bound and no shorter than declared, is handed
   over whole: once polled often enough with nothing carried, all its payload and
   its trailers have left, and an ordinary one is complete.
   */
  lemma WholeAnswerLeaves(script: seq<Produced>, maxBytes: Option<nat>, head: Head, polls: seq<set<Terminal>>)
    requires Ceiling(maxBytes) <= USIZE_MAX && |polls| >= |script| && forall carried <- polls :: carried == {}
    requires
      var all := Rest(Tonic, script);
      all.ends && |all.payload| <= Ceiling(maxBytes) && !Short(all, head)
    ensures
      var s := Drive(Open(script, maxBytes, head), polls);
      Handed(Rest(Tonic, script), s) && s.errors == 0 && (Ordinary(head) ==> s.guarded.completed)
  {
    hide PollTransfer;
    var all, s := Rest(Tonic, script), Open(script, maxBytes, head);
    assert Inv(all, maxBytes, head, true, s);
    hide Drive, Rest, Open;
    QuietDriveEnds(all, maxBytes, head, s, polls);
  }

  lemma {:induction false} EndedRun(all: Future, maxBytes: Option<nat>, head: Head, quiet: bool, s: Stream, polls: seq<set<Terminal>>)
    requires Inv(all, maxBytes, head, quiet, s) && s.download.phase.Ended?
    ensures
      var t := Drive(s, polls);
      && Inv(all, maxBytes, head, quiet, t)
      && t.data == s.data && t.trailers == s.trailers
      && (t.guarded.failed <==> s.guarded.failed || (polls != [] && Owes(s.guarded)))
    decreases |polls|
  {
    hide Step, Inv;
    if polls != [] {
      EndedStep(all, maxBytes, head, quiet, s, polls[0]);
      EndedRun(all, maxBytes, head, quiet, Step(s, polls[0]), polls[1..]);
      assert Owes(Step(s, polls[0]).guarded) ==> Owes(s.guarded) by { SameDebt(all, maxBytes, head, quiet, s, polls[0]); }
    }
  }

  lemma SameDebt(all: Future, maxBytes: Option<nat>, head: Head, quiet: bool, s: Stream, carried: set<Terminal>)
    requires Inv(all, maxBytes, head, quiet, s) && s.download.phase.Ended?
    ensures Owes(Step(s, carried).guarded) <==> Owes(s.guarded)
  {
    EndedStep(all, maxBytes, head, quiet, s, carried);
  }

  /** Once a failure is found nothing more leaves, neither data nor trailers. */
  lemma NothingAfterFailure(script: seq<Produced>, maxBytes: Option<nat>, head: Head,
                            polls: seq<set<Terminal>>, more: seq<set<Terminal>>)
    requires Ceiling(maxBytes) <= USIZE_MAX && forall carried <- polls :: OnlyCarried(carried)
    requires Drive(Open(script, maxBytes, head), polls).guarded.failed
    ensures
      var s := Drive(Open(script, maxBytes, head), polls);
      Drive(s, more).data == s.data && Drive(s, more).trailers == s.trailers
  {
    hide Drive, Open, Rest;
    Reached(script, maxBytes, head, polls);
    var quiet := forall carried <- polls :: carried == {};
    EndedRun(Rest(Tonic, script), maxBytes, head, quiet, Drive(Open(script, maxBytes, head), polls), more);
  }

  /**
   Trailers that have left are followed by a failure, at the very next poll,
   exactly when tonic's payload falls short of the length its head declares.
   */
  lemma TrailersStandAlone(script: seq<Produced>, maxBytes: Option<nat>, head: Head,
                           polls: seq<set<Terminal>>, more: seq<set<Terminal>>)
    requires Ceiling(maxBytes) <= USIZE_MAX && forall carried <- polls :: OnlyCarried(carried)
    requires Drive(Open(script, maxBytes, head), polls).trailers != [] && more != []
    ensures Drive(Drive(Open(script, maxBytes, head), polls), more).guarded.failed <==>
      head.declared.Some? && |Rest(Tonic, script).payload| < head.declared.value
  {
    hide Drive, Open, Rest;
    Reached(script, maxBytes, head, polls);
    var quiet := forall carried <- polls :: carried == {};
    EndedRun(Rest(Tonic, script), maxBytes, head, quiet, Drive(Open(script, maxBytes, head), polls), more);
  }

  /** The short answer's stream after its byte, and after its trailers. */
  function ByteOut(): Stream {
    Stream(Guarded(Some(4), false, None, false, None),
           Download(State(Source(Tonic, [Trailers("t")], None), None, 1, None), Streaming), "a", [], 0)
  }

  function TrailersOut(): Stream {
    Stream(Guarded(Some(4), false, None, false, None),
           Download(State(Source(Tonic, [], None), None, 1, Some(ResponseHead)), Ended), "a", ["t"], 0)
  }

  lemma ByteLeaves()
    ensures Step(Open([Payload("a"), Trailers("t")], None, Head(200, Some(5), false)), {}) == ByteOut()
  {
    FirstReadyIsReady({});
    assert [Payload("a"), Trailers("t")][1..] == [Trailers("t")];
  }

  lemma TrailersLeave()
    ensures Step(ByteOut(), {}) == TrailersOut()
  {
    var none: set<Terminal> := {};
    FirstReadyIsReady({ResponseHead});
    assert none + {ResponseHead} == {ResponseHead};
    assert [Trailers("t")][1..] == [];
  }

  /** One byte of five head, and trailers: the peer is handed them and then an error. */
  lemma ShortAnswerFailsAfterTrailers()
    ensures
      var s := Drive(Open([Payload("a"), Trailers("t")], None, Head(200, Some(5), false)), [{}, {}, {}, {}]);
      s.data == "a" && s.trailers == ["t"] && s.errors == 1
  {
    hide PollTransfer;
    ByteLeaves();
    TrailersLeave();
    var failing := Step(TrailersOut(), {});
    assert failing.guarded.held == Some(TRUNCATED) && failing.trailers == ["t"];
    DriveFour(Open([Payload("a"), Trailers("t")], None, Head(200, Some(5), false)), {}, Step(failing, {}));
  }

  lemma DriveFour(s: Stream, c: set<Terminal>, t: Stream)
    requires t == Step(Step(Step(Step(s, c), c), c), c)
    ensures Drive(s, [c, c, c, c]) == t
  {
    hide Step;
    assert [c, c, c, c][1..] == [c, c, c] && [c, c, c][1..] == [c, c] && [c, c][1..] == [c] && [c][1..] == [];
    assert Drive(Step(Step(Step(s, c), c), c), [c]) == t;
    assert Drive(Step(Step(s, c), c), [c, c]) == t;
    assert Drive(Step(s, c), [c, c, c]) == t;
  }
}
