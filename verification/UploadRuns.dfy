/**
 Every interleaving of one streaming upload with its coordinator, the upstream
 and the other producers that compete for the operation's set-once response
 commitment. Either half may be dropped between its steps.
 */
module UploadRuns {
  import opened Base
  import opened BodyAdmission
  import opened BoundedUpload
  import opened Transfer

  /** A oneshot channel: what arrived, and whether each end still holds it. */
  datatype Channel<T> = Channel(value: Option<T>, sender: bool, receiver: bool) {
    /** The sender is consumed; the value arrives only while someone listens. */
    function Send(v: Option<T>): Channel<T> {
      Channel(if receiver && v.Some? then v else value, false, receiver)
    }

    function Closed(): Channel<T> {
      this.(receiver := false)
    }
  }

  /** The upload's half, with the stream its upstream has been given so far. */
  datatype Half = Half(
    upload: Upload,
    polling: Option<bool>,
    gone: bool,
    ended: bool,
    stream: seq<Output>,
    read: Bytes,
    sourceEnded: bool,
    releases: nat,
    acknowledgements: nat)

  datatype Commit = Head(ofUpstream: bool) | Cause(terminal: Terminal, ofUpload: bool) {
    predicate OfUpload() {
      Cause? && ofUpload
    }
  }

  datatype Answer =
    | Upstream(upload: Disposition)
    | BodyRefused(terminal: Terminal)
    | AlreadyCommitted(terminal: Terminal)
    | ProxyFailed
    | Abandoned

  datatype Coordinator = Racing | HeadReady | HeadRecorded | Quiescing | Returned(answer: Answer)

  datatype Sys = Sys(
    granted: bool,
    half: Half,
    refusal: Channel<Terminal>,
    finished: Channel<Disposition>,
    commitment: Option<Commit>,
    coordinator: Coordinator)

  datatype Label =
    | BeginPoll
    | EndPoll(read: Read)
    | DropUpload
    | TakeRefusal
    | UpstreamAnswers
    | UpstreamFails
    | RecordHead
    | CloseRefusal
    | HearFinished
    | GiveUpWaiting
    | DropCoordinator
    | AnotherCommits(commit: Commit)

  function Count(b: bool): nat {
    if b then 1 else 0
  }

  /** A body already at its end is acknowledged before anything is polled. */
  function Init(grant: Grant, atEnd: bool): Sys {
    if atEnd then
      Sys(grant.permit,
          Half(Upload(grant.limit, 0, false, false, false), None, false, true, [], [], true, Count(grant.permit), 1),
          Channel(None, false, true), Channel(Some(Drained), false, true), None, Racing)
    else
      Sys(grant.permit,
          Half(Upload(grant.limit, 0, grant.permit, true, true), None, false, false, [], [], false, 0, 0),
          Channel(None, true, true), Channel(None, true, true), None, Racing)
  }

  predicate Enabled(s: Sys, l: Label) {
    match l
    case BeginPoll => !s.half.gone && !s.half.ended && s.half.polling.None?
    case EndPoll(_) => s.half.polling.Some?
    case DropUpload => !s.half.gone && s.half.polling.None?
    case TakeRefusal => s.coordinator.Racing? && s.refusal.value.Some?
    case UpstreamAnswers => s.coordinator.Racing?
    case UpstreamFails => s.coordinator.Racing?
    case RecordHead => s.coordinator.HeadReady?
    case CloseRefusal => s.coordinator.HeadRecorded?
    case HearFinished => s.coordinator.Quiescing? && s.finished.value.Some?
    case GiveUpWaiting => s.coordinator.Quiescing?
    case DropCoordinator => !s.coordinator.Returned?
    case AnotherCommits(commit) => !commit.OfUpload()
  }

  /** Whether the poll got as far as the transfer. */
  predicate Consumes(u: Upload, stopped: bool) {
    u.finished && !(u.refusal && stopped)
  }

  function Polled(h: Half, stopped: bool, read: Read): Half {
    var (upload, output, sends) := NextData(h.upload, stopped, read);
    var consumed := Consumes(h.upload, stopped);
    Half(upload, None, h.gone,
         output.StreamEnd?,
         if output.Forward? || output.StreamError? then h.stream + [output] else h.stream,
         if consumed && read.Frame? then h.read + read.data else h.read,
         h.sourceEnded || (consumed && read.SourceEnd?),
         h.releases + Count(sends.released),
         h.acknowledgements + Count(sends.finished.Some?))
  }

  function Dropped(h: Half): Half {
    h.(gone := true,
       upload := h.upload.(permit := false, refusal := false, finished := false),
       releases := h.releases + Count(h.upload.permit))
  }

  function Take(held: Option<Commit>, commit: Commit): Option<Commit> {
    if held.Some? then held else Some(commit)
  }

  /** The coordinator returns, and lets go of both receivers. */
  function Return(s: Sys, answer: Answer): Sys {
    s.(refusal := s.refusal.Closed(), finished := s.finished.Closed(), coordinator := Returned(answer))
  }

  /** A refusal answers the request only if it takes the cell. */
  function CommittedRefusal(s: Sys, terminal: Terminal): Sys {
    Return(s.(commitment := Take(s.commitment, Cause(terminal, true))),
           match s.commitment
           case None => BodyRefused(terminal)
           case Some(Cause(committed, _)) => AlreadyCommitted(committed)
           case Some(Head(_)) => AlreadyCommitted(terminal))
  }

  function Apply(s: Sys, l: Label): Sys
    requires Enabled(s, l)
  {
    match l
    case BeginPoll => s.(half := s.half.(polling := Some(!s.refusal.receiver)))
    case EndPoll(read) =>
      var sends := NextData(s.half.upload, s.half.polling.value, read).2;
      s.(half := Polled(s.half, s.half.polling.value, read),
         refusal := if sends.finished.Some? then s.refusal.Send(sends.refusal) else s.refusal,
         finished := if sends.finished.Some? then s.finished.Send(sends.finished) else s.finished)
    case DropUpload =>
      s.(half := Dropped(s.half), refusal := s.refusal.(sender := false), finished := s.finished.(sender := false))
    case TakeRefusal => CommittedRefusal(s, s.refusal.value.value)
    case UpstreamAnswers => s.(coordinator := HeadReady)
    case UpstreamFails =>
      if s.refusal.value.Some? then CommittedRefusal(s, s.refusal.value.value) else Return(s, ProxyFailed)
    case RecordHead => s.(commitment := Take(s.commitment, Head(true)), coordinator := HeadRecorded)
    case CloseRefusal => s.(refusal := s.refusal.Closed(), coordinator := Quiescing)
    case HearFinished => Return(s, Upstream(s.finished.value.value))
    case GiveUpWaiting => Return(s, Upstream(Stopped))
    case DropCoordinator => Return(s, Abandoned)
    case AnotherCommits(commit) => s.(commitment := Take(s.commitment, commit))
  }

  ghost predicate Run(s: Sys, ls: seq<Label>, t: Sys)
    decreases |ls|
  {
    if ls == [] then s == t
    else Enabled(s, ls[0]) && Run(Apply(s, ls[0]), ls[1..], t)
  }

  ghost predicate Reachable(grant: Grant, s: Sys) {
    exists atEnd, ls :: Run(Init(grant, atEnd), ls, s)
  }

  // ---------- what the upstream has been given ----------

  /** The payload of a stream, its error aside. */
  function Forwarded(stream: seq<Output>): Bytes {
    if stream == [] then []
    else
      var last := stream[|stream| - 1];
      Forwarded(stream[..|stream| - 1]) + if last.Forward? then last.data else []
  }

  ghost predicate Clean(stream: seq<Output>) {
    forall k :: 0 <= k < |stream| ==> stream[k].Forward?
  }

  /** Data, and then at most one error as the very last item. */
  ghost predicate OneError(stream: seq<Output>) {
    forall k :: 0 <= k < |stream| ==> stream[k].Forward? || (k == |stream| - 1 && stream[k].StreamError?)
  }

  ghost predicate StreamInv(h: Half) {
    && OneError(h.stream)
    && |Forwarded(h.stream)| == h.upload.observed <= h.upload.limit <= USIZE_MAX
    && Forwarded(h.stream) <= h.read
    && (h.upload.finished ==> Clean(h.stream) && Forwarded(h.stream) == h.read && !h.sourceEnded)
    && (h.sourceEnded ==> Clean(h.stream) && Forwarded(h.stream) == h.read)
  }

  ghost predicate CountInv(granted: bool, h: Half) {
    && h.releases + Count(h.upload.permit) == Count(granted)
    && (h.upload.permit ==> h.upload.finished)
    && (h.upload.finished <==> h.upload.refusal)
    && (h.gone || h.ended ==> !h.upload.finished)
    && h.acknowledgements <= 1
    && (!h.gone ==> h.acknowledgements + Count(h.upload.finished) == 1)
    && (h.upload.finished ==> h.acknowledgements == 0)
    && (h.gone ==> h.polling.None?)
    && (h.ended ==> h.polling.None?)
  }

  /** Nothing is on a channel before the upload ended, and what is there is true. */
  ghost predicate ChannelInv(h: Half, refusal: Option<Terminal>, finished: Option<Disposition>) {
    && (h.upload.finished ==> refusal.None? && finished.None?)
    && (finished == Some(Drained) ==> h.sourceEnded)
    && (refusal.Some? ==> !Clean(h.stream))
  }

  /** While someone listens, what the upload had to say has arrived. */
  ghost predicate HeardInv(h: Half, refusal: Channel<Terminal>, finished: Channel<Disposition>) {
    && (refusal.receiver && !Clean(h.stream) ==> refusal.value.Some?)
    && (finished.receiver && h.acknowledgements == 1 ==> finished.value.Some?)
    && (finished.receiver && h.sourceEnded ==> finished.value == Some(Drained))
    && (refusal.sender <==> h.upload.refusal) && (finished.sender <==> h.upload.finished)
  }

  /** Who still listens: to a refusal until the head is settled, to the end until the answer. */
  ghost predicate ListenInv(coordinator: Coordinator, refusal: Channel<Terminal>, finished: Channel<Disposition>) {
    && (refusal.receiver <==> !coordinator.Quiescing? && !coordinator.Returned?)
    && (finished.receiver <==> !coordinator.Returned?)
    && (coordinator == Returned(ProxyFailed) ==> refusal.value.None?)
  }

  ghost predicate AnswerInv(
    commitment: Option<Commit>, coordinator: Coordinator,
    refusal: Option<Terminal>, finished: Option<Disposition>)
  {
    && (commitment.Some? && commitment.value.OfUpload() ==>
          coordinator == Returned(BodyRefused(commitment.value.terminal)))
    && match coordinator
       case Racing => true
       case HeadReady => true
       case HeadRecorded => commitment.Some?
       case Quiescing => commitment.Some?
       case Returned(BodyRefused(terminal)) => commitment == Some(Cause(terminal, true)) && refusal == Some(terminal)
       case Returned(Upstream(upload)) => commitment.Some? && (upload.Drained? ==> finished == Some(Drained))
       case Returned(AlreadyCommitted(terminal)) =>
         && commitment.Some? && refusal.Some?
         && terminal == (if commitment.value.Cause? then commitment.value.terminal else refusal.value)
       case Returned(_) => true
  }

  ghost predicate Inv(s: Sys) {
    && StreamInv(s.half)
    && CountInv(s.granted, s.half)
    && ChannelInv(s.half, s.refusal.value, s.finished.value)
    && HeardInv(s.half, s.refusal, s.finished)
    && ListenInv(s.coordinator, s.refusal, s.finished)
    && AnswerInv(s.commitment, s.coordinator, s.refusal.value, s.finished.value)
  }

  lemma ForwardedAppends(stream: seq<Output>, item: Output)
    ensures Forwarded(stream + [item]) == Forwarded(stream) + if item.Forward? then item.data else []
  {
    assert (stream + [item])[..|stream|] == stream;
  }

  lemma PollStream(h: Half, stopped: bool, read: Read)
    requires StreamInv(h)
    ensures StreamInv(Polled(h, stopped, read))
  {
    var output := NextData(h.upload, stopped, read).1;
    ForwardedAppends(h.stream, output);
    if read.Frame? {
      CheckedTotalIsExact(h.upload.observed, |read.data|, h.upload.limit);
    }
  }

  lemma PollCounts(granted: bool, h: Half, stopped: bool, read: Read)
    requires CountInv(granted, h) && !h.gone && !h.ended
    ensures CountInv(granted, Polled(h, stopped, read))
  {
  }

  lemma PollChannels(s: Sys, read: Read)
    requires Inv(s) && Enabled(s, EndPoll(read))
    ensures var t := Apply(s, EndPoll(read));
      && ChannelInv(t.half, t.refusal.value, t.finished.value)
      && HeardInv(t.half, t.refusal, t.finished)
      && ListenInv(t.coordinator, t.refusal, t.finished)
      && AnswerInv(t.commitment, t.coordinator, t.refusal.value, t.finished.value)
  {
    var t := Apply(s, EndPoll(read)).half;
    if |t.stream| > |s.half.stream| {
      assert t.stream[|s.half.stream|] == NextData(s.half.upload, s.half.polling.value, read).1;
    }
  }

  lemma StepInv(s: Sys, l: Label)
    requires Inv(s) && Enabled(s, l)
    ensures Inv(Apply(s, l))
  {
    match l
    case EndPoll(read) =>
      PollStream(s.half, s.half.polling.value, read);
      PollCounts(s.granted, s.half, s.half.polling.value, read);
      PollChannels(s, read);
    case _ =>
  }

  lemma {:induction false} RunInv(s: Sys, ls: seq<Label>, t: Sys)
    requires Inv(s) && Run(s, ls, t)
    ensures Inv(t) && t.granted == s.granted && t.half.upload.limit == s.half.upload.limit
    decreases |ls|
  {
    if ls != [] {
      StepInv(s, ls[0]);
      SameGrant(s, ls[0]);
      hide Inv, Enabled, Apply;
      RunInv(Apply(s, ls[0]), ls[1..], t);
    }
  }

  lemma SameGrant(s: Sys, l: Label)
    requires Enabled(s, l)
    ensures Apply(s, l).granted == s.granted && Apply(s, l).half.upload.limit == s.half.upload.limit
  {
  }

  lemma ReachableInv(grant: Grant, s: Sys)
    requires grant.limit <= USIZE_MAX && Reachable(grant, s)
    ensures Inv(s) && s.granted == grant.permit && s.half.upload.limit == grant.limit
  {
    var atEnd, ls :| Run(Init(grant, atEnd), ls, s);
    RunInv(Init(grant, atEnd), ls, s);
  }

  // ---------- what every run keeps ----------

  /** What was forwarded is a prefix of what the peer sent, inside the grant. */
  lemma ForwardedWithinGrant(grant: Grant, s: Sys)
    requires grant.limit <= USIZE_MAX && Reachable(grant, s)
    ensures |Forwarded(s.half.stream)| <= grant.limit && Forwarded(s.half.stream) <= s.half.read
  {
    ReachableInv(grant, s);
  }

  /** The upstream sees at most one error, and nothing follows it. */
  lemma ErrorIsLast(grant: Grant, s: Sys, i: nat)
    requires grant.limit <= USIZE_MAX && Reachable(grant, s)
    requires i < |s.half.stream| && !s.half.stream[i].Forward?
    ensures i == |s.half.stream| - 1 && s.half.stream[i].StreamError? && !s.half.sourceEnded
  {
    ReachableInv(grant, s);
  }

  /**
   A permit is released once at most, and has been once the upload ended or
   was dropped; before either, it is still held.
   */
  lemma PermitReleasedOnce(grant: Grant, s: Sys)
    requires grant.limit <= USIZE_MAX && Reachable(grant, s)
    ensures s.half.releases <= 1
    ensures grant.permit ==> (s.half.releases == 1 <==> !s.half.upload.permit)
    ensures s.half.gone || s.half.ended || s.refusal.value.Some? || s.finished.value.Some? ==>
      s.half.releases == Count(grant.permit)
  {
    ReachableInv(grant, s);
  }

  /** One acknowledgement for every upload that ended, never a second. */
  lemma AcknowledgedOnce(grant: Grant, s: Sys)
    requires grant.limit <= USIZE_MAX && Reachable(grant, s)
    ensures s.half.acknowledgements <= 1
    ensures s.half.ended && !s.half.gone ==> s.half.acknowledgements == 1
  {
    ReachableInv(grant, s);
  }

  /**
   A stream that ends cleanly holds everything read so far, and that is the whole
   body exactly when the poll saw no stop and read no terminal without a refusal.
   */
  lemma CleanEndIsWhole(grant: Grant, s: Sys, read: Read)
    requires grant.limit <= USIZE_MAX && Reachable(grant, s) && Enabled(s, EndPoll(read))
    requires s.half.upload.finished && Apply(s, EndPoll(read)).half.ended
    ensures
      var t := Apply(s, EndPoll(read)).half;
      && Clean(t.stream) && Forwarded(t.stream) == t.read
      && (t.sourceEnded <==> !(s.half.polling.value || (read.Terminates? && !Refusable(read.terminal))))
  {
    ReachableInv(grant, s);
    CleanEndCauses(s.half.upload, s.half.polling.value, read);
  }

  /** The run that cuts a body: one frame, then a cancellation, and nobody asked to stop. */
  function CutRun(data: Bytes): seq<Label> {
    [BeginPoll, EndPoll(Frame(data)), BeginPoll, EndPoll(Terminates(ForcedCancellation))]
  }

  /** A cancelled upload gives its upstream a clean end of a body that had not ended. */
  lemma CutBodyEndsCleanly(grant: Grant, data: Bytes) returns (t: Sys)
    requires |data| <= grant.limit <= USIZE_MAX
    ensures Run(Init(grant, false), CutRun(data), t) && Reachable(grant, t)
    ensures t.half.ended && t.half.stream == [Forward(data)] && Clean(t.half.stream) && !t.half.sourceEnded
    ensures t.refusal.receiver && t.coordinator.Racing? && t.finished.value == Some(Stopped)
  {
    CheckedTotalIsExact(0, |data|, grant.limit);
    var s0 := Init(grant, false);
    var s1 := Apply(s0, BeginPoll);
    var s2 := Apply(s1, EndPoll(Frame(data)));
    var s3 := Apply(s2, BeginPoll);
    t := Apply(s3, EndPoll(Terminates(ForcedCancellation)));
    RunFour(s0, CutRun(data), t);
  }

  lemma RunFour(s: Sys, ls: seq<Label>, t: Sys)
    requires |ls| == 4 && Enabled(s, ls[0]) && Enabled(Apply(s, ls[0]), ls[1])
    requires Enabled(Apply(Apply(s, ls[0]), ls[1]), ls[2])
    requires Enabled(Apply(Apply(Apply(s, ls[0]), ls[1]), ls[2]), ls[3])
    requires t == Apply(Apply(Apply(Apply(s, ls[0]), ls[1]), ls[2]), ls[3])
    ensures Run(s, ls, t)
  {
    hide Apply, Enabled;
    assert ls[1..][1..] == ls[2..] && ls[2..][1..] == ls[3..] && ls[3..][1..] == [];
    var c := Apply(Apply(Apply(s, ls[0]), ls[1]), ls[2]);
    assert Run(c, ls[3..], t);
    assert Run(Apply(Apply(s, ls[0]), ls[1]), ls[2..], t);
    assert Run(Apply(s, ls[0]), ls[1..], t);
  }

  /** An answer that calls the upload drained follows the whole body, forwarded. */
  lemma DrainedIsWhole(grant: Grant, s: Sys)
    requires grant.limit <= USIZE_MAX && Reachable(grant, s)
    requires s.coordinator == Returned(Upstream(Drained))
    ensures s.half.sourceEnded && Clean(s.half.stream) && Forwarded(s.half.stream) == s.half.read
    ensures s.commitment.Some? && !s.commitment.value.OfUpload()
  {
    ReachableInv(grant, s);
  }

  /** The refusal answers the request exactly when it took the commitment. */
  lemma RefusalOwnsItsAnswer(grant: Grant, s: Sys, terminal: Terminal)
    requires grant.limit <= USIZE_MAX && Reachable(grant, s)
    ensures s.coordinator == Returned(BodyRefused(terminal)) <==> s.commitment == Some(Cause(terminal, true))
    ensures s.coordinator == Returned(BodyRefused(terminal)) ==>
      !Clean(s.half.stream) && !s.half.sourceEnded
  {
    ReachableInv(grant, s);
  }

  /**
   A refusal the coordinator can still hear decides the race: whether it is taken
   or found when the upstream fails, it answers if the cell is free. So a request
   fails as a proxy only when the upload was not refused.
   */
  lemma RefusalIsNeverLost(grant: Grant, s: Sys)
    requires grant.limit <= USIZE_MAX && Reachable(grant, s)
    ensures s.coordinator == Returned(ProxyFailed) ==> s.refusal.value.None?
    ensures s.coordinator.Racing? ==> (s.refusal.value.Some? <==> !Clean(s.half.stream))
    ensures s.coordinator.Racing? && !Clean(s.half.stream) ==>
      && Enabled(s, TakeRefusal) && Apply(s, UpstreamFails) == Apply(s, TakeRefusal)
      && Apply(s, TakeRefusal).coordinator == Returned(
           match s.commitment
           case None => BodyRefused(s.refusal.value.value)
           case Some(Cause(committed, _)) => AlreadyCommitted(committed)
           case Some(Head(_)) => AlreadyCommitted(s.refusal.value.value))
      && (s.commitment.None? ==> Apply(s, TakeRefusal).commitment == Some(Cause(s.refusal.value.value, true)))
    ensures s.coordinator.Racing? && Clean(s.half.stream) ==>
      Apply(s, UpstreamFails).coordinator == Returned(ProxyFailed) && Apply(s, UpstreamFails).commitment == s.commitment
  {
    ReachableInv(grant, s);
    hide StreamInv, CountInv;
  }

  /** The end of an upload is on its channel as long as anyone listens, and says whether the body was whole. */
  lemma EndIsHeard(grant: Grant, s: Sys)
    requires grant.limit <= USIZE_MAX && Reachable(grant, s) && !s.coordinator.Returned?
    ensures s.half.acknowledgements == 1 ==> s.finished.value.Some?
    ensures s.finished.value == Some(Drained) <==> s.half.sourceEnded
    ensures s.finished.sender ==> s.finished.value.None? && s.refusal.value.None?
    ensures !s.finished.sender && s.finished.value.None? ==> s.half.gone
  {
    ReachableInv(grant, s);
  }

  // ---------- why it answered so ----------

  /** The step an answer comes from. */
  ghost predicate AnswerHasStep(answer: Answer, ls: seq<Label>) {
    match answer
    case Upstream(_) => RecordHead in ls && CloseRefusal in ls && (HearFinished in ls || GiveUpWaiting in ls)
    case BodyRefused(_) => TakeRefusal in ls || UpstreamFails in ls
    case AlreadyCommitted(_) => TakeRefusal in ls || UpstreamFails in ls
    case ProxyFailed => UpstreamFails in ls
    case Abandoned => DropCoordinator in ls
  }

  /** The step a commitment comes from. */
  ghost predicate CommitHasStep(commit: Commit, ls: seq<Label>) {
    || AnotherCommits(commit) in ls
    || (commit == Head(true) && RecordHead in ls)
    || (commit.OfUpload() && (TakeRefusal in ls || UpstreamFails in ls))
  }

  /** What the run up to `s` explains about it. */
  ghost predicate Explained(ls: seq<Label>, s: Sys) {
    && (s.commitment.Some? ==> CommitHasStep(s.commitment.value, ls))
    && (s.coordinator.HeadReady? || s.coordinator.HeadRecorded? || s.coordinator.Quiescing? ==> UpstreamAnswers in ls)
    && (s.coordinator.HeadRecorded? || s.coordinator.Quiescing? ==> RecordHead in ls)
    && (s.coordinator.Quiescing? ==> CloseRefusal in ls)
    && (s.coordinator.Returned? ==> AnswerHasStep(s.coordinator.answer, ls))
    && (s.coordinator.Returned? && s.coordinator.answer.Upstream? && GiveUpWaiting !in ls ==>
          s.finished.value == Some(s.coordinator.answer.upload))
    && (s.coordinator.Returned? && s.coordinator.answer.Upstream? ==> !s.finished.receiver)
  }

  lemma ExplainedStep(ls: seq<Label>, s: Sys, l: Label)
    requires Inv(s) && Explained(ls, s) && Enabled(s, l)
    ensures Explained(ls + [l], Apply(s, l))
  {
    hide StreamInv, CountInv, ChannelInv, HeardInv, AnswerInv, NextData, Clean, Polled;
  }

  lemma {:induction false} ExplainedRun(was: seq<Label>, s: Sys, ls: seq<Label>, t: Sys)
    requires Inv(s) && Explained(was, s) && Run(s, ls, t)
    ensures Explained(was + ls, t)
    decreases |ls|
  {
    hide Inv, Explained, Apply, Enabled;
    if ls == [] {
      assert was + ls == was;
    } else {
      StepInv(s, ls[0]);
      ExplainedStep(was, s, ls[0]);
      ExplainedRun(was + [ls[0]], Apply(s, ls[0]), ls[1..], t);
      assert was + [ls[0]] + ls[1..] == was + ls;
    }
  }

  /**
   Nothing answers and nothing is committed without the step it belongs to. An
   answer of the upstream that was not given up waiting for says how the upload
   ended.
   */
  lemma EveryAnswerHasItsCause(grant: Grant, atEnd: bool, ls: seq<Label>, s: Sys)
    requires grant.limit <= USIZE_MAX && Run(Init(grant, atEnd), ls, s)
    ensures s.commitment.Some? ==> CommitHasStep(s.commitment.value, ls)
    ensures s.coordinator.Returned? ==> AnswerHasStep(s.coordinator.answer, ls)
    ensures s.coordinator.Returned? && s.coordinator.answer.Upstream? && GiveUpWaiting !in ls ==>
      s.finished.value == Some(s.coordinator.answer.upload)
  {
    ExplainedRun([], Init(grant, atEnd), ls, s);
    assert [] + ls == ls;
  }

  /** The upstream's answer is passed on, with what became of the upload. */
  lemma AnswerPassedOn(grant: Grant, s: Sys) returns (t: Sys)
    requires grant.limit <= USIZE_MAX && Reachable(grant, s)
    requires s.coordinator.Racing? && s.half.acknowledgements == 1 && s.commitment.None?
    ensures Run(s, [UpstreamAnswers, RecordHead, CloseRefusal, HearFinished], t)
    ensures t.commitment == Some(Head(true)) && t.half == s.half
    ensures t.coordinator == Returned(Upstream(if s.half.sourceEnded then Drained else Stopped))
  {
    EndIsHeard(grant, s);
    var end := s.finished.value.value;
    assert end == if s.half.sourceEnded then Drained else Stopped by { assert end.Drained? || end.Stopped?; }
    hide Reachable, NextData, Polled, Dropped;
    var ls := [UpstreamAnswers, RecordHead, CloseRefusal, HearFinished];
    t := Apply(Apply(Apply(Apply(s, UpstreamAnswers), RecordHead), CloseRefusal), HearFinished);
    RunFour(s, ls, t);
  }

  /** A refusal that lost reports the cause that won, or its own when a head did. */
  lemma LoserReportsWinner(grant: Grant, s: Sys, terminal: Terminal)
    requires grant.limit <= USIZE_MAX && Reachable(grant, s)
    requires s.coordinator == Returned(AlreadyCommitted(terminal))
    ensures s.commitment.Some? && !s.commitment.value.OfUpload()
    ensures s.commitment.value.Cause? ==> terminal == s.commitment.value.terminal
    ensures s.commitment.value.Head? ==> s.refusal.value == Some(terminal)
  {
    ReachableInv(grant, s);
  }

  /** The first commitment stands for the rest of every run. */
  lemma {:induction false} CommitmentIsFinal(s: Sys, ls: seq<Label>, t: Sys)
    requires s.commitment.Some? && Run(s, ls, t)
    ensures t.commitment == s.commitment
    decreases |ls|
  {
    if ls != [] {
      CommitmentIsFinal(Apply(s, ls[0]), ls[1..], t);
    }
  }

  /** What a step would commit. */
  function CommitOf(s: Sys, l: Label): Option<Commit> {
    match l
    case AnotherCommits(commit) => Some(commit)
    case RecordHead => Some(Head(true))
    case TakeRefusal => if s.refusal.value.Some? then Some(Cause(s.refusal.value.value, true)) else None
    case UpstreamFails => if s.refusal.value.Some? then Some(Cause(s.refusal.value.value, true)) else None
    case _ => None
  }

  /** The first step with something to commit takes the cell, and keeps it. */
  lemma FirstCommitWins(s: Sys, l: Label, ls: seq<Label>, t: Sys)
    requires s.commitment.None? && Enabled(s, l) && Run(Apply(s, l), ls, t)
    ensures Apply(s, l).commitment == CommitOf(s, l)
    ensures CommitOf(s, l).Some? ==> t.commitment == CommitOf(s, l)
  {
    if CommitOf(s, l).Some? {
      CommitmentIsFinal(Apply(s, l), ls, t);
    }
  }

  /** Once a head or another's cause is committed, no run answers with the refusal. */
  lemma NeverRefusedAfterCommit(grant: Grant, s: Sys, ls: seq<Label>, t: Sys)
    requires grant.limit <= USIZE_MAX && Reachable(grant, s) && Run(s, ls, t)
    requires s.commitment.Some? && !s.commitment.value.OfUpload()
    ensures !(t.coordinator.Returned? && t.coordinator.answer.BodyRefused?)
  {
    ReachableInv(grant, s);
    RunInv(s, ls, t);
    CommitmentIsFinal(s, ls, t);
  }

  /** A stop has been asked, and no poll that missed it is still under way. */
  ghost predicate Halting(s: Sys) {
    !s.refusal.receiver && s.half.polling != Some(false)
  }

  lemma {:induction false} StoppedForwardsNothing(s: Sys, ls: seq<Label>, t: Sys)
    requires Inv(s) && Halting(s) && Run(s, ls, t)
    ensures t.half.stream == s.half.stream
    decreases |ls|
  {
    if ls != [] {
      StepInv(s, ls[0]);
      StoppedForwardsNothing(Apply(s, ls[0]), ls[1..], t);
    }
  }
}
