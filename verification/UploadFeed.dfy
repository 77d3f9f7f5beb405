/**
 The upload over a real transfer: its reads are what the transfer makes of the
 incoming body's own frames, under deadlines alone. Every run of the two together
 is a run of the upload, so all that holds of those runs holds here as well.
 */
module UploadFeed {
  import opened Base
  import opened BodyAdmission
  import opened BoundedUpload
  import opened UploadRuns
  import Transfer

  datatype Fed = Fed(sys: Sys, transfer: Transfer.State)

  datatype Move = Ordinary(step: Label) | Poll(carried: set<Transfer.Terminal>)

  function Open(grant: Grant, atEnd: bool, body: seq<Transfer.Produced>): Fed {
    Fed(Init(grant, atEnd), Transfer.State(Transfer.Source(Transfer.Incoming, body, None), None, 0, None))
  }

  function ReadOf(answer: Transfer.Answer): Read {
    match answer
    case Pending => Idle
    case Deliver(data) => Frame(data)
    case Done => SourceEnd
    case Terminated(terminal) => Terminates(terminal)
  }

  /** Whether the poll under way gets as far as the transfer. */
  predicate Reaches(f: Fed) {
    f.sys.half.polling.Some? && Consumes(f.sys.half.upload, f.sys.half.polling.value)
  }

  /** The upload's own step; a poll that never reaches the transfer reads nothing. */
  function LabelOf(f: Fed, move: Move): Label {
    match move
    case Ordinary(step) => step
    case Poll(carried) =>
      EndPoll(if Reaches(f) then ReadOf(Transfer.PollTransfer(f.transfer, carried).1) else Idle)
  }

  ghost predicate CanMove(f: Fed, move: Move) {
    && Enabled(f.sys, LabelOf(f, move))
    && (if move.Ordinary? then !move.step.EndPoll? else Transfer.OnlyCarried(move.carried))
  }

  ghost function After(f: Fed, move: Move): Fed
    requires CanMove(f, move)
  {
    Fed(Apply(f.sys, LabelOf(f, move)),
        if move.Poll? && Reaches(f) then Transfer.PollTransfer(f.transfer, move.carried).0 else f.transfer)
  }

  ghost predicate FedRun(f: Fed, moves: seq<Move>, g: Fed)
    decreases |moves|
  {
    if moves == [] then f == g
    else CanMove(f, moves[0]) && FedRun(After(f, moves[0]), moves[1..], g)
  }

  ghost function Labels(f: Fed, moves: seq<Move>): seq<Label>
    decreases |moves|
  {
    if moves == [] || !CanMove(f, moves[0]) then []
    else [LabelOf(f, moves[0])] + Labels(After(f, moves[0]), moves[1..])
  }

  /** Forgetting the transfer leaves a run of the upload. */
  lemma {:induction false} FedRunIsRun(f: Fed, moves: seq<Move>, g: Fed)
    requires FedRun(f, moves, g)
    ensures Run(f.sys, Labels(f, moves), g.sys)
    decreases |moves|
  {
    hide Apply, Enabled, LabelOf, Transfer.PollTransfer;
    if moves != [] {
      FedRunIsRun(After(f, moves[0]), moves[1..], g);
      var rest := Labels(After(f, moves[0]), moves[1..]);
      assert Labels(f, moves)[1..] == rest;
    }
  }

  /** What was read, and what the transfer still holds, make up the incoming body. */
  ghost predicate FeedInv(all: Transfer.Future, h: Half, t: Transfer.State) {
    && Transfer.Valid(t) && t.source.kind.Incoming?
    && (h.upload.finished ==>
          && t.ended.None? && all.payload == h.read + Transfer.Remaining(t).payload
          && all.ends == Transfer.Remaining(t).ends)
    && h.read <= all.payload
    && (h.sourceEnded ==> h.read == all.payload && all.ends)
  }

  lemma PollFeeds(all: Transfer.Future, h: Half, stopped: bool, t: Transfer.State, carried: set<Transfer.Terminal>)
    requires FeedInv(all, h, t) && Consumes(h.upload, stopped) && Transfer.OnlyCarried(carried)
    ensures
      var (u, answer) := Transfer.PollTransfer(t, carried);
      FeedInv(all, Polled(h, stopped, ReadOf(answer)), u)
  {
    hide Transfer.PollTransfer, Transfer.Rest;
    Transfer.TurnConserves(t, carried);
  }

  lemma OtherFeeds(all: Transfer.Future, s: Sys, l: Label, t: Transfer.State)
    requires FeedInv(all, s.half, t) && Enabled(s, l)
    requires l.EndPoll? ==> l.read.Idle? || !Consumes(s.half.upload, s.half.polling.value)
    ensures FeedInv(all, Apply(s, l).half, t)
  {
    hide Transfer.Rest;
  }

  lemma MoveFeeds(all: Transfer.Future, f: Fed, move: Move)
    requires FeedInv(all, f.sys.half, f.transfer) && CanMove(f, move)
    ensures FeedInv(all, After(f, move).sys.half, After(f, move).transfer)
  {
    hide FeedInv, Transfer.PollTransfer, Polled;
    if move.Poll? && Reaches(f) {
      PollFeeds(all, f.sys.half, f.sys.half.polling.value, f.transfer, move.carried);
    } else {
      OtherFeeds(all, f.sys, LabelOf(f, move), f.transfer);
    }
  }

  lemma {:induction false} RunFeeds(all: Transfer.Future, f: Fed, moves: seq<Move>, g: Fed)
    requires FeedInv(all, f.sys.half, f.transfer) && FedRun(f, moves, g)
    ensures FeedInv(all, g.sys.half, g.transfer)
    decreases |moves|
  {
    hide FeedInv, CanMove, After;
    if moves != [] {
      MoveFeeds(all, f, moves[0]);
      RunFeeds(all, After(f, moves[0]), moves[1..], g);
    }
  }

  /** The body a request was opened over; one at its end has nothing left to say. */
  ghost predicate Opens(atEnd: bool, body: seq<Transfer.Produced>) {
    atEnd ==> Transfer.Rest(Transfer.Incoming, body).payload == [] && Transfer.Rest(Transfer.Incoming, body).ends
  }

  lemma Reached(grant: Grant, atEnd: bool, body: seq<Transfer.Produced>, moves: seq<Move>, f: Fed)
    requires grant.limit <= USIZE_MAX && Opens(atEnd, body) && FedRun(Open(grant, atEnd, body), moves, f)
    ensures Reachable(grant, f.sys)
    ensures FeedInv(Transfer.Rest(Transfer.Incoming, body), f.sys.half, f.transfer)
  {
    hide FedRun;
    FedRunIsRun(Open(grant, atEnd, body), moves, f);
    assert Run(Init(grant, atEnd), Labels(Open(grant, atEnd, body), moves), f.sys);
    RunFeeds(Transfer.Rest(Transfer.Incoming, body), Open(grant, atEnd, body), moves, f);
  }

  /** In every run the upstream is given a prefix of the incoming body, inside the grant. */
  lemma ForwardsTheBody(grant: Grant, atEnd: bool, body: seq<Transfer.Produced>, moves: seq<Move>, f: Fed)
    requires grant.limit <= USIZE_MAX && Opens(atEnd, body) && FedRun(Open(grant, atEnd, body), moves, f)
    ensures Forwarded(f.sys.half.stream) <= Transfer.Rest(Transfer.Incoming, body).payload
    ensures |Forwarded(f.sys.half.stream)| <= grant.limit
  {
    hide FedRun, Reachable, Transfer.Rest, Forwarded;
    Reached(grant, atEnd, body, moves, f);
    ForwardedWithinGrant(grant, f.sys);
  }

  /** An answer that calls the upload drained follows every byte of a body that ended. */
  lemma DrainedForwardsAll(grant: Grant, atEnd: bool, body: seq<Transfer.Produced>, moves: seq<Move>, f: Fed)
    requires grant.limit <= USIZE_MAX && Opens(atEnd, body) && FedRun(Open(grant, atEnd, body), moves, f)
    requires f.sys.coordinator == Returned(Upstream(Drained))
    ensures Forwarded(f.sys.half.stream) == Transfer.Rest(Transfer.Incoming, body).payload
    ensures Transfer.Rest(Transfer.Incoming, body).ends
  {
    hide FedRun, Reachable, Transfer.Rest, Forwarded;
    Reached(grant, atEnd, body, moves, f);
    DrainedIsWhole(grant, f.sys);
  }

  /**
   A poll that ends a live upload's stream cleanly has forwarded all of the
   incoming body, which ended, unless it saw a stop or the transfer fixed a
   terminal without a refusal; and then the body had not been seen to end.
   */
  lemma CleanEndForwardsAll(grant: Grant, atEnd: bool, body: seq<Transfer.Produced>, moves: seq<Move>, f: Fed,
                            carried: set<Transfer.Terminal>)
    requires grant.limit <= USIZE_MAX && Opens(atEnd, body) && FedRun(Open(grant, atEnd, body), moves, f)
    requires CanMove(f, Poll(carried)) && f.sys.half.upload.finished && After(f, Poll(carried)).sys.half.ended
    ensures
      var all, t := Transfer.Rest(Transfer.Incoming, body), After(f, Poll(carried)).sys.half;
      var read := LabelOf(f, Poll(carried)).read;
      var silent := f.sys.half.polling.value || (read.Terminates? && !Transfer.Refusable(read.terminal));
      && (t.sourceEnded <==> !silent)
      && (!silent ==> Forwarded(t.stream) == all.payload && all.ends)
  {
    hide FedRun, Reachable, Transfer.Rest, Forwarded, Transfer.PollTransfer;
    Reached(grant, atEnd, body, moves, f);
    CleanEndIsWhole(grant, f.sys, LabelOf(f, Poll(carried)).read);
    MoveFeeds(Transfer.Rest(Transfer.Incoming, body), f, Poll(carried));
  }
}
