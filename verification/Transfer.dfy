/**
 The one owner of a streaming direction: it reads its source, counts payload
 before retaining it, weighs the carried deadlines, and fixes one terminal.

 A source is a script of what it will produce, read by its kind. Clocks and the
 operation's authority appear as the set of carried terminals a poll finds
 ready; the checkpoints a controller may hold a turn at are not modelled.
 */
module Transfer {
  import opened Base
  import opened BodyAdmission

  type Bytes = string
  type Fields = string

  datatype Terminal =
    | ShutdownDeadline | ForcedCancellation | RouteBodyLimit | TransferBytes | BodyIdle
    | TransferIdle | TransferTotal | RequestTotal | Disconnect | SourceFailure | ResponseHead

  /** What a turn can learn from its source, earliest cause first. */
  const OWN_READ := [RouteBodyLimit, TransferBytes, Disconnect, SourceFailure, ResponseHead]

  const CARRIED := [ShutdownDeadline, ForcedCancellation, BodyIdle, TransferIdle, TransferTotal, RequestTotal]

  function FirstOf(order: seq<Terminal>, ready: set<Terminal>): (r: Option<Terminal>)
    ensures r.None? <==> forall t <- order :: t !in ready
    ensures r.Some? ==> r.value in order && r.value in ready
  {
    if order == [] then None
    else if order[0] in ready then Some(order[0])
    else FirstOf(order[1..], ready)
  }

  function FirstReady(ready: set<Terminal>): Option<Terminal> {
    FirstOf(OWN_READ + CARRIED, ready)
  }

  /** A turn commits one of its ready facts, and any ready fact commits. */
  lemma FirstReadyIsReady(ready: set<Terminal>)
    ensures FirstReady(ready).None? <==> ready == {}
    ensures FirstReady(ready).Some? ==> FirstReady(ready).value in ready
  {
    forall t: Terminal ensures t in OWN_READ + CARRIED {
      match t
      case RouteBodyLimit => assert (OWN_READ + CARRIED)[0] == t;
      case TransferBytes => assert (OWN_READ + CARRIED)[1] == t;
      case Disconnect => assert (OWN_READ + CARRIED)[2] == t;
      case SourceFailure => assert (OWN_READ + CARRIED)[3] == t;
      case ResponseHead => assert (OWN_READ + CARRIED)[4] == t;
      case ShutdownDeadline => assert (OWN_READ + CARRIED)[5] == t;
      case ForcedCancellation => assert (OWN_READ + CARRIED)[6] == t;
      case BodyIdle => assert (OWN_READ + CARRIED)[7] == t;
      case TransferIdle => assert (OWN_READ + CARRIED)[8] == t;
      case TransferTotal => assert (OWN_READ + CARRIED)[9] == t;
      case RequestTotal => assert (OWN_READ + CARRIED)[10] == t;
    }
  }

  lemma {:induction false} FirstOfJoin(a: seq<Terminal>, b: seq<Terminal>, ready: set<Terminal>)
    ensures FirstOf(a + b, ready) == if FirstOf(a, ready).Some? then FirstOf(a, ready) else FirstOf(b, ready)
    decreases |a|
  {
    if a == [] {
      assert a + b == b;
    } else {
      assert (a + b)[1..] == a[1..] + b;
      FirstOfJoin(a[1..], b, ready);
    }
  }

  /**
   A fact of `OWN_READ` beats every carried one. Among themselves, a lost peer
   beats the failure it causes, and a normal end beats nothing.
   */
  lemma OwnReadDecides(ready: set<Terminal>)
    ensures (exists t <- ready :: t in OWN_READ) ==> FirstReady(ready).Some? && FirstReady(ready).value in OWN_READ
    ensures FirstReady(ready) == Some(ResponseHead) ==> forall t <- ready :: t in OWN_READ ==> t.ResponseHead?
    ensures FirstReady(ready) == Some(SourceFailure) ==> Disconnect !in ready
  {
    hide FirstReady;
    OwnReadIsRanked();
    FirstReadyIsReady(ready);
    if t :| t in ready && t in OWN_READ {
      var least := LeastOwn(ready, t);
      OwnLeastIsFirst(ready, least);
    }
  }

  lemma OwnReadIsRanked()
    ensures forall t: Terminal :: t in OWN_READ <==> OwnRank(t).Some?
  {
    RanksAreOrder();
  }

  /** Where a fact stands in the owner's own read; the facts it only carries are not ranked. */
  function OwnRank(terminal: Terminal): Option<nat> {
    match terminal
    case RouteBodyLimit => Some(0)
    case TransferBytes => Some(1)
    case Disconnect => Some(2)
    case SourceFailure => Some(3)
    case ResponseHead => Some(4)
    case _ => None
  }

  lemma {:induction false} FirstOfIsLeast(order: seq<Terminal>, ready: set<Terminal>, k: nat)
    requires k < |order| && order[k] in ready && forall j :: 0 <= j < k ==> order[j] !in ready
    ensures FirstOf(order, ready) == Some(order[k])
    decreases |order|
  {
    if k > 0 {
      FirstOfIsLeast(order[1..], ready, k - 1);
    }
  }

  lemma RanksAreOrder()
    ensures forall j: nat :: j < 5 ==> OwnRank(OWN_READ[j]) == Some(j)
    ensures forall t: Terminal | OwnRank(t).Some? :: OwnRank(t).value < 5 && OWN_READ[OwnRank(t).value] == t
  {
  }

  lemma OwnLeastIsFirst(ready: set<Terminal>, t: Terminal)
    requires t in ready && OwnRank(t).Some?
    requires forall u <- ready | OwnRank(u).Some? :: OwnRank(t).value <= OwnRank(u).value
    ensures FirstReady(ready) == Some(t)
  {
    RanksAreOrder();
    hide FirstOf;
    FirstOfJoin(OWN_READ, CARRIED, ready);
    FirstOfIsLeast(OWN_READ, ready, OwnRank(t).value);
  }

  lemma LeastOwn(ready: set<Terminal>, t: Terminal) returns (least: Terminal)
    requires t in ready && OwnRank(t).Some?
    ensures least in ready && OwnRank(least).Some? && OwnRank(least).value <= OwnRank(t).value
    ensures forall u <- ready | OwnRank(u).Some? :: OwnRank(least).value <= OwnRank(u).value
    decreases OwnRank(t).value
  {
    if u :| u in ready && OwnRank(u).Some? && OwnRank(u).value < OwnRank(t).value {
      least := LeastOwn(ready, u);
    } else {
      least := t;
    }
  }

  /**
   A turn commits the fact of its own read that comes first, by rank, and a fact it
   only carries exactly when its own read decided nothing.
   */
  lemma FirstReadyExactly(ready: set<Terminal>, t: Terminal)
    requires t in ready
    ensures OwnRank(t).Some? ==>
      (FirstReady(ready) == Some(t) <==>
        forall u <- ready | OwnRank(u).Some? :: OwnRank(t).value <= OwnRank(u).value)
    ensures OwnRank(t).None? && FirstReady(ready) == Some(t) ==> forall u <- ready :: OwnRank(u).None?
    ensures OwnRank(t).None? && (forall u <- ready :: u == t) ==> FirstReady(ready) == Some(t)
  {
    FirstReadyIsReady(ready);
    hide FirstReady;
    if u :| u in ready && OwnRank(u).Some? {
      var least := LeastOwn(ready, u);
      OwnLeastIsFirst(ready, least);
    }
  }

  /** The status of the refusal a terminal has while nothing is committed yet, if it has one. */
  function RefusalStatus(terminal: Terminal): Option<nat> {
    match terminal
    case TransferBytes => Some(413)
    case TransferIdle => Some(408)
    case TransferTotal => Some(408)
    case SourceFailure => Some(400)
    case _ => None
  }

  /** The terminals a pre-commit consumer is given a refusal for. */
  predicate Refusable(terminal: Terminal) {
    RefusalStatus(terminal).Some?
  }

  /** Stops, the peer's own end and a normal end are silent; crossing a bound of the transfer is the client's fault. */
  lemma SilentExactly(terminal: Terminal)
    ensures !Refusable(terminal) <==>
      || terminal.ShutdownDeadline? || terminal.ForcedCancellation? || terminal.RouteBodyLimit? || terminal.BodyIdle?
      || terminal.RequestTotal? || terminal.Disconnect? || terminal.ResponseHead?
    ensures Refusable(terminal) ==> 400 <= RefusalStatus(terminal).value < 500
  {
    match terminal case _ => { }
  }

  // ---------- sources ----------

  datatype Produced = Waiting | Payload(data: Bytes) | Trailers(fields: Fields) | Other | Failure(fields: Fields) | Finished

  datatype Kind = Tonic | Incoming

  datatype Source = Source(kind: Kind, script: seq<Produced>, trailers: Option<Fields>)

  datatype SourceStep = Quiet | Data(data: Bytes) | Empty | End | Failed

  function StepOf(data: Bytes): SourceStep {
    if data == [] then Empty else Data(data)
  }

  /** What one produced item is to this kind of source. */
  function Named(kind: Kind, item: Produced): SourceStep {
    match item
    case Waiting => Quiet
    case Payload(data) => StepOf(data)
    case Trailers(_) => if kind.Tonic? then End else Empty
    case Other => Empty
    case Failure(_) => if kind.Tonic? then End else Failed
    case Finished => End
  }

  /** Tonic's trailer set, or the status it ended on, is kept and not transferred. */
  function Captured(kind: Kind, item: Produced): Option<Fields> {
    if kind.Tonic? && (item.Trailers? || item.Failure?) then Some(item.fields) else None
  }

  /** A script that has run out is a source with nothing yet. */
  function PollStep(src: Source): (Source, SourceStep) {
    if src.script == [] then (src, Quiet)
    else
      var item := src.script[0];
      var captured := Captured(src.kind, item);
      (Source(src.kind, src.script[1..], if captured.Some? then captured else src.trailers), Named(src.kind, item))
  }

  /** What a script still holds: its payload, whether it ends, and with which fields. */
  datatype Future = Future(payload: Bytes, ends: bool, fields: Option<Fields>)

  function Rest(kind: Kind, script: seq<Produced>): Future {
    if script == [] then Future([], false, None)
    else
      match Named(kind, script[0])
      case End => Future([], true, Captured(kind, script[0]))
      case Data(data) => var rest := Rest(kind, script[1..]); rest.(payload := data + rest.payload)
      case _ => Rest(kind, script[1..])
  }

  // ---------- the transfer ----------

  datatype State = State(source: Source, maxBytes: Option<nat>, counted: nat, ended: Option<Terminal>)

  datatype Answer = Pending | Deliver(data: Bytes) | Done | Terminated(terminal: Terminal)

  function AnswerOf(terminal: Terminal): Answer {
    if terminal.ResponseHead? then Done else Terminated(terminal)
  }

  function Ceiling(maxBytes: Option<nat>): nat {
    if maxBytes.Some? then maxBytes.value else USIZE_MAX
  }

  /** Fix the first ready terminal and drop any frame, or deliver the frame. */
  function Select(t: State, ready: set<Terminal>, frame: Option<Bytes>): (State, Answer) {
    match FirstReady(ready)
    case Some(terminal) => (t.(ended := Some(terminal)), AnswerOf(terminal))
    case None => (t, if frame.Some? then Deliver(frame.value) else Pending)
  }

  /** One turn, restarted after every frame without payload. */
  function PollTransfer(t: State, carried: set<Terminal>): (State, Answer)
    decreases |t.source.script|
  {
    if t.ended.Some? then (t, AnswerOf(t.ended.value))
    else
      var (source, step) := PollStep(t.source);
      var read := t.(source := source);
      match step
      case Quiet => Select(read, carried, None)
      case Empty => PollTransfer(read, carried)
      case End => Select(read, carried + {ResponseHead}, None)
      case Failed => Select(read, carried + {SourceFailure}, None)
      case Data(data) =>
        match CheckedTotal(t.counted, |data|, Ceiling(t.maxBytes))
        case None => Select(read, carried + {TransferBytes}, None)
        case Some(total) => Select(read.(counted := total), carried, Some(data))
  }

  ghost predicate Valid(t: State) {
    t.counted <= Ceiling(t.maxBytes) <= USIZE_MAX
  }

  ghost function Remaining(t: State): Future {
    Rest(t.source.kind, t.source.script)
  }

  /** What can end a transfer early: a carried fact, too much payload, a failed source. */
  ghost predicate Cause(t: State, carried: set<Terminal>, terminal: Terminal) {
    || terminal in carried
    || (terminal.TransferBytes? && t.counted + |Remaining(t).payload| > Ceiling(t.maxBytes))
    || (terminal.SourceFailure? && t.source.kind.Incoming?)
  }

  /** What one turn may do, by its answer: payload is delivered or still to come. */
  ghost predicate TurnInv(t: State, carried: set<Terminal>, u: State, answer: Answer) {
    && Valid(u) && u.source.kind == t.source.kind && u.maxBytes == t.maxBytes
    && match answer
       case Pending =>
         && u.ended.None? && u.counted == t.counted
         && u.source.trailers == t.source.trailers && Remaining(u) == Remaining(t)
       case Deliver(data) =>
         && u.ended.None? && data != [] && u.counted == t.counted + |data|
         && u.source.trailers == t.source.trailers
         && Remaining(t) == Remaining(u).(payload := data + Remaining(u).payload)
       case Done =>
         && u.ended == Some(ResponseHead) && u.counted == t.counted
         && Remaining(t).payload == [] && Remaining(t).ends
         && u.source.trailers == if Remaining(t).fields.Some? then Remaining(t).fields else t.source.trailers
       case Terminated(terminal) => u.ended == Some(terminal) && !terminal.ResponseHead? && Cause(t, carried, terminal)
  }

  /** The facts a poll may find ready beside what it reads itself. */
  ghost predicate OnlyCarried(carried: set<Terminal>) {
    ResponseHead !in carried
  }

  lemma SelectDecides(t: State, ready: set<Terminal>, frame: Option<Bytes>)
    ensures ready == {} ==>
      Select(t, ready, frame) == (t, if frame.Some? then Deliver(frame.value) else Pending)
    ensures ready != {} ==>
      exists terminal <- ready :: Select(t, ready, frame) == (t.(ended := Some(terminal)), AnswerOf(terminal))
  {
    FirstReadyIsReady(ready);
  }

  lemma {:induction false} TurnConserves(t: State, carried: set<Terminal>)
    requires Valid(t) && t.ended.None? && OnlyCarried(carried)
    ensures TurnInv(t, carried, PollTransfer(t, carried).0, PollTransfer(t, carried).1)
    decreases |t.source.script|
  {
    hide Select, FirstReady;
    var (source, step) := PollStep(t.source);
    var read := t.(source := source);
    match step
    case Empty => TurnConserves(read, carried);
    case Quiet => SelectDecides(read, carried, None);
    case End => SelectDecides(read, carried + {ResponseHead}, None);
    case Failed => SelectDecides(read, carried + {SourceFailure}, None);
    case Data(data) =>
      CheckedTotalIsExact(t.counted, |data|, Ceiling(t.maxBytes));
      SelectDecides(read, carried + {TransferBytes}, None);
      SelectDecides(read.(counted := t.counted + |data|), carried, Some(data));
  }

  /** The next thing a script has to say, past everything without payload. */
  function Upcoming(kind: Kind, script: seq<Produced>): SourceStep {
    if script == [] then Quiet
    else if Named(kind, script[0]).Empty? then Upcoming(kind, script[1..])
    else Named(kind, script[0])
  }

  /** What a turn learns from its own read: an end, a failure, or a frame past the maximum. */
  function OwnFact(t: State): set<Terminal> {
    match Upcoming(t.source.kind, t.source.script)
    case End => {ResponseHead}
    case Failed => {SourceFailure}
    case Data(data) => if t.counted + |data| > Ceiling(t.maxBytes) then {TransferBytes} else {}
    case _ => {}
  }

  /**
   What a turn answers: the first of what it read and what it carries, and only
   when there is neither, the next frame or nothing yet.
   */
  lemma {:induction false} TurnDecides(t: State, carried: set<Terminal>)
    requires Valid(t) && t.ended.None?
    ensures
      var ready := carried + OwnFact(t);
      var (u, answer) := PollTransfer(t, carried);
      var next := Upcoming(t.source.kind, t.source.script);
      && u.ended == FirstReady(ready)
      && answer == (
           if FirstReady(ready).Some? then AnswerOf(FirstReady(ready).value)
           else if next.Data? then Deliver(next.data)
           else Pending)
      && |u.source.script| <= |t.source.script| && (t.source.script != [] ==> |u.source.script| < |t.source.script|)
    decreases |t.source.script|
  {
    hide FirstReady;
    FirstReadyIsReady(carried + OwnFact(t));
    var (source, step) := PollStep(t.source);
    var read := t.(source := source);
    match step
    case Empty => TurnDecides(read, carried);
    case Data(data) =>
      CheckedTotalIsExact(t.counted, |data|, Ceiling(t.maxBytes));
      assert carried + {} == carried;
    case _ => assert carried + {} == carried;
  }

  /** An item that is neither payload nor an end nor a wait. */
  predicate Blank(kind: Kind, item: Produced) {
    item.Other? || (item.Payload? && item.data == []) || (item.Trailers? && kind.Incoming?)
  }

  function PastBlank(kind: Kind, script: seq<Produced>): seq<Produced> {
    if script != [] && Blank(kind, script[0]) then PastBlank(kind, script[1..]) else script
  }

  /** Nothing yet is answered only when the source itself waits: no blank item holds a turn up. */
  lemma {:induction false} PendingMeansWaiting(t: State)
    requires Valid(t) && t.ended.None?
    ensures
      var ahead := PastBlank(t.source.kind, t.source.script);
      PollTransfer(t, {}).1.Pending? <==> ahead == [] || ahead[0].Waiting?
    decreases |t.source.script|
  {
    hide FirstReady;
    FirstReadyIsReady({});
    OneFact(ResponseHead);
    OneFact(SourceFailure);
    OneFact(TransferBytes);
    var (source, step) := PollStep(t.source);
    if step.Empty? {
      PendingMeansWaiting(t.(source := source));
    }
  }

  // ---------- whole runs ----------

  /** How a source left to itself comes out, with `room` bytes to spare. */
  function Outcome(kind: Kind, script: seq<Produced>, room: nat): Answer {
    if script == [] then Pending
    else
      match Named(kind, script[0])
      case End => Done
      case Failed => Terminated(SourceFailure)
      case Data(data) => if |data| > room then Terminated(TransferBytes) else Outcome(kind, script[1..], room - |data|)
      case _ => Outcome(kind, script[1..], room)
  }

  ghost function Due(t: State): Answer {
    if t.ended.Some? then AnswerOf(t.ended.value)
    else if t.counted <= Ceiling(t.maxBytes) then Outcome(t.source.kind, t.source.script, Ceiling(t.maxBytes) - t.counted)
    else Pending
  }

  /** A turn that carries nothing leaves what is due to the transfer unchanged. */
  lemma {:induction false} QuietTurn(t: State)
    requires Valid(t) && t.ended.None?
    ensures
      var (u, answer) := PollTransfer(t, {});
      && Valid(u) && Due(u) == Due(t) && (Final(answer) ==> answer == Due(t))
      && (u.ended.None? ==> !Final(answer))
    decreases |t.source.script|
  {
    hide FirstReady;
    var none: set<Terminal> := {};
    FirstReadyIsReady(none);
    OneFact(ResponseHead);
    OneFact(SourceFailure);
    OneFact(TransferBytes);
    var (source, step) := PollStep(t.source);
    var read := t.(source := source);
    match step
    case Empty => QuietTurn(read);
    case Data(data) => CheckedTotalIsExact(t.counted, |data|, Ceiling(t.maxBytes));
    case _ =>
  }

  lemma OneFact(fact: Terminal)
    ensures FirstReady({} + {fact}) == Some(fact)
  {
    var none: set<Terminal> := {};
    assert none + {fact} == {fact};
    FirstReadyIsReady({fact});
  }

  /**
   A transfer that carries nothing comes out as its source does: enough polls
   answer the end, the failure or the excess that comes first in the script, and
   keep answering it.
   */
  lemma {:induction false} QuietRunFinishes(t: State, polls: seq<set<Terminal>>)
    requires Valid(t) && |polls| > |t.source.script| && forall carried <- polls :: carried == {}
    ensures Answers(t, polls)[|polls| - 1] == Due(t) || (Due(t).Pending? && !Final(Answers(t, polls)[|polls| - 1]))
    decreases |polls|
  {
    hide PollTransfer, Outcome, Due;
    assert polls[0] in polls && polls[0] == {};
    assert forall carried <- polls[1..] :: carried in polls;
    if t.ended.Some? {
      EndedStaysEnded(t, polls);
      assert Due(t) == AnswerOf(t.ended.value) by { EndedIsDue(t); }
    } else {
      QuietTurn(t);
      TurnDecides(t, {});
      var u := PollTransfer(t, {}).0;
      if |polls| > 1 {
        QuietRunFinishes(u, polls[1..]);
      } else {
        assert Due(t).Pending? by { NothingIsDue(t); }
      }
    }
  }

  lemma EndedIsDue(t: State)
    requires t.ended.Some?
    ensures Due(t) == AnswerOf(t.ended.value)
  {
  }

  lemma NothingIsDue(t: State)
    requires t.ended.None? && t.source.script == []
    ensures Due(t).Pending?
  {
  }

  /** What a run of polls answers, one answer to a poll. */
  function Answers(t: State, polls: seq<set<Terminal>>): (r: seq<Answer>)
    ensures |r| == |polls|
    decreases |polls|
  {
    if polls == [] then []
    else [PollTransfer(t, polls[0]).1] + Answers(PollTransfer(t, polls[0]).0, polls[1..])
  }

  function Delivered(answers: seq<Answer>): Bytes {
    if answers == [] then []
    else (if answers[0].Deliver? then answers[0].data else []) + Delivered(answers[1..])
  }

  ghost predicate Final(answer: Answer) {
    answer.Done? || answer.Terminated?
  }

  lemma {:induction false} EndedStaysEnded(t: State, polls: seq<set<Terminal>>)
    requires t.ended.Some?
    ensures forall k :: 0 <= k < |polls| ==> Answers(t, polls)[k] == AnswerOf(t.ended.value)
    ensures Delivered(Answers(t, polls)) == []
    decreases |polls|
  {
    if polls != [] {
      EndedStaysEnded(t, polls[1..]);
    }
  }

  /** The first final answer is repeated for ever. */
  lemma {:induction false} OneTerminal(t: State, polls: seq<set<Terminal>>, i: nat, j: nat)
    requires Valid(t) && (forall carried <- polls :: OnlyCarried(carried))
    requires i < j < |polls| && Final(Answers(t, polls)[i])
    ensures Answers(t, polls)[j] == Answers(t, polls)[i]
    decreases |polls|
  {
    if t.ended.Some? {
      EndedStaysEnded(t, polls);
    } else {
      TurnConserves(t, polls[0]);
      var (u, answer) := PollTransfer(t, polls[0]);
      if i > 0 {
        OneTerminal(u, polls[1..], i - 1, j - 1);
      } else {
        EndedStaysEnded(u, polls[1..]);
      }
    }
  }

  /**
   Over any run of polls the frames delivered, joined, are a prefix of what the
   source produces and fit the maximum; once the run answers its normal end they
   are all of it, and the source has ended by itself.
   */
  lemma {:induction false} RunDelivers(t: State, polls: seq<set<Terminal>>)
    requires Valid(t) && t.ended.None? && forall carried <- polls :: OnlyCarried(carried)
    ensures
      var delivered := Delivered(Answers(t, polls));
      && delivered <= Remaining(t).payload
      && t.counted + |delivered| <= Ceiling(t.maxBytes)
      && (Done in Answers(t, polls) ==> delivered == Remaining(t).payload && Remaining(t).ends)
    decreases |polls|
  {
    hide PollTransfer, Rest;
    if polls != [] {
      TurnConserves(t, polls[0]);
      var (u, answer) := PollTransfer(t, polls[0]);
      var rest := Answers(u, polls[1..]);
      assert Answers(t, polls) == [answer] + rest;
      if u.ended.None? {
        RunDelivers(u, polls[1..]);
      } else {
        EndedStaysEnded(u, polls[1..]);
        if Done in rest {
          var k :| 0 <= k < |rest| && rest[k] == Done;
        }
      }
    }
  }

  /** The transfer owner, whose turn restarts in place. */
  class StreamTransfer {
    const maxBytes: Option<nat>
    var source: Source
    var counted: nat
    var ended: Option<Terminal>

    ghost function Value(): State
      reads this
    {
      State(source, maxBytes, counted, ended)
    }

    constructor (kind: Kind, script: seq<Produced>, maxBytes: Option<nat>)
      ensures Value() == State(Source(kind, script, None), maxBytes, 0, None)
    {
      source := Source(kind, script, None);
      this.maxBytes, counted, ended := maxBytes, 0, None;
    }

    method Settle(ready: set<Terminal>, frame: Option<Bytes>) returns (answer: Answer)
      modifies this`ended
      ensures (Value(), answer) == Select(old(Value()), ready, frame)
    {
      match FirstReady(ready) {
        case Some(terminal) =>
          ended := Some(terminal);
          answer := AnswerOf(terminal);
        case None =>
          answer := if frame.Some? then Deliver(frame.value) else Pending;
      }
    }

    method Poll(carried: set<Terminal>) returns (answer: Answer)
      modifies this
      ensures (Value(), answer) == PollTransfer(old(Value()), carried)
    {
      hide Select;
      while ended.None?
        invariant PollTransfer(Value(), carried) == PollTransfer(old(Value()), carried)
        decreases |source.script|
      {
        var (next, step) := PollStep(source);
        match step {
          case Empty =>
            source := next;
          case Quiet =>
            source := next;
            answer := Settle(carried, None);
            return;
          case End =>
            source := next;
            answer := Settle(carried + {ResponseHead}, None);
            return;
          case Failed =>
            source := next;
            answer := Settle(carried + {SourceFailure}, None);
            return;
          case Data(data) =>
            source := next;
            match CheckedTotal(counted, |data|, Ceiling(maxBytes)) {
              case None =>
                answer := Settle(carried + {TransferBytes}, None);
              case Some(total) =>
                counted := total;
                answer := Settle(carried, Some(data));
            }
            return;
        }
      }
      answer := AnswerOf(ended.value);
    }
  }
}
