/** Many requests share one connection. A map of active requests is changed by requesters, by the
    background reader, by poisoning and by cancellation clean-up; each critical section is one step. */
module Messenger {
  import opened Bytes

  datatype RequestError = ReadFramed(code: int) | WriteFailed(code: int) | EncodeFailed(code: int)
                        | HeaderRead(code: int) | Poisoned(cause: RequestError)

  /** A message from the broker whose header could be read. */
  datatype Frame = Frame(correlationId: int32, data: seq<byte>)

  /** What a oneshot sender transmits; a response is named by the position of its frame on the stream. */
  datatype Outcome = Response(frame: nat) | Failure(error: RequestError)

  /** A oneshot channel: its sender is still owned by somebody, was used, or was dropped unused. */
  datatype Channel = Open | Used(outcome: Outcome) | Closed

  datatype Phase =
    | Prepared            // has its correlation ID, not registered yet
    | Sending             // registered, clean-up guard armed, message not known to be sent
    | Waiting             // message sent, awaiting the channel
    | Finished(outcome: Outcome)
    | Cancelled(sent: bool)

  datatype Request = Request(phase: Phase, channel: Channel, tagged: bool)

  /** The mutex-protected state: correlation ID to request number, or the error that ended it all. */
  datatype Shared = RequestMap(active: map<int32, nat>) | Poison(error: RequestError)

  /** The reader task; between removing a request and answering it, it owns that request's sender. */
  datatype ReaderTask = Listening | Holding(id: nat, frame: nat) | Stopped

  /** `frames` is everything received; `alive` until the messenger value is dropped. */
  datatype State = State(requests: seq<Request>, shared: Shared, reader: ReaderTask, frames: seq<Frame>, alive: bool)

  const Init := State([], RequestMap(map[]), Listening, [], true)

  /** `fetch_add` on an i32 that starts at zero and wraps. */
  function CorrelationId(id: nat): int32 {
    var w := id % 0x1_0000_0000;
    if w <= I32_MAX then w else w - 0x1_0000_0000
  }

  // ---------------------------------------------------------------- critical sections

  /** Every active request is told, and the first error stays. */
  function PoisonShared(shared: Shared, err: RequestError): (r: (Shared, RequestError)) {
    match shared
    case RequestMap(_) => (Poison(err), err)
    case Poison(e) => (shared, e)
  }

  function Notified(shared: Shared): set<nat> {
    if shared.RequestMap? then shared.active.Values else {}
  }

  /** Using the sender of every request in `ids`. */
  function SendAll(requests: seq<Request>, ids: set<nat>, outcome: Outcome): (r: seq<Request>)
    ensures |r| == |requests|
    ensures forall i | 0 <= i < |r| :: r[i] == if i in ids then requests[i].(channel := Used(outcome)) else requests[i]
  {
    seq(|requests|, i requires 0 <= i < |requests| =>
      if i in ids then requests[i].(channel := Used(outcome)) else requests[i])
  }

  function PoisonState(s: State, err: RequestError): State {
    s.(requests := SendAll(s.requests, Notified(s.shared), Failure(Poisoned(err))),
       shared := PoisonShared(s.shared, err).0)
  }

  function SetPhase(s: State, id: nat, phase: Phase): State
    requires id < |s.requests|
  {
    s.(requests := s.requests[id := s.requests[id].(phase := phase)])
  }

  function SetChannel(s: State, id: nat, channel: Channel): State
    requires id < |s.requests|
  {
    s.(requests := s.requests[id := s.requests[id].(channel := channel)])
  }

  /** Dropping the map entry of `c` drops the sender it owns. */
  function DropEntry(s: State, c: int32): State {
    if s.shared.Poison? || c !in s.shared.active || s.shared.active[c] >= |s.requests| then s else
    SetChannel(s, s.shared.active[c], Closed).(shared := RequestMap(s.shared.active - {c}))
  }

  /** Inserting under a key that is taken drops the sender of the entry it replaces. */
  function RegisterState(s: State, id: nat): State
    requires id < |s.requests|
  {
    match s.shared
    case Poison(e) => SetPhase(SetChannel(s, id, Closed), id, Finished(Failure(Poisoned(e))))
    case RequestMap(_) =>
      var c := CorrelationId(id);
      var s1 := SetPhase(DropEntry(s, c), id, Sending);
      if s1.shared.RequestMap? then s1.(shared := RequestMap(s1.shared.active[c := id])) else s1
  }

  /** The reader looks up a frame that has arrived; from here on it owns the sender it found. */
  function ReceiveState(s: State, frame: Frame): State {
    var c, t := frame.correlationId, s.(frames := s.frames + [frame]);
    match s.shared
    case Poison(_) => t.(reader := Stopped)
    case RequestMap(active) =>
      if c in active then t.(shared := RequestMap(active - {c}), reader := Holding(active[c], |s.frames|)) else t
  }

  // ---------------------------------------------------------------- steps

  datatype Step =
    | Prepare(tagged: bool)
    | EncodeFails(id: nat, code: int)
    | Register(id: nat)
    | SendOk(id: nat)
    | SendFails(id: nat, code: int)
    | Cancel(id: nat)
    | Receive(frame: Frame)
    | Deliver(headerError: Option<int>)
    | ReadFails(code: int)
    | Await(id: nat)
    | DropMessenger

  predicate InPhase(s: State, id: nat, phase: Phase) {
    id < |s.requests| && s.requests[id].phase == phase
  }

  /** A requester that still runs borrows the messenger. */
  predicate Live(r: Request) {
    r.phase.Prepared? || r.phase.Sending? || r.phase.Waiting?
  }

  predicate Enabled(s: State, step: Step) {
    match step
    case Prepare(_) => s.alive
    case EncodeFails(id, _) => InPhase(s, id, Prepared)
    case Register(id) => InPhase(s, id, Prepared)
    case SendOk(id) => InPhase(s, id, Sending)
    case SendFails(id, _) => InPhase(s, id, Sending)
    case Cancel(id) => InPhase(s, id, Sending) || InPhase(s, id, Waiting)
    case Receive(_) => s.reader.Listening?
    case Deliver(err) =>
      && s.reader.Holding? && s.reader.id < |s.requests|
      && (err.Some? ==> s.requests[s.reader.id].tagged)
    case ReadFails(_) => s.reader.Listening?
    case Await(id) => InPhase(s, id, Waiting) && s.requests[id].channel.Used?
    case DropMessenger => !s.reader.Holding? && forall i | 0 <= i < |s.requests| :: !Live(s.requests[i])
  }

  function DropAll(s: State): State {
    s.(requests := seq(|s.requests|, i requires 0 <= i < |s.requests| =>
         if i in Notified(s.shared) then s.requests[i].(channel := Closed) else s.requests[i]),
       shared := if s.shared.RequestMap? then RequestMap(map[]) else s.shared,
       reader := Stopped, alive := false)
  }

  /** One step of any task; a step that is not enabled changes nothing. */
  function Apply(s: State, step: Step): State {
    if !Enabled(s, step) then s else
    match step
    case Prepare(tagged) => s.(requests := s.requests + [Request(Prepared, Open, tagged)])
    case EncodeFails(id, code) => SetPhase(SetChannel(s, id, Closed), id, Finished(Failure(EncodeFailed(code))))
    case Register(id) => RegisterState(s, id)
    case SendOk(id) => SetPhase(s, id, Waiting)
    case SendFails(id, code) =>
      var e := PoisonShared(s.shared, WriteFailed(code)).1;
      SetPhase(PoisonState(s, WriteFailed(code)), id, Finished(Failure(Poisoned(e))))
    case Cancel(id) =>
      var s1 := if s.requests[id].phase.Sending? then DropEntry(s, CorrelationId(id)) else s;
      SetPhase(s1, id, Cancelled(s.requests[id].phase.Waiting?))
    case Receive(frame) => ReceiveState(s, frame)
    case Deliver(err) =>
      var outcome := if err.Some? then Failure(HeaderRead(err.value)) else Response(s.reader.frame);
      SetChannel(s, s.reader.id, Used(outcome)).(reader := Listening)
    case ReadFails(code) => PoisonState(s, ReadFramed(code)).(reader := Stopped)
    case Await(id) => SetPhase(s, id, Finished(s.requests[id].channel.outcome))
    case DropMessenger => DropAll(s)
  }

  function Exec(steps: seq<Step>): State {
    if steps == [] then Init else Apply(Exec(steps[..|steps| - 1]), steps[|steps| - 1])
  }

  // ---------------------------------------------------------------- invariant

  /** Who owns the unused sender of request `id`. */
  predicate Mapped(s: State, id: nat) {
    s.shared.RequestMap? && CorrelationId(id) in s.shared.active && s.shared.active[CorrelationId(id)] == id
  }

  predicate Held(s: State, id: nat) {
    s.reader.Holding? && s.reader.id == id
  }

  predicate EntriesMatch(s: State) {
    && (s.shared.RequestMap? ==> forall c | c in s.shared.active ::
          s.shared.active[c] < |s.requests| && CorrelationId(s.shared.active[c]) == c)
    && (s.reader.Holding? ==>
          s.reader.id < |s.requests| && !Mapped(s, s.reader.id) && Answers(s, s.reader.frame, s.reader.id))
  }

  /** The frame carries the identifier of the request. */
  predicate Answers(s: State, frame: nat, id: nat) {
    frame < |s.frames| && s.frames[frame].correlationId == CorrelationId(id)
  }

  /** No frame answers two requests. */
  predicate FramesDistinct(s: State) {
    && (forall i, j | 0 <= i < j < |s.requests| && Replied(s, i) && Replied(s, j) ::
          s.requests[i].channel.outcome.frame != s.requests[j].channel.outcome.frame)
    && (s.reader.Holding? ==> forall i | 0 <= i < |s.requests| && Replied(s, i) ::
          s.requests[i].channel.outcome.frame != s.reader.frame)
  }

  predicate Replied(s: State, id: nat)
    requires id < |s.requests|
  {
    s.requests[id].channel.Used? && s.requests[id].channel.outcome.Response?
  }

  /** The map holds no entry of a request that was given up before it was sent. */
  predicate NoStaleEntries(s: State) {
    forall i | 0 <= i < |s.requests| && Mapped(s, i) ::
      AwaitsResponse(s.requests[i].phase) || s.requests[i].phase == Cancelled(true)
  }

  /** An unused sender has exactly one owner: its requester before registration, the map, or the reader. */
  predicate SendersOwned(s: State) {
    forall i | 0 <= i < |s.requests| ::
      s.requests[i].channel.Open? <==> s.requests[i].phase.Prepared? || Mapped(s, i) || Held(s, i)
  }

  predicate OwnersExclusive(s: State) {
    forall i | 0 <= i < |s.requests| && s.requests[i].phase.Prepared? :: !Mapped(s, i) && !Held(s, i)
  }

  /** An outcome meant for request `id`: its own response, an error in the header fields that only a tagged request
      has, or the poison error. */
  predicate Addressed(s: State, id: nat, o: Outcome) {
    match o
    case Response(frame) => Answers(s, frame, id)
    case Failure(HeaderRead(_)) => id < |s.requests| && s.requests[id].tagged
    case Failure(Poisoned(e)) => s.shared == Poison(e)
    case _ => false
  }

  /** What was sent is addressed to its request, and a request finishes with what was sent or fails at home. */
  predicate OutcomesGood(s: State) {
    forall i | 0 <= i < |s.requests| ::
      var r := s.requests[i];
      && (r.channel.Used? ==> Addressed(s, i, r.channel.outcome))
      && (r.phase.Finished? ==>
            || r.channel == Used(r.phase.outcome)
            || (r.channel.Closed? && r.phase.outcome.Failure? && r.phase.outcome.error.EncodeFailed?)
            || (r.phase.outcome.Failure? && r.phase.outcome.error.Poisoned? && Addressed(s, i, r.phase.outcome)))
  }

  /** The reader only stops when the connection is poisoned or dropped. */
  predicate ReaderRuns(s: State) {
    && (s.reader.Stopped? ==> s.shared.Poison? || !s.alive)
    && (!s.alive ==> forall i | 0 <= i < |s.requests| :: !Live(s.requests[i]))
  }

  predicate Inv(s: State) {
    && EntriesMatch(s) && SendersOwned(s) && OwnersExclusive(s) && OutcomesGood(s) && ReaderRuns(s)
    && FramesDistinct(s) && NoStaleEntries(s)
  }

  lemma PrepareKeeps(s: State, step: Step)
    requires Inv(s) && Enabled(s, step) && step.Prepare?
    ensures Inv(Apply(s, step))
  {
    hide CorrelationId;
  }

  lemma EncodeFailsKeeps(s: State, step: Step)
    requires Inv(s) && Enabled(s, step) && step.EncodeFails?
    ensures Inv(Apply(s, step))
  {
    hide CorrelationId;
  }

  lemma RegisterPoisonedKeeps(s: State, id: nat)
    requires Inv(s) && InPhase(s, id, Prepared) && s.shared.Poison?
    ensures Inv(RegisterState(s, id))
  {
    hide CorrelationId;
  }

  lemma DropEntryKeeps(s: State, c: int32)
    requires Inv(s)
    ensures Inv(DropEntry(s, c))
  {
    hide CorrelationId;
    assert s.shared.RequestMap? && c in s.shared.active ==> Mapped(s, s.shared.active[c]);
  }

  lemma RegisterActiveKeeps(s: State, id: nat)
    requires Inv(s) && InPhase(s, id, Prepared) && s.shared.RequestMap?
    ensures Inv(RegisterState(s, id))
  {
    var c := CorrelationId(id);
    hide CorrelationId, Inv;
    DropEntryKeeps(s, c);
    PreparedIsUnmapped(s, id);
    RegisterFreeKeeps(DropEntry(s, c), id);
  }

  lemma PreparedIsUnmapped(s: State, id: nat)
    requires Inv(s) && InPhase(s, id, Prepared)
    ensures !Mapped(s, id)
    ensures s.shared.RequestMap? && CorrelationId(id) in s.shared.active ==>
              s.shared.active[CorrelationId(id)] < |s.requests| && s.shared.active[CorrelationId(id)] != id
  {
    hide CorrelationId;
  }

  lemma RegisterFreeKeeps(s: State, id: nat)
    requires Inv(s) && InPhase(s, id, Prepared) && s.shared.RequestMap? && CorrelationId(id) !in s.shared.active
    ensures Inv(SetPhase(s, id, Sending).(shared := RequestMap(s.shared.active[CorrelationId(id) := id])))
  {
    hide CorrelationId;
  }

  lemma SendOkKeeps(s: State, step: Step)
    requires Inv(s) && Enabled(s, step) && step.SendOk?
    ensures Inv(Apply(s, step))
  {
    hide CorrelationId;
  }

  lemma PoisonKeeps(s: State, err: RequestError)
    requires Inv(s)
    ensures Inv(PoisonState(s, err))
  {
    hide CorrelationId, FramesDistinct, NoStaleEntries;
    PoisonKeepsFrames(s, err);
  }

  lemma PoisonKeepsFrames(s: State, err: RequestError)
    requires FramesDistinct(s) && NoStaleEntries(s)
    ensures FramesDistinct(PoisonState(s, err)) && NoStaleEntries(PoisonState(s, err))
  {
    hide CorrelationId;
  }

  lemma SendFailsKeeps(s: State, step: Step)
    requires Inv(s) && Enabled(s, step) && step.SendFails?
    ensures Inv(Apply(s, step))
  {
    hide CorrelationId, PoisonState, FramesDistinct, NoStaleEntries;
    var t := PoisonState(s, WriteFailed(step.code));
    PoisonKeeps(s, WriteFailed(step.code));
    assert t.shared == Poison(PoisonShared(s.shared, WriteFailed(step.code)).1) && InPhase(t, step.id, Sending) by {
      PoisonedIs(s, WriteFailed(step.code), step.id);
    }
    FinishPoisonedKeeps(t, step.id);
  }

  lemma PoisonedIs(s: State, err: RequestError, id: nat)
    requires InPhase(s, id, Sending)
    ensures var t := PoisonState(s, err);
      t.shared == Poison(PoisonShared(s.shared, err).1) && InPhase(t, id, Sending)
  {
  }

  lemma FinishPoisonedKeeps(s: State, id: nat)
    requires Inv(s) && s.shared.Poison? && InPhase(s, id, Sending)
    ensures Inv(SetPhase(s, id, Finished(Failure(Poisoned(s.shared.error)))))
  {
    hide CorrelationId;
  }

  lemma CancelSendingKeeps(s: State, id: nat)
    requires Inv(s) && InPhase(s, id, Sending)
    ensures Inv(Apply(s, Cancel(id)))
  {
    var c := CorrelationId(id);
    hide CorrelationId, Inv;
    DropEntryKeeps(s, c);
    EntriesWithin(s, c);
    GiveUpKeeps(DropEntry(s, c), id);
  }

  lemma EntriesWithin(s: State, c: int32)
    requires Inv(s)
    ensures s.shared.RequestMap? && c in s.shared.active ==> s.shared.active[c] < |s.requests|
  {
    hide CorrelationId;
  }

  lemma GiveUpKeeps(s: State, id: nat)
    requires Inv(s) && InPhase(s, id, Sending) && (s.shared.RequestMap? ==> CorrelationId(id) !in s.shared.active)
    ensures Inv(SetPhase(s, id, Cancelled(false)))
  {
    hide CorrelationId;
  }

  lemma CancelWaitingKeeps(s: State, id: nat)
    requires Inv(s) && InPhase(s, id, Waiting)
    ensures Inv(Apply(s, Cancel(id)))
  {
    hide CorrelationId;
  }

  lemma ReceiveKeeps(s: State, step: Step)
    requires Inv(s) && Enabled(s, step) && step.Receive?
    ensures Inv(Apply(s, step))
  {
    hide CorrelationId;
  }

  lemma DeliverKeeps(s: State, step: Step)
    requires Inv(s) && Enabled(s, step) && step.Deliver?
    ensures Inv(Apply(s, step))
  {
    hide CorrelationId;
  }

  lemma AwaitKeeps(s: State, step: Step)
    requires Inv(s) && Enabled(s, step) && step.Await?
    ensures Inv(Apply(s, step))
  {
    hide CorrelationId;
  }

  lemma DropKeeps(s: State, step: Step)
    requires Inv(s) && Enabled(s, step) && step.DropMessenger?
    ensures Inv(Apply(s, step))
  {
    hide CorrelationId;
  }

  lemma StepKeeps(s: State, step: Step)
    requires Inv(s)
    ensures Inv(Apply(s, step))
  {
    if Enabled(s, step) {
      match step
      case Prepare(_) => PrepareKeeps(s, step);
      case EncodeFails(_, _) => EncodeFailsKeeps(s, step);
      case Register(id) =>
        if s.shared.Poison? {
          RegisterPoisonedKeeps(s, id);
        } else {
          RegisterActiveKeeps(s, id);
        }
      case SendOk(_) => SendOkKeeps(s, step);
      case SendFails(_, _) => SendFailsKeeps(s, step);
      case Cancel(id) =>
        if s.requests[id].phase.Waiting? {
          CancelWaitingKeeps(s, id);
        } else {
          CancelSendingKeeps(s, id);
        }
      case Receive(_) => ReceiveKeeps(s, step);
      case Deliver(_) => DeliverKeeps(s, step);
      case ReadFails(code) => ReadFailsKeeps(s, step);
      case Await(_) => AwaitKeeps(s, step);
      case DropMessenger => DropKeeps(s, step);
    }
  }

  lemma ReadFailsKeeps(s: State, step: Step)
    requires Inv(s) && Enabled(s, step) && step.ReadFails?
    ensures Inv(Apply(s, step))
  {
    hide CorrelationId;
    PoisonKeeps(s, ReadFramed(step.code));
  }

  lemma {:induction false} RunKeeps(steps: seq<Step>)
    ensures Inv(Exec(steps))
  {
    if steps != [] {
      RunKeeps(steps[..|steps| - 1]);
      StepKeeps(Exec(steps[..|steps| - 1]), steps[|steps| - 1]);
    }
  }

  // ---------------------------------------------------------------- results over runs

  /** What never changes again: used and dropped senders, ended requests, and the poison error. */
  predicate Later(s: State, t: State) {
    && |s.requests| <= |t.requests|
    && (s.shared.Poison? ==> t.shared == s.shared)
    && forall i | 0 <= i < |s.requests| ::
         && (!s.requests[i].channel.Open? ==> t.requests[i].channel == s.requests[i].channel)
         && (!Live(s.requests[i]) ==> t.requests[i].phase == s.requests[i].phase)
  }

  lemma StepIsLater(s: State, step: Step)
    requires Inv(s)
    ensures Later(s, Apply(s, step))
  {
    hide CorrelationId;
  }

  /** A sender is used or dropped at most once, an outcome is final, and poison is absorbing. */
  lemma {:induction false} RunIsLater(steps: seq<Step>, more: seq<Step>)
    ensures Later(Exec(steps), Exec(steps + more))
  {
    hide Apply, Inv;
    if more == [] {
      assert steps + more == steps;
    } else {
      var n := |more| - 1;
      assert (steps + more)[..|steps| + n] == steps + more[..n];
      RunIsLater(steps, more[..n]);
      RunKeeps(steps + more[..n]);
      StepIsLater(Exec(steps + more[..n]), more[n]);
    }
  }

  /** The only owner of an unused sender, whenever it is neither used nor dropped. */
  lemma OneOwner(steps: seq<Step>, id: nat)
    requires id < |Exec(steps).requests|
    ensures var s := Exec(steps);
      var owners := (if s.requests[id].phase.Prepared? then 1 else 0)
                    + (if Mapped(s, id) then 1 else 0) + (if Held(s, id) then 1 else 0);
      owners == if s.requests[id].channel.Open? then 1 else 0
  {
    hide CorrelationId;
    RunKeeps(steps);
  }

  /** A request that waits has been answered with its own answer, is being answered, sits in the map of a
      connection whose reader runs, or is stranded. */
  lemma WaiterIsServed(steps: seq<Step>, id: nat)
    requires InPhase(Exec(steps), id, Waiting)
    ensures var s := Exec(steps);
      match s.requests[id].channel
      case Used(o) => Addressed(s, id, o)
      case Open => Held(s, id) || (Mapped(s, id) && !s.reader.Stopped? && s.alive)
      case Closed => Stranded(s, id)
  {
    hide CorrelationId;
    RunKeeps(steps);
    var s := Exec(steps);
    assert Live(s.requests[id]);
  }

  /** Once the connection is poisoned every request that waits has its answer coming or is stranded, and every
      later request gets the first error. */
  lemma PoisonReachesEveryone(steps: seq<Step>, id: nat)
    requires Exec(steps).shared.Poison?
    requires id < |Exec(steps).requests|
    ensures var s := Exec(steps);
      && (s.requests[id].phase.Waiting? ==> s.requests[id].channel.Used? || Held(s, id) || Stranded(s, id))
      && (forall frame | s.reader.Listening? :: Apply(s, Receive(frame)).reader.Stopped?)
      && (s.requests[id].phase.Prepared? ==>
            Apply(s, Register(id)).requests[id].phase == Finished(Failure(Poisoned(s.shared.error))))
      && forall code ::
           var t := Apply(s, SendFails(id, code));
           t.shared == s.shared
           && (s.requests[id].phase.Sending? ==> t.requests[id].phase == Finished(Failure(Poisoned(s.shared.error))))
  {
    hide CorrelationId;
    RunKeeps(steps);
  }

  /** Every response goes to one request only, and every map entry belongs to a request that is being sent,
      waits, or was sent before it was cancelled. */
  lemma ResponsesAndEntriesMatch(steps: seq<Step>, i: nat, j: nat)
    requires i < |Exec(steps).requests| && j < |Exec(steps).requests| && i != j
    ensures var s := Exec(steps);
      && (Replied(s, i) && Replied(s, j) ==>
            s.requests[i].channel.outcome.frame != s.requests[j].channel.outcome.frame)
      && (Mapped(s, i) ==> AwaitsResponse(s.requests[i].phase) || s.requests[i].phase == Cancelled(true))
      && (Mapped(s, i) && Mapped(s, j) ==> CorrelationId(i) != CorrelationId(j))
  {
    hide CorrelationId;
    RunKeeps(steps);
  }

  /** A finished request got what was sent to it, which is its own response, a header error or the one poison
      error; or that poison error directly; or it never left home, and then nothing was sent to it. */
  lemma FinishedOutcome(steps: seq<Step>, id: nat)
    requires id < |Exec(steps).requests| && Exec(steps).requests[id].phase.Finished?
    ensures var s := Exec(steps);
      var o, channel := s.requests[id].phase.outcome, s.requests[id].channel;
      && (Addressed(s, id, o) || (channel.Closed? && o.Failure? && o.error.EncodeFailed?))
      && (channel.Used? ==>
            o == channel.outcome || (s.shared.Poison? && o == Failure(Poisoned(s.shared.error))))
      && (o.Response? ==> channel == Used(o))
  {
    hide CorrelationId;
    RunKeeps(steps);
  }

  // ---------------------------------------------------------------- what a request returns

  /** Request `id` waits, the map knows it, and the reader listens. */
  predicate Expects(s: State, id: nat) {
    InPhase(s, id, Waiting) && Mapped(s, id) && s.reader.Listening?
  }

  /** A request that is registered under a free identifier and sent is expected by the map. */
  lemma RequestIsExpected(s: State, tagged: bool)
    requires Inv(s) && s.alive && s.shared.RequestMap? && s.reader.Listening?
    requires CorrelationId(|s.requests|) !in s.shared.active
    ensures var id := |s.requests|;
      var t := Apply(Apply(Apply(s, Prepare(tagged)), Register(id)), SendOk(id));
      && |t.requests| == id + 1 && Expects(t, id) && t.requests[id].tagged == tagged
      && t.requests[..id] == s.requests && t.frames == s.frames
      && t.shared == RequestMap(s.shared.active[CorrelationId(id) := id])
  {
    hide CorrelationId;
    var id := |s.requests|;
    var s1 := Apply(s, Prepare(tagged));
    assert s1.requests[..id] == s.requests;
    var s2 := Apply(s1, Register(id));
    assert s2.requests[..id] == s.requests;
    var s3 := Apply(s2, SendOk(id));
    assert s3.requests[..id] == s.requests;
  }

  /** The frame with its identifier finishes the request with that very frame, and nobody else is touched. */
  lemma ResponseIsReturned(s: State, id: nat, frame: Frame)
    requires Expects(s, id) && frame.correlationId == CorrelationId(id)
    ensures var t := Apply(Apply(Apply(s, Receive(frame)), Deliver(None)), Await(id));
      && t.requests == s.requests[id := Request(Finished(Response(|s.frames|)), Used(Response(|s.frames|)),
                                                s.requests[id].tagged)]
      && t.frames == s.frames + [frame] && t.frames[|s.frames|] == frame
      && t.shared == RequestMap(s.shared.active - {CorrelationId(id)}) && t.reader.Listening?
  {
    hide CorrelationId;
  }

  /** A response whose tagged fields cannot be read finishes the request with that error, and only the request. */
  lemma HeaderErrorIsReturned(s: State, id: nat, frame: Frame, code: int)
    requires Expects(s, id) && frame.correlationId == CorrelationId(id) && s.requests[id].tagged
    ensures var t := Apply(Apply(Apply(s, Receive(frame)), Deliver(Some(code))), Await(id));
      && t.requests[id].phase == Finished(Failure(HeaderRead(code)))
      && (forall j | 0 <= j < |s.requests| && j != id :: t.requests[j] == s.requests[j])
      && t.shared.RequestMap? && t.reader.Listening?
  {
    hide CorrelationId;
  }

  /** A frame that nobody expects is skipped. */
  lemma UnknownFrameIsSkipped(s: State, frame: Frame)
    requires s.reader.Listening? && s.shared.RequestMap? && frame.correlationId !in s.shared.active
    ensures Apply(s, Receive(frame)) == s.(frames := s.frames + [frame])
  {
  }

  /** When the reader fails, a request that waits finishes with that error; when another request cannot be sent, with
      the error of that one, which that one gets too. */
  lemma PoisonIsReturned(s: State, id: nat, other: nat, code: int)
    requires Expects(s, id)
    ensures var t := Apply(Apply(s, ReadFails(code)), Await(id));
      && t.requests[id].phase == Finished(Failure(Poisoned(ReadFramed(code))))
      && t.shared == Poison(ReadFramed(code)) && t.reader.Stopped?
    ensures InPhase(s, other, Sending) ==>
      var t := Apply(Apply(s, SendFails(other, code)), Await(id));
      && t.requests[id].phase == Finished(Failure(Poisoned(WriteFailed(code))))
      && t.requests[other].phase == Finished(Failure(Poisoned(WriteFailed(code))))
      && t.shared == Poison(WriteFailed(code))
  {
    hide CorrelationId;
    assert s.shared.active[CorrelationId(id)] in s.shared.active.Values;
  }

  /** Cancelling before the message is known to be sent takes the request's entry out of the map; cancelling later
      leaves it there, so that the response still finds it and is thrown away. */
  lemma CancelledRequest(s: State, id: nat, frame: Frame)
    requires id < |s.requests| && Mapped(s, id) && frame.correlationId == CorrelationId(id)
    ensures s.requests[id].phase.Sending? ==>
      var t := Apply(s, Cancel(id));
      && t.shared == RequestMap(s.shared.active - {CorrelationId(id)})
      && t.requests[id].phase == Cancelled(false) && t.requests[id].channel.Closed?
      && (forall j | 0 <= j < |s.requests| && j != id :: t.requests[j] == s.requests[j])
    ensures s.requests[id].phase.Waiting? ==>
      var t := Apply(s, Cancel(id));
      t == s.(requests := s.requests[id := s.requests[id].(phase := Cancelled(true))])
    ensures s.requests[id].phase == Cancelled(true) && s.reader.Listening? ==>
      var t := Apply(Apply(s, Receive(frame)), Deliver(None));
      && t.requests == s.requests[id := s.requests[id].(channel := Used(Response(|s.frames|)))]
      && t.shared == RequestMap(s.shared.active - {CorrelationId(id)})
  {
    hide CorrelationId;
  }

  /** A request that cannot be encoded ends with that error and touches neither the map nor anybody else. */
  lemma EncodeErrorIsReturned(s: State, id: nat, code: int)
    requires InPhase(s, id, Prepared)
    ensures Apply(s, EncodeFails(id, code))
         == s.(requests := s.requests[id := s.requests[id].(phase := Finished(Failure(EncodeFailed(code))),
                                                            channel := Closed)])
  {
  }

  /** Dropping the messenger, which no running request can outlive, drops every sender that is left. */
  lemma DropClosesTheRest(s: State)
    requires Inv(s) && Enabled(s, DropMessenger)
    ensures var t := Apply(s, DropMessenger);
      && !t.alive && t.reader.Stopped? && |t.requests| == |s.requests|
      && forall i | 0 <= i < |s.requests| ::
           && t.requests[i].phase == s.requests[i].phase
           && t.requests[i].channel == if s.requests[i].channel.Open? then Closed else s.requests[i].channel
  {
    hide CorrelationId;
    assert forall i | 0 <= i < |s.requests| && Mapped(s, i) :: i in s.shared.active.Values;
    forall i | 0 <= i < |s.requests| ensures s.requests[i].channel.Open? <==> Mapped(s, i) {
      assert !Live(s.requests[i]);
    }
  }

  // ---------------------------------------------------------------- what reissuing an identifier does

  predicate AwaitsResponse(phase: Phase) {
    phase.Sending? || phase.Waiting?
  }

  /** Someone awaits a channel that nobody can use any more: `expect("Who closed this channel?!")`. */
  predicate Stranded(s: State, id: nat) {
    id < |s.requests| && AwaitsResponse(s.requests[id].phase) && s.requests[id].channel.Closed?
  }

  /** The map entry that request `id` would touch belongs to another request, `victim`. */
  predicate Displaces(s: State, id: nat, victim: nat) {
    && s.shared.RequestMap? && CorrelationId(id) in s.shared.active
    && s.shared.active[CorrelationId(id)] == victim != id
  }

  /** The step takes the entry of a request that awaits its response: registering under an identifier in use,
      or cancelling an unsent request whose identifier was given to another one. */
  predicate Strands(s: State, step: Step, victim: nat) {
    && victim < |s.requests| && AwaitsResponse(s.requests[victim].phase)
    && ((step.Register? && InPhase(s, step.id, Prepared) && Displaces(s, step.id, victim))
        || (step.Cancel? && InPhase(s, step.id, Sending) && Displaces(s, step.id, victim)))
  }

  /** A step strands a request that was not stranded exactly in those two cases. */
  lemma StepStrandsIff(s: State, step: Step, v: nat)
    requires Inv(s) && !Stranded(s, v)
    ensures Stranded(Apply(s, step), v) <==> Strands(s, step, v)
  {
    hide CorrelationId, FramesDistinct, NoStaleEntries, OutcomesGood, ReaderRuns;
    if Enabled(s, step) {
      match step
      case Register(id) => RegisterStrandsIff(s, id, v);
      case Cancel(id) => CancelStrandsIff(s, id, v);
      case DropMessenger => DropStrandsNobody(s, v);
      case _ => OthersStrandNobody(s, step, v);
    }
  }

  lemma RegisterStrandsIff(s: State, id: nat, v: nat)
    requires EntriesMatch(s) && SendersOwned(s) && OwnersExclusive(s) && !Stranded(s, v) && InPhase(s, id, Prepared)
    ensures Stranded(Apply(s, Register(id)), v) <==> Strands(s, Register(id), v)
  {
    hide CorrelationId;
    var c := CorrelationId(id);
    assert s.shared.RequestMap? && c in s.shared.active ==> Mapped(s, s.shared.active[c]);
  }

  lemma CancelStrandsIff(s: State, id: nat, v: nat)
    requires EntriesMatch(s) && SendersOwned(s) && !Stranded(s, v)
    ensures Stranded(Apply(s, Cancel(id)), v) <==> Strands(s, Cancel(id), v)
  {
    hide CorrelationId;
    var c := CorrelationId(id);
    assert s.shared.RequestMap? && c in s.shared.active ==> Mapped(s, s.shared.active[c]);
  }

  lemma DropStrandsNobody(s: State, v: nat)
    requires !Stranded(s, v)
    ensures !Stranded(Apply(s, DropMessenger), v)
  {
    hide CorrelationId;
    assert v < |s.requests| && AwaitsResponse(s.requests[v].phase) ==> Live(s.requests[v]);
  }

  lemma OthersStrandNobody(s: State, step: Step, v: nat)
    requires !Stranded(s, v) && !step.Register? && !step.Cancel? && !step.DropMessenger?
    ensures !Stranded(Apply(s, step), v)
  {
    hide CorrelationId;
  }

  /** Nobody is stranded at any time of a run. */
  ghost predicate NobodyStranded(steps: seq<Step>) {
    forall k: nat, v: nat | k <= |steps| :: !Stranded(Exec(steps[..k]), v)
  }

  ghost predicate NoStrandingStep(steps: seq<Step>) {
    forall k: nat, v: nat | k < |steps| :: !Strands(Exec(steps[..k]), steps[k], v)
  }

  /** The `expect` on the response channel holds all through a run exactly when no step of it takes the map
      entry of a request that awaits. */
  lemma NobodyStrandedIff(steps: seq<Step>)
    ensures NobodyStranded(steps) <==> NoStrandingStep(steps)
  {
    hide Exec, Strands, Stranded, Apply;
    if NobodyStranded(steps) {
      forall k: nat, v: nat | k < |steps| ensures !Strands(Exec(steps[..k]), steps[k], v) {
        StepOf(steps, k);
        StepStrandsIff(Exec(steps[..k]), steps[k], v);
        assert !Stranded(Exec(steps[..k + 1]), v);
      }
    }
    if NoStrandingStep(steps) {
      forall k: nat, v: nat | k <= |steps| ensures !Stranded(Exec(steps[..k]), v) {
        NotStrandedYet(steps, k, v);
      }
    }
  }

  lemma StepOf(steps: seq<Step>, k: nat)
    requires k < |steps|
    ensures Inv(Exec(steps[..k])) && Exec(steps[..k + 1]) == Apply(Exec(steps[..k]), steps[k])
  {
    hide Inv;
    RunKeeps(steps[..k]);
    assert steps[..k + 1][..k] == steps[..k];
  }

  lemma {:induction false} NotStrandedYet(steps: seq<Step>, k: nat, v: nat)
    requires k <= |steps|
    requires NoStrandingStep(steps)
    ensures !Stranded(Exec(steps[..k]), v)
  {
    hide Strands, Apply, Inv;
    if k > 0 {
      NotStrandedYet(steps, k - 1, v);
      StepOf(steps, k - 1);
      StepStrandsIff(Exec(steps[..k - 1]), steps[k - 1], v);
    } else {
      assert steps[..0] == [];
    }
  }

  /** No request is stranded on a connection that has made at most 2^32 requests. */
  lemma {:induction false} FewRequestsStrandNobody(steps: seq<Step>, v: nat)
    requires |Exec(steps).requests| <= 0x1_0000_0000
    ensures !Stranded(Exec(steps), v)
  {
    hide Apply, Inv, Strands;
    if steps != [] {
      var n := |steps| - 1;
      var s := Exec(steps[..n]);
      StepOf(steps, n);
      assert steps[..n + 1] == steps;
      StepIsLater(s, steps[n]);
      FewRequestsStrandNobody(steps[..n], v);
      StepStrandsIff(s, steps[n], v);
      NobodyDisplaced(s, steps[n], v);
    }
  }

  lemma NobodyDisplaced(s: State, step: Step, v: nat)
    requires Inv(s) && |s.requests| <= 0x1_0000_0000
    ensures !Strands(s, step, v)
  {
    hide Addressed, FramesDistinct;
    if (step.Register? || step.Cancel?) && step.id < |s.requests| && v < |s.requests| && step.id != v {
      IdentifiersDiffer(step.id, v);
    }
    hide CorrelationId;
  }

  lemma IdentifiersDiffer(i: nat, j: nat)
    requires i < 0x1_0000_0000 && j < 0x1_0000_0000 && i != j
    ensures CorrelationId(i) != CorrelationId(j)
  {
    if i < j {
      IdentifiersRepeat(i);
    } else {
      IdentifiersRepeat(j);
    }
  }

  /** Identifiers count up from zero and go on at the smallest number after the largest. */
  lemma IdentifiersCountUp(id: nat)
    ensures CorrelationId(0) == 0
    ensures CorrelationId(id + 1) == if CorrelationId(id) == 0x7fff_ffff then -0x8000_0000 else CorrelationId(id) + 1
  {
  }

  lemma IdentifiersRepeat(id: nat)
    ensures CorrelationId(id + 0x1_0000_0000) == CorrelationId(id)
    ensures forall j: nat | id < j < id + 0x1_0000_0000 :: CorrelationId(j) != CorrelationId(id)
  {
  }

  /** `n` requests, one after the other, that fail before they are registered. */
  function Fillers(first: nat, n: nat): (steps: seq<Step>) {
    if n == 0 then [] else Fillers(first, n - 1) + [Prepare(false)] + [EncodeFails(first + n - 1, 0)]
  }

  function Ended(n: nat): (rs: seq<Request>)
    ensures |rs| == n
  {
    seq(n, _ => Request(Finished(Failure(EncodeFailed(0))), Closed, false))
  }

  lemma {:induction false} FillersAdd(steps: seq<Step>, n: nat)
    requires Exec(steps).alive
    ensures var s := Exec(steps);
      Exec(steps + Fillers(|s.requests|, n)) == s.(requests := s.requests + Ended(n))
  {
    hide Apply;
    var s := Exec(steps);
    var first := |s.requests|;
    if n == 0 {
      assert steps + Fillers(first, 0) == steps && s.requests + Ended(0) == s.requests;
    } else {
      FillersAdd(steps, n - 1);
      var before := steps + Fillers(first, n - 1);
      ExecAppend(before, Prepare(false));
      ExecAppend(before + [Prepare(false)], EncodeFails(first + n - 1, 0));
      assert before + [Prepare(false)] + [EncodeFails(first + n - 1, 0)] == steps + Fillers(first, n);
      OneFiller(s.(requests := s.requests + Ended(n - 1)));
      assert s.requests + Ended(n - 1) + Ended(1) == s.requests + Ended(n);
    }
  }

  lemma OneFiller(s: State)
    requires s.alive
    ensures Apply(Apply(s, Prepare(false)), EncodeFails(|s.requests|, 0)) == s.(requests := s.requests + Ended(1))
  {
    hide CorrelationId;
  }

  lemma ExecAppend(steps: seq<Step>, step: Step)
    ensures Exec(steps + [step]) == Apply(Exec(steps), step)
  {
    hide Apply;
    assert (steps + [step])[..|steps|] == steps;
  }

  const ALL_IDS := 0x1_0000_0000

  /** Request 0 waits for a response that does not come, and request 2^32 registers under its identifier. */
  lemma ReissueStrandsTheOlder()
    ensures Stranded(Exec([Prepare(false), Register(0), SendOk(0)] + Fillers(1, ALL_IDS - 1)
                          + [Prepare(false)] + [Register(ALL_IDS)]), 0)
  {
    hide CorrelationId, Apply, Stranded, Fillers;
    var waiting := [Prepare(false), Register(0), SendOk(0)];
    FirstRequestWaits();
    FillersAdd(waiting, ALL_IDS - 1);
    var all := waiting + Fillers(1, ALL_IDS - 1);
    ExecAppend(all, Prepare(false));
    ExecAppend(all + [Prepare(false)], Register(ALL_IDS));
    OlderIsDisplaced(Exec(all));
  }

  lemma OlderIsDisplaced(s: State)
    requires |s.requests| == ALL_IDS && s.shared == RequestMap(map[CorrelationId(0) := 0]) && s.alive
    requires s.requests[0].phase.Waiting?
    ensures Stranded(Apply(Apply(s, Prepare(false)), Register(ALL_IDS)), 0)
  {
    IdentifiersRepeat(0);
    hide CorrelationId;
  }

  lemma FirstRequestWaits()
    ensures Exec([Prepare(false), Register(0), SendOk(0)])
         == State([Request(Waiting, Open, false)], RequestMap(map[CorrelationId(0) := 0]), Listening, [], true)
  {
    FirstRequestSends();
    assert [Prepare(false), Register(0)] + [SendOk(0)] == [Prepare(false), Register(0), SendOk(0)];
    ExecAppend([Prepare(false), Register(0)], SendOk(0));
  }

  lemma FirstRequestSends()
    ensures Exec([Prepare(false), Register(0)])
         == State([Request(Sending, Open, false)], RequestMap(map[CorrelationId(0) := 0]), Listening, [], true)
  {
    hide CorrelationId;
    assert [] + [Prepare(false)] == [Prepare(false)];
    ExecAppend([], Prepare(false));
    assert Exec([Prepare(false)]) == Init.(requests := [Request(Prepared, Open, false)]);
    assert [Prepare(false)] + [Register(0)] == [Prepare(false), Register(0)];
    ExecAppend([Prepare(false)], Register(0));
  }

  /** Request 0 is answered before its message is known to be sent; request 2^32 registers under the same
      identifier and waits; then request 0 is cancelled and its clean-up removes the entry of the other. */
  lemma CancelStrandsTheNewer()
    ensures Stranded(Exec([Prepare(false), Register(0), Receive(Frame(CorrelationId(0), [])), Deliver(None)]
                          + Fillers(1, ALL_IDS - 1)
                          + [Prepare(false)] + [Register(ALL_IDS)] + [SendOk(ALL_IDS)] + [Cancel(0)]), ALL_IDS)
  {
    hide CorrelationId, Apply, Stranded, Fillers;
    var answered := [Prepare(false), Register(0), Receive(Frame(CorrelationId(0), [])), Deliver(None)];
    FirstRequestAnswered();
    FillersAdd(answered, ALL_IDS - 1);
    hide Exec;
    var all := answered + Fillers(1, ALL_IDS - 1);
    NewerIsCancelled(Exec(all));
    ExecAppend(all, Prepare(false));
    ExecAppend(all + [Prepare(false)], Register(ALL_IDS));
    ExecAppend(all + [Prepare(false)] + [Register(ALL_IDS)], SendOk(ALL_IDS));
    ExecAppend(all + [Prepare(false)] + [Register(ALL_IDS)] + [SendOk(ALL_IDS)], Cancel(0));
  }

  lemma FirstRequestAnswered()
    ensures Exec([Prepare(false), Register(0), Receive(Frame(CorrelationId(0), [])), Deliver(None)])
         == State([Request(Sending, Used(Response(0)), false)], RequestMap(map[]), Listening,
                  [Frame(CorrelationId(0), [])], true)
  {
    hide CorrelationId;
    var sending, receive := [Prepare(false), Register(0)], Receive(Frame(CorrelationId(0), []));
    FirstRequestSends();
    ExecAppend(sending, receive);
    assert Exec(sending + [receive]).shared.active == map[];
    ExecAppend(sending + [receive], Deliver(None));
    assert sending + [receive] + [Deliver(None)] == [Prepare(false), Register(0), receive, Deliver(None)];
  }

  lemma NewerIsCancelled(s: State)
    requires |s.requests| == ALL_IDS && s.shared == RequestMap(map[]) && s.alive
    requires s.requests[0].phase.Sending?
    ensures var registered := Apply(Apply(s, Prepare(false)), Register(ALL_IDS));
      Stranded(Apply(Apply(registered, SendOk(ALL_IDS)), Cancel(0)), ALL_IDS)
  {
    IdentifiersRepeat(0);
    hide CorrelationId;
    var t := Apply(Apply(Apply(s, Prepare(false)), Register(ALL_IDS)), SendOk(ALL_IDS));
    assert t.shared == RequestMap(map[CorrelationId(0) := ALL_IDS]);
    assert t.requests[0].phase.Sending? && t.requests[ALL_IDS].phase.Waiting?;
  }

  // ---------------------------------------------------------------- the state behind the mutex

  datatype LookUp = Found(id: nat) | Unknown | Refused

  /** What the reader does with the result of its look-up: answer, go on, or stop. */
  function AfterLookUp(l: LookUp, frame: nat): ReaderTask {
    match l
    case Found(id) => Holding(id, frame)
    case Unknown => Listening
    case Refused => Stopped
  }

  /** The critical sections as code, on the shared map and the channels its entries own. */
  class Connection {
    var requests: seq<Request>
    var shared: Shared

    ghost predicate Valid()
      reads this
    {
      shared.RequestMap? ==> forall c | c in shared.active :: shared.active[c] < |requests|
    }

    ghost function Now(reader: ReaderTask, frames: seq<Frame>, alive: bool): State
      reads this
    {
      State(requests, shared, reader, frames, alive)
    }

    constructor ()
      ensures Valid() && Now(Listening, [], true) == Init
    {
      requests := [];
      shared := RequestMap(map[]);
    }

    /** Drains the map, telling each request, and keeps the first error. */
    method PoisonWith(err: RequestError) returns (e: RequestError)
      requires Valid()
      modifies this
      ensures Valid()
      ensures forall reader, frames, alive ::
        Now(reader, frames, alive) == PoisonState(old(Now(reader, frames, alive)), err)
      ensures e == PoisonShared(old(shared), err).1
    {
      match shared
      case Poison(first) =>
        assert SendAll(requests, {}, Failure(Poisoned(err))) == requests;
        e := first;
      case RequestMap(active) =>
        var left := active;
        ghost var told: set<nat> := {};
        while left != map[]
          invariant left.Keys <= active.Keys && forall c | c in left :: left[c] == active[c]
          invariant told == set c | c in active && c !in left :: active[c]
          invariant requests == SendAll(old(requests), told, Failure(Poisoned(err)))
          invariant shared == RequestMap(active)
          decreases left.Keys
        {
          var c :| c in left;
          var id := left[c];
          ghost var before := requests;
          requests := requests[id := requests[id].(channel := Used(Failure(Poisoned(err))))];
          left := left - {c};
          told := told + {id};
          assert told == set c | c in active && c !in left :: active[c];
          assert requests == SendAll(old(requests), told, Failure(Poisoned(err)));
        }
        assert told == active.Values;
        shared := Poison(err);
        e := err;
    }

    /** The reader's look-up for a frame that has arrived: the entry leaves the map before it is answered. */
    method Take(frame: Frame) returns (found: LookUp)
      requires Valid()
      modifies this`shared
      ensures Valid()
      ensures forall frames, alive ::
        Now(AfterLookUp(found, |frames|), frames + [frame], alive)
        == ReceiveState(old(Now(Listening, frames, alive)), frame)
    {
      match shared
      case Poison(_) => return Refused;
      case RequestMap(active) =>
        if frame.correlationId !in active {
          return Unknown;
        }
        found := Found(active[frame.correlationId]);
        shared := RequestMap(active - {frame.correlationId});
    }

    method RegisterRequest(id: nat)
      requires Valid() && id < |requests|
      modifies this
      ensures Valid()
      ensures forall reader, frames, alive ::
        Now(reader, frames, alive) == RegisterState(old(Now(reader, frames, alive)), id)
    {
      match shared
      case Poison(e) =>
        requests := requests[id := requests[id].(channel := Closed, phase := Finished(Failure(Poisoned(e))))];
      case RequestMap(active) =>
        var c := CorrelationId(id);
        if c in active {
          requests := requests[active[c] := requests[active[c]].(channel := Closed)];
        }
        requests := requests[id := requests[id].(phase := Sending)];
        shared := RequestMap(active[c := id]);
        assert (active - {c})[c := id] == active[c := id];
    }

    /** The guard's drop: only an unsent request is removed, and never from a poisoned connection. */
    method CleanUp(id: nat, messageSent: bool)
      requires Valid() && id < |requests|
      modifies this
      ensures Valid()
      ensures messageSent ==> requests == old(requests) && shared == old(shared)
      ensures !messageSent ==> forall reader, frames, alive ::
        Now(reader, frames, alive) == DropEntry(old(Now(reader, frames, alive)), CorrelationId(id))
    {
      if !messageSent && shared.RequestMap? && CorrelationId(id) in shared.active {
        var v := shared.active[CorrelationId(id)];
        requests := requests[v := requests[v].(channel := Closed)];
        shared := RequestMap(shared.active - {CorrelationId(id)});
      }
    }
  }
}
