/** A broadcast channel for one value: a slot under a read-write lock and a notification.

    The lock and the notification are separate objects, so registering, peeking, polling, setting,
    notifying and unlocking are separate steps of an interleaving. */
module Broadcast {
  import opened Bytes

  /** The slot holds the value, or says that the sender went away without one. */
  datatype Slot<T> = Empty | Value(value: T) | Dropped

  /** A call of `receive`. `seen` is the notification count when `notified()` was created: such a future
      completes at once if the count has moved on, and otherwise queues until the next notification. */
  datatype Receiver<T> =
    | Idle
    | Registered(seen: nat)
    | PeekedNone(seen: nat)
    | Queued(seen: nat)
    | Woken
    | Returned(slot: Slot<T>)

  /** The one sender: `broadcast` and `drop` both take the write lock, fill the slot, notify, unlock. */
  datatype Sender = Ready | SlotSet | NotifySent | Gone

  datatype State<T> = State(slot: Slot<T>, count: nat, sender: Sender, receivers: seq<Receiver<T>>)

  /** `count` counts the calls of `notify_waiters`. */
  function Init<T>(): State<T> {
    State(Empty, 0, Ready, [])
  }

  datatype Step<T> =
    | Subscribe
    | Register(id: nat)
    | Peek(id: nat)
    | Poll(id: nat)
    | PeekAgain(id: nat)
    | Abandon(id: nat)
    | Publish(value: T)
    | DropUnused
    | Notify
    | Unlock

  predicate WriteLocked<T>(s: State<T>) {
    s.sender.SlotSet? || s.sender.NotifySent?
  }

  predicate Enabled<T>(s: State<T>, step: Step<T>) {
    match step
    case Subscribe => s.sender.Ready?
    case Register(id) => id < |s.receivers| && (s.receivers[id].Idle? || s.receivers[id].Returned?)
    case Peek(id) => id < |s.receivers| && s.receivers[id].Registered? && !WriteLocked(s)
    case Poll(id) => id < |s.receivers| && s.receivers[id].PeekedNone?
    case PeekAgain(id) => id < |s.receivers| && s.receivers[id].Woken? && !WriteLocked(s)
    case Abandon(id) => id < |s.receivers|
    case Publish(_) => s.sender.Ready?
    case DropUnused => s.sender.Ready?
    case Notify => s.sender.SlotSet?
    case Unlock => s.sender.NotifySent?
  }

  /** Waking every queued receiver. */
  function WakeAll<T>(rs: seq<Receiver<T>>): (r: seq<Receiver<T>>)
    ensures |r| == |rs|
    ensures forall i | 0 <= i < |r| :: r[i] == if rs[i].Queued? then Woken else rs[i]
  {
    seq(|rs|, i requires 0 <= i < |rs| => if rs[i].Queued? then Woken else rs[i])
  }

  function Put<T>(s: State<T>, id: nat, r: Receiver<T>): State<T>
    requires id < |s.receivers|
  {
    s.(receivers := s.receivers[id := r])
  }

  function Apply<T>(s: State<T>, step: Step<T>): State<T> {
    if !Enabled(s, step) then s else
    match step
    case Subscribe => s.(receivers := s.receivers + [Idle])
    case Register(id) => Put(s, id, Registered(s.count))
    case Peek(id) => Put(s, id, if s.slot.Empty? then PeekedNone(s.receivers[id].seen) else Returned(s.slot))
    case Poll(id) => Put(s, id, if s.receivers[id].seen != s.count then Woken else Queued(s.receivers[id].seen))
    case PeekAgain(id) => Put(s, id, Returned(s.slot))
    case Abandon(id) => Put(s, id, Idle)
    case Publish(v) => s.(slot := Value(v), sender := SlotSet)
    case DropUnused => s.(slot := Dropped, sender := SlotSet)
    case Notify => s.(receivers := WakeAll(s.receivers), count := s.count + 1, sender := NotifySent)
    case Unlock => s.(sender := Gone)
  }

  function Exec<T>(steps: seq<Step<T>>): State<T> {
    if steps == [] then Init() else Apply(Exec(steps[..|steps| - 1]), steps[|steps| - 1])
  }

  lemma ExecAppend<T>(steps: seq<Step<T>>, step: Step<T>)
    ensures Exec(steps + [step]) == Apply(Exec(steps), step)
  {
    assert (steps + [step])[..|steps|] == steps;
  }

  ghost predicate Inv<T>(s: State<T>) {
    && (s.sender.Ready? <==> s.slot.Empty?)
    && s.count == (if s.sender.Ready? || s.sender.SlotSet? then 0 else 1)
    && forall i | 0 <= i < |s.receivers| ::
         && (s.receivers[i].Registered? ==> s.receivers[i].seen <= s.count)
         // the slot was empty at the peek, so the notification is still to come or was counted after `seen`
         && (s.receivers[i].PeekedNone? ==> s.receivers[i].seen == 0)
         && (s.receivers[i].Queued? ==> s.receivers[i].seen == 0 && s.count == 0)
         && (s.receivers[i].Woken? ==> s.count == 1)
         && (s.receivers[i].Returned? ==> !s.slot.Empty? && s.receivers[i].slot == s.slot)
  }

  lemma StepKeeps<T>(s: State<T>, step: Step<T>)
    requires Inv(s)
    ensures Inv(Apply(s, step))
  {
  }

  lemma {:induction false} RunKeeps<T>(steps: seq<Step<T>>)
    ensures Inv(Exec(steps))
  {
    if steps != [] {
      RunKeeps(steps[..|steps| - 1]);
      StepKeeps(Exec(steps[..|steps| - 1]), steps[|steps| - 1]);
    }
  }

  /** Once the sender has notified, no receiver is asleep or can fall asleep: polling and re-peeking both
      lead to the published slot. */
  lemma NoLostWakeUp<T>(steps: seq<Step<T>>, id: nat)
    requires var s := Exec(steps); (s.sender.NotifySent? || s.sender.Gone?) && id < |s.receivers|
    ensures var s := Exec(steps);
      && !s.receivers[id].Queued?
      && (s.receivers[id].PeekedNone? ==> Apply(s, Step<T>.Poll(id)).receivers[id] == Woken)
      && (s.receivers[id].Woken? && s.sender.Gone? ==>
            Apply(s, Step<T>.PeekAgain(id)).receivers[id] == Returned(s.slot))
      && (s.receivers[id].Registered? && s.sender.Gone? ==>
            Apply(s, Step<T>.Peek(id)).receivers[id] == Returned(s.slot))
  {
    RunKeeps(steps);
  }

  /** Neither the "double publish" assertion nor the "just got notified" expectation can fail. */
  lemma NoPanic<T>(steps: seq<Step<T>>)
    ensures var s := Exec(steps);
      && (forall v :: Enabled(s, Publish(v)) ==> s.slot.Empty?)
      && (forall id: nat :: Enabled(s, Step<T>.PeekAgain(id)) ==> !s.slot.Empty?)
  {
    RunKeeps(steps);
  }

  lemma StepKeepsSlot<T>(s: State<T>, step: Step<T>)
    requires Inv(s) && !s.slot.Empty?
    ensures Apply(s, step).slot == s.slot
  {
  }

  lemma {:induction false} SlotIsFinal<T>(steps: seq<Step<T>>, more: seq<Step<T>>)
    requires !Exec(steps).slot.Empty?
    ensures Exec(steps + more).slot == Exec(steps).slot
  {
    if more == [] {
      assert steps + more == steps;
    } else {
      var n := |more| - 1;
      assert (steps + more)[..|steps| + n] == steps + more[..n];
      SlotIsFinal(steps, more[..n]);
      RunKeeps(steps + more[..n]);
      StepKeepsSlot(Exec(steps + more[..n]), more[n]);
    }
  }

  /** All receivers, at whatever time they return, see one and the same value. */
  lemma OneValue<T>(steps: seq<Step<T>>, more: seq<Step<T>>, i: nat, j: nat)
    requires i < |Exec(steps).receivers| && Exec(steps).receivers[i].Returned?
    requires j < |Exec(steps + more).receivers| && Exec(steps + more).receivers[j].Returned?
    ensures Exec(steps).receivers[i].slot == Exec(steps + more).receivers[j].slot
    ensures !Exec(steps).receivers[i].slot.Empty?
  {
    RunKeeps(steps);
    RunKeeps(steps + more);
    SlotIsFinal(steps, more);
  }

  /** What a sender publishes: a value, or that it went away without one. */
  function Published<T>(first: Step<T>): Slot<T>
    requires first.Publish? || first.DropUnused?
  {
    if first.Publish? then Value(first.value) else Dropped
  }

  /** What a receiver gets to see once the sender has published, whatever it was doing before: it wakes up, or
      looks, or gives up and asks again, and returns exactly what was published. */
  lemma ReceiverReturns<T>(steps: seq<Step<T>>, id: nat, first: Step<T>)
    requires Exec(steps).sender.Ready? && id < |Exec(steps).receivers|
    requires first.Publish? || first.DropUnused?
    ensures var s := Publishes(Exec(steps), first);
      && s.slot == Published(first) && s.sender.Gone? && |s.receivers| == |Exec(steps).receivers|
      && Looks(Apply(Apply(s, Step<T>.Abandon(id)), Step<T>.Register(id)), id) == Returned(Published(first))
      && match Exec(steps).receivers[id]
         case Queued(_) => LooksAgain(s, id) == Returned(Published(first))
         case PeekedNone(_) => LooksAgain(Apply(s, Step<T>.Poll(id)), id) == Returned(Published(first))
         case Registered(_) => Looks(s, id) == Returned(Published(first))
         case _ => true
  {
    RunKeeps(steps);
    PublishedState(Exec(steps), first);
    hide Publishes, Exec, Inv;
  }

  lemma PublishedState<T>(s: State<T>, first: Step<T>)
    requires s.sender.Ready? && (first.Publish? || first.DropUnused?)
    ensures Publishes(s, first) == State(Published(first), s.count + 1, Gone, WakeAll(s.receivers))
  {
  }

  function Looks<T>(s: State<T>, id: nat): Receiver<T> {
    var t := Apply(s, Step<T>.Peek(id));
    if id < |t.receivers| then t.receivers[id] else Idle
  }

  function LooksAgain<T>(s: State<T>, id: nat): Receiver<T> {
    var t := Apply(s, Step<T>.PeekAgain(id));
    if id < |t.receivers| then t.receivers[id] else Idle
  }

  // ---------------------------------------------------------------- the other order

  /** `receive` with its first two steps swapped: a receiver in `early` has peeked, found nothing, and has not
      created its notification future yet. */
  datatype Swapped<T> = Swapped(base: State<T>, early: set<nat>)

  /** `Base` is any step but the two that are swapped. */
  datatype SwappedStep<T> = PeekFirst(id: nat) | RegisterAfter(id: nat) | Base(step: Step<T>)

  function SwappedApply<T>(s: Swapped<T>, step: SwappedStep<T>): Swapped<T> {
    match step
    case PeekFirst(id) =>
      if id >= |s.base.receivers| || !s.base.receivers[id].Idle? || id in s.early || WriteLocked(s.base) then s
      else if s.base.slot.Empty? then s.(early := s.early + {id})
      else s.(base := Put(s.base, id, Returned(s.base.slot)))
    case RegisterAfter(id) =>
      if id >= |s.base.receivers| || id !in s.early then s
      else Swapped(Put(s.base, id, PeekedNone(s.base.count)), s.early - {id})
    case Base(b) =>
      if b.Register? || b.Peek? then s
      else if b.Abandon? then Swapped(Apply(s.base, b), s.early - {b.id})
      else s.(base := Apply(s.base, b))
  }

  function SwappedRun<T>(s: Swapped<T>, steps: seq<SwappedStep<T>>): Swapped<T>
    decreases |steps|
  {
    if steps == [] then s else SwappedRun(SwappedApply(s, steps[0]), steps[1..])
  }

  /** A receiver of the swapped order that peeks before and registers after the notification sleeps, and
      nothing but giving up ends its sleep: the order of the two steps in `receive` is essential. */
  lemma PeekBeforeRegisterLosesWakeUp<T>(v: T, more: seq<SwappedStep<T>>)
    requires Base(Step<T>.Abandon(0)) !in more
    ensures var start := Swapped(Init<T>(), {});
      var s := SwappedRun(start, [Base(Subscribe), PeekFirst(0), Base(Publish(v)), Base(Notify), Base(Unlock),
                                  RegisterAfter(0), Base(Step<T>.Poll(0))]);
      && s == Swapped(State(Value(v), 1, Gone, [Queued(1)]), {})
      && |SwappedRun(s, more).base.receivers| > 0 && SwappedRun(s, more).base.receivers[0] == Queued(1)
  {
    var start := Swapped(Init<T>(), {});
    SwappedSeven(start, Base(Subscribe), PeekFirst(0), Base(Publish(v)), Base(Notify), Base(Unlock),
                 RegisterAfter(0), Base(Step<T>.Poll(0)));
    var subscribed: State<T> := State(Empty, 0, Ready, [Idle]);
    assert SwappedApply(start, Base(Subscribe)) == Swapped(subscribed, {});
    assert SwappedApply(Swapped(subscribed, {}), PeekFirst(0)) == Swapped(subscribed, {0});
    var published := State(Value(v), 1, Gone, [Idle]);
    assert WakeAll([Receiver<T>.Idle]) == [Idle];
    assert Apply(Apply(Apply(subscribed, Publish(v)), Notify), Unlock) == published;
    assert Swapped(published, {0}).early - {0} == {};
    assert Put(published, 0, PeekedNone(1)).receivers == [PeekedNone(1)];
    SleepsOn(Swapped(State(Value(v), 1, Gone, [Queued(1)]), {}), more);
  }

  lemma {:induction false} SleepsOn<T>(s: Swapped<T>, more: seq<SwappedStep<T>>)
    requires s.base.sender.Gone? && |s.base.receivers| > 0 && s.base.receivers[0] == Queued(1) && 0 !in s.early
    requires Base(Step<T>.Abandon(0)) !in more
    ensures |SwappedRun(s, more).base.receivers| > 0 && SwappedRun(s, more).base.receivers[0] == Queued(1)
    decreases |more|
  {
    if more != [] {
      assert more[0] in more && forall x | x in more[1..] :: x in more;
      SleepsOn(SwappedApply(s, more[0]), more[1..]);
    }
  }

  lemma SwappedSeven<T>(s: Swapped<T>, a: SwappedStep<T>, b: SwappedStep<T>, c: SwappedStep<T>, d: SwappedStep<T>,
                        e: SwappedStep<T>, f: SwappedStep<T>, g: SwappedStep<T>)
    ensures SwappedRun(s, [a, b, c, d, e, f, g])
         == SwappedApply(SwappedApply(SwappedApply(SwappedApply(SwappedApply(SwappedApply(SwappedApply(
              s, a), b), c), d), e), f), g)
  {
    hide SwappedApply;
    assert [a, b, c, d, e, f, g][1..] == [b, c, d, e, f, g] && [b, c, d, e, f, g][1..] == [c, d, e, f, g];
    assert [c, d, e, f, g][1..] == [d, e, f, g] && [d, e, f, g][1..] == [e, f, g];
    assert [e, f, g][1..] == [f, g] && [f, g][1..] == [g] && [g][1..] == [];
    var t := SwappedApply(SwappedApply(SwappedApply(SwappedApply(s, a), b), c), d);
    assert SwappedRun(s, [a, b, c, d, e, f, g]) == SwappedRun(SwappedApply(s, a), [b, c, d, e, f, g]);
    assert SwappedRun(SwappedApply(SwappedApply(s, a), b), [c, d, e, f, g]) == SwappedRun(t, [e, f, g]);
    var u := SwappedApply(SwappedApply(t, e), f);
    assert SwappedRun(t, [e, f, g]) == SwappedRun(u, [g]);
    assert SwappedRun(u, [g]) == SwappedApply(u, g);
  }

  // ---------------------------------------------------------------- the shared object

  /** Everything the sender does once it has chosen what to publish. */
  function Publishes<T>(s: State<T>, first: Step<T>): State<T> {
    Apply(Apply(Apply(s, first), Notify), Unlock)
  }

  /** The locked slot and the notification as code: what the sender does to them, and to every receiver. */
  class Shared<T(!new)> {
    var data: Slot<T>
    var notifications: nat

    constructor ()
      ensures State(data, notifications, Ready, []) == Init()
    {
      data := Empty;
      notifications := 0;
    }

    /** `assert!(locked.is_none())` is the precondition; the sender is consumed by the call. */
    method Broadcast(r: T)
      requires data.Empty?
      modifies this
      ensures forall rs :: State(data, notifications, Gone, WakeAll(rs))
                        == Publishes(State(old(data), old(notifications), Ready, rs), Publish(r))
    {
      data := Value(r);
      notifications := notifications + 1;
    }

    /** The sender's drop: it publishes its disappearance, or nothing if it runs after `Broadcast`. */
    method DropSender()
      modifies this
      ensures old(data).Empty? ==>
        forall rs :: State(data, notifications, Gone, WakeAll(rs))
                  == Publishes(State(old(data), old(notifications), Ready, rs), DropUnused)
      ensures !old(data).Empty? ==> data == old(data) && notifications == old(notifications)
    {
      if data.Empty? {
        data := Dropped;
        notifications := notifications + 1;
      }
    }

    /** What `receive` returns without waiting is what the peeking step returns. */
    method Peek() returns (r: Option<Slot<T>>)
      ensures forall seen :: Apply(State(data, notifications, Gone, [Registered(seen)]), Step<T>.Peek(0)).receivers
                          == [if r.Some? then Returned(r.value) else PeekedNone(seen)]
    {
      return if data.Empty? then None else Some(data);
    }
  }
}
