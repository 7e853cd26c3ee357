/** Length-prefixed message frames on a byte stream. */
module Frames {
  import opened Bytes
  import opened Primitives
  import opened VecBuilders

  datatype FrameError = NegativeSize(size: int) | TooLarge(limit: nat, actual: nat) | Io(error: ReadError)

  /** One read: the outcome and the unread bytes, or a discard loop that goes round for ever. */
  datatype FrameRead = Message(msg: seq<byte>, rest: seq<byte>)
                     | Oversized(limit: nat, actual: nat, rest: seq<byte>)
                     | Broken(error: FrameError)
                     | Stuck

  predicate Frameable(msg: seq<byte>) {
    |msg| <= I32_MAX
  }

  function FrameOf(msg: seq<byte>): (f: seq<byte>)
    requires Frameable(msg)
    ensures |f| == 4 + |msg|
  {
    EncodeInt(|msg|, 4) + msg
  }

  /** What `read_message` with limit `max` does to the stream `s`. */
  function ReadFrame(s: seq<byte>, max: nat): (r: FrameRead)
    ensures r.Message? ==> |r.rest| < |s|
    ensures r.Oversized? ==> |r.rest| < |s|
  {
    match ParseInt(s, 4)
    case Fail(e) => Broken(Io(e))
    case Done(n, t) =>
      if n < 0 then Broken(NegativeSize(n))
      else if n > max == 0 then Stuck
      else if n > |t| then Broken(Io(UnexpectedEof))
      else if n > max then Oversized(max, n, t[n..])
      else Message(t[..n], t[n..])
  }

  // ---------------------------------------------------------------- the discard loop

  /** Bytes left to skip after `i` rounds of the discard loop. */
  function LeftAfter(n: nat, max: nat, i: nat): (left: nat) {
    if i == 0 then n else
    var left := LeftAfter(n, max, i - 1);
    left - Min(max, left)
  }

  lemma {:induction false} NothingSkipped(n: nat, i: nat)
    ensures LeftAfter(n, 0, i) == n
  {
    if i > 0 {
      NothingSkipped(n, i - 1);
    }
  }

  lemma {:induction false} SkipsAtLeast(n: nat, max: nat, i: nat)
    requires max > 0
    ensures LeftAfter(n, max, i) == 0 || LeftAfter(n, max, i) + i <= n
  {
    if i > 0 {
      SkipsAtLeast(n, max, i - 1);
    }
  }

  /** The discard loop ends exactly for a positive limit or an empty message. */
  lemma DiscardEndsIff(n: nat, max: nat)
    ensures (exists i: nat :: LeftAfter(n, max, i) == 0) <==> max > 0 || n == 0
  {
    if max > 0 {
      SkipsAtLeast(n, max, n + 1);
    } else if n > 0 {
      forall i: nat ensures LeftAfter(n, max, i) != 0 {
        NothingSkipped(n, i);
      }
    } else {
      assert LeftAfter(n, max, 0) == 0;
    }
  }

  /** A read is stuck exactly when it meets a message that its discard loop cannot get past. */
  lemma StuckIff(s: seq<byte>, max: nat)
    ensures ReadFrame(s, max).Stuck? <==>
      match ParseInt(s, 4)
      case Fail(_) => false
      case Done(n, _) => n > max && !exists i: nat :: LeftAfter(n, max, i) == 0
  {
    match ParseInt(s, 4)
    case Fail(_) =>
    case Done(n, _) =>
      if n >= 0 {
        DiscardEndsIff(n, max);
      }
  }

  method ReadMessage(reader: Reader, max: nat) returns (r: Result<seq<byte>, FrameError>)
    requires !ReadFrame(reader.rest, max).Stuck?
    modifies reader
    ensures match ReadFrame(old(reader.rest), max)
      case Message(msg, t) => r == Ok(msg) && reader.rest == t
      case Oversized(limit, actual, t) => r == Err(TooLarge(limit, actual)) && reader.rest == t
      case Broken(e) => r == Err(e)
  {
    hide ParseInt;
    var head := reader.ReadInt(4);
    if head.Err? {
      return Err(Io(head.error));
    }
    var n := head.value;
    if n < 0 {
      return Err(NegativeSize(n));
    }
    if n > max {
      var toRead := n;
      ghost var body := reader.rest;
      while toRead > 0
        invariant 0 <= toRead <= n && n - toRead <= |body|
        invariant reader.rest == body[n - toRead..]
      {
        var step := Min(max, toRead);
        var chunk := reader.ReadExact(step);
        if chunk.Err? {
          return Err(Io(chunk.error));
        }
        toRead := toRead - step;
      }
      return Err(TooLarge(max, n));
    }
    var buf := reader.ReadExact(n);
    if buf.Err? {
      return Err(Io(buf.error));
    }
    return Ok(buf.value);
  }

  // ---------------------------------------------------------------- round trip and resynchronisation

  /** A frame reads back as its message, or is rejected while exactly its own bytes are consumed; only the
      limit zero makes the reader stick to it. */
  lemma FrameRoundTrip(msg: seq<byte>, tail: seq<byte>, max: nat)
    requires Frameable(msg)
    ensures ReadFrame(FrameOf(msg) + tail, max)
         == if |msg| <= max then Message(msg, tail) else if max == 0 then Stuck else Oversized(max, |msg|, tail)
  {
    hide EncodeInt, ParseInt;
    assert FrameOf(msg) + tail == EncodeInt(|msg|, 4) + (msg + tail);
    IntRoundTrip(|msg|, 4, msg + tail);
    assert (msg + tail)[..|msg|] == msg && (msg + tail)[|msg|..] == tail;
  }

  /** A cut frame is the end of input, unless its length arrived and the limit is zero. */
  lemma CutFrameIsEof(msg: seq<byte>, cut: nat, max: nat)
    requires Frameable(msg) && cut < |FrameOf(msg)|
    ensures ReadFrame(FrameOf(msg)[..cut], max)
         == if cut >= 4 && max == 0 then Stuck else Broken(Io(UnexpectedEof))
  {
    hide EncodeInt, ParseInt;
    if cut >= 4 {
      var t := msg[..cut - 4];
      assert FrameOf(msg)[..cut] == EncodeInt(|msg|, 4) + t;
      IntRoundTrip(|msg|, 4, t);
    }
  }

  /** A negative length is an error of its own. */
  lemma NegativeFrame(n: int32, tail: seq<byte>, max: nat)
    requires n < 0
    ensures ReadFrame(EncodeInt(n, 4) + tail, max) == Broken(NegativeSize(n))
  {
    hide EncodeInt, ParseInt;
    IntRoundTrip(n, 4, tail);
  }

  /** The frames of several messages, in order. */
  function Stream(msgs: seq<seq<byte>>): (s: seq<byte>)
    requires forall m | m in msgs :: Frameable(m)
  {
    if msgs == [] then [] else FrameOf(msgs[0]) + Stream(msgs[1..])
  }

  lemma {:induction false} StreamAppend(msgs: seq<seq<byte>>, msg: seq<byte>)
    requires forall m | m in msgs :: Frameable(m)
    requires Frameable(msg)
    ensures Stream(msgs + [msg]) == Stream(msgs) + FrameOf(msg)
  {
    hide FrameOf, Frameable;
    var all := msgs + [msg];
    if msgs == [] {
      assert all == [msg] && all[1..] == [];
      assert FrameOf(msg) + [] == FrameOf(msg) == [] + FrameOf(msg);
    } else {
      assert forall m | m in msgs[1..] :: m in msgs;
      StreamAppend(msgs[1..], msg);
      assert all[1..] == msgs[1..] + [msg] && all[0] == msgs[0];
      assert Stream(all) == FrameOf(msgs[0]) + Stream(all[1..]);
      var first, rest := FrameOf(msgs[0]), Stream(msgs[1..]);
      assert first + (rest + FrameOf(msg)) == first + rest + FrameOf(msg);
    }
  }

  /** What a reader gets from one frame. */
  datatype Received = Got(msg: seq<byte>) | Skipped(actual: nat)

  function Expected(msgs: seq<seq<byte>>, max: nat): seq<Received> {
    seq(|msgs|, i requires 0 <= i < |msgs| => if |msgs[i]| <= max then Got(msgs[i]) else Skipped(|msgs[i]|))
  }

  /** Reading on past oversized frames until the stream ends, breaks or sticks; also what is left unread. */
  function ReadAll(s: seq<byte>, max: nat): (seq<Received>, seq<byte>)
    decreases |s|
  {
    match ReadFrame(s, max)
    case Message(msg, t) => var (more, left) := ReadAll(t, max); ([Got(msg)] + more, left)
    case Oversized(_, actual, t) => var (more, left) := ReadAll(t, max); ([Skipped(actual)] + more, left)
    case Broken(_) => ([], s)
    case Stuck => ([], s)
  }

  /** Whole frames decode in order, and then whatever follows them is read as if it came first. */
  lemma {:induction false} StreamThen(msgs: seq<seq<byte>>, rest: seq<byte>, max: nat)
    requires forall m | m in msgs :: Frameable(m)
    requires max > 0
    ensures ReadAll(Stream(msgs) + rest, max) == (Expected(msgs, max) + ReadAll(rest, max).0, ReadAll(rest, max).1)
  {
    hide FrameOf, ReadFrame;
    if msgs == [] {
      assert Stream(msgs) + rest == rest && Expected(msgs, max) == [];
      assert [] + ReadAll(rest, max).0 == ReadAll(rest, max).0;
    } else {
      var tail := Stream(msgs[1..]) + rest;
      assert Stream(msgs) + rest == FrameOf(msgs[0]) + tail;
      FrameRoundTrip(msgs[0], tail, max);
      StreamThen(msgs[1..], rest, max);
      var first := Expected(msgs, max)[0];
      assert Expected(msgs, max) == [first] + Expected(msgs[1..], max);
      assert [first] + (Expected(msgs[1..], max) + ReadAll(rest, max).0) == Expected(msgs, max) + ReadAll(rest, max).0;
    }
  }

  /** Whole frames followed by a cut one decode to exactly the whole messages in order. */
  lemma StreamDecodes(msgs: seq<seq<byte>>, last: seq<byte>, cut: nat, max: nat)
    requires forall m | m in msgs :: Frameable(m)
    requires Frameable(last) && cut < |FrameOf(last)|
    requires max > 0
    ensures ReadAll(Stream(msgs) + FrameOf(last)[..cut], max) == (Expected(msgs, max), FrameOf(last)[..cut])
  {
    hide FrameOf, ReadFrame;
    StreamThen(msgs, FrameOf(last)[..cut], max);
    CutFrameIsEof(last, cut, max);
    assert Expected(msgs, max) + [] == Expected(msgs, max);
  }

  /** With the limit zero, reading gets as far as the first message that is not empty. */
  lemma {:induction false} ZeroLimitSticks(msgs: seq<seq<byte>>, rest: seq<byte>, k: nat)
    requires forall m | m in msgs :: Frameable(m)
    requires k < |msgs| && msgs[k] != [] && forall i | 0 <= i < k :: msgs[i] == []
    ensures ReadAll(Stream(msgs) + rest, 0) == (Expected(msgs[..k], 0), Stream(msgs[k..]) + rest)
  {
    hide FrameOf, ReadFrame;
    var tail := Stream(msgs[1..]) + rest;
    assert Stream(msgs) + rest == FrameOf(msgs[0]) + tail;
    FrameRoundTrip(msgs[0], tail, 0);
    if k == 0 {
      assert msgs[k..] == msgs && msgs[..k] == [] && Expected([], 0) == [];
    } else {
      ZeroLimitSticks(msgs[1..], rest, k - 1);
      assert msgs[1..][k - 1..] == msgs[k..] && msgs[1..][..k - 1] == msgs[..k][1..];
      assert Expected(msgs[..k], 0) == [Got([])] + Expected(msgs[..k][1..], 0);
    }
  }

  /** The messages of a stream all get through, as themselves or as rejected, exactly if the limit is positive
      or there is nothing to discard. */
  lemma StreamDecodesIff(msgs: seq<seq<byte>>, max: nat)
    requires forall m | m in msgs :: Frameable(m)
    ensures ReadAll(Stream(msgs), max) == (Expected(msgs, max), []) <==> max > 0 || forall m | m in msgs :: m == []
  {
    hide FrameOf, ReadFrame;
    assert Stream(msgs) + [] == Stream(msgs);
    if max > 0 {
      EmptyStream(max);
      StreamThen(msgs, [], max);
      assert Expected(msgs, max) + [] == Expected(msgs, max);
    } else if k: nat :| k < |msgs| && msgs[k] != [] && forall i | 0 <= i < k :: msgs[i] == [] {
      ZeroLimitSticks(msgs, [], k);
      assert msgs[k] in msgs && |Expected(msgs[..k], 0)| == k && |Expected(msgs, 0)| == |msgs|;
    } else {
      AllEmpty(msgs, |msgs|);
      EmptyMessagesPass(msgs);
    }
  }

  lemma EmptyStream(max: nat)
    ensures ReadAll([], max) == ([], [])
  {
  }

  lemma {:induction false} AllEmpty(msgs: seq<seq<byte>>, n: nat)
    requires n <= |msgs|
    requires !exists k: nat :: k < |msgs| && msgs[k] != [] && forall i | 0 <= i < k :: msgs[i] == []
    ensures forall i | 0 <= i < n :: msgs[i] == []
  {
    if n > 0 {
      AllEmpty(msgs, n - 1);
    }
  }

  lemma {:induction false} EmptyMessagesPass(msgs: seq<seq<byte>>)
    requires forall i | 0 <= i < |msgs| :: msgs[i] == []
    ensures ReadAll(Stream(msgs), 0) == (Expected(msgs, 0), [])
  {
    hide FrameOf, ReadFrame;
    if msgs == [] {
      EmptyStream(0);
      assert Expected(msgs, 0) == [];
    } else {
      FrameRoundTrip(msgs[0], Stream(msgs[1..]), 0);
      EmptyMessagesPass(msgs[1..]);
      assert Expected(msgs, 0) == [Got([])] + Expected(msgs[1..], 0);
    }
  }
}

/** Many requests write to one stream under an async lock. A cancelled holder hands its write to a task that
    finishes it; a write that fails poisons the connection only if its requester is still there. */
module WriteLock {
  import opened Bytes
  import opened Frames

  datatype Phase = Queued | Writing(written: nat) | Sent | Failed(written: nat) | Dropped

  /** `detached` says that the requester is gone; its write future was rescued. */
  datatype Write = Write(msg: seq<byte>, phase: Phase, detached: bool)

  /** `ended` lists the writes that held the lock and gave it back, in that order; `reporting` are the failed
      ones whose requester is about to poison the connection. */
  datatype State = State(writes: seq<Write>, holder: Option<nat>, wire: seq<byte>, ended: seq<nat>,
                         reporting: set<nat>, poisoned: bool)

  /** `WriteFails` is a transport error, or a message too long to be framed. */
  datatype Step =
    | Submit(msg: seq<byte>)
    | Acquire(id: nat)
    | WriteSome(id: nat, n: nat)
    | Finish(id: nat)
    | WriteFails(id: nat)
    | Report(id: nat)
    | Cancel(id: nat)

  const Init := State([], None, [], [], {}, false)

  predicate Holds(s: State, id: nat) {
    id < |s.writes| && s.holder == Some(id) && s.writes[id].phase.Writing?
  }

  predicate Enabled(s: State, step: Step) {
    match step
    case Submit(_) => true
    case Acquire(id) => id < |s.writes| && s.holder.None? && s.writes[id].phase.Queued?
    case WriteSome(id, n) =>
      && Holds(s, id) && Frameable(s.writes[id].msg)
      && n > 0 && s.writes[id].phase.written + n <= |FrameOf(s.writes[id].msg)|
    case Finish(id) =>
      && Holds(s, id) && Frameable(s.writes[id].msg)
      && s.writes[id].phase.written == |FrameOf(s.writes[id].msg)|
    case WriteFails(id) => Holds(s, id)
    case Report(id) => id in s.reporting
    case Cancel(id) =>
      id < |s.writes| && !s.writes[id].detached && (s.writes[id].phase.Queued? || s.writes[id].phase.Writing?)
  }

  function SetPhase(s: State, id: nat, phase: Phase): State
    requires id < |s.writes|
  {
    s.(writes := s.writes[id := s.writes[id].(phase := phase)])
  }

  /** One step of any task; a step that is not enabled changes nothing. */
  function Apply(s: State, step: Step): State {
    if !Enabled(s, step) then s else
    match step
    case Submit(msg) => s.(writes := s.writes + [Write(msg, Queued, false)])
    case Acquire(id) => SetPhase(s, id, Writing(0)).(holder := Some(id))
    case WriteSome(id, n) =>
      var w := s.writes[id].phase.written;
      SetPhase(s, id, Writing(w + n)).(wire := s.wire + FrameOf(s.writes[id].msg)[w..w + n])
    case Finish(id) => SetPhase(s, id, Sent).(holder := None, ended := s.ended + [id])
    case WriteFails(id) =>
      SetPhase(s, id, Failed(s.writes[id].phase.written)).(holder := None, ended := s.ended + [id],
        reporting := if s.writes[id].detached then s.reporting else s.reporting + {id})
    case Report(id) => s.(reporting := s.reporting - {id}, poisoned := true)
    case Cancel(id) =>
      var gone := s.(writes := s.writes[id := s.writes[id].(detached := true)]);
      // before the lock is held nothing was written; afterwards the rescued future goes on
      if s.writes[id].phase.Queued? then SetPhase(gone, id, Dropped) else gone
  }

  function Exec(steps: seq<Step>): State {
    if steps == [] then Init else Apply(Exec(steps[..|steps| - 1]), steps[|steps| - 1])
  }

  lemma ExecAppend(steps: seq<Step>, step: Step)
    ensures Exec(steps + [step]) == Apply(Exec(steps), step)
  {
    assert (steps + [step])[..|steps|] == steps;
  }

  /** What an ended or running write has put on the wire. */
  function Part(w: Write): (p: seq<byte>)
    ensures !Frameable(w.msg) ==> p == []
    ensures Frameable(w.msg) ==> p <= FrameOf(w.msg)
  {
    if !Frameable(w.msg) then [] else
    match w.phase
    case Sent => FrameOf(w.msg)
    case Writing(n) => if n <= |FrameOf(w.msg)| then FrameOf(w.msg)[..n] else []
    case Failed(n) => if n <= |FrameOf(w.msg)| then FrameOf(w.msg)[..n] else []
    case _ => []
  }

  predicate Known(writes: seq<Write>, ids: seq<nat>) {
    forall i | 0 <= i < |ids| :: ids[i] < |writes|
  }

  /** The parts of several writes, in order. */
  function Parts(writes: seq<Write>, ids: seq<nat>): seq<byte>
    requires Known(writes, ids)
  {
    if ids == [] then [] else Parts(writes, ids[..|ids| - 1]) + Part(writes[ids[|ids| - 1]])
  }

  /** What the current lock holder has put on the wire. */
  function Partial(s: State): seq<byte> {
    if s.holder.Some? && s.holder.value < |s.writes| then Part(s.writes[s.holder.value]) else []
  }

  predicate EndedKnown(s: State) {
    && Known(s.writes, s.ended)
    && (forall i, j | 0 <= i < j < |s.ended| :: s.ended[i] != s.ended[j])
    && forall id | 0 <= id < |s.writes| :: id in s.ended <==> s.writes[id].phase.Sent? || s.writes[id].phase.Failed?
  }

  predicate HolderIsWriter(s: State) {
    && (forall id | 0 <= id < |s.writes| && s.writes[id].phase.Writing? :: s.holder == Some(id))
    && (s.holder.Some? ==> Holds(s, s.holder.value))
  }

  predicate HolderWrites(s: State) {
    && HolderIsWriter(s)
    && forall id | 0 <= id < |s.writes| ::
         var w := s.writes[id];
         && (w.phase.Sent? ==> Frameable(w.msg))
         && (w.phase.Writing? || w.phase.Failed? ==>
               w.phase.written <= if Frameable(w.msg) then |FrameOf(w.msg)| else 0)
  }

  /** A failed write was detached, or its requester poisons or has poisoned the connection. */
  predicate FailuresReported(s: State) {
    forall id | 0 <= id < |s.writes| && s.writes[id].phase.Failed? ::
      s.writes[id].detached || id in s.reporting || s.poisoned
  }

  ghost predicate Inv(s: State) {
    && EndedKnown(s) && HolderWrites(s) && FailuresReported(s)
    && s.wire == Parts(s.writes, s.ended) + Partial(s)
  }

  lemma {:induction false} PartsSame(before: seq<Write>, after: seq<Write>, ids: seq<nat>)
    requires Known(before, ids) && Known(after, ids)
    requires forall i | 0 <= i < |ids| :: Part(before[ids[i]]) == Part(after[ids[i]])
    ensures Parts(before, ids) == Parts(after, ids)
  {
    hide Part;
    if ids != [] {
      PartsSame(before, after, ids[..|ids| - 1]);
    }
  }

  lemma PartsSnoc(writes: seq<Write>, ids: seq<nat>, id: nat)
    requires id < |writes| && Known(writes, ids)
    ensures Parts(writes, ids + [id]) == Parts(writes, ids) + Part(writes[id])
  {
    assert (ids + [id])[..|ids|] == ids;
  }

  lemma EndedKept(s: State, step: Step)
    requires EndedKnown(s) && HolderWrites(s)
    ensures EndedKnown(Apply(s, step))
  {
    hide FrameOf, Frameable;
    var t := Apply(s, step);
    if Enabled(s, step) && (step.Finish? || step.WriteFails?) {
      assert step.id !in s.ended;
      assert forall id :: id in t.ended <==> id in s.ended || id == step.id;
    }
  }

  lemma HolderKept(s: State, step: Step)
    requires HolderWrites(s)
    ensures HolderWrites(Apply(s, step))
  {
    hide FrameOf, Frameable;
    WriterKept(s, step);
    hide HolderIsWriter;
  }

  lemma WriterKept(s: State, step: Step)
    requires HolderIsWriter(s)
    ensures HolderIsWriter(Apply(s, step))
  {
    hide FrameOf, Frameable;
  }

  lemma ReportsKept(s: State, step: Step)
    requires FailuresReported(s)
    ensures FailuresReported(Apply(s, step))
  {
    hide FrameOf, Frameable;
  }

  /** Only the holder's part changes. */
  lemma EndedPartsKept(s: State, step: Step)
    requires EndedKnown(s)
    ensures |s.writes| <= |Apply(s, step).writes|
    ensures forall i | 0 <= i < |s.ended| :: Part(Apply(s, step).writes[s.ended[i]]) == Part(s.writes[s.ended[i]])
  {
    hide FrameOf;
  }

  lemma StepKeeps(s: State, step: Step)
    requires Inv(s)
    ensures Inv(Apply(s, step))
  {
    hide Apply, Parts, Part, Partial;
    EndedKept(s, step);
    HolderKept(s, step);
    ReportsKept(s, step);
    EndedPartsKept(s, step);
    var t := Apply(s, step);
    PartsSame(s.writes, t.writes, s.ended);
    if Enabled(s, step) {
      match step
      case WriteSome(id, n) => WriteSomeExtends(s, id, n);
      case Finish(id) => EndKeepsWire(s, t, id);
      case WriteFails(id) => EndKeepsWire(s, t, id);
      case Acquire(id) => AcquireKeepsWire(s, id);
      case _ => BystanderKeepsPartial(s, step);
    } else {
      DisabledStep(s, step);
    }
  }

  lemma DisabledStep(s: State, step: Step)
    requires !Enabled(s, step)
    ensures Apply(s, step) == s
  {
  }

  lemma WriteSomeExtends(s: State, id: nat, n: nat)
    requires Inv(s) && Enabled(s, WriteSome(id, n))
    ensures var t := Apply(s, WriteSome(id, n));
      t.wire == Parts(s.writes, s.ended) + Partial(t) && t.ended == s.ended
  {
    hide FrameOf, Parts, FailuresReported;
    var t, parts := Apply(s, WriteSome(id, n)), Parts(s.writes, s.ended);
    var f, w := FrameOf(s.writes[id].msg), s.writes[id].phase.written;
    assert Partial(s) == f[..w] && Partial(t) == f[..w + n];
    hide HolderWrites, Part, Partial, EndedKnown;
    assert f[..w] + f[w..w + n] == f[..w + n];
    assert parts + f[..w] + f[w..w + n] == parts + (f[..w] + f[w..w + n]);
  }

  lemma EndKeepsWire(s: State, t: State, id: nat)
    requires Inv(s) && Holds(s, id) && EndedKnown(t)
    requires (t == Apply(s, Finish(id)) && Enabled(s, Finish(id))) || t == Apply(s, WriteFails(id))
    requires Known(t.writes, s.ended) && Parts(s.writes, s.ended) == Parts(t.writes, s.ended)
    ensures t.wire == Parts(t.writes, t.ended) + Partial(t)
  {
    hide FrameOf, Parts;
    assert forall i | 0 <= i < |s.ended| :: s.ended[i] == t.ended[i];
    PartsSnoc(t.writes, s.ended, id);
    var f := s.writes[id].msg;
    if Frameable(f) {
      assert FrameOf(f)[..|FrameOf(f)|] == FrameOf(f);
    }
    assert Part(t.writes[id]) == Partial(s);
    assert Parts(t.writes, t.ended) + [] == Parts(t.writes, t.ended);
  }

  lemma AcquireKeepsWire(s: State, id: nat)
    requires Inv(s) && Enabled(s, Acquire(id))
    ensures var t := Apply(s, Acquire(id)); Partial(t) == Partial(s) && t.wire == s.wire && t.ended == s.ended
  {
    hide FrameOf, Parts;
  }

  lemma BystanderKeepsPartial(s: State, step: Step)
    requires Inv(s) && (step.Submit? || step.Cancel? || step.Report?)
    ensures var t := Apply(s, step); Partial(t) == Partial(s) && t.wire == s.wire && t.ended == s.ended
  {
    hide FrameOf, Parts;
  }

  lemma {:induction false} RunKeeps(steps: seq<Step>)
    ensures Inv(Exec(steps))
  {
    if steps != [] {
      RunKeeps(steps[..|steps| - 1]);
      StepKeeps(Exec(steps[..|steps| - 1]), steps[|steps| - 1]);
    }
  }

  // ---------------------------------------------------------------- what is on the wire

  /** In every run, whatever is cancelled or fails, the wire is what each write put there while it held the
      lock: whole frames of the sent ones, prefixes of the failed ones and of the holder's. */
  lemma WireIsParts(steps: seq<Step>)
    ensures var s := Exec(steps);
      && EndedKnown(s)
      && s.wire == Parts(s.writes, s.ended) + Partial(s)
      && (s.holder.None? ==> Partial(s) == [])
      && (s.holder.Some? ==> Holds(s, s.holder.value))
  {
    RunKeeps(steps);
  }

  /** The sent messages among several writes, in order. */
  function SentMessages(writes: seq<Write>, ids: seq<nat>): (msgs: seq<seq<byte>>)
    requires Known(writes, ids)
    ensures forall m | m in msgs :: Frameable(m)
  {
    if ids == [] then [] else
    var w := writes[ids[|ids| - 1]];
    SentMessages(writes, ids[..|ids| - 1]) + if w.phase.Sent? && Frameable(w.msg) then [w.msg] else []
  }

  /** A write that ended early and left something behind. */
  predicate Torn(w: Write) {
    w.phase.Failed? && Part(w) != []
  }

  lemma {:induction false} PartsAreStream(writes: seq<Write>, ids: seq<nat>)
    requires Known(writes, ids)
    requires forall i | 0 <= i < |ids| ::
               writes[ids[i]].phase.Failed? || (writes[ids[i]].phase.Sent? && Frameable(writes[ids[i]].msg))
    ensures |Stream(SentMessages(writes, ids))| <= |Parts(writes, ids)|
    ensures Parts(writes, ids) == Stream(SentMessages(writes, ids))
       <==> forall i | 0 <= i < |ids| :: !Torn(writes[ids[i]])
  {
    hide FrameOf, Stream, Parts, SentMessages, Part;
    if ids == [] {
      NothingEnded(writes);
    } else {
      var n := |ids| - 1;
      var w := writes[ids[n]];
      PartsAreStream(writes, ids[..n]);
      LastEnded(writes, ids);
      var parts, msgs := Parts(writes, ids[..n]), SentMessages(writes, ids[..n]);
      assert (forall i | 0 <= i < |ids| :: !Torn(writes[ids[i]]))
        <==> (forall i | 0 <= i < n :: !Torn(writes[ids[..n][i]])) && !Torn(w);
      if w.phase.Sent? {
        StreamAppend(msgs, w.msg);
        SameTail(parts, Stream(msgs), FrameOf(w.msg));
      } else {
        NoShorter(parts, Part(w), Stream(msgs));
      }
    }
  }

  lemma NothingEnded(writes: seq<Write>)
    ensures Parts(writes, []) == [] == Stream(SentMessages(writes, []))
  {
  }

  lemma LastEnded(writes: seq<Write>, ids: seq<nat>)
    requires ids != [] && Known(writes, ids)
    ensures var n := |ids| - 1;
      var w := writes[ids[n]];
      && Parts(writes, ids) == Parts(writes, ids[..n]) + Part(w)
      && (w.phase.Sent? && Frameable(w.msg) ==>
            Part(w) == FrameOf(w.msg) && SentMessages(writes, ids) == SentMessages(writes, ids[..n]) + [w.msg])
      && (!w.phase.Sent? ==> SentMessages(writes, ids) == SentMessages(writes, ids[..n]))
  {
    hide FrameOf;
  }

  lemma NoShorter<T>(a: seq<T>, b: seq<T>, c: seq<T>)
    requires |c| <= |a|
    ensures a + b == c <==> a == c && b == []
  {
    if a + b == c {
      assert a + [] == a;
    }
  }

  lemma EndedAreSentOrFailed(s: State)
    requires Inv(s)
    ensures forall i | 0 <= i < |s.ended| ::
              var w := s.writes[s.ended[i]]; w.phase.Failed? || (w.phase.Sent? && Frameable(w.msg))
  {
    hide FrameOf, Parts, Partial;
    assert forall i | 0 <= i < |s.ended| :: s.ended[i] in s.ended;
  }

  lemma SameTail<T>(a: seq<T>, b: seq<T>, c: seq<T>)
    ensures a + c == b + c <==> a == b
  {
    if a + c == b + c {
      assert |a| == |b|;
      assert (a + c)[..|a|] == a && (b + c)[..|b|] == b;
    }
  }

  /** The wire is the sent frames in lock order, each once, and then a part of the holder's frame, exactly
      unless some write failed after its first byte. */
  lemma WireIsWholeFramesIff(steps: seq<Step>)
    ensures var s := Exec(steps);
      && EndedKnown(s)
      && (s.wire == Stream(SentMessages(s.writes, s.ended)) + Partial(s)
          <==> forall id | 0 <= id < |s.writes| :: !Torn(s.writes[id]))
  {
    hide Parts, Stream, Part, SentMessages, FrameOf, Exec;
    RunKeeps(steps);
    var s := Exec(steps);
    EndedAreSentOrFailed(s);
    PartsAreStream(s.writes, s.ended);
    forall id | 0 <= id < |s.writes| && Torn(s.writes[id]) ensures exists i :: 0 <= i < |s.ended| && s.ended[i] == id {
      assert id in s.ended;
    }
    SameTail(Parts(s.writes, s.ended), Stream(SentMessages(s.writes, s.ended)), Partial(s));
  }

  /** On a connection that nobody has poisoned or is about to poison, a torn frame comes from a write whose
      requester was cancelled. */
  lemma TornOnlyIfDetached(steps: seq<Step>, id: nat)
    requires id < |Exec(steps).writes| && Torn(Exec(steps).writes[id])
    ensures var s := Exec(steps); s.writes[id].detached || id in s.reporting || s.poisoned
  {
    RunKeeps(steps);
  }

  /** Who poisons: requesters of failed writes that were still there, all of them and nobody else. */
  ghost predicate PoisonMatches(s: State) {
    && (forall id | id in s.reporting :: LoudFailure(s, id))
    && ((s.poisoned || s.reporting != {}) <==> exists id: nat :: LoudFailure(s, id))
  }

  /** A write that failed while its requester was waiting for it. */
  predicate LoudFailure(s: State, id: nat) {
    id < |s.writes| && s.writes[id].phase.Failed? && !s.writes[id].detached
  }

  lemma PoisonKept(s: State, step: Step)
    requires PoisonMatches(s)
    ensures PoisonMatches(Apply(s, step))
  {
    hide FrameOf, Frameable;
    var t := Apply(s, step);
    forall id: nat | LoudFailure(s, id) ensures LoudFailure(t, id) {
    }
    forall id: nat | LoudFailure(t, id) ensures LoudFailure(s, id) || (step == WriteFails(id) && id in t.reporting) {
    }
    if Enabled(s, step) && (step.Report? || (step.WriteFails? && !s.writes[step.id].detached)) {
      assert LoudFailure(t, step.id);
    }
  }

  /** In every run the connection is poisoned, or about to be, exactly if some write failed whose requester was
      not cancelled: the failure of a detached write never poisons it. */
  lemma {:induction false} PoisonedIff(steps: seq<Step>)
    ensures PoisonMatches(Exec(steps))
    ensures var s := Exec(steps);
      (s.poisoned || s.reporting != {})
      <==> exists id: nat :: id < |s.writes| && s.writes[id].phase.Failed? && !s.writes[id].detached
  {
    if steps != [] {
      PoisonedIff(steps[..|steps| - 1]);
      PoisonKept(Exec(steps[..|steps| - 1]), steps[|steps| - 1]);
    }
    var s := Exec(steps);
    if id: nat :| id < |s.writes| && s.writes[id].phase.Failed? && !s.writes[id].detached {
      assert LoudFailure(s, id);
    }
  }

  /** Such a torn frame is reachable, and another frame follows it: the rescued write fails unnoticed. */
  lemma DetachedFailureTears(a: seq<byte>, b: seq<byte>)
    requires Frameable(a) && Frameable(b)
    ensures var s := Exec([Submit(a), Acquire(0), WriteSome(0, 1), Cancel(0), WriteFails(0),
                           Submit(b), Acquire(1), WriteSome(1, |FrameOf(b)|), Finish(1)]);
      && !s.poisoned && s.reporting == {}
      && s.wire == FrameOf(a)[..1] + FrameOf(b)
      && |s.writes| == 2 && Torn(s.writes[0]) && s.writes[1].phase.Sent?
  {
    hide FrameOf, Apply;
    RescuedWriteFails(a);
    NextWriteFollows(a, b);
    ExecNine(Submit(a), Acquire(0), WriteSome(0, 1), Cancel(0), WriteFails(0), Submit(b), Acquire(1),
             WriteSome(1, |FrameOf(b)|), Finish(1));
  }

  /** One byte out, then cancelled, then failed. */
  function AfterTear(a: seq<byte>): State
    requires Frameable(a)
  {
    State([Write(a, Failed(1), true)], None, FrameOf(a)[..1], [0], {}, false)
  }

  lemma RescuedWriteFails(a: seq<byte>)
    requires Frameable(a)
    ensures Apply(Apply(Apply(Apply(Apply(Init, Submit(a)), Acquire(0)), WriteSome(0, 1)), Cancel(0)), WriteFails(0))
         == AfterTear(a)
  {
    hide FrameOf, Frameable;
    var s1 := Apply(Init, Submit(a));
    assert s1 == Init.(writes := [Write(a, Queued, false)]);
    var s2 := Apply(s1, Acquire(0));
    assert s2 == State([Write(a, Writing(0), false)], Some(0), [], [], {}, false);
    var s3 := Apply(s2, WriteSome(0, 1));
    assert [] + FrameOf(a)[0..1] == FrameOf(a)[..1];
    assert s3 == State([Write(a, Writing(1), false)], Some(0), FrameOf(a)[..1], [], {}, false);
  }

  lemma NextWriteFollows(a: seq<byte>, b: seq<byte>)
    requires Frameable(a) && Frameable(b)
    ensures var holding := Apply(Apply(AfterTear(a), Submit(b)), Acquire(1));
      var s := Apply(Apply(holding, WriteSome(1, |FrameOf(b)|)), Finish(1));
      && !s.poisoned && s.reporting == {}
      && s.wire == FrameOf(a)[..1] + FrameOf(b)
      && |s.writes| == 2 && Torn(s.writes[0]) && s.writes[1].phase.Sent?
  {
    hide FrameOf, Frameable;
    var n := |FrameOf(b)|;
    var torn := Write(a, Failed(1), true);
    var s1 := Apply(AfterTear(a), Submit(b));
    assert s1.writes == [torn, Write(b, Queued, false)];
    var s2 := Apply(s1, Acquire(1));
    assert s2.writes == [torn, Write(b, Writing(0), false)];
    var s3 := Apply(s2, WriteSome(1, n));
    assert FrameOf(b)[0..n] == FrameOf(b);
    assert s3.writes == [torn, Write(b, Writing(n), false)];
  }

  lemma ExecNine(a: Step, b: Step, c: Step, d: Step, e: Step, f: Step, g: Step, h: Step, i: Step)
    ensures Exec([a, b, c, d, e, f, g, h, i])
         == Apply(Apply(Apply(Apply(Apply(Apply(Apply(Apply(Apply(Init, a), b), c), d), e), f), g), h), i)
  {
    hide Apply, Exec;
    var five := [a, b, c, d, e];
    ExecFive(a, b, c, d, e);
    assert five + [f] == [a, b, c, d, e, f] && five + [f] + [g] == [a, b, c, d, e, f, g];
    assert five + [f] + [g] + [h] == [a, b, c, d, e, f, g, h];
    assert five + [f] + [g] + [h] + [i] == [a, b, c, d, e, f, g, h, i];
    ExecAppend(five, f);
    ExecAppend(five + [f], g);
    ExecAppend(five + [f] + [g], h);
    ExecAppend(five + [f] + [g] + [h], i);
  }

  lemma ExecFive(a: Step, b: Step, c: Step, d: Step, e: Step)
    ensures Exec([a, b, c, d, e]) == Apply(Apply(Apply(Apply(Apply(Init, a), b), c), d), e)
  {
    hide Apply;
    assert [] + [a] == [a] && [a] + [b] == [a, b] && [a, b] + [c] == [a, b, c];
    assert [a, b, c] + [d] == [a, b, c, d] && [a, b, c, d] + [e] == [a, b, c, d, e];
    ExecAppend([], a);
    ExecAppend([a], b);
    ExecAppend([a, b], c);
    ExecAppend([a, b, c], d);
    ExecAppend([a, b, c, d], e);
  }

  // ---------------------------------------------------------------- what a reader gets

  /** Without torn frames a reader gets the sent messages in order, the holder's too once its last byte is
      out, and otherwise is left with the holder's part. */
  lemma WireDecodes(steps: seq<Step>, max: nat)
    requires max > 0
    requires forall id | 0 <= id < |Exec(steps).writes| :: !Torn(Exec(steps).writes[id])
    ensures var s := Exec(steps);
      && EndedKnown(s)
      && var msgs := SentMessages(s.writes, s.ended);
      if HolderIsDone(s) then ReadAll(s.wire, max) == (Expected(msgs + [s.writes[s.holder.value].msg], max), [])
      else ReadAll(s.wire, max) == (Expected(msgs, max), Partial(s))
  {
    RunKeeps(steps);
    WireIsWholeFramesIff(steps);
    var s := Exec(steps);
    var msgs := SentMessages(s.writes, s.ended);
    hide FrameOf, Stream, ReadAll, Parts, Exec, SentMessages, EndedKnown;
    if HolderIsDone(s) {
      var msg := s.writes[s.holder.value].msg;
      StreamAppend(msgs, msg);
      assert FrameOf(msg)[..|FrameOf(msg)|] == FrameOf(msg);
      assert Stream(msgs + [msg]) == s.wire;
      StreamDecodesIff(msgs + [msg], max);
    } else if s.holder.None? || !Frameable(s.writes[s.holder.value].msg) {
      assert Partial(s) == [] && Stream(msgs) + [] == Stream(msgs);
      StreamDecodesIff(msgs, max);
    } else {
      var w := s.writes[s.holder.value];
      StreamDecodes(msgs, w.msg, w.phase.written, max);
    }
  }

  /** The lock holder has written its whole frame and only has to give the lock back. */
  predicate HolderIsDone(s: State) {
    && s.holder.Some? && Holds(s, s.holder.value) && Frameable(s.writes[s.holder.value].msg)
    && s.writes[s.holder.value].phase.written == |FrameOf(s.writes[s.holder.value].msg)|
  }

  /** In every run the messages sent before the first torn frame are read first and in order. */
  lemma MessagesBeforeTearDecode(steps: seq<Step>, n: nat, max: nat)
    requires max > 0 && n <= |Exec(steps).ended|
    requires var s := Exec(steps); forall id | 0 <= id < |s.writes| && id in s.ended[..n] :: !Torn(s.writes[id])
    ensures var s := Exec(steps);
      && Known(s.writes, s.ended[..n])
      && Expected(SentMessages(s.writes, s.ended[..n]), max) <= ReadAll(s.wire, max).0
  {
    hide FrameOf, Stream, ReadAll, Parts, Exec, SentMessages, Part, Expected;
    RunKeeps(steps);
    var s := Exec(steps);
    var ids := s.ended[..n];
    EndedAreSentOrFailed(s);
    assert forall i | 0 <= i < n :: ids[i] == s.ended[i] && ids[i] in ids;
    var msgs := SentMessages(s.writes, ids);
    PartsAreStream(s.writes, ids);
    PartsPrefix(s.writes, s.ended, n);
    hide EndedKnown, HolderWrites, FailuresReported, Torn;
    var rest := Parts(s.writes, s.ended)[|Parts(s.writes, ids)|..] + Partial(s);
    assert s.wire == Stream(msgs) + rest;
    StreamThen(msgs, rest, max);
  }

  lemma {:induction false} PartsPrefix(writes: seq<Write>, ids: seq<nat>, n: nat)
    requires n <= |ids| && Known(writes, ids)
    ensures Parts(writes, ids[..n]) <= Parts(writes, ids)
  {
    hide Part;
    if n < |ids| {
      assert ids[..|ids| - 1][..n] == ids[..n];
      PartsPrefix(writes, ids[..|ids| - 1], n);
    } else {
      assert ids[..n] == ids;
    }
  }

  /** A write cancelled before it got the lock never puts a byte on the wire, in any continuation. */
  lemma {:induction false} CancelledInTheQueueIsNeverSent(steps: seq<Step>, id: nat, more: seq<Step>)
    requires var s := Exec(steps); id < |s.writes| && s.writes[id].phase.Queued? && !s.writes[id].detached
    ensures var t := Exec(steps + [Cancel(id)] + more);
      && id < |t.writes| && t.writes[id].phase.Dropped? && Part(t.writes[id]) == []
      && t.holder != Some(id) && id !in t.ended
  {
    hide Apply, Exec, Part, Inv;
    var from := steps + [Cancel(id)];
    RunKeeps(from + more);
    if more == [] {
      assert from + more == from;
      ExecAppend(steps, Cancel(id));
      CancelDrops(Exec(steps), id);
    } else {
      var n := |more| - 1;
      CancelledInTheQueueIsNeverSent(steps, id, more[..n]);
      assert from + more[..n] + [more[n]] == from + more;
      ExecAppend(from + more[..n], more[n]);
      DroppedStays(Exec(from + more[..n]), more[n], id);
    }
    DroppedMeans(Exec(from + more), id);
  }

  lemma CancelDrops(s: State, id: nat)
    requires id < |s.writes| && s.writes[id].phase.Queued? && !s.writes[id].detached
    ensures id < |Apply(s, Cancel(id)).writes| && Apply(s, Cancel(id)).writes[id].phase.Dropped?
  {
  }

  lemma DroppedMeans(s: State, id: nat)
    requires Inv(s) && id < |s.writes| && s.writes[id].phase.Dropped?
    ensures Part(s.writes[id]) == [] && s.holder != Some(id) && id !in s.ended
  {
    hide FrameOf, Parts;
  }

  lemma DroppedStays(s: State, step: Step, id: nat)
    requires id < |s.writes| && s.writes[id].phase.Dropped?
    ensures id < |Apply(s, step).writes| && Apply(s, step).writes[id].phase.Dropped?
  {
    hide FrameOf, Frameable;
  }

  /** A write that got the lock is never lost: cancelling it changes neither the lock nor the wire, and
      its remaining steps stay enabled. */
  lemma CancelDoesNotInterrupt(s: State, id: nat, next: Step)
    requires Holds(s, id)
    requires next.WriteSome? || next.Finish? || next.WriteFails?
    ensures var s' := Apply(s, Cancel(id));
      && s'.wire == s.wire && s'.holder == s.holder && s'.ended == s.ended
      && (Enabled(s', next) <==> Enabled(s, next))
  {
  }
}
