/** The record type of the public interface. */
module ClientRecords {
  import opened Bytes
  import opened RecordFormat

  const MILLI := 1_000_000
  const MIN_MILLIS := -8334601228800000
  const MAX_MILLIS := 8210266876799999

  /** A point in time in nanoseconds since the epoch, within the calendar's range. */
  type instant = t: int | MIN_MILLIS * MILLI <= t < (MAX_MILLIS + 1) * MILLI

  /** Headers are an ordered map, given by its entries in key order. */
  datatype ClientRecord = ClientRecord(key: Option<seq<byte>>, value: Option<seq<byte>>,
                                       headers: seq<Header>, timestamp: instant)

  function OptionalSize(o: Option<seq<byte>>): nat {
    if o.None? then 0 else |o.value|
  }

  function HeadersSize(hs: seq<Header>): nat {
    if hs == [] then 0 else |hs[0].key| + |hs[0].value| + HeadersSize(hs[1..])
  }

  function ApproximateSize(r: ClientRecord): nat {
    OptionalSize(r.key) + OptionalSize(r.value) + HeadersSize(r.headers)
  }

  function TotalSize(rs: seq<ClientRecord>): nat {
    if rs == [] then 0 else TotalSize(rs[..|rs| - 1]) + ApproximateSize(rs[|rs| - 1])
  }

  lemma TotalSizeAppend(rs: seq<ClientRecord>, r: ClientRecord)
    ensures TotalSize(rs + [r]) == TotalSize(rs) + ApproximateSize(r)
  {
    assert (rs + [r])[..|rs|] == rs;
  }
}

/** Batching records up to a number of bytes, and finding each caller's offset again. */
module Aggregators {
  import opened Bytes
  import opened ClientRecords

  datatype TryPush = NoCapacity(input: ClientRecord) | Aggregated(tag: nat)

  class RecordAggregator {
    const maxBatchSize: nat
    var batchSize: nat
    var records: seq<ClientRecord>

    ghost predicate Valid()
      reads this
    {
      batchSize == TotalSize(records) && batchSize <= maxBatchSize
    }

    constructor (maxBatchSize: nat)
      ensures Valid() && records == [] && this.maxBatchSize == maxBatchSize
    {
      this.maxBatchSize := maxBatchSize;
      batchSize := 0;
      records := [];
    }

    /** Accepts while the summed size stays within the limit; the tag is the record's position. */
    method TryPush(record: ClientRecord) returns (r: TryPush)
      requires Valid()
      modifies this
      ensures Valid()
      ensures r.Aggregated? <==> TotalSize(old(records)) + ApproximateSize(record) <= maxBatchSize
      ensures r.Aggregated? ==> records == old(records) + [record] && r.tag == |old(records)|
      ensures r.NoCapacity? ==> records == old(records) && r.input == record
    {
      var size := ApproximateSize(record);
      if batchSize + size > maxBatchSize {
        return NoCapacity(record);
      }
      TotalSizeAppend(records, record);
      r := Aggregated(|records|);
      batchSize := batchSize + size;
      records := records + [record];
    }

    method Flush() returns (batch: seq<ClientRecord>)
      requires Valid()
      modifies this
      ensures Valid() && records == [] && batch == old(records)
    {
      batch := records;
      records := [];
      batchSize := 0;
    }
  }

  /** The offsets the partition client reports for `n` records accepted at `base`. */
  function ProducedOffsets(n: nat, base: int64): (offsets: seq<int>)
    ensures |offsets| == n
  {
    seq(n, i => base + i)
  }

  function Deaggregate(offsets: seq<int>, tag: nat): int
    requires tag < |offsets|
  {
    offsets[tag]
  }
}

/** The scheduler: a shared buffer, a logical flush clock used as a token, one linger role per batch,
    and background flush tasks. */
module Producer {
  import Broadcast
  import opened Bytes
  import opened ClientRecords
  import opened Aggregators
  import opened VecBuilders

  /** What the mutex protects. `pending` are the flush tasks, named by the batch they write. */
  datatype Inner = Inner(max: nat, buffer: seq<ClientRecord>, clock: u64, hasLinger: bool, pending: seq<nat>)

  /** What an accepted caller has to do besides waiting for its result. */
  datatype Role = JustWait(tag: nat) | Linger(tag: nat, token: u64)

  datatype PushError = TooLarge

  predicate Accepts(i: Inner, r: ClientRecord) {
    TotalSize(i.buffer) + ApproximateSize(r) <= i.max
  }

  function Unfinished(tasks: seq<nat>, finished: set<nat>): (left: seq<nat>)
    ensures forall t :: t in left <==> t in tasks && t !in finished
  {
    if tasks == [] then []
    else if tasks[0] in finished then Unfinished(tasks[1..], finished)
    else [tasks[0]] + Unfinished(tasks[1..], finished)
  }

  /** An unconditional flush; `task` writes the batch unless it is empty. */
  function FlushInner(i: Inner, finished: set<nat>, task: nat): Inner {
    i.(buffer := [], clock := (i.clock + 1) % TWO_64, hasLinger := false,
       pending := Unfinished(i.pending, finished) + if i.buffer == [] then [] else [task])
  }

  /** A push flushes first when the record does not fit, and fails if it does not fit an empty batch. */
  function PushInner(i: Inner, r: ClientRecord, finished: set<nat>, task: nat): (Inner, Result<Role, PushError>) {
    var j := if Accepts(i, r) then i else FlushInner(i, finished, task);
    if !Accepts(j, r) then (j, Err(TooLarge))
    else (j.(buffer := j.buffer + [r], hasLinger := true),
          Ok(if j.hasLinger then JustWait(|j.buffer|) else Linger(|j.buffer|, j.clock)))
  }

  /** The code under the mutex. */
  class ProducerInner {
    const aggregator: RecordAggregator
    var flushClock: u64
    var hasLingerWaiter: bool
    var pendingFlushes: seq<nat>

    ghost predicate Valid()
      reads this, aggregator
    {
      aggregator.Valid()
    }

    ghost function Now(): Inner
      reads this, aggregator
    {
      Inner(aggregator.maxBatchSize, aggregator.records, flushClock, hasLingerWaiter, pendingFlushes)
    }

    constructor (aggregator: RecordAggregator)
      requires aggregator.Valid()
      ensures Valid() && this.aggregator == aggregator
      ensures Now() == Inner(aggregator.maxBatchSize, aggregator.records, 0, false, [])
    {
      this.aggregator := aggregator;
      flushClock := 0;
      hasLingerWaiter := false;
      pendingFlushes := [];
    }

    /** A flush with a token is conditional on the token being current. */
    method Flush(token: Option<u64>, finished: set<nat>, task: nat) returns (batch: Option<seq<ClientRecord>>)
      requires Valid()
      modifies this, aggregator
      ensures Valid()
      ensures token.Some? && token.value != old(flushClock) ==> batch == None && Now() == old(Now())
      ensures token.None? || token.value == old(flushClock) ==>
                batch == Some(old(Now()).buffer) && Now() == FlushInner(old(Now()), finished, task)
    {
      if token.Some? && token.value != flushClock {
        return None;
      }
      var records := aggregator.Flush();
      pendingFlushes := Unfinished(pendingFlushes, finished);
      if records != [] {
        pendingFlushes := pendingFlushes + [task];
      }
      flushClock := (flushClock + 1) % TWO_64;
      hasLingerWaiter := false;
      return Some(records);
    }

    method Push(record: ClientRecord, finished: set<nat>, task: nat) returns (r: Result<Role, PushError>)
      requires Valid()
      modifies this, aggregator
      ensures Valid()
      ensures (Now(), r) == PushInner(old(Now()), record, finished, task)
    {
      var pushed := aggregator.TryPush(record);
      if pushed.NoCapacity? {
        var _ := Flush(None, finished, task);
        pushed := aggregator.TryPush(record);
        if pushed.NoCapacity? {
          return Err(TooLarge);
        }
      }
      if hasLingerWaiter {
        return Ok(JustWait(pushed.tag));
      }
      hasLingerWaiter := true;
      return Ok(Linger(pushed.tag, flushClock));
    }
  }

  // ---------------------------------------------------------------- all tasks together

  /** A caller waits for batch number `batch` and presents `tag` to find its own offset. */
  datatype Caller = Caller(batch: nat, tag: nat)

  /** A spawned linger timer; `epoch` is the number of flushes there had been when it was issued. */
  datatype Timer = Timer(token: u64, epoch: nat, fired: bool)

  /** How a flush task ended: the broker accepted the batch at `base`, or the client gave up. */
  datatype BatchResult = Written(base: int64) | ClientFailed

  /** `flushed` are all flushed batches in order; `taken` are the tasks manual flushes took over. */
  datatype State = State(inner: Inner, accepted: seq<ClientRecord>, flushed: seq<seq<ClientRecord>>,
                         callers: seq<Caller>, timers: seq<Timer>, results: map<nat, BatchResult>, taken: set<nat>)

  function Init(max: nat): State {
    State(Inner(max, [], 0, false, []), [], [], [], [], map[], {})
  }

  datatype Step =
    | Push(record: ClientRecord, finished: set<nat>)
    | TimerFires(timer: nat, finished: set<nat>)
    | ManualFlush(finished: set<nat>)
    | Complete(batch: nat, result: BatchResult)

  predicate Enabled(s: State, step: Step) {
    match step
    case Push(_, finished) => finished <= s.results.Keys
    case TimerFires(k, finished) => finished <= s.results.Keys && k < |s.timers| && !s.timers[k].fired
    case ManualFlush(finished) => finished <= s.results.Keys
    case Complete(b, _) => b < |s.flushed| && s.flushed[b] != [] && b !in s.results
  }

  function Flushed(s: State, finished: set<nat>): State {
    s.(inner := FlushInner(s.inner, finished, |s.flushed|), flushed := s.flushed + [s.inner.buffer])
  }

  /** Recording a push into the batch that is open now. */
  function Accepted(s: State, r: ClientRecord): State {
    s.(inner := s.inner.(buffer := s.inner.buffer + [r], hasLinger := true),
       accepted := s.accepted + [r],
       callers := s.callers + [Caller(|s.flushed|, |s.inner.buffer|)],
       timers := if s.inner.hasLinger then s.timers else s.timers + [Timer(s.inner.clock, |s.flushed|, false)])
  }

  function Pushed(s: State, r: ClientRecord, finished: set<nat>): State {
    var t := if Accepts(s.inner, r) then s else Flushed(s, finished);
    if Accepts(t.inner, r) then Accepted(t, r) else t
  }

  function Apply(s: State, step: Step): State {
    if !Enabled(s, step) then s else
    match step
    case Push(r, finished) => Pushed(s, r, finished)
    case TimerFires(k, finished) =>
      var t := s.(timers := s.timers[k := s.timers[k].(fired := true)]);
      if s.timers[k].token == s.inner.clock then Flushed(t, finished) else t
    case ManualFlush(finished) =>
      var t := Flushed(s, finished);
      t.(inner := t.inner.(pending := []), taken := t.taken + set b | b in t.inner.pending)
    case Complete(b, result) => s.(results := s.results[b := result])
  }

  function Exec(max: nat, steps: seq<Step>): State {
    if steps == [] then Init(max) else Apply(Exec(max, steps[..|steps| - 1]), steps[|steps| - 1])
  }

  /** The pushing code and the global step agree: same buffer, same linger decision, same tag. */
  lemma PushMatchesInner(s: State, r: ClientRecord, finished: set<nat>)
    ensures var t := Pushed(s, r, finished);
      var (i, role) := PushInner(s.inner, r, finished, |s.flushed|);
      && t.inner == i
      && (role.Ok? ==> |t.callers| == |s.callers| + 1 && t.callers[|s.callers|].tag == role.value.tag)
      && (role.Ok? && role.value.Linger? ==>
            |t.timers| == |s.timers| + 1 && t.timers[|s.timers|].token == role.value.token)
      && (role.Err? || role.value.JustWait? ==> t.timers == s.timers)
      && (role.Err? ==> t.accepted == s.accepted && t.callers == s.callers)
  {
  }

  // ---------------------------------------------------------------- invariants

  /** Batch `b`: a flushed one, or the open buffer. */
  function Batch(s: State, b: nat): seq<ClientRecord> {
    if b < |s.flushed| then s.flushed[b] else s.inner.buffer
  }

  /** Acceptance order is flush order. */
  ghost predicate Conserved(s: State) {
    && s.accepted == Flatten(s.flushed) + s.inner.buffer
    && (forall b | 0 <= b < |s.flushed| :: TotalSize(s.flushed[b]) <= s.inner.max)
    && TotalSize(s.inner.buffer) <= s.inner.max
  }

  /** Caller `k` points at exactly the record it pushed. */
  ghost predicate CallersFind(s: State) {
    && |s.callers| == |s.accepted|
    && forall k | 0 <= k < |s.callers| ::
         && s.callers[k].batch <= |s.flushed|
         && s.callers[k].tag < |Batch(s, s.callers[k].batch)|
         && k == |Flatten(s.flushed[..s.callers[k].batch])| + s.callers[k].tag
  }

  /** One outstanding timer of the open batch while the buffer holds something, none otherwise. */
  ghost predicate TimersMatch(s: State) {
    && s.inner.clock == |s.flushed| % TWO_64
    && (s.inner.hasLinger <==> s.inner.buffer != [])
    && (forall k | 0 <= k < |s.timers| ::
          s.timers[k].epoch <= |s.flushed| && s.timers[k].token == s.timers[k].epoch % TWO_64
          && (s.timers[k].epoch == |s.flushed| ==> !s.timers[k].fired))
    && (forall j, k | 0 <= j < k < |s.timers| :: s.timers[j].epoch < s.timers[k].epoch)
    && (s.inner.hasLinger <==> |s.timers| > 0 && s.timers[|s.timers| - 1].epoch == |s.flushed|)
  }

  /** Every unfinished write is known to the producer or to a manual flush. */
  ghost predicate TasksKnown(s: State) {
    && (forall b | b in s.results :: b < |s.flushed| && s.flushed[b] != [])
    && (forall b | b in s.taken :: b < |s.flushed|)
    && (forall b | b in s.inner.pending :: b < |s.flushed| && s.flushed[b] != [] && b !in s.taken)
    && forall b | 0 <= b < |s.flushed| && s.flushed[b] != [] && b !in s.results :: b in s.inner.pending || b in s.taken
  }

  ghost predicate Inv(s: State) {
    Conserved(s) && CallersFind(s) && TimersMatch(s) && TasksKnown(s)
  }

  lemma FlushKeepsRecords(s: State, finished: set<nat>)
    requires Conserved(s) && CallersFind(s)
    ensures Conserved(Flushed(s, finished)) && CallersFind(Flushed(s, finished))
  {
    hide Flatten, TotalSize, Unfinished;
    var t := Flushed(s, finished);
    FlattenAppend(s.flushed, s.inner.buffer);
    assert t.accepted == Flatten(t.flushed) + [];
    EmptyIsSmall();
    forall k | 0 <= k < |s.callers|
      ensures t.flushed[..s.callers[k].batch] == s.flushed[..s.callers[k].batch]
      ensures Batch(t, s.callers[k].batch) == Batch(s, s.callers[k].batch)
    {
    }
  }

  lemma EmptyIsSmall()
    ensures TotalSize([]) == 0
  {
  }

  lemma FlushKeepsTimers(s: State, finished: set<nat>)
    requires TimersMatch(s)
    ensures TimersMatch(Flushed(s, finished))
  {
  }

  lemma FlushKeepsTasks(s: State, finished: set<nat>)
    requires TasksKnown(s) && finished <= s.results.Keys
    ensures TasksKnown(Flushed(s, finished))
  {
  }

  lemma AcceptKeepsRecords(s: State, r: ClientRecord)
    requires Conserved(s) && CallersFind(s) && Accepts(s.inner, r)
    ensures Conserved(Accepted(s, r)) && CallersFind(Accepted(s, r))
  {
    hide Flatten, TotalSize, ApproximateSize;
    var t := Accepted(s, r);
    TotalSizeAppend(s.inner.buffer, r);
    assert t.accepted == Flatten(t.flushed) + t.inner.buffer;
    assert s.flushed[..|s.flushed|] == s.flushed;
    forall k | 0 <= k < |t.callers|
      ensures t.callers[k].tag < |Batch(t, t.callers[k].batch)|
      ensures k == |Flatten(t.flushed[..t.callers[k].batch])| + t.callers[k].tag
    {
    }
  }

  lemma AcceptKeepsTimers(s: State, r: ClientRecord)
    requires TimersMatch(s)
    ensures TimersMatch(Accepted(s, r))
  {
  }

  lemma PushKeeps(s: State, r: ClientRecord, finished: set<nat>)
    requires Inv(s) && finished <= s.results.Keys
    ensures Inv(Pushed(s, r, finished))
  {
    hide Conserved, CallersFind, TimersMatch;
    var t := if Accepts(s.inner, r) then s else Flushed(s, finished);
    if !Accepts(s.inner, r) {
      FlushKeepsRecords(s, finished);
      FlushKeepsTimers(s, finished);
      FlushKeepsTasks(s, finished);
    }
    if Accepts(t.inner, r) {
      AcceptKeepsRecords(t, r);
      AcceptKeepsTimers(t, r);
    }
  }

  lemma TimerKeepsTimers(s: State, k: nat, finished: set<nat>)
    requires TimersMatch(s) && Enabled(s, TimerFires(k, finished))
    ensures TimersMatch(Apply(s, TimerFires(k, finished)))
  {
    if s.timers[k].epoch == |s.flushed| {
      OwnTimerKeeps(s, k, finished);
    } else {
      StaleTimerKeeps(s, k);
      FlushKeepsTimers(s.(timers := s.timers[k := s.timers[k].(fired := true)]), finished);
    }
  }

  lemma OwnTimerKeeps(s: State, k: nat, finished: set<nat>)
    requires TimersMatch(s) && k < |s.timers| && s.timers[k].epoch == |s.flushed|
    ensures TimersMatch(Flushed(s.(timers := s.timers[k := s.timers[k].(fired := true)]), finished))
  {
  }

  lemma StaleTimerKeeps(s: State, k: nat)
    requires TimersMatch(s) && k < |s.timers| && s.timers[k].epoch < |s.flushed|
    ensures TimersMatch(s.(timers := s.timers[k := s.timers[k].(fired := true)]))
  {
  }

  lemma TimerKeepsRest(s: State, k: nat, finished: set<nat>)
    requires Conserved(s) && CallersFind(s) && TasksKnown(s) && Enabled(s, TimerFires(k, finished))
    ensures var t := Apply(s, TimerFires(k, finished)); Conserved(t) && CallersFind(t) && TasksKnown(t)
  {
    if s.timers[k].token == s.inner.clock {
      var t := s.(timers := s.timers[k := s.timers[k].(fired := true)]);
      FlushKeepsRecords(t, finished);
      FlushKeepsTasks(t, finished);
    }
  }

  /** A token is current if there have been 0, 2^64, 2 * 2^64 and so on flushes since it was issued. */
  lemma TokenMeansCurrent(s: State, k: nat)
    requires TimersMatch(s) && k < |s.timers|
    ensures s.timers[k].epoch <= |s.flushed|
    ensures s.timers[k].token == s.inner.clock <==> (|s.flushed| - s.timers[k].epoch) % TWO_64 == 0
  {
    SameRemainder(s.timers[k].epoch, |s.flushed|);
  }

  lemma SameRemainder(a: nat, b: nat)
    requires a <= b
    ensures a % TWO_64 == b % TWO_64 <==> (b - a) % TWO_64 == 0
  {
  }

  lemma ManualFlushKeeps(s: State, finished: set<nat>)
    requires Inv(s) && Enabled(s, ManualFlush(finished))
    ensures Inv(Apply(s, ManualFlush(finished)))
  {
    FlushKeepsRecords(s, finished);
    FlushKeepsTimers(s, finished);
    FlushKeepsTasks(s, finished);
  }

  lemma CompleteKeeps(s: State, step: Step)
    requires Inv(s) && step.Complete? && Enabled(s, step)
    ensures Inv(Apply(s, step))
  {
    hide TotalSize, Flatten;
  }

  lemma MaxIsConstant(s: State, step: Step)
    ensures Apply(s, step).inner.max == s.inner.max
  {
  }

  lemma {:induction false} RunKeeps(max: nat, steps: seq<Step>)
    ensures Inv(Exec(max, steps)) && Exec(max, steps).inner.max == max
  {
    if steps != [] {
      var s, step := Exec(max, steps[..|steps| - 1]), steps[|steps| - 1];
      RunKeeps(max, steps[..|steps| - 1]);
      hide Conserved, CallersFind, TimersMatch, TasksKnown;
      MaxIsConstant(s, step);
      if Enabled(s, step) {
        match step
        case Push(r, finished) => PushKeeps(s, r, finished);
        case TimerFires(k, finished) =>
          TimerKeepsTimers(s, k, finished);
          TimerKeepsRest(s, k, finished);
        case ManualFlush(finished) => ManualFlushKeeps(s, finished);
        case Complete(_, _) => CompleteKeeps(s, step);
      }
    }
  }

  // ---------------------------------------------------------------- results over runs

  /** Accepted records in acceptance order are the flushed batches in flush order and then the buffer,
      and no batch is larger than the limit. */
  lemma NothingLostOrReordered(max: nat, steps: seq<Step>)
    ensures var s := Exec(max, steps);
      && s.accepted == Flatten(s.flushed) + s.inner.buffer
      && (forall b | 0 <= b < |s.flushed| :: TotalSize(s.flushed[b]) <= max)
      && TotalSize(s.inner.buffer) <= max
  {
    RunKeeps(max, steps);
  }

  lemma {:induction false} FlattenAt<T>(blocks: seq<seq<T>>, b: nat, i: nat)
    requires b < |blocks| && i < |blocks[b]|
    ensures |Flatten(blocks[..b])| + i < |Flatten(blocks)|
    ensures Flatten(blocks)[|Flatten(blocks[..b])| + i] == blocks[b][i]
  {
    var n := |blocks| - 1;
    if b < n {
      FlattenAt(blocks[..n], b, i);
      assert blocks[..n][..b] == blocks[..b];
    }
  }

  /** Each caller's tag is in bounds and names its own record, and different callers have different places. */
  lemma CallersOwnTheirRecords(max: nat, steps: seq<Step>, j: nat, k: nat)
    requires j < |Exec(max, steps).callers| && k < |Exec(max, steps).callers|
    ensures var s := Exec(max, steps);
      && |s.callers| == |s.accepted|
      && s.callers[k].tag < |Batch(s, s.callers[k].batch)|
      && Batch(s, s.callers[k].batch)[s.callers[k].tag] == s.accepted[k]
      && (j != k ==> s.callers[j] != s.callers[k])
  {
    hide TimersMatch, TasksKnown, Exec, TotalSize, Flatten;
    RunKeeps(max, steps);
    var s := Exec(max, steps);
    var c := s.callers[k];
    if c.batch < |s.flushed| {
      FlattenAt(s.flushed, c.batch, c.tag);
    } else {
      assert s.flushed[..c.batch] == s.flushed;
    }
  }

  /** A batch accepted at `base` gives each of its callers `base` plus its record's position, so the
      callers of one batch get pairwise different offsets. */
  lemma CallersGetTheirOffsets(max: nat, steps: seq<Step>, j: nat, k: nat, base: int64)
    requires var s := Exec(max, steps);
      && j < |s.callers| && k < |s.callers|
      && s.callers[k].batch < |s.flushed| && s.callers[j].batch == s.callers[k].batch
    ensures var s := Exec(max, steps);
      var offsets := ProducedOffsets(|s.flushed[s.callers[k].batch]|, base);
      && s.callers[j].tag < |offsets| && s.callers[k].tag < |offsets| && |s.callers| == |s.accepted|
      && Deaggregate(offsets, s.callers[k].tag) == base + s.callers[k].tag
      && s.flushed[s.callers[k].batch][Deaggregate(offsets, s.callers[k].tag) - base] == s.accepted[k]
      && (j != k ==> Deaggregate(offsets, s.callers[j].tag) != Deaggregate(offsets, s.callers[k].tag))
  {
    CallersOwnTheirRecords(max, steps, j, k);
    CallersOwnTheirRecords(max, steps, k, j);
  }

  /** What a caller gets: its own offset, the error of the failed write, or that the writing task vanished. */
  datatype CallerResult = Offset(offset: int) | WriteFailed | TaskGone

  /** The caller with `tag` makes this of what the broadcast of its batch, of `n` records, returned. */
  function Demuxed(slot: Broadcast.Slot<BatchResult>, n: nat, tag: nat): CallerResult
    requires tag < n && !slot.Empty?
  {
    match slot
    case Value(Written(base)) => Offset(Deaggregate(ProducedOffsets(n, base), tag))
    case Value(ClientFailed) => WriteFailed
    case Dropped => TaskGone
  }

  /** Every caller of a batch that was written at `base`, whenever it looks at the broadcast of the result, returns
      `base` plus the position of its own record; if the write failed, every caller returns that. */
  lemma CallersReturnTheirOffsets(max: nat, steps: seq<Step>, k: nat,
                                  casts: seq<Broadcast.Step<BatchResult>>, id: nat)
    requires var s, c := Exec(max, steps), Broadcast.Exec(casts);
      && k < |s.callers| && s.callers[k].batch in s.results
      && c.slot == Broadcast.Value(s.results[s.callers[k].batch])
      && id < |c.receivers| && c.receivers[id].Returned?
    ensures var s, c := Exec(max, steps), Broadcast.Exec(casts);
      var b, tag := s.callers[k].batch, s.callers[k].tag;
      && b < |s.flushed| && tag < |s.flushed[b]| && |s.callers| == |s.accepted|
      && s.flushed[b][tag] == s.accepted[k]
      && !c.receivers[id].slot.Empty?
      && Demuxed(c.receivers[id].slot, |s.flushed[b]|, tag)
         == match s.results[b]
            case Written(base) => Offset(base + tag)
            case ClientFailed => WriteFailed
  {
    hide Exec, Broadcast.Exec, Conserved, CallersFind, TimersMatch;
    RunKeeps(max, steps);
    CallersOwnTheirRecords(max, steps, k, k);
    Broadcast.RunKeeps(casts);
  }

  /** The result of a write is the one its task reports, once, and belongs to that batch alone. */
  lemma CompletionIsRecorded(max: nat, steps: seq<Step>, b: nat, result: BatchResult)
    requires InFlight(Exec(max, steps), b)
    ensures var s, t := Exec(max, steps), Exec(max, steps + [Complete(b, result)]);
      t == s.(results := s.results[b := result]) && !InFlight(t, b)
  {
    hide Apply;
    ExecAppend(max, steps, Complete(b, result));
    CompleteIs(Exec(max, steps), b, result);
  }

  lemma CompleteIs(s: State, b: nat, result: BatchResult)
    requires InFlight(s, b)
    ensures Apply(s, Complete(b, result)) == s.(results := s.results[b := result])
  {
  }

  /** Nothing that happened is ever undone: batches, callers and results only grow. */
  predicate Later(s: State, t: State) {
    s.flushed <= t.flushed && s.accepted <= t.accepted && s.callers <= t.callers
    && forall b | b in s.results :: b in t.results && t.results[b] == s.results[b]
  }

  lemma StepIsLater(s: State, step: Step)
    ensures Later(s, Apply(s, step))
  {
  }

  /** A flushed batch and the result of its write are final, so every caller of a batch learns one outcome. */
  lemma {:induction false} RunIsLater(max: nat, steps: seq<Step>, more: seq<Step>)
    ensures Later(Exec(max, steps), Exec(max, steps + more))
  {
    hide Apply;
    if more == [] {
      assert steps + more == steps;
    } else {
      var n := |more| - 1;
      assert (steps + more)[..|steps| + n] == steps + more[..n];
      RunIsLater(max, steps, more[..n]);
      StepIsLater(Exec(max, steps + more[..n]), more[n]);
    }
  }

  /** A push first flushes the batch exactly if the record does not fit behind what is there, and is refused exactly
      if the record does not fit an empty batch either; otherwise it is the last record of the open batch. */
  lemma PushOutcome(max: nat, steps: seq<Step>, r: ClientRecord, finished: set<nat>)
    requires Enabled(Exec(max, steps), Push(r, finished))
    ensures var s := Exec(max, steps);
      var t := Apply(s, Push(r, finished));
      var full, refused := TotalSize(s.inner.buffer) + ApproximateSize(r) > max, ApproximateSize(r) > max;
      && t.flushed == (if full then s.flushed + [s.inner.buffer] else s.flushed)
      && t.inner.buffer == (if full then [] else s.inner.buffer) + (if refused then [] else [r])
      && t.accepted == s.accepted + (if refused then [] else [r])
      && t.results == s.results
  {
    hide Conserved, CallersFind, TimersMatch, TasksKnown, Unfinished;
    RunKeeps(max, steps);
    EmptyIsSmall();
  }

  /** Timer `k` is outstanding and was set for the open batch. */
  predicate Due(s: State, k: nat) {
    k < |s.timers| && !s.timers[k].fired && s.timers[k].epoch == |s.flushed|
  }

  /** Timer `k` is outstanding and would flush now. */
  predicate Current(s: State, k: nat) {
    k < |s.timers| && !s.timers[k].fired && s.timers[k].token == s.inner.clock
  }

  /** The buffer holds something exactly while an outstanding timer was set for it, and only one is. Such a timer
      would flush it now, and before 2^64 flushes no other timer would. */
  lemma OneCurrentTimer(max: nat, steps: seq<Step>)
    ensures var s := Exec(max, steps);
      && (s.inner.buffer != [] <==> exists k: nat :: Due(s, k))
      && (forall j: nat, k: nat | Due(s, j) && Due(s, k) :: j == k)
      && (forall k: nat | Due(s, k) :: Current(s, k))
      && (|s.flushed| < TWO_64 ==> forall k: nat | Current(s, k) :: Due(s, k))
  {
    hide Conserved, CallersFind, TasksKnown, Exec;
    RunKeeps(max, steps);
    var s := Exec(max, steps);
    forall k: nat | k < |s.timers|
      ensures Current(s, k) <==> !s.timers[k].fired && (|s.flushed| - s.timers[k].epoch) % TWO_64 == 0
    {
      TokenMeansCurrent(s, k);
    }
    if s.inner.buffer != [] {
      assert Due(s, |s.timers| - 1);
    }
  }

  /** A timer flushes its own batch; it flushes another one exactly if a positive multiple of 2^64 flushes has
      passed since it was set; and otherwise it changes nothing but itself. */
  lemma TimerFlushesAnotherBatchIff(max: nat, steps: seq<Step>, k: nat, finished: set<nat>)
    requires Enabled(Exec(max, steps), TimerFires(k, finished))
    ensures var s := Exec(max, steps);
      var t := Apply(s, TimerFires(k, finished));
      var age := |s.flushed| - s.timers[k].epoch;
      && (age == 0 ==> t.flushed == s.flushed + [s.inner.buffer] && s.inner.buffer != [])
      && (age != 0 ==> (t.flushed != s.flushed <==> age > 0 && age % TWO_64 == 0))
      && (t.flushed == s.flushed ==> t == s.(timers := t.timers))
      && t.timers == s.timers[k := s.timers[k].(fired := true)]
  {
    hide Conserved, CallersFind, TasksKnown, Exec;
    RunKeeps(max, steps);
    TokenMeansCurrent(Exec(max, steps), k);
  }

  /** A linger timer that outlives 2^64 flushes: it was set for batch 0 and flushes batch 2^64 early. */
  lemma RolloverFlushesEarly(max: nat)
    ensures var r := ClientRecord(None, None, [], 0);
      var steps := [Push(r, {})] + Flushes(TWO_64) + [Push(r, {})];
      var s := Exec(max, steps);
      && |s.timers| == 2 && s.timers[0].epoch == 0 && s.timers[1].epoch == TWO_64
      && Enabled(s, TimerFires(0, {})) && s.inner.buffer == [r]
      && Apply(s, TimerFires(0, {})).flushed == s.flushed + [[r]]
  {
    hide Apply, Flushes;
    var r := ClientRecord(None, None, [], 0);
    var first := [Push(r, {})];
    assert [] + [Push(r, {})] == first;
    ExecAppend(max, [], Push(r, {}));
    PushStartsATimer(Init(max), r);
    FlushesAdd(max, first, TWO_64);
    var s := Exec(max, first + Flushes(TWO_64));
    ExecAppend(max, first + Flushes(TWO_64), Push(r, {}));
    RunKeeps(max, first + Flushes(TWO_64));
    ClockIs(s);
    PushStartsATimer(s, r);
    FiresIntoTheBuffer(Apply(s, Push(r, {})));
  }

  /** `n` manual flushes. */
  function Flushes(n: nat): (steps: seq<Step>) {
    if n == 0 then [] else Flushes(n - 1) + [ManualFlush({})]
  }

  lemma ExecAppend(max: nat, steps: seq<Step>, step: Step)
    ensures Exec(max, steps + [step]) == Apply(Exec(max, steps), step)
  {
    hide Apply;
    assert (steps + [step])[..|steps|] == steps;
  }

  lemma ClockIs(s: State)
    requires Inv(s)
    ensures s.inner.clock == |s.flushed| % TWO_64 && (s.inner.hasLinger <==> s.inner.buffer != [])
  {
  }

  lemma PushStartsATimer(s: State, r: ClientRecord)
    requires s.inner.buffer == [] && !s.inner.hasLinger && ApproximateSize(r) == 0
    ensures var t := Apply(s, Push(r, {}));
      && t.inner == s.inner.(buffer := [r], hasLinger := true) && t.flushed == s.flushed && t.results == s.results
      && t.timers == s.timers + [Timer(s.inner.clock, |s.flushed|, false)]
  {
    EmptyIsSmall();
    assert [] + [r] == [r];
  }

  lemma {:induction false} FlushesAdd(max: nat, steps: seq<Step>, n: nat)
    requires n > 0
    ensures var s, t := Exec(max, steps), Exec(max, steps + Flushes(n));
      t.inner.buffer == [] && !t.inner.hasLinger && |t.flushed| == |s.flushed| + n && t.timers == s.timers
  {
    hide Apply, Exec;
    assert steps + Flushes(n) == steps + Flushes(n - 1) + [ManualFlush({})];
    ExecAppend(max, steps + Flushes(n - 1), ManualFlush({}));
    OneFlush(Exec(max, steps + Flushes(n - 1)));
    if n > 1 {
      FlushesAdd(max, steps, n - 1);
    } else {
      assert steps + Flushes(0) == steps;
    }
  }

  lemma OneFlush(s: State)
    ensures var t := Apply(s, ManualFlush({}));
      t.inner.buffer == [] && !t.inner.hasLinger && |t.flushed| == |s.flushed| + 1 && t.timers == s.timers
  {
    hide Unfinished;
  }

  lemma FiresIntoTheBuffer(s: State)
    requires |s.timers| > 0 && !s.timers[0].fired && s.timers[0].token == s.inner.clock
    ensures Enabled(s, TimerFires(0, {})) && Apply(s, TimerFires(0, {})).flushed == s.flushed + [s.inner.buffer]
  {
  }

  /** A batch flushed with nothing in it has no callers waiting for it. */
  lemma EmptyBatchHasNoCallers(max: nat, steps: seq<Step>, k: nat)
    requires k < |Exec(max, steps).callers|
    ensures Batch(Exec(max, steps), Exec(max, steps).callers[k].batch) != []
  {
    CallersOwnTheirRecords(max, steps, k, k);
  }

  /** The write of batch `b` is still under way. */
  predicate InFlight(s: State, b: nat) {
    b < |s.flushed| && s.flushed[b] != [] && b !in s.results
  }

  /** The tasks a manual flush waits for. */
  function WaitsFor(s: State, finished: set<nat>): seq<nat> {
    Flushed(s, finished).inner.pending
  }

  /** A manual flush waits for every write under way exactly when no write that an earlier manual flush
      took over is still under way. */
  lemma ManualFlushWaitsForAllIff(max: nat, steps: seq<Step>, finished: set<nat>)
    requires Enabled(Exec(max, steps), ManualFlush(finished))
    ensures var s := Exec(max, steps);
      && ((forall b: nat | InFlight(Flushed(s, finished), b) :: b in WaitsFor(s, finished))
          <==> (forall b | b in s.taken :: !InFlight(s, b)))
      && forall b | b in WaitsFor(s, finished) ::
           b <= |s.flushed| && Flushed(s, finished).flushed[b] != [] && (b in finished ==> b == |s.flushed|)
  {
    hide Conserved, CallersFind, TimersMatch, Exec;
    RunKeeps(max, steps);
    var s := Exec(max, steps);
    var t := Flushed(s, finished);
    FlushKeepsTasks(s, finished);
    forall b | b in s.taken && InFlight(s, b) ensures InFlight(t, b) && b !in WaitsFor(s, finished) {
    }
    forall b: nat | InFlight(t, b) && b < |s.flushed| ensures InFlight(s, b) {
    }
  }

  /** Two overlapping manual flushes: the second returns while the only write is under way. */
  lemma OverlappingFlushMisses(max: nat)
    ensures var r := ClientRecord(None, None, [], 0);
      var s := Exec(max, [Push(r, {}), ManualFlush({})]);
      Enabled(s, ManualFlush({})) && InFlight(Flushed(s, {}), 0) && 0 !in WaitsFor(s, {})
  {
    var r := ClientRecord(None, None, [], 0);
    var a, b := [Push(r, {})], [Push(r, {}), ManualFlush({})];
    assert a[..0] == [] && b[..1] == a;
    assert Exec(max, a) == Apply(Init(max), Push(r, {}));
    assert TotalSize([]) == 0 && ApproximateSize(r) == 0;
    assert Exec(max, a).inner.buffer == [r];
    assert Exec(max, b) == Apply(Exec(max, a), ManualFlush({}));
  }
}
