/** A stable sort by offset. */
module OffsetSort {
  import opened Bytes
  import opened Partition

  predicate Ascending(rs: seq<RecordAndOffset>) {
    forall i, j | 0 <= i < j < |rs| :: rs[i].offset <= rs[j].offset
  }

  /** The records at one offset, in order. */
  function At(rs: seq<RecordAndOffset>, offset: int): seq<RecordAndOffset> {
    if rs == [] then [] else
    At(rs[..|rs| - 1], offset) + if rs[|rs| - 1].offset == offset then [rs[|rs| - 1]] else []
  }

  /** Behind everything that is not larger. */
  function Place(rs: seq<RecordAndOffset>, x: RecordAndOffset): (r: seq<RecordAndOffset>)
    ensures |r| == |rs| + 1
    ensures forall y | y in r :: y in rs || y == x
  {
    if rs == [] || rs[|rs| - 1].offset <= x.offset then rs + [x]
    else Place(rs[..|rs| - 1], x) + [rs[|rs| - 1]]
  }

  function SortByOffset(rs: seq<RecordAndOffset>): (r: seq<RecordAndOffset>)
    ensures |r| == |rs|
    ensures forall y | y in r :: y in rs
  {
    if rs == [] then [] else Place(SortByOffset(rs[..|rs| - 1]), rs[|rs| - 1])
  }

  lemma {:induction false} PlaceKeepsAscending(rs: seq<RecordAndOffset>, x: RecordAndOffset)
    requires Ascending(rs)
    ensures Ascending(Place(rs, x))
  {
    if rs != [] && rs[|rs| - 1].offset > x.offset {
      var n := |rs| - 1;
      PlaceKeepsAscending(rs[..n], x);
      var r := Place(rs[..n], x);
      forall i | 0 <= i < |r| ensures r[i].offset <= rs[n].offset {
        assert r[i] in rs[..n] || r[i] == x;
      }
    }
  }

  lemma AtAppend(rs: seq<RecordAndOffset>, x: RecordAndOffset, offset: int)
    ensures At(rs + [x], offset) == At(rs, offset) + if x.offset == offset then [x] else []
  {
    assert (rs + [x])[..|rs|] == rs;
  }

  lemma {:induction false} PlaceAt(rs: seq<RecordAndOffset>, x: RecordAndOffset, offset: int)
    ensures At(Place(rs, x), offset) == At(rs, offset) + if x.offset == offset then [x] else []
  {
    if rs == [] || rs[|rs| - 1].offset <= x.offset {
      AtAppend(rs, x, offset);
    } else {
      var n := |rs| - 1;
      PlaceAt(rs[..n], x, offset);
      AtAppend(Place(rs[..n], x), rs[n], offset);
    }
  }

  /** Sorting orders by offset and keeps the records of each offset as they were. */
  lemma {:induction false} SortIsStable(rs: seq<RecordAndOffset>, offset: int)
    ensures Ascending(SortByOffset(rs))
    ensures At(SortByOffset(rs), offset) == At(rs, offset)
  {
    if rs != [] {
      var n := |rs| - 1;
      SortIsStable(rs[..n], offset);
      PlaceKeepsAscending(SortByOffset(rs[..n]), rs[n]);
      PlaceAt(SortByOffset(rs[..n]), rs[n], offset);
    }
  }

  lemma PlaceLast(rs: seq<RecordAndOffset>, x: RecordAndOffset)
    requires rs != [] ==> rs[|rs| - 1].offset <= x.offset
    ensures Place(rs, x) == rs + [x]
  {
  }

  lemma {:induction false} SortAscending(rs: seq<RecordAndOffset>)
    requires Ascending(rs)
    ensures SortByOffset(rs) == rs
  {
    if rs != [] {
      var n := |rs| - 1;
      SortAscending(rs[..n]);
      PlaceLast(rs[..n], rs[n]);
      assert rs == rs[..n] + [rs[n]];
      hide Place;
    }
  }

  /** The last of the sorted records is one with the largest offset. */
  lemma SortedLastIsLargest(rs: seq<RecordAndOffset>, x: RecordAndOffset)
    requires x in rs
    ensures SortByOffset(rs) != [] && x.offset <= SortByOffset(rs)[|rs| - 1].offset
  {
    SortIsStable(rs, x.offset);
    AtMember(rs, x);
    AtIsPart(SortByOffset(rs), x.offset, x);
  }

  lemma {:induction false} AtMember(rs: seq<RecordAndOffset>, x: RecordAndOffset)
    requires x in rs
    ensures x in At(rs, x.offset)
  {
    var n := |rs| - 1;
    if rs[n] != x {
      assert x in rs[..n];
      AtMember(rs[..n], x);
    }
  }

  lemma {:induction false} AtIsPart(rs: seq<RecordAndOffset>, offset: int, x: RecordAndOffset)
    requires x in At(rs, offset)
    ensures x in rs
  {
    var n := |rs| - 1;
    if x in At(rs[..n], offset) {
      AtIsPart(rs[..n], offset, x);
    }
  }
}

/** The polling state machine that turns fetches into a stream of records. */
module Consumer {
  import opened Bytes
  import opened Partition
  import opened OffsetSort

  datatype StartOffset = Earliest | Latest | Fixed(offset: int64)

  datatype FetchError = OffsetOutOfRange | OtherError(code: int)

  /** What the broker would answer if asked for its earliest and its latest offset. */
  datatype Bounds = Bounds(earliest: int64, latest: int64)

  /** How a fetch ends; `resolved` holds what a relative start is resolved with. */
  datatype Answer = Fetched(resolved: Bounds, records: seq<RecordAndOffset>, watermark: int64)
                  | Failed(error: FetchError)

  /** `fetch` is the pending fetch, with the next offset it captured. */
  datatype Fields = Fields(start: StartOffset, nextOffset: Option<int64>, terminated: bool, watermark: int64,
                           buffer: seq<RecordAndOffset>, fetch: Option<Option<int64>>)

  /** What one poll returns. */
  datatype Poll = Pending | Item(record: RecordAndOffset, watermark: int64) | Error(error: FetchError) | End

  function Fresh(start: StartOffset): Fields {
    Fields(start, None, false, -1, [], None)
  }

  /** The offset a fetch asks for. */
  function UsedOffset(start: StartOffset, captured: Option<int64>, resolved: Bounds): int64 {
    match captured
    case Some(x) => x
    case None =>
      match start
      case Earliest => resolved.earliest
      case Latest => resolved.latest
      case Fixed(offset) => offset
  }

  predicate Retries(f: Fields, e: FetchError) {
    e.OffsetOutOfRange? && !f.start.Fixed?
  }

  function Started(f: Fields): Fields {
    if f.fetch.Some? then f else f.(fetch := Some(f.nextOffset))
  }

  function Absorbed(f: Fields, a: Answer): Fields
    requires f.fetch.Some?
  {
    var done := f.(fetch := None);
    match a
    case Fetched(resolved, records, watermark) =>
      var sorted := SortByOffset(records);
      var used := UsedOffset(f.start, f.fetch.value, resolved);
      done.(nextOffset := Some(if sorted == [] then used else WrapI64(sorted[|sorted| - 1].offset + 1)),
            watermark := watermark, buffer := f.buffer + sorted)
    case Failed(e) => if Retries(f, e) then done.(nextOffset := None) else done.(terminated := true)
  }

  function Popped(f: Fields): Fields
    requires f.buffer != []
  {
    f.(buffer := f.buffer[1..])
  }

  /** One poll when `answers` are the fetch results that are ready by then, and how many it used. */
  function PollOnce(f: Fields, answers: seq<Answer>): (r: (Fields, Poll, nat))
    ensures r.2 <= |answers|
    decreases |answers|
  {
    if f.terminated then (f, End, 0)
    else if f.buffer != [] then (Popped(f), Item(f.buffer[0], f.watermark), 0)
    else if answers == [] then (Started(f), Pending, 0)
    else
      var g := Absorbed(Started(f), answers[0]);
      if g.terminated then (g, Error(answers[0].error), 1) else
      var (h, p, n) := PollOnce(g, answers[1..]);
      (h, p, n + 1)
  }

  class StreamConsumer {
    const start: StartOffset
    var nextOffset: Option<int64>
    var terminated: bool
    var lastHighWatermark: int64
    var buffer: seq<RecordAndOffset>
    var fetch: Option<Option<int64>>

    ghost function Now(): Fields
      reads this
    {
      Fields(start, nextOffset, terminated, lastHighWatermark, buffer, fetch)
    }

    constructor (start: StartOffset)
      ensures Now() == Fresh(start)
    {
      this.start := start;
      nextOffset := None;
      terminated := false;
      lastHighWatermark := -1;
      buffer := [];
      fetch := None;
    }

    /** The end of a fetch: its records in offset order, a retry without an offset, or the end. */
    method Absorb(a: Answer)
      requires fetch.Some?
      modifies this
      ensures Now() == Absorbed(old(Now()), a)
      ensures terminated ==> old(terminated) || a.Failed?
    {
      hide SortByOffset, WrapI64;
      var captured := fetch.value;
      fetch := None;
      match a
      case Fetched(resolved, records, watermark) =>
        nextOffset := Some(UsedOffset(start, captured, resolved));
        var sorted := SortByOffset(records);
        lastHighWatermark := watermark;
        if sorted != [] {
          nextOffset := Some(WrapI64(sorted[|sorted| - 1].offset + 1));
          buffer := buffer + sorted;
        } else {
          assert buffer + sorted == buffer;
        }
      case Failed(e) =>
        if e.OffsetOutOfRange? && !start.Fixed? {
          nextOffset := None;
        } else {
          terminated := true;
        }
    }

    method PollNext(answers: seq<Answer>) returns (p: Poll, used: nat)
      modifies this
      ensures (Now(), p, used) == PollOnce(old(Now()), answers)
    {
      hide SortByOffset, WrapI64, Absorbed;
      used := 0;
      ghost var whole := PollOnce(Now(), answers);
      assert answers[0..] == answers;
      while true
        invariant used <= |answers|
        invariant var (f, q, n) := PollOnce(Now(), answers[used..]); whole == (f, q, n + used)
        decreases |answers| - used
      {
        if terminated {
          return End, used;
        }
        if buffer != [] {
          var x := buffer[0];
          buffer := buffer[1..];
          return Item(x, lastHighWatermark), used;
        }
        ghost var before := Now();
        if fetch.None? {
          fetch := Some(nextOffset);
        }
        assert Now() == Started(before);
        if used == |answers| {
          return Pending, used;
        }
        assert answers[used..][1..] == answers[used + 1..];
        Absorb(answers[used]);
        used := used + 1;
        if terminated {
          return Error(answers[used - 1].error), used;
        }
      }
    }
  }

  // ---------------------------------------------------------------- any broker

  /** Everything the stream has returned and every answer it has absorbed. */
  datatype State = State(fields: Fields, events: seq<Poll>, absorbed: seq<Answer>)

  /** A poll either looks at what there is, or finds its pending fetch answered. */
  datatype Step = Look | Receive(answer: Answer)

  /** The client drops records before the requested offset. */
  predicate Filtered(f: Fields, a: Answer)
    requires f.fetch.Some?
  {
    a.Fetched? ==> forall r | r in a.records :: UsedOffset(f.start, f.fetch.value, a.resolved) <= r.offset
  }

  predicate Enabled(s: State, step: Step) {
    step.Receive? ==>
      && !s.fields.terminated && s.fields.buffer == []
      && s.fields.fetch.Some? && Filtered(s.fields, step.answer)
  }

  function Apply(s: State, step: Step): State {
    if !Enabled(s, step) then s else
    match step
    case Look =>
      var (f, p, _) := PollOnce(s.fields, []);
      s.(fields := f, events := if p.Pending? then s.events else s.events + [p])
    case Receive(a) =>
      var f := Absorbed(s.fields, a);
      s.(fields := f, absorbed := s.absorbed + [a],
         events := if f.terminated then s.events + [Error(a.error)] else s.events)
  }

  function Exec(start: StartOffset, steps: seq<Step>): State {
    if steps == [] then State(Fresh(start), [], [])
    else Apply(Exec(start, steps[..|steps| - 1]), steps[|steps| - 1])
  }

  /** A poll with one ready answer is a receive followed by a look. */
  lemma PollIsSteps(s: State, a: Answer)
    requires Enabled(s, Receive(a))
    ensures var (f, p, n) := PollOnce(s.fields, [a]);
      n == 1 && var t := Apply(s, Receive(a));
      if t.fields.terminated then f == t.fields && p == Error(a.error)
      else f == Apply(t, Look).fields && (p.Item? ==> Apply(t, Look).events == t.events + [p])
  {
    assert [a][1..] == [];
  }

  /** An answer that neither brings records nor ends the stream. */
  predicate BringsNothing(start: StartOffset, a: Answer) {
    match a
    case Fetched(_, records, _) => records == []
    case Failed(e) => e.OffsetOutOfRange? && !start.Fixed?
  }

  /** A poll goes on fetching until an answer brings records or ends the stream, or none is ready: it skips exactly
      the answers that bring nothing, and what it returns comes from the first other one. */
  lemma {:induction false} PollSkipsEmptyAnswers(f: Fields, answers: seq<Answer>)
    requires !f.terminated && f.buffer == []
    ensures var (g, p, n) := PollOnce(f, answers);
      && n <= |answers|
      && (forall i | 0 <= i < n - 1 :: BringsNothing(f.start, answers[i]))
      && (p.Pending? <==> forall i | 0 <= i < |answers| :: BringsNothing(f.start, answers[i]))
      && (p.Pending? ==> n == |answers| && g.fetch.Some? && g.buffer == [])
      && (!p.Pending? ==> n > 0 && !BringsNothing(f.start, answers[n - 1]))
      && (!p.Pending? && answers[n - 1].Failed? ==> p == Error(answers[n - 1].error) && g.terminated)
      && (!p.Pending? && answers[n - 1].Fetched? ==>
            var sorted := SortByOffset(answers[n - 1].records);
            p == Item(sorted[0], answers[n - 1].watermark) && g.buffer == sorted[1..] && !g.terminated)
    decreases |answers|
  {
    hide SortByOffset, WrapI64, UsedOffset;
    if answers != [] {
      var g := Absorbed(Started(f), answers[0]);
      if BringsNothing(f.start, answers[0]) {
        assert g.buffer == [] && !g.terminated && g.start == f.start;
        PollSkipsEmptyAnswers(g, answers[1..]);
        assert forall i | 0 < i < |answers| :: answers[i] == answers[1..][i - 1];
      } else if answers[0].Fetched? {
        assert [] + SortByOffset(answers[0].records) == SortByOffset(answers[0].records);
      }
    }
  }

  /** Records with the watermark of their fetch. */
  function Tagged(rs: seq<RecordAndOffset>, watermark: int64): (ps: seq<Poll>)
    ensures |ps| == |rs|
    ensures forall i | 0 <= i < |rs| :: ps[i] == Item(rs[i], watermark)
  {
    seq(|rs|, i requires 0 <= i < |rs| => Item(rs[i], watermark))
  }

  /** All fetched records, fetch by fetch, each sorted and tagged with its own watermark. */
  function Delivered(answers: seq<Answer>): seq<Poll> {
    if answers == [] then [] else
    var a := answers[|answers| - 1];
    Delivered(answers[..|answers| - 1]) + if a.Fetched? then Tagged(SortByOffset(a.records), a.watermark) else []
  }

  lemma DeliveredAppend(answers: seq<Answer>, a: Answer)
    ensures Delivered(answers + [a])
         == Delivered(answers) + if a.Fetched? then Tagged(SortByOffset(a.records), a.watermark) else []
  {
    assert (answers + [a])[..|answers|] == answers;
  }

  /** The items among the events. */
  function Items(events: seq<Poll>): seq<Poll> {
    if events == [] then [] else
    Items(events[..|events| - 1]) + if events[|events| - 1].Item? then [events[|events| - 1]] else []
  }

  lemma ItemsAppend(events: seq<Poll>, p: Poll)
    ensures Items(events + [p]) == Items(events) + if p.Item? then [p] else []
  {
    assert (events + [p])[..|events|] == events;
  }

  /** Nothing but the end follows an error, and only an error brings the end. */
  ghost predicate ErrorIsLast(s: State) {
    && (forall i, j | 0 <= i < j < |s.events| :: !s.events[i].Item? ==> s.events[j].End?)
    && (forall i | 0 <= i < |s.events| :: !s.events[i].Item? ==> s.fields.terminated)
    && (s.fields.terminated ==> s.fields.buffer == [])
    && (forall i | 0 <= i < |s.events| && s.events[i].End? :: i > 0 && !s.events[i - 1].Item?)
    && (s.fields.terminated ==> |s.events| > 0 && !s.events[|s.events| - 1].Item?)
    && (forall i | 0 <= i < |s.events| :: !s.events[i].Pending?)
  }

  ghost predicate Inv(s: State) {
    && ErrorIsLast(s)
    && Items(s.events) + Tagged(s.fields.buffer, s.fields.watermark) == Delivered(s.absorbed)
    && (s.fields.fetch.Some? ==> s.fields.fetch.value == s.fields.nextOffset)
  }

  lemma StepKeepsOrder(s: State, step: Step)
    requires ErrorIsLast(s)
    ensures ErrorIsLast(Apply(s, step))
  {
    hide SortByOffset, WrapI64, PollOnce, Absorbed, ErrorIsLast;
    if Enabled(s, step) {
      match step
      case Look => LookKeepsOrder(s);
      case Receive(a) => ReceiveKeepsOrder(s, a);
    }
  }

  lemma LookKeepsOrder(s: State)
    requires ErrorIsLast(s)
    ensures ErrorIsLast(Apply(s, Look))
  {
    hide SortByOffset, WrapI64, Absorbed;
  }

  lemma ReceiveKeepsOrder(s: State, a: Answer)
    requires ErrorIsLast(s) && Enabled(s, Receive(a))
    ensures ErrorIsLast(Apply(s, Receive(a)))
  {
    hide SortByOffset, WrapI64, PollOnce, UsedOffset;
  }

  lemma TaggedStep(before: seq<Poll>, rs: seq<RecordAndOffset>, watermark: int64)
    requires rs != []
    ensures before + Tagged(rs, watermark) == before + [Item(rs[0], watermark)] + Tagged(rs[1..], watermark)
  {
  }

  lemma LookKeeps(s: State)
    requires Inv(s)
    ensures Inv(Apply(s, Look))
  {
    hide ErrorIsLast, Items, Delivered, SortByOffset, Absorbed;
    StepKeepsOrder(s, Look);
    var f := s.fields;
    if f.terminated {
      ItemsAppend(s.events, End);
      assert Items(s.events) + [] == Items(s.events);
    } else if f.buffer != [] {
      var first := Item(f.buffer[0], f.watermark);
      ItemsAppend(s.events, first);
      TaggedStep(Items(s.events), f.buffer, f.watermark);
    }
  }

  lemma ReceiveKeeps(s: State, a: Answer)
    requires Inv(s) && Enabled(s, Receive(a))
    ensures Inv(Apply(s, Receive(a)))
  {
    hide SortByOffset, WrapI64, ErrorIsLast, Items, Delivered, PollOnce;
    StepKeepsOrder(s, Receive(a));
    DeliveredAppend(s.absorbed, a);
    assert Items(s.events) + Tagged([], s.fields.watermark) == Items(s.events);
    if a.Failed? {
      ItemsAppend(s.events, Error(a.error));
      assert Items(s.events) + [] == Items(s.events);
      assert Delivered(s.absorbed) + [] == Delivered(s.absorbed);
    } else {
      assert s.fields.buffer + SortByOffset(a.records) == SortByOffset(a.records);
    }
  }

  lemma {:induction false} RunKeeps(start: StartOffset, steps: seq<Step>)
    ensures Inv(Exec(start, steps)) && Exec(start, steps).fields.start == start
  {
    if steps != [] {
      var s, step := Exec(start, steps[..|steps| - 1]), steps[|steps| - 1];
      RunKeeps(start, steps[..|steps| - 1]);
      if Enabled(s, step) {
        match step
        case Look => LookKeeps(s);
        case Receive(a) => ReceiveKeeps(s, a);
      }
    }
  }

  /** Whatever the broker answers: the stream returns exactly the fetched records in fetch order, each with
      the watermark of its own fetch, except for those still buffered. */
  lemma StreamIsWhatWasFetched(start: StartOffset, steps: seq<Step>)
    ensures var s := Exec(start, steps);
      Items(s.events) + Tagged(s.fields.buffer, s.fields.watermark) == Delivered(s.absorbed)
  {
    RunKeeps(start, steps);
  }

  /** An error appears at most once, when nothing is buffered, and only the end of the stream follows it. */
  lemma ErrorEndsTheStream(start: StartOffset, steps: seq<Step>, i: nat, j: nat)
    requires i < j < |Exec(start, steps).events|
    ensures var s := Exec(start, steps);
      && (s.events[i].Error? ==> s.events[j].End? && s.fields.buffer == [] && Items(s.events) == Delivered(s.absorbed))
      && (s.events[j].End? ==> !s.events[j - 1].Item?)
  {
    RunKeeps(start, steps);
    var s := Exec(start, steps);
    assert Tagged([], s.fields.watermark) == [];
  }

  /** Where the reading starts: the first fetch of a run, and the first after a reset, starts at the fixed offset or
      at the one the broker resolved; without records it stays there, and so does every later one. */
  lemma FetchWithoutRecords(start: StartOffset, steps: seq<Step>, earliest: int64, latest: int64, watermark: int64)
    requires Enabled(Exec(start, steps), Receive(Fetched(Bounds(earliest, latest), [], watermark)))
    ensures var s := Exec(start, steps);
      var t := Apply(s, Receive(Fetched(Bounds(earliest, latest), [], watermark)));
      && t.fields == Fields(start,
                            Some(match s.fields.nextOffset
                                 case Some(next) => next
                                 case None => if start == Earliest then earliest
                                              else if start == Latest then latest else start.offset),
                            false, watermark, [], None)
      && t.events == s.events
  {
    hide Exec, Items, Delivered, ErrorIsLast;
    RunKeeps(start, steps);
  }

  /** A fetch with records goes on behind the largest offset, whatever came before. */
  lemma FetchWithRecords(s: State, a: Answer, x: RecordAndOffset)
    requires Enabled(s, Receive(a)) && a.Fetched? && x in a.records
    requires forall r | r in a.records :: r.offset <= x.offset < I64_MAX
    ensures var t := Apply(s, Receive(a));
      && t.fields.nextOffset == Some(x.offset + 1) && t.fields.watermark == a.watermark
      && t.fields.fetch.None? && !t.fields.terminated && t.fields.start == s.fields.start
      && t.fields.buffer == SortByOffset(a.records)
  {
    hide SortByOffset;
    SortedLastIsLargest(a.records, x);
    var sorted := SortByOffset(a.records);
    assert sorted[|sorted| - 1] in sorted;
    assert [] + sorted == sorted;
  }

  /** An out-of-range answer to a relative start forgets the offset and goes on; every other failure ends the stream
      with its error. */
  lemma FailedFetch(s: State, e: FetchError)
    requires Enabled(s, Receive(Failed(e)))
    ensures var t := Apply(s, Receive(Failed(e)));
      if e == OffsetOutOfRange && s.fields.start in {Earliest, Latest}
      then t.fields == s.fields.(fetch := None, nextOffset := None) && t.events == s.events
      else t.fields == s.fields.(fetch := None, terminated := true) && t.events == s.events + [Error(e)]
  {
  }

  /** A look returns the next buffered record with its watermark, starts a fetch at the next offset, or ends. */
  lemma LookReturns(s: State)
    ensures var t := Apply(s, Look);
      if s.fields.terminated then t == s.(events := s.events + [End])
      else if s.fields.buffer != [] then
        t == State(s.fields.(buffer := s.fields.buffer[1..]), s.events + [Item(s.fields.buffer[0], s.fields.watermark)],
                   s.absorbed)
      else if s.fields.fetch.None? then t == s.(fields := s.fields.(fetch := Some(s.fields.nextOffset)))
      else t == s
  {
  }

  /** Failures other than the racy out-of-range answer to a relative start are reported, and only those. */
  ghost predicate FailuresReported(s: State) {
    && (forall i | 0 <= i < |s.events| && s.events[i].Error? ::
          !Retries(s.fields, s.events[i].error) && Failed(s.events[i].error) in s.absorbed)
    && forall a | a in s.absorbed && a.Failed? && !Retries(s.fields, a.error) :: Error(a.error) in s.events
  }

  lemma FailuresStep(s: State, step: Step)
    requires FailuresReported(s)
    ensures FailuresReported(Apply(s, step))
  {
    hide SortByOffset, WrapI64;
  }

  /** With a fixed start every failed fetch ends the stream with its error; with a relative start exactly the
      failures that are not an out-of-range offset do. */
  lemma {:induction false} FailuresAreReported(start: StartOffset, steps: seq<Step>)
    ensures var s := Exec(start, steps);
      && s.fields.start == start
      && (forall e :: Error(e) in s.events <==> Failed(e) in s.absorbed && (start.Fixed? || !e.OffsetOutOfRange?))
  {
    RunReports(start, steps);
    RunKeeps(start, steps);
    var s := Exec(start, steps);
    forall e | Error(e) in s.events ensures Failed(e) in s.absorbed && (start.Fixed? || !e.OffsetOutOfRange?) {
      var i :| 0 <= i < |s.events| && s.events[i] == Error(e);
    }
  }

  lemma {:induction false} RunReports(start: StartOffset, steps: seq<Step>)
    ensures FailuresReported(Exec(start, steps))
  {
    if steps != [] {
      RunReports(start, steps[..|steps| - 1]);
      FailuresStep(Exec(start, steps[..|steps| - 1]), steps[|steps| - 1]);
    }
  }

  // ---------------------------------------------------------------- offsets never go back

  predicate BelowLastOffset(answers: seq<Answer>) {
    forall a | a in answers && a.Fetched? :: forall r | r in a.records :: r.offset < I64_MAX
  }

  /** Items with ascending offsets in [`lo`, `hi`). */
  predicate AscendingItems(ps: seq<Poll>, lo: int, hi: int) {
    && (forall i | 0 <= i < |ps| :: ps[i].Item? && lo <= ps[i].record.offset < hi)
    && forall i, j | 0 <= i < j < |ps| :: ps[i].record.offset <= ps[j].record.offset
  }

  ghost predicate Advancing(s: State, start: int64) {
    && (s.fields.nextOffset.None? ==> Delivered(s.absorbed) == [])
    && (s.fields.nextOffset.Some? ==>
          s.fields.nextOffset.value >= start && AscendingItems(Delivered(s.absorbed), start, s.fields.nextOffset.value))
  }

  /** A filtered fetch of ascending records continues where the previous one stopped. */
  lemma FetchAdvances(f: Fields, a: Answer, start: int64)
    requires f.fetch.Some? && f.start == Fixed(start) && f.fetch.value == f.nextOffset && Filtered(f, a) && a.Fetched?
    requires forall r | r in a.records :: r.offset < I64_MAX
    ensures var used := UsedOffset(f.start, f.fetch.value, a.resolved);
      var next := Absorbed(f, a).nextOffset.value;
      AscendingItems(Tagged(SortByOffset(a.records), a.watermark), used, next) && used <= next
  {
    hide SortByOffset, Ascending;
    var used := UsedOffset(f.start, f.fetch.value, a.resolved);
    SortedWindow(a.records, used);
    SortIsStable(a.records, used);
    AscendingTagged(SortByOffset(a.records), a.watermark, used, Absorbed(f, a).nextOffset.value);
  }

  lemma SortedWindow(rs: seq<RecordAndOffset>, lo: int64)
    requires forall r | r in rs :: lo <= r.offset < I64_MAX
    ensures var sorted := SortByOffset(rs);
      && (sorted != [] ==> WrapI64(sorted[|sorted| - 1].offset + 1) == sorted[|sorted| - 1].offset + 1 > lo)
      && forall i | 0 <= i < |sorted| :: lo <= sorted[i].offset <= sorted[|sorted| - 1].offset
  {
    hide SortByOffset, At;
    var sorted := SortByOffset(rs);
    SortIsStable(rs, 0);
    forall i | 0 <= i < |sorted| ensures lo <= sorted[i].offset < I64_MAX {
      assert sorted[i] in sorted;
    }
  }

  lemma AscendingTagged(rs: seq<RecordAndOffset>, watermark: int64, lo: int, hi: int)
    requires Ascending(rs) && forall i | 0 <= i < |rs| :: lo <= rs[i].offset < hi
    ensures AscendingItems(Tagged(rs, watermark), lo, hi)
  {
  }

  lemma AdvancingStep(s: State, step: Step, start: int64)
    requires Inv(s) && Advancing(s, start) && s.fields.start == Fixed(start)
    requires BelowLastOffset(Apply(s, step).absorbed)
    ensures Advancing(Apply(s, step), start)
  {
    hide ErrorIsLast, Items, Delivered, SortByOffset, WrapI64, PollOnce, Tagged;
    if Enabled(s, step) {
      match step
      case Look => LookKeepsAnswers(s);
      case Receive(a) =>
        DeliveredAppend(s.absorbed, a);
        assert a in Apply(s, step).absorbed;
        if a.Fetched? {
          FetchAdvances(s.fields, a, start);
        } else {
          assert Delivered(s.absorbed) + [] == Delivered(s.absorbed);
        }
    }
  }

  lemma LookKeepsAnswers(s: State)
    ensures Apply(s, Look).absorbed == s.absorbed && Apply(s, Look).fields.nextOffset == s.fields.nextOffset
  {
  }

  lemma {:induction false} RunAdvances(start: int64, steps: seq<Step>)
    requires BelowLastOffset(Exec(Fixed(start), steps).absorbed)
    ensures Advancing(Exec(Fixed(start), steps), start)
  {
    hide SortByOffset, WrapI64, PollOnce, Absorbed;
    if steps != [] {
      var n := |steps| - 1;
      var s := Exec(Fixed(start), steps[..n]);
      forall a | a in s.absorbed ensures a in Apply(s, steps[n]).absorbed {
      }
      RunAdvances(start, steps[..n]);
      RunKeeps(Fixed(start), steps[..n]);
      AdvancingStep(s, steps[n], start);
    }
  }

  /** From a fixed start, against any broker, returned offsets never decrease and never fall below the start,
      as long as no record sits at the largest representable offset. */
  lemma OffsetsNeverGoBack(start: int64, steps: seq<Step>, i: nat, j: nat)
    requires BelowLastOffset(Exec(Fixed(start), steps).absorbed)
    requires i <= j < |Items(Exec(Fixed(start), steps).events)|
    ensures var items := Items(Exec(Fixed(start), steps).events);
      items[i].Item? && items[j].Item? && start <= items[i].record.offset <= items[j].record.offset
  {
    hide Exec, Items, Delivered;
    var s := Exec(Fixed(start), steps);
    RunAdvances(start, steps);
    RunKeeps(Fixed(start), steps);
    assert Items(s.events)[i] == Delivered(s.absorbed)[i] && Items(s.events)[j] == Delivered(s.absorbed)[j];
  }

  /** The next offset lies beyond every fetched record exactly when none sits at the largest offset, where
      the increment wraps around. */
  lemma NextOffsetIsBeyondIff(f: Fields, a: Answer)
    requires f.fetch.Some? && a.Fetched? && a.records != []
    ensures (forall r | r in a.records :: r.offset < Absorbed(f, a).nextOffset.value)
       <==> (forall r | r in a.records :: r.offset != I64_MAX)
  {
    hide SortByOffset;
    var sorted := SortByOffset(a.records);
    var last := sorted[|sorted| - 1];
    assert last in sorted && last in a.records;
    forall r | r in a.records ensures r.offset <= last.offset {
      SortedLastIsLargest(a.records, r);
    }
  }

  /** A record at the largest offset makes the stream go back. */
  lemma WrapAroundGoesBack(r: RecordAndOffset, q: RecordAndOffset)
    requires r.offset == I64_MAX && q.offset == 0
    ensures var a, b := Fetched(Bounds(0, 0), [r], 0), Fetched(Bounds(0, 0), [q], 0);
      var s := Exec(Fixed(0), [Look, Receive(a), Look, Look, Receive(b), Look]);
      s.events == [Item(r, 0), Item(q, 0)]
  {
    var a, b := Fetched(Bounds(0, 0), [r], 0), Fetched(Bounds(0, 0), [q], 0);
    var s0 := State(Fresh(Fixed(0)), [], []);
    var s1 := Apply(s0, Look);
    var s2 := Apply(s1, Receive(a));
    SortAscending([r]);
    SortAscending([q]);
    assert s2.fields.buffer == [r];
    var s3 := Apply(s2, Look);
    assert s3.fields.buffer == [] && s3.events == [Item(r, 0)];
    var s4 := Apply(s3, Look);
    assert s4.fields.fetch == Some(Some(-0x8000_0000_0000_0000));
    var s5 := Apply(s4, Receive(b));
    assert s5.fields.buffer == [q];
    var s6 := Apply(s5, Look);
    ExecSix(Fixed(0), Look, Receive(a), Look, Look, Receive(b), Look);
  }

  lemma ExecSix(start: StartOffset, a: Step, b: Step, c: Step, d: Step, e: Step, f: Step)
    ensures Exec(start, [a, b, c, d, e, f])
         == Apply(Apply(Apply(Apply(Apply(Apply(State(Fresh(start), [], []), a), b), c), d), e), f)
  {
    hide Apply;
    var s1, s2, s3, s4, s5, s6 := [a], [a, b], [a, b, c], [a, b, c, d], [a, b, c, d, e], [a, b, c, d, e, f];
    assert s6[..5] == s5 && s5[..4] == s4 && s4[..3] == s3 && s3[..2] == s2 && s2[..1] == s1 && s1[..0] == [];
    assert Exec(start, s1) == Apply(Exec(start, []), a);
    assert Exec(start, s2) == Apply(Exec(start, s1), b);
    assert Exec(start, s3) == Apply(Exec(start, s2), c);
    assert Exec(start, s4) == Apply(Exec(start, s3), d);
    assert Exec(start, s5) == Apply(Exec(start, s4), e);
  }
}
