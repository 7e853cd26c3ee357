/** A partition as an append-only log of batches, and what fetching from it returns. */
module PartitionLog {
  import opened Bytes
  import opened RecordFormat
  import opened ClientRecords
  import opened HeaderMaps
  import opened Partition
  import opened OffsetSort

  function LastOffset(b: RecordBatch): int {
    b.baseOffset + b.lastOffsetDelta
  }

  /** Offsets increase within the range the batch header announces, and times are representable. */
  predicate WellFormedBatch(b: RecordBatch) {
    && 0 <= b.lastOffsetDelta && LastOffset(b) < I64_MAX
    && (b.payload.Records? ==>
          && (forall i | 0 <= i < |b.payload.records| ::
                0 <= b.payload.records[i].offsetDelta <= b.lastOffsetDelta && TimestampOf(b, b.payload.records[i]).Ok?)
          && (forall i, j | 0 <= i < j < |b.payload.records| ::
                b.payload.records[i].offsetDelta < b.payload.records[j].offsetDelta))
  }

  predicate WellFormedLog(log: seq<RecordBatch>) {
    && (forall i | 0 <= i < |log| :: WellFormedBatch(log[i]))
    && forall i, j | 0 <= i < j < |log| :: LastOffset(log[i]) < log[j].baseOffset
  }

  /** One record as a reader of the log sees it. */
  function AsRead(b: RecordBatch, r: Record): RecordAndOffset
    requires TimestampOf(b, r).Ok?
  {
    RecordAndOffset(ClientRecord(r.key, r.value, Collect(r.headers), TimestampOf(b, r).value), OffsetOf(b, r))
  }

  /** The data records of a batch. */
  function RecordsOf(b: RecordBatch): (rs: seq<RecordAndOffset>)
    requires WellFormedBatch(b)
    ensures b.payload.ControlBatch? ==> rs == []
    ensures b.payload.Records? ==> |rs| == |b.payload.records|
    ensures b.payload.Records? ==> forall i | 0 <= i < |rs| :: rs[i] == AsRead(b, b.payload.records[i])
  {
    if b.payload.ControlBatch? then []
    else seq(|b.payload.records|, i requires 0 <= i < |b.payload.records| => AsRead(b, b.payload.records[i]))
  }

  /** All data records of the log, in log order. */
  function AllRecords(log: seq<RecordBatch>): seq<RecordAndOffset>
    requires WellFormedLog(log)
  {
    if log == [] then [] else AllRecords(log[..|log| - 1]) + RecordsOf(log[|log| - 1])
  }

  /** The records with offsets in [`lo`, `hi`). */
  function Between(rs: seq<RecordAndOffset>, lo: int, hi: int): seq<RecordAndOffset> {
    if rs == [] then [] else
    var x := rs[|rs| - 1];
    Between(rs[..|rs| - 1], lo, hi) + if lo <= x.offset < hi then [x] else []
  }

  const NO_LIMIT := I64_MAX + 1

  // ---------------------------------------------------------------- laws of Between

  lemma BetweenStep(rs: seq<RecordAndOffset>, x: RecordAndOffset, lo: int, hi: int)
    ensures Between(rs + [x], lo, hi) == Between(rs, lo, hi) + if lo <= x.offset < hi then [x] else []
  {
    assert (rs + [x])[..|rs|] == rs;
  }

  lemma BetweenEmpty(lo: int, hi: int)
    ensures Between([], lo, hi) == []
  {
  }

  lemma {:induction false} BetweenConcat(a: seq<RecordAndOffset>, b: seq<RecordAndOffset>, lo: int, hi: int)
    ensures Between(a + b, lo, hi) == Between(a, lo, hi) + Between(b, lo, hi)
  {
    hide Between;
    if b == [] {
      assert a + b == a;
      BetweenEmpty(lo, hi);
      assert Between(a, lo, hi) + [] == Between(a, lo, hi);
    } else {
      var n := |b| - 1;
      var front, last := b[..n], if lo <= b[n].offset < hi then [b[n]] else [];
      BetweenConcat(a, front, lo, hi);
      assert a + b == a + front + [b[n]];
      assert b == front + [b[n]];
      BetweenStep(a + front, b[n], lo, hi);
      BetweenStep(front, b[n], lo, hi);
      assert Between(a, lo, hi) + Between(front, lo, hi) + last == Between(a, lo, hi) + (Between(front, lo, hi) + last);
    }
  }

  lemma {:induction false} BetweenMembers(rs: seq<RecordAndOffset>, lo: int, hi: int)
    ensures forall x | x in Between(rs, lo, hi) :: x in rs && lo <= x.offset < hi
  {
    if rs != [] {
      BetweenMembers(rs[..|rs| - 1], lo, hi);
    }
  }

  lemma {:induction false} BetweenNone(rs: seq<RecordAndOffset>, lo: int, hi: int)
    requires forall x | x in rs :: x.offset < lo || hi <= x.offset
    ensures Between(rs, lo, hi) == []
  {
    if rs != [] {
      assert rs[|rs| - 1] in rs;
      BetweenNone(rs[..|rs| - 1], lo, hi);
    }
  }

  lemma {:induction false} BetweenSame(rs: seq<RecordAndOffset>, lo: int, hi: int, hi': int)
    requires forall x | x in rs && lo <= x.offset :: x.offset < hi <==> x.offset < hi'
    ensures Between(rs, lo, hi) == Between(rs, lo, hi')
  {
    if rs != [] {
      assert rs[|rs| - 1] in rs;
      BetweenSame(rs[..|rs| - 1], lo, hi, hi');
    }
  }

  lemma {:induction false} BetweenKeepsAscending(rs: seq<RecordAndOffset>, lo: int, hi: int)
    requires Ascending(rs)
    ensures Ascending(Between(rs, lo, hi))
  {
    if rs != [] {
      var n := |rs| - 1;
      BetweenKeepsAscending(rs[..n], lo, hi);
      BetweenMembers(rs[..n], lo, hi);
      var r := Between(rs[..n], lo, hi);
      forall i | 0 <= i < |r| ensures r[i].offset <= rs[n].offset {
        assert r[i] in rs[..n];
      }
    }
  }

  /** A range of an ascending sequence is a lower range followed by an upper one. */
  lemma {:induction false} BetweenSplit(rs: seq<RecordAndOffset>, lo: int, mid: int, hi: int)
    requires Ascending(rs) && lo <= mid <= hi
    ensures Between(rs, lo, hi) == Between(rs, lo, mid) + Between(rs, mid, hi)
  {
    if rs != [] {
      hide Between;
      var n := |rs| - 1;
      var x := rs[n];
      BetweenSplit(rs[..n], lo, mid, hi);
      assert rs == rs[..n] + [x];
      BetweenStep(rs[..n], x, lo, hi);
      BetweenStep(rs[..n], x, lo, mid);
      BetweenStep(rs[..n], x, mid, hi);
      if x.offset < mid {
        forall y | y in rs[..n] ensures y.offset < mid {
        }
        BetweenNone(rs[..n], mid, hi);
      }
    }
  }

  // ---------------------------------------------------------------- the log

  lemma RecordsOfRange(b: RecordBatch)
    requires WellFormedBatch(b)
    ensures Ascending(RecordsOf(b))
    ensures forall x | x in RecordsOf(b) :: b.baseOffset <= x.offset <= LastOffset(b)
  {
  }

  lemma {:induction false} LogRange(log: seq<RecordBatch>)
    requires WellFormedLog(log)
    ensures Ascending(AllRecords(log))
    ensures forall x | x in AllRecords(log) :: log != [] && log[0].baseOffset <= x.offset <= LastOffset(log[|log| - 1])
  {
    hide WellFormedBatch, RecordsOf;
    if log != [] {
      var n := |log| - 1;
      LogRange(log[..n]);
      RecordsOfRange(log[n]);
      if n > 0 {
        assert LastOffset(log[n - 1]) < log[n].baseOffset;
        NonEmptyBatch(log[0]);
        NonEmptyBatch(log[n]);
        assert log[0].baseOffset <= LastOffset(log[0]) < log[n].baseOffset;
      }
    }
  }

  lemma NonEmptyBatch(b: RecordBatch)
    requires WellFormedBatch(b)
    ensures b.baseOffset <= LastOffset(b)
  {
  }

  lemma LogParts(a: seq<RecordBatch>, b: seq<RecordBatch>)
    requires WellFormedLog(a + b)
    ensures WellFormedLog(a) && WellFormedLog(b)
  {
    hide WellFormedBatch;
    assert forall i | 0 <= i < |a| :: a[i] == (a + b)[i];
    assert forall i | 0 <= i < |b| :: b[i] == (a + b)[|a| + i];
  }

  lemma {:induction false} AllRecordsConcat(a: seq<RecordBatch>, b: seq<RecordBatch>)
    requires WellFormedLog(a + b)
    ensures WellFormedLog(a) && WellFormedLog(b) && AllRecords(a + b) == AllRecords(a) + AllRecords(b)
  {
    hide WellFormedBatch, RecordsOf;
    LogParts(a, b);
    if b == [] {
      assert a + b == a;
    } else {
      var n := |b| - 1;
      assert a + b == a + b[..n] + [b[n]];
      assert (a + b)[..|a| + n] == a + b[..n];
      LogParts(a + b[..n], [b[n]]);
      AllRecordsConcat(a, b[..n]);
      hide WellFormedLog;
      assert AllRecords(a + b) == AllRecords(a + b[..n]) + RecordsOf(b[n]);
      assert AllRecords(b) == AllRecords(b[..n]) + RecordsOf(b[n]);
    }
  }

  lemma {:induction false} ExtractBatchIsRange(b: RecordBatch, from: int64, n: nat)
    requires WellFormedBatch(b) && b.payload.Records? && n <= |b.payload.records|
    ensures ExtractRecords(b, b.payload.records[..n], from) == Ok(Between(RecordsOf(b)[..n], from, NO_LIMIT))
  {
    hide TimestampOf, OffsetOf, Collect;
    var ps, rs := b.payload.records, RecordsOf(b);
    if n > 0 {
      ExtractBatchIsRange(b, from, n - 1);
      assert ps[..n][..n - 1] == ps[..n - 1];
      assert rs[..n] == rs[..n - 1] + [rs[n - 1]];
      BetweenStep(rs[..n - 1], rs[n - 1], from, NO_LIMIT);
      assert rs[n - 1] == AsRead(b, ps[n - 1]);
      assert Between(rs[..n - 1], from, NO_LIMIT) + [] == Between(rs[..n - 1], from, NO_LIMIT);
    }
  }

  /** Extraction keeps exactly the data records at or after the requested offset. */
  lemma {:induction false} ExtractIsRange(bs: seq<RecordBatch>, from: int64)
    requires WellFormedLog(bs)
    ensures ExtractBatches(bs, from) == Ok(Between(AllRecords(bs), from, NO_LIMIT))
  {
    hide ExtractRecords, RecordsOf, Between, WellFormedBatch;
    BetweenEmpty(from, NO_LIMIT);
    if bs != [] {
      var n := |bs| - 1;
      ExtractIsRange(bs[..n], from);
      BetweenConcat(AllRecords(bs[..n]), RecordsOf(bs[n]), from, NO_LIMIT);
      if bs[n].payload.Records? {
        var m := |bs[n].payload.records|;
        ExtractBatchIsRange(bs[n], from, m);
        assert bs[n].payload.records[..m] == bs[n].payload.records && RecordsOf(bs[n])[..m] == RecordsOf(bs[n]);
      } else {
        assert RecordsOf(bs[n]) == [] && Between([], from, NO_LIMIT) == [];
        assert Between(AllRecords(bs[..n]), from, NO_LIMIT) + [] == Between(AllRecords(bs[..n]), from, NO_LIMIT);
      }
    }
  }

  /** A fetch at `offset` returns whole consecutive batches from the one covering the offset: `log[i..j]`. */
  predicate Covers(log: seq<RecordBatch>, offset: int, i: nat, j: nat) {
    && i <= j <= |log|
    && (forall k | 0 <= k < i :: LastOffset(log[k]) < offset)
    && (i < |log| ==> offset <= LastOffset(log[i]))
  }

  function EndOf(rs: seq<RecordAndOffset>, offset: int): int {
    if rs == [] then offset else rs[|rs| - 1].offset + 1
  }

  /** What such a fetch yields is one gap-free range of the whole log. */
  lemma FetchIsRange(log: seq<RecordBatch>, offset: int64, i: nat, j: nat)
    requires WellFormedLog(log) && Covers(log, offset, i, j)
    ensures WellFormedLog(log[i..j])
    ensures var got := Between(AllRecords(log[i..j]), offset, NO_LIMIT);
      && ExtractBatches(log[i..j], offset) == Ok(got)
      && Ascending(got)
      && offset <= EndOf(got, offset)
      && got == Between(AllRecords(log), offset, EndOf(got, offset))
  {
    hide WellFormedBatch, RecordsOf, AllRecords, ExtractBatches, Between;
    var b := log[i..j];
    WindowOf(log, offset, i, j);
    ExtractIsRange(b, offset);
    var rb := AllRecords(b);
    LogRange(b);
    var got := Between(rb, offset, NO_LIMIT);
    BetweenKeepsAscending(rb, offset, NO_LIMIT);
    BetweenMembers(rb, offset, NO_LIMIT);
    var end := EndOf(got, offset);
    if got == [] {
      EmptyRange(AllRecords(log), offset);
    } else {
      var last := got[|got| - 1];
      assert last in got && last in rb;
      forall x | x in rb && offset <= x.offset ensures x.offset < end <==> x.offset < NO_LIMIT {
        InRange(rb, offset, NO_LIMIT, x);
      }
      BetweenSame(rb, offset, end, NO_LIMIT);
      OutsideWindow(log, offset, i, j, end);
    }
  }

  /** The log around a fetched window. */
  lemma WindowOf(log: seq<RecordBatch>, offset: int, i: nat, j: nat)
    requires WellFormedLog(log) && Covers(log, offset, i, j)
    ensures WellFormedLog(log[..i]) && WellFormedLog(log[i..j]) && WellFormedLog(log[j..])
    ensures AllRecords(log) == AllRecords(log[..i]) + (AllRecords(log[i..j]) + AllRecords(log[j..]))
  {
    hide WellFormedBatch, RecordsOf, AllRecords, WellFormedLog;
    var a, b, c := log[..i], log[i..j], log[j..];
    assert log == a + (b + c);
    AllRecordsConcat(a, b + c);
    AllRecordsConcat(b, c);
  }

  lemma BeforeWindow(log: seq<RecordBatch>, offset: int, i: nat, j: nat)
    requires WellFormedLog(log) && Covers(log, offset, i, j) && WellFormedLog(log[..i])
    ensures forall x | x in AllRecords(log[..i]) :: x.offset < offset
  {
    hide WellFormedBatch, RecordsOf, AllRecords, WellFormedLog;
    LogRange(log[..i]);
    if i > 0 {
      assert log[..i][i - 1] == log[i - 1];
    }
  }

  lemma AfterWindow(log: seq<RecordBatch>, j: nat)
    requires WellFormedLog(log) && 0 < j <= |log| && WellFormedLog(log[j..])
    ensures forall x | x in AllRecords(log[j..]) :: LastOffset(log[j - 1]) < x.offset
  {
    hide WellFormedBatch, RecordsOf, AllRecords;
    LogRange(log[j..]);
    if j < |log| {
      assert log[j..][0] == log[j] && LastOffset(log[j - 1]) < log[j].baseOffset;
    }
  }

  /** Nothing outside the window falls into [`offset`, `end`). */
  lemma OutsideWindow(log: seq<RecordBatch>, offset: int, i: nat, j: nat, end: int)
    requires WellFormedLog(log) && Covers(log, offset, i, j) && WellFormedLog(log[i..j])
    requires i < j && end <= LastOffset(log[j - 1]) + 1
    ensures Between(AllRecords(log), offset, end) == Between(AllRecords(log[i..j]), offset, end)
  {
    hide WellFormedBatch, RecordsOf, AllRecords, Between, WellFormedLog;
    WindowOf(log, offset, i, j);
    BeforeWindow(log, offset, i, j);
    AfterWindow(log, j);
    var ra, rb, rc := AllRecords(log[..i]), AllRecords(log[i..j]), AllRecords(log[j..]);
    BetweenNone(ra, offset, end);
    BetweenNone(rc, offset, end);
    BetweenConcat(ra, rb + rc, offset, end);
    BetweenConcat(rb, rc, offset, end);
    assert [] + (Between(rb, offset, end) + []) == Between(rb, offset, end);
  }

  lemma EmptyRange(rs: seq<RecordAndOffset>, offset: int)
    ensures Between(rs, offset, offset) == []
  {
    BetweenNone(rs, offset, offset);
  }

  lemma {:induction false} InRange(rs: seq<RecordAndOffset>, lo: int, hi: int, x: RecordAndOffset)
    requires x in rs && lo <= x.offset < hi
    ensures x in Between(rs, lo, hi)
  {
    var n := |rs| - 1;
    if rs[n] != x {
      assert x in rs[..n];
      InRange(rs[..n], lo, hi, x);
    }
  }

  /** Appending to the log does not disturb a range that ends where known records end. */
  lemma AppendKeepsRange(log: seq<RecordBatch>, b: RecordBatch, lo: int, hi: int)
    requires WellFormedLog(log + [b])
    requires lo == hi || hi <= b.baseOffset
    ensures WellFormedLog(log) && Between(AllRecords(log + [b]), lo, hi) == Between(AllRecords(log), lo, hi)
  {
    hide WellFormedBatch, RecordsOf, AllRecords;
    AllRecordsConcat(log, [b]);
    if lo == hi {
      EmptyRange(AllRecords(log + [b]), lo);
      EmptyRange(AllRecords(log), lo);
    } else {
      LogRange([b]);
      BetweenNone(AllRecords([b]), lo, hi);
      BetweenConcat(AllRecords(log), AllRecords([b]), lo, hi);
    }
  }
}

/** The stream consumer against an append-only log: between offset resets it reads the log in order. */
module LogConsumer {
  import opened Bytes
  import opened Primitives
  import opened RecordFormat
  import opened RecordRoundTrip
  import opened Partition
  import opened OffsetSort
  import opened PartitionLog
  import opened Consumer

  /** `origin` is the offset the current reading started from; `mark` counts the records delivered before. */
  datatype World = World(consumer: Consumer.State, log: seq<RecordBatch>, origin: int, mark: nat)

  datatype Event =
    | Append(batch: RecordBatch)
    | Look
    | Fetch(resolved: Bounds, i: nat, j: nat, watermark: int64)
    | Fail(error: FetchError)

  /** The answer to the pending fetch when the broker returns `log[i..j]`. */
  function AnswerTo(w: World, e: Event): (a: Answer)
    requires e.Fetch? && e.i <= e.j <= |w.log| && w.consumer.fields.fetch.Some?
    ensures a.Fetched?
  {
    var used := UsedOffset(w.consumer.fields.start, w.consumer.fields.fetch.value, e.resolved);
    var got := ExtractBatches(w.log[e.i..e.j], used);
    Fetched(e.resolved, if got.Ok? then got.value else [], e.watermark)
  }

  predicate CanReceive(w: World) {
    !w.consumer.fields.terminated && w.consumer.fields.buffer == [] && w.consumer.fields.fetch.Some?
  }

  predicate Happens(w: World, e: Event) {
    match e
    case Append(b) => WellFormedLog(w.log + [b])
    case Look => true
    case Fetch(resolved, i, j, _) =>
      CanReceive(w)
      && Covers(w.log, UsedOffset(w.consumer.fields.start, w.consumer.fields.fetch.value, resolved), i, j)
    case Fail(_) => CanReceive(w)
  }

  function Next(w: World, e: Event): World {
    if !Happens(w, e) then w else
    match e
    case Append(b) => w.(log := w.log + [b])
    case Look => w.(consumer := Consumer.Apply(w.consumer, Consumer.Look))
    case Fetch(resolved, _, _, _) =>
      var used := UsedOffset(w.consumer.fields.start, w.consumer.fields.fetch.value, resolved);
      w.(consumer := Consumer.Apply(w.consumer, Receive(AnswerTo(w, e))),
         origin := if w.consumer.fields.nextOffset.None? then used else w.origin)
    case Fail(error) =>
      var c := Consumer.Apply(w.consumer, Receive(Failed(error)));
      w.(consumer := c, mark := if Retries(w.consumer.fields, error) then |Delivered(c.absorbed)| else w.mark)
  }

  function Run(start: StartOffset, events: seq<Event>): World {
    if events == [] then World(Consumer.State(Fresh(start), [], []), [], 0, 0)
    else Next(Run(start, events[..|events| - 1]), events[|events| - 1])
  }

  /** The records of a sequence of items. */
  function Bare(ps: seq<Poll>): (rs: seq<RecordAndOffset>)
    requires forall i | 0 <= i < |ps| :: ps[i].Item?
    ensures |rs| == |ps| && forall i | 0 <= i < |ps| :: rs[i] == ps[i].record
  {
    seq(|ps|, i requires 0 <= i < |ps| => ps[i].record)
  }

  lemma {:induction false} DeliveredAreItems(answers: seq<Answer>)
    ensures forall i | 0 <= i < |Delivered(answers)| :: Delivered(answers)[i].Item?
  {
    if answers != [] {
      DeliveredAreItems(answers[..|answers| - 1]);
    }
  }

  /** What the answers delivered after the first `mark` records. */
  function SinceMark(answers: seq<Answer>, mark: nat): seq<RecordAndOffset>
    requires mark <= |Delivered(answers)|
  {
    DeliveredAreItems(answers);
    Bare(Delivered(answers)[mark..])
  }

  /** What was delivered since the last reset. */
  function Since(w: World): (rs: seq<RecordAndOffset>)
    requires w.mark <= |Delivered(w.consumer.absorbed)|
  {
    SinceMark(w.consumer.absorbed, w.mark)
  }

  ghost predicate Faithful(w: World) {
    && WellFormedLog(w.log)
    && w.mark <= |Delivered(w.consumer.absorbed)|
    && (w.consumer.fields.nextOffset.None? ==> Since(w) == [])
    && (w.consumer.fields.nextOffset.Some? ==>
          var next := w.consumer.fields.nextOffset.value;
          && w.origin <= next
          && Since(w) == Between(AllRecords(w.log), w.origin, next)
          && (w.origin == next || (w.log != [] && next <= LastOffset(w.log[|w.log| - 1]) + 1)))
  }

  lemma BareConcat(a: seq<Poll>, rs: seq<RecordAndOffset>, watermark: int64)
    requires forall i | 0 <= i < |a| :: a[i].Item?
    ensures Bare(a + Tagged(rs, watermark)) == Bare(a) + rs
  {
  }

  lemma AppendKeeps(w: World, e: Event)
    requires Faithful(w) && e.Append? && Happens(w, e)
    ensures Faithful(Next(w, e))
  {
    hide WellFormedLog, AllRecords, Delivered, Between;
    LogOrder(w.log, e.batch);
    if w.consumer.fields.nextOffset.Some? {
      AppendKeepsRange(w.log, e.batch, w.origin, w.consumer.fields.nextOffset.value);
    }
  }

  lemma LogOrder(log: seq<RecordBatch>, b: RecordBatch)
    requires WellFormedLog(log + [b])
    ensures log != [] ==> LastOffset(log[|log| - 1]) < b.baseOffset
    ensures b.baseOffset <= LastOffset(b)
  {
    assert (log + [b])[|log|] == b;
    if log != [] {
      assert (log + [b])[|log| - 1] == log[|log| - 1];
    }
  }

  /** The offset the pending fetch asks for. */
  function Asked(w: World, e: Event): int64
    requires e.Fetch? && w.consumer.fields.fetch.Some?
  {
    UsedOffset(w.consumer.fields.start, w.consumer.fields.fetch.value, e.resolved)
  }

  /** A fetch delivers the range of the log from the asked offset to the new next offset. */
  lemma FetchDelivers(w: World, e: Event)
    requires WellFormedLog(w.log) && e.Fetch? && Happens(w, e)
    ensures var got := AnswerTo(w, e).records;
      var end := EndOf(got, Asked(w, e));
      && SortByOffset(got) == got
      && got == Between(AllRecords(w.log), Asked(w, e), end)
      && Asked(w, e) <= end
      && (got != [] ==> w.log != [] && end <= LastOffset(w.log[|w.log| - 1]) + 1)
      && Next(w, e).consumer.fields.nextOffset == Some(end)
      && Next(w, e).consumer.absorbed == w.consumer.absorbed + [AnswerTo(w, e)]
  {
    hide WellFormedLog, AllRecords, Between, ExtractBatches, SortByOffset, Absorbed;
    var used, a := Asked(w, e), AnswerTo(w, e);
    FetchIsRange(w.log, used, e.i, e.j);
    SortAscending(a.records);
    BetweenMembers(AllRecords(w.log), used, EndOf(a.records, used));
    GotWithinLog(w.log, a.records, used);
    NextAfterFetch(w.consumer.fields, a, used);
  }

  lemma SinceAppend(answers: seq<Answer>, mark: nat, a: Answer)
    requires mark <= |Delivered(answers)| && a.Fetched? && SortByOffset(a.records) == a.records
    ensures mark <= |Delivered(answers + [a])|
    ensures SinceMark(answers + [a], mark) == SinceMark(answers, mark) + a.records
  {
    hide Delivered, SortByOffset;
    DeliveredAppend(answers, a);
    DeliveredAreItems(answers);
    DeliveredAreItems(answers + [a]);
    var all := Delivered(answers);
    assert Delivered(answers + [a])[mark..] == all[mark..] + Tagged(a.records, a.watermark);
    BareConcat(all[mark..], a.records, a.watermark);
  }

  lemma SinceGrows(w: World, e: Event)
    requires w.mark <= |Delivered(w.consumer.absorbed)| && WellFormedLog(w.log) && e.Fetch? && Happens(w, e)
    ensures Next(w, e).mark == w.mark <= |Delivered(Next(w, e).consumer.absorbed)|
    ensures Since(Next(w, e)) == Since(w) + AnswerTo(w, e).records
  {
    hide WellFormedLog, Delivered, SortByOffset, AnswerTo, Consumer.Apply, Between, AllRecords;
    FetchDelivers(w, e);
    SinceAppend(w.consumer.absorbed, w.mark, AnswerTo(w, e));
  }

  lemma FetchKeeps(w: World, e: Event)
    requires Faithful(w) && Consumer.Inv(w.consumer) && e.Fetch? && Happens(w, e)
    ensures Faithful(Next(w, e))
  {
    hide WellFormedLog, AllRecords, Between, AnswerTo, Since, Delivered, LastOffset, Next, Ascending, SortByOffset;
    FetchDelivers(w, e);
    SinceGrows(w, e);
    FetchMoves(w, e);
    hide Consumer.Inv;
    var got, used := AnswerTo(w, e).records, Asked(w, e);
    if w.consumer.fields.nextOffset.Some? {
      LogRange(w.log);
      BetweenSplit(AllRecords(w.log), w.origin, used, EndOf(got, used));
    } else {
      assert [] + got == got;
    }
  }

  lemma FetchMoves(w: World, e: Event)
    requires Consumer.Inv(w.consumer) && e.Fetch? && Happens(w, e)
    ensures Next(w, e).log == w.log
    ensures Next(w, e).origin == if w.consumer.fields.nextOffset.None? then Asked(w, e) else w.origin
    ensures w.consumer.fields.nextOffset.Some? ==> Asked(w, e) == w.consumer.fields.nextOffset.value
  {
    hide Consumer.Apply, AnswerTo, Covers;
    CapturedIsNext(w.consumer);
  }

  lemma CapturedIsNext(s: Consumer.State)
    requires Consumer.Inv(s) && s.fields.fetch.Some?
    ensures s.fields.fetch.value == s.fields.nextOffset
  {
  }

  lemma GotWithinLog(log: seq<RecordBatch>, got: seq<RecordAndOffset>, used: int)
    requires WellFormedLog(log) && forall x | x in got :: x in AllRecords(log)
    ensures got != [] ==> log != [] && EndOf(got, used) <= LastOffset(log[|log| - 1]) + 1
    ensures got != [] ==> EndOf(got, used) <= I64_MAX
  {
    hide AllRecords;
    LogRange(log);
    if got != [] {
      var last := got[|got| - 1];
      assert last in got && last in AllRecords(log);
      assert WellFormedBatch(log[|log| - 1]);
    }
  }

  lemma NextAfterFetch(f: Consumer.Fields, a: Answer, used: int64)
    requires f.fetch.Some? && a.Fetched? && used == UsedOffset(f.start, f.fetch.value, a.resolved)
    requires SortByOffset(a.records) == a.records && (a.records != [] ==> EndOf(a.records, used) <= I64_MAX)
    ensures Absorbed(f, a).nextOffset == Some(EndOf(a.records, used))
  {
  }

  lemma FailKeeps(w: World, e: Event)
    requires Faithful(w) && e.Fail? && Happens(w, e)
    ensures Faithful(Next(w, e))
  {
    hide WellFormedLog, AllRecords, Between;
    DeliveredAppend(w.consumer.absorbed, Failed(e.error));
    assert Delivered(w.consumer.absorbed) + [] == Delivered(w.consumer.absorbed);
    hide Delivered;
  }

  lemma LookKeepsFaithful(w: World)
    requires Faithful(w)
    ensures Faithful(Next(w, Event.Look))
  {
    hide WellFormedLog, AllRecords, Between, Delivered;
    LookKeepsAnswers(w.consumer);
  }

  lemma {:induction false} RunFaithful(start: StartOffset, events: seq<Event>)
    ensures Faithful(Run(start, events)) && Consumer.Inv(Run(start, events).consumer)
  {
    if events == [] {
      assert Items([]) + Tagged([], -1) == Delivered([]);
    } else {
      var w, e := Run(start, events[..|events| - 1]), events[|events| - 1];
      RunFaithful(start, events[..|events| - 1]);
      hide Faithful, Consumer.Inv, Delivered, ExtractBatches, SortByOffset, Covers, WellFormedLog;
      if Happens(w, e) {
        match e
        case Append(_) => AppendKeeps(w, e);
        case Look =>
          LookKeepsFaithful(w);
          LookKeeps(w.consumer);
        case Fetch(_, _, _, _) =>
          FetchKeeps(w, e);
          ReceiveKeepsAny(w.consumer, AnswerTo(w, e));
        case Fail(error) =>
          FailKeeps(w, e);
          ReceiveKeepsAny(w.consumer, Failed(error));
      }
    }
  }

  lemma ReceiveKeepsAny(s: Consumer.State, a: Answer)
    requires Consumer.Inv(s)
    ensures Consumer.Inv(Consumer.Apply(s, Receive(a)))
  {
    if Consumer.Enabled(s, Receive(a)) {
      ReceiveKeeps(s, a);
    }
  }

  /** An offset reset: a relative start, and the broker no longer has the offset. */
  predicate Resets(w: World, e: Event) {
    e.Fail? && e.error.OffsetOutOfRange? && !w.consumer.fields.start.Fixed? && Happens(w, e)
  }

  /** The first fetch since the beginning or since a reset. */
  predicate Begins(w: World, e: Event) {
    e.Fetch? && w.consumer.fields.nextOffset.None? && Happens(w, e)
  }

  /** A reading begins with the first fetch, at the offset it asks for, and is cut off only by a reset. */
  lemma ReadingsChangeOnlyAtResets(w: World, e: Event)
    requires WellFormedLog(w.log)
    ensures var w' := Next(w, e);
      && (Resets(w, e) ==> w'.mark == |Delivered(w'.consumer.absorbed)| && w'.consumer.fields.nextOffset.None?)
      && (!Resets(w, e) ==> w'.mark == w.mark)
      && (Begins(w, e) ==> w'.origin == Asked(w, e) && w'.consumer.fields.nextOffset.Some?)
      && (!Begins(w, e) ==> w'.origin == w.origin)
      && (!Resets(w, e) && !Begins(w, e) ==>
            (w'.consumer.fields.nextOffset.None? <==> w.consumer.fields.nextOffset.None?))
      && w'.consumer.fields.start == w.consumer.fields.start
  {
    hide WellFormedLog, Delivered, SortByOffset, Covers, AllRecords, Between;
    if e.Fetch? && Happens(w, e) {
      FetchDelivers(w, e);
      hide Consumer.Apply, AnswerTo;
      FetchKeepsStart(w, e);
    } else {
      hide ExtractBatches;
    }
  }

  lemma FetchKeepsStart(w: World, e: Event)
    requires e.Fetch? && Happens(w, e)
    ensures Next(w, e).consumer.fields.start == w.consumer.fields.start
  {
    hide Delivered, SortByOffset, Covers, ExtractBatches, WrapI64;
  }

  /** In every run a reading begins at the fixed start, or at the offset the broker resolved for it. */
  lemma ReadingBeginsAt(start: StartOffset, events: seq<Event>, e: Event)
    requires Begins(Run(start, events), e)
    ensures Next(Run(start, events), e).origin == match start
      case Fixed(offset) => offset
      case Earliest => e.resolved.earliest
      case Latest => e.resolved.latest
  {
    RunReadsFrom(start, events);
    RunFaithful(start, events);
    hide Run, Next, Since, Delivered, Between, AllRecords, Covers, WellFormedLog;
    var w := Run(start, events);
    CapturedIsNext(w.consumer);
    BeginsAtAsked(w, e);
  }

  lemma BeginsAtAsked(w: World, e: Event)
    requires Begins(w, e)
    ensures Next(w, e).origin == Asked(w, e)
  {
    hide Consumer.Apply, AnswerTo, Covers;
  }

  /** With a fixed start there is one reading, and it begins at the start. */
  ghost predicate ReadsFrom(w: World, start: StartOffset) {
    && w.consumer.fields.start == start
    && (start.Fixed? ==> w.mark == 0 && (w.consumer.fields.nextOffset.Some? ==> w.origin == start.offset))
  }

  lemma {:induction false} RunReadsFrom(start: StartOffset, events: seq<Event>)
    ensures ReadsFrom(Run(start, events), start)
  {
    if events != [] {
      var w, e := Run(start, events[..|events| - 1]), events[|events| - 1];
      RunReadsFrom(start, events[..|events| - 1]);
      RunFaithful(start, events[..|events| - 1]);
      hide Run, Next, Since, Delivered, Between, AllRecords;
      ReadingsChangeOnlyAtResets(w, e);
      if Begins(w, e) {
        CapturedIsNext(w.consumer);
      }
      assert Run(start, events) == Next(w, e) by {
        LastEvent(start, events);
      }
    }
  }

  lemma LastEvent(start: StartOffset, events: seq<Event>)
    requires events != []
    ensures Run(start, events) == Next(Run(start, events[..|events| - 1]), events[|events| - 1])
  {
  }

  /** Between offset resets, what the stream returned and still buffers is exactly the log's data records from
      the offset it started at up to its next offset: in order, nothing lost, nothing twice. With a fixed start
      that is everything it ever returned. */
  lemma StreamReadsTheLog(start: StartOffset, events: seq<Event>)
    ensures var w := Run(start, events);
      && w.mark <= |Delivered(w.consumer.absorbed)|
      && WellFormedLog(w.log)
      && Items(w.consumer.events) + Tagged(w.consumer.fields.buffer, w.consumer.fields.watermark)
         == Delivered(w.consumer.absorbed)
      && (w.consumer.fields.nextOffset.Some? ==>
            Since(w) == Between(AllRecords(w.log), w.origin, w.consumer.fields.nextOffset.value))
      && (w.consumer.fields.nextOffset.None? ==> Since(w) == [])
      && (start.Fixed? ==> w.mark == 0 && (w.consumer.fields.nextOffset.Some? ==> w.origin == start.offset))
  {
    RunFaithful(start, events);
    RunReadsFrom(start, events);
  }

  /** From a fixed start, everything returned or buffered is the log from the start offset to the next one. */
  lemma FixedStartReadsTheLog(start: int64, events: seq<Event>)
    ensures var w := Run(Fixed(start), events);
      var all := Items(w.consumer.events) + Tagged(w.consumer.fields.buffer, w.consumer.fields.watermark);
      && WellFormedLog(w.log)
      && (forall i | 0 <= i < |all| :: all[i].Item?)
      && Bare(all) == match w.consumer.fields.nextOffset
                      case Some(next) => Between(AllRecords(w.log), start, next)
                      case None => []
  {
    hide Run, Items, Delivered, Between, AllRecords, WellFormedLog;
    StreamReadsTheLog(Fixed(start), events);
    var w := Run(Fixed(start), events);
    DeliveredAreItems(w.consumer.absorbed);
    assert Delivered(w.consumer.absorbed)[0..] == Delivered(w.consumer.absorbed);
  }

  // ---------------------------------------------------------------- progress

  /** A fetch moves the consumer exactly when the batches it returns hold a data record at or after the offset
      it asked for; control batches alone do not. */
  lemma FetchMovesIff(w: World, e: Event)
    requires WellFormedLog(w.log) && e.Fetch? && Happens(w, e)
    ensures WellFormedLog(w.log[e.i..e.j])
    ensures Next(w, e).consumer.fields.nextOffset != Some(Asked(w, e))
       <==> exists x :: x in AllRecords(w.log[e.i..e.j]) && Asked(w, e) <= x.offset
    ensures Next(w, e).consumer.fields.nextOffset.Some?
    ensures Next(w, e).consumer.fields.nextOffset.value >= Asked(w, e)
  {
    hide AllRecords, Between, ExtractBatches, Next, WellFormedLog, LastOffset;
    var used := Asked(w, e);
    FetchDelivers(w, e);
    FetchIsRange(w.log, used, e.i, e.j);
    var rs := AllRecords(w.log[e.i..e.j]);
    RangeHolds(rs, used);
    EndMoves(AnswerTo(w, e).records, used, rs);
  }

  lemma RangeHolds(rs: seq<RecordAndOffset>, used: int)
    ensures Between(rs, used, NO_LIMIT) != [] <==> exists x :: x in rs && used <= x.offset
  {
    hide Between;
    var got := Between(rs, used, NO_LIMIT);
    BetweenMembers(rs, used, NO_LIMIT);
    if got != [] {
      assert got[0] in got;
    } else if x :| x in rs && used <= x.offset {
      InRange(rs, used, NO_LIMIT, x);
    }
  }

  lemma EndMoves(got: seq<RecordAndOffset>, used: int, rs: seq<RecordAndOffset>)
    requires got == Between(rs, used, NO_LIMIT)
    ensures EndOf(got, used) > used <==> got != []
    ensures got == [] ==> EndOf(got, used) == used
  {
    hide Between;
    BetweenMembers(rs, used, NO_LIMIT);
    if got != [] {
      assert got[|got| - 1] in got;
    }
  }

  /** Fetching and polling `n` times while the broker has only the batch `log[0..1]` to return. */
  function FetchAgain(watermark: int64, n: nat): (events: seq<Event>)
    decreases n
  {
    if n == 0 then [] else FetchAgain(watermark, n - 1) + [Fetch(Bounds(0, 0), 0, 1, watermark)] + [Event.Look]
  }

  /** A control batch at the start offset: however often the consumer fetches, it asks for the same offset again
      and returns nothing. */
  lemma {:induction false} ControlBatchStandsStill(b: RecordBatch, watermark: int64, n: nat)
    requires WellFormedBatch(b) && b.payload.ControlBatch?
    ensures var w := Run(Fixed(b.baseOffset), [Append(b)] + [Event.Look] + FetchAgain(watermark, n));
      && w.log == [b] && w.consumer.events == [] && Waiting(w.consumer.fields, b.baseOffset)
      && |w.consumer.absorbed| == n
  {
    hide Run;
    var start := [Append(b)] + [Event.Look];
    if n == 0 {
      assert start + FetchAgain(watermark, 0) == start;
      FirstLook(b);
    } else {
      var before := start + FetchAgain(watermark, n - 1);
      ControlBatchStandsStill(b, watermark, n - 1);
      var w := Run(Fixed(b.baseOffset), before);
      var fetch := Fetch(Bounds(0, 0), 0, 1, watermark);
      RunAppend(Fixed(b.baseOffset), before, fetch);
      RunAppend(Fixed(b.baseOffset), before + [fetch], Event.Look);
      assert before + [fetch] + [Event.Look] == start + FetchAgain(watermark, n);
      ControlFetchStandsStill(w, b, watermark);
    }
  }

  /** A fetch at `offset` is under way and there is nothing to return. */
  predicate Waiting(f: Consumer.Fields, offset: int64) {
    && f.start == Fixed(offset) && !f.terminated && f.buffer == []
    && f.fetch.Some? && (f.fetch.value == None || f.fetch.value == Some(offset))
  }

  lemma RunAppend(start: StartOffset, events: seq<Event>, e: Event)
    ensures Run(start, events + [e]) == Next(Run(start, events), e)
  {
    hide Next;
    assert (events + [e])[..|events|] == events;
  }

  lemma FirstLook(b: RecordBatch)
    requires WellFormedBatch(b)
    ensures var w := Run(Fixed(b.baseOffset), [Append(b)] + [Event.Look]);
      && w.log == [b] && w.consumer.events == [] && w.consumer.absorbed == []
      && Waiting(w.consumer.fields, b.baseOffset)
  {
    hide Run, WellFormedBatch;
    var start := Fixed(b.baseOffset);
    NothingYet(start);
    assert [] + [Append(b)] == [Append(b)];
    RunAppend(start, [], Append(b));
    assert [] + [b] == [b];
    assert Run(start, [Append(b)]) == World(Consumer.State(Fresh(start), [], []), [b], 0, 0);
    RunAppend(start, [Append(b)], Event.Look);
  }

  lemma NothingYet(start: StartOffset)
    ensures Run(start, []) == World(Consumer.State(Fresh(start), [], []), [], 0, 0)
  {
  }

  lemma ControlFetchStandsStill(w: World, b: RecordBatch, watermark: int64)
    requires WellFormedBatch(b) && b.payload.ControlBatch? && w.log == [b] && Waiting(w.consumer.fields, b.baseOffset)
    ensures var t := Next(Next(w, Fetch(Bounds(0, 0), 0, 1, watermark)), Event.Look);
      && t.log == [b] && t.consumer.events == w.consumer.events && Waiting(t.consumer.fields, b.baseOffset)
      && |t.consumer.absorbed| == |w.consumer.absorbed| + 1
  {
    hide WrapI64;
    assert w.log[0..1] == [b] && [b][..0] == [];
    assert ExtractBatches([b], b.baseOffset) == Ok([]);
    assert SortByOffset([]) == [];
    hide WellFormedBatch, ExtractBatches, SortByOffset;
  }

  // ---------------------------------------------------------------- fetches off the wire

  /** A fetch response whose record set the broker cut at any byte, decoded and extracted, is a fetch of
      the batches wholly before the cut. */
  lemma CutFetchIsFetch(env: Env, w: World, e: Event, bs: seq<RecordBatch>, all: seq<byte>, cut: nat, tail: seq<byte>)
    returns (k: nat)
    requires WellFormedLog(w.log) && e.Fetch? && Happens(w, e) && bs == w.log[e.i..e.j]
    requires Writable(env, bs) && WriteBatches(env, bs) == Ok(all)
    requires cut <= |all| && cut <= I32_MAX
    ensures k <= |bs| == e.j - e.i
    ensures var sent := WriteNullableBytes(Some(all[..cut]));
      sent.Ok? && ParseRecordSet(env, sent.value + tail) == Done(bs[..k], tail)
    ensures var cutShort := e.(j := e.i + k);
      && Happens(w, cutShort)
      && bs[..k] == w.log[e.i..cutShort.j]
      && ExtractBatches(bs[..k], Asked(w, e)) == Ok(AnswerTo(w, cutShort).records)
  {
    hide ParseRecordSet, WriteBatches, WriteNullableBytes, ExtractBatches, AllRecords, Between, Writable, WellFormedLog;
    k := CutDecodes(env, bs, cut, tail);
    assert bs[..k] == w.log[e.i..e.i + k];
    FetchIsRange(w.log, Asked(w, e), e.i, e.i + k);
  }

  lemma CutDecodes(env: Env, bs: seq<RecordBatch>, cut: nat, tail: seq<byte>) returns (k: nat)
    requires Writable(env, bs) && WriteBatches(env, bs).Ok?
    requires cut <= |WriteBatches(env, bs).value| && cut <= I32_MAX
    ensures k <= |bs|
    ensures var sent := WriteNullableBytes(Some(WriteBatches(env, bs).value[..cut]));
      sent.Ok? && ParseRecordSet(env, sent.value + tail) == Done(bs[..k], tail)
  {
    hide ParseRecordSet, WriteBatches, EncodeInt, Writable, SizeOfFirst;
    k := WholeBatchesExist(env, bs, cut);
    CutRecordSet(env, bs, cut, k, tail);
  }
}
