/** Ordered string maps as their entries in key order. */
module HeaderMaps {
  import opened Bytes
  import opened RecordFormat

  /** Byte-wise lexicographic order of strings. */
  predicate KeyLess(a: seq<byte>, b: seq<byte>) {
    if b == [] then false
    else if a == [] then true
    else if a[0] != b[0] then a[0] < b[0]
    else KeyLess(a[1..], b[1..])
  }

  predicate Sorted(hs: seq<Header>) {
    forall i, j | 0 <= i < j < |hs| :: KeyLess(hs[i].key, hs[j].key)
  }

  /** Insertion replaces the value of a key that is present. */
  function Insert(hs: seq<Header>, h: Header): (r: seq<Header>)
    ensures forall x | x in r :: x in hs || x == h
  {
    if hs == [] then [h] else
    var last := hs[|hs| - 1];
    if KeyLess(last.key, h.key) then hs + [h]
    else if last.key == h.key then hs[..|hs| - 1] + [h]
    else Insert(hs[..|hs| - 1], h) + [last]
  }

  /** `collect` into a map. */
  function Collect(hs: seq<Header>): seq<Header> {
    if hs == [] then [] else Insert(Collect(hs[..|hs| - 1]), hs[|hs| - 1])
  }

  /** The value of the last entry with that key. */
  function ValueOf(hs: seq<Header>, key: seq<byte>): Option<seq<byte>> {
    if hs == [] then None
    else if hs[|hs| - 1].key == key then Some(hs[|hs| - 1].value)
    else ValueOf(hs[..|hs| - 1], key)
  }

  lemma ValueOfSnoc(hs: seq<Header>, h: Header, key: seq<byte>)
    ensures ValueOf(hs + [h], key) == if h.key == key then Some(h.value) else ValueOf(hs, key)
  {
    assert (hs + [h])[..|hs|] == hs;
  }

  lemma {:induction false} InsertFinds(hs: seq<Header>, h: Header, key: seq<byte>)
    ensures ValueOf(Insert(hs, h), key) == if h.key == key then Some(h.value) else ValueOf(hs, key)
  {
    hide KeyLess;
    if hs == [] {
      ValueOfSnoc([], h, key);
    } else {
      var n := |hs| - 1;
      ValueOfSnoc(hs, h, key);
      ValueOfSnoc(hs[..n], h, key);
      InsertFinds(hs[..n], h, key);
      ValueOfSnoc(Insert(hs[..n], h), hs[n], key);
    }
  }

  /** A collected map gives every key the value of its last entry. */
  lemma {:induction false} CollectFinds(hs: seq<Header>, key: seq<byte>)
    ensures ValueOf(Collect(hs), key) == ValueOf(hs, key)
  {
    if hs != [] {
      var n := |hs| - 1;
      CollectFinds(hs[..n], key);
      InsertFinds(Collect(hs[..n]), hs[n], key);
    }
  }

  /** The first byte that differs decides, and a proper prefix comes first. */
  lemma {:induction false} KeyLessIff(a: seq<byte>, b: seq<byte>)
    ensures KeyLess(a, b) <==> exists i: nat :: Decides(a, b, i)
  {
    if a != [] && b != [] && a[0] == b[0] {
      KeyLessIff(a[1..], b[1..]);
      if i: nat :| Decides(a[1..], b[1..], i) {
        assert a[..i + 1] == [a[0]] + a[1..][..i] && b[..i + 1] == [b[0]] + b[1..][..i];
        assert Decides(a, b, i + 1);
      }
      if i: nat :| Decides(a, b, i) {
        assert a[1..][..i - 1] == a[..i][1..] && b[1..][..i - 1] == b[..i][1..];
        assert Decides(a[1..], b[1..], i - 1);
      }
    } else if KeyLess(a, b) {
      assert Decides(a, b, 0);
    }
  }

  predicate Decides(a: seq<byte>, b: seq<byte>, i: nat) {
    i <= |a| && i < |b| && a[..i] == b[..i] && (i < |a| ==> a[i] < b[i])
  }

  lemma {:induction false} KeyLessTransitive(a: seq<byte>, b: seq<byte>, c: seq<byte>)
    requires KeyLess(a, b) && KeyLess(b, c)
    ensures KeyLess(a, c)
  {
    if a != [] && a[0] == b[0] && b[0] == c[0] {
      KeyLessTransitive(a[1..], b[1..], c[1..]);
    }
  }

  lemma {:induction false} KeyLessTotal(a: seq<byte>, b: seq<byte>)
    ensures KeyLess(a, b) || a == b || KeyLess(b, a)
  {
    if a != [] && b != [] && a[0] == b[0] {
      KeyLessTotal(a[1..], b[1..]);
      assert a == [a[0]] + a[1..] && b == [b[0]] + b[1..];
    }
  }

  lemma {:induction false} InsertKeepsSorted(hs: seq<Header>, h: Header)
    requires Sorted(hs)
    ensures Sorted(Insert(hs, h))
  {
    if hs != [] {
      var n := |hs| - 1;
      var last := hs[n];
      if KeyLess(last.key, h.key) {
        forall i | 0 <= i < n ensures KeyLess(hs[i].key, h.key) {
          KeyLessTransitive(hs[i].key, last.key, h.key);
        }
      } else if last.key != h.key {
        KeyLessTotal(last.key, h.key);
        InsertKeepsSorted(hs[..n], h);
        var r := Insert(hs[..n], h);
        forall i | 0 <= i < |r| ensures KeyLess(r[i].key, last.key) {
          assert r[i] in hs[..n] || r[i] == h;
        }
      }
    }
  }

  /** Whatever the order and repetition of the entries, collecting them gives an ordered map. */
  lemma {:induction false} CollectIsSorted(hs: seq<Header>)
    ensures Sorted(Collect(hs))
  {
    if hs != [] {
      CollectIsSorted(hs[..|hs| - 1]);
      InsertKeepsSorted(Collect(hs[..|hs| - 1]), hs[|hs| - 1]);
    }
  }

  /** Iterating an ordered map and collecting it again gives the same map. */
  lemma {:induction false} CollectSorted(hs: seq<Header>)
    requires Sorted(hs)
    ensures Collect(hs) == hs
  {
    if hs != [] {
      var n := |hs| - 1;
      CollectSorted(hs[..n]);
      assert hs == hs[..n] + [hs[n]];
    }
  }
}

/** From public records to a produce batch, and from fetched batches back to public records. */
module Partition {
  import opened Bytes
  import opened Primitives
  import opened RecordFormat
  import opened RecordRoundTrip
  import opened ClientRecords
  import opened HeaderMaps

  // ---------------------------------------------------------------- time

  /** `timestamp_millis` rounds towards minus infinity. */
  function Millis(t: int): int {
    t / MILLI
  }

  /** `num_milliseconds` of a duration truncates towards zero. */
  function WholeMillis(d: int): int {
    if d >= 0 then d / MILLI else -(-d / MILLI)
  }

  /** The millisecond a consumer computes for a record sent with delta from `first`. */
  function RecoveredMillis(first: instant, t: instant): int {
    Millis(first) + WholeMillis(t - first)
  }

  /** A timestamp survives exactly if it is whole milliseconds and either the batch's first one is too,
      or it is not in a later millisecond than the first one. */
  lemma TimestampSurvivesIff(first: instant, t: instant)
    ensures RecoveredMillis(first, t) * MILLI == t
       <==> t % MILLI == 0 && (first % MILLI == 0 || Millis(t) <= Millis(first))
  {
    var a, f := first / MILLI, first % MILLI;
    var b, g := t / MILLI, t % MILLI;
    assert t - first == (b - a) * MILLI + (g - f);
  }

  /** What comes back lies in the millisecond of the record, or in the one next to it on the side of the batch's
      first record. */
  lemma RecoveredIsClose(first: instant, t: instant)
    ensures var m := RecoveredMillis(first, t);
      m == Millis(t) || m == Millis(t) + if t < first then 1 else -1
    ensures MIN_MILLIS <= RecoveredMillis(first, t) <= MAX_MILLIS
  {
    var a, f := first / MILLI, first % MILLI;
    var b, g := t / MILLI, t % MILLI;
    assert t - first == (b - a) * MILLI + (g - f);
  }

  lemma RecoveredWithinMax(first: instant, t: instant, max: instant)
    requires first <= max && t <= max
    ensures RecoveredMillis(first, t) <= Millis(max)
  {
  }

  // ---------------------------------------------------------------- producing

  /** `as i32`. */
  function WrapI32(x: int): (w: int32)
    ensures -0x8000_0000 <= x <= I32_MAX ==> w == x
  {
    (x + 0x8000_0000) % 0x1_0000_0000 - 0x8000_0000
  }

  function WrapI64(x: int): (w: int64)
    ensures -0x8000_0000_0000_0000 <= x <= I64_MAX ==> w == x
  {
    (x + 0x8000_0000_0000_0000) % TWO_64 - 0x8000_0000_0000_0000
  }

  /** Casts keep what fits and are periodic beyond. */
  lemma CastsWrap(x: int)
    ensures WrapI32(x + 0x1_0000_0000) == WrapI32(x)
    ensures WrapI64(x + 0x1_0000_0000_0000_0000) == WrapI64(x)
  {
  }

  function MaxTimestamp(rs: seq<ClientRecord>): (m: instant)
    requires rs != []
  {
    if |rs| == 1 then rs[0].timestamp else
    var m := MaxTimestamp(rs[..|rs| - 1]);
    var t := rs[|rs| - 1].timestamp;
    if t > m then t else m
  }

  lemma {:induction false} MaxTimestampIsMaximum(rs: seq<ClientRecord>) returns (at: nat)
    requires rs != []
    ensures forall i | 0 <= i < |rs| :: rs[i].timestamp <= MaxTimestamp(rs)
    ensures at < |rs| && rs[at].timestamp == MaxTimestamp(rs)
  {
    var n := |rs| - 1;
    at := n;
    if n > 0 {
      var j := MaxTimestampIsMaximum(rs[..n]);
      assert forall i | 0 <= i < n :: rs[i] == rs[..n][i];
      at := if rs[n].timestamp > MaxTimestamp(rs[..n]) then n else j;
    }
  }

  function ToProtocol(r: ClientRecord, first: instant, index: nat): Record {
    Record(WholeMillis(r.timestamp - first), WrapI32(index), r.key, r.value, r.headers)
  }

  function ToProtocolAll(rs: seq<ClientRecord>, first: instant): (ps: seq<Record>)
    ensures |ps| == |rs|
    ensures forall i | 0 <= i < |rs| :: ps[i] == ToProtocol(rs[i], first, i)
  {
    seq(|rs|, i requires 0 <= i < |rs| => ToProtocol(rs[i], first, i))
  }

  /** The one batch of a produce request. */
  function ProduceBatch(rs: seq<ClientRecord>, compression: Compression): RecordBatch
    requires rs != []
  {
    var first := rs[0].timestamp;
    RecordBatch(0, 0, WrapI32(WrapI32(|rs|) - 1), Millis(first), Millis(MaxTimestamp(rs)), -1, -1, -1,
                Records(ToProtocolAll(rs, first)), compression, false, CreateTime)
  }

  /** The single pass over the records that numbers them and keeps the running maximum. */
  method BuildProduceBatch(rs: seq<ClientRecord>, compression: Compression) returns (b: RecordBatch)
    requires rs != []
    ensures b == ProduceBatch(rs, compression)
  {
    hide ToProtocol, WrapI32;
    var n: int := WrapI32(|rs|);
    var first := rs[0].timestamp;
    var max := first;
    var records := [];
    for i := 0 to |rs|
      invariant records == ToProtocolAll(rs[..i], first)
      invariant i == 0 ==> max == first
      invariant i > 0 ==> max == MaxTimestamp(rs[..i])
    {
      assert rs[..i + 1][..i] == rs[..i];
      max := if rs[i].timestamp > max then rs[i].timestamp else max;
      records := records + [ToProtocol(rs[i], first, i)];
    }
    assert rs[..|rs|] == rs;
    b := RecordBatch(0, 0, WrapI32(n - 1), Millis(first), Millis(max), -1, -1, -1,
                     Records(records), compression, false, CreateTime);
  }

  // ---------------------------------------------------------------- fetching

  datatype RecordAndOffset = RecordAndOffset(record: ClientRecord, offset: int64)

  datatype InvalidResponse = TimestampOverflow | TimestampInvalid

  function OffsetOf(b: RecordBatch, r: Record): int64 {
    WrapI64(b.baseOffset + r.offsetDelta)
  }

  /** `checked_add` and then the calendar's range. */
  function TimestampOf(b: RecordBatch, r: Record): Result<instant, InvalidResponse> {
    var millis := b.firstTimestamp + r.timestampDelta;
    if millis < -0x8000_0000_0000_0000 || millis > I64_MAX then Err(TimestampOverflow)
    else if millis < MIN_MILLIS || millis > MAX_MILLIS then Err(TimestampInvalid)
    else Ok(millis * MILLI)
  }

  type Extracted = Result<seq<RecordAndOffset>, InvalidResponse>

  /** The data records of `rs` from `from` on; batches are not split by the broker, so earlier ones are skipped. */
  function ExtractRecords(b: RecordBatch, rs: seq<Record>, from: int64): Extracted {
    if rs == [] then Ok([]) else
    var before :- ExtractRecords(b, rs[..|rs| - 1], from);
    var r := rs[|rs| - 1];
    if OffsetOf(b, r) < from then Ok(before) else
    var t :- TimestampOf(b, r);
    Ok(before + [RecordAndOffset(ClientRecord(r.key, r.value, Collect(r.headers), t), OffsetOf(b, r))])
  }

  function ExtractBatches(bs: seq<RecordBatch>, from: int64): Extracted {
    if bs == [] then Ok([]) else
    var before :- ExtractBatches(bs[..|bs| - 1], from);
    var b := bs[|bs| - 1];
    if b.payload.ControlBatch? then Ok(before) else
    var here :- ExtractRecords(b, b.payload.records, from);
    Ok(before + here)
  }

  method ExtractInto(b: RecordBatch, rs: seq<Record>, from: int64, start: seq<RecordAndOffset>) returns (r: Extracted)
    ensures match ExtractRecords(b, rs, from)
      case Ok(here) => r == Ok(start + here)
      case Err(e) => r == Err(e)
  {
    var records := start;
    for i := 0 to |rs|
      invariant ExtractRecords(b, rs[..i], from).Ok? && records == start + ExtractRecords(b, rs[..i], from).value
    {
      assert rs[..i + 1][..i] == rs[..i];
      var offset := OffsetOf(b, rs[i]);
      if offset >= from {
        var t := TimestampOf(b, rs[i]);
        if t.Err? {
          ExtractFails(b, rs, from, i);
          return Err(t.error);
        }
        var record := ClientRecord(rs[i].key, rs[i].value, Collect(rs[i].headers), t.value);
        records := records + [RecordAndOffset(record, offset)];
      }
    }
    assert rs[..|rs|] == rs;
    return Ok(records);
  }

  lemma {:induction false} ExtractFails(b: RecordBatch, rs: seq<Record>, from: int64, i: nat)
    requires i < |rs| && ExtractRecords(b, rs[..i + 1], from).Err?
    ensures ExtractRecords(b, rs, from) == ExtractRecords(b, rs[..i + 1], from)
  {
    if i + 1 < |rs| {
      assert rs[..|rs| - 1][..i + 1] == rs[..i + 1];
      ExtractFails(b, rs[..|rs| - 1], from, i);
    } else {
      assert rs[..i + 1] == rs;
    }
  }

  lemma {:induction false} ExtractBatchesFails(bs: seq<RecordBatch>, from: int64, i: nat)
    requires i < |bs| && ExtractBatches(bs[..i + 1], from).Err?
    ensures ExtractBatches(bs, from) == ExtractBatches(bs[..i + 1], from)
  {
    if i + 1 < |bs| {
      assert bs[..|bs| - 1][..i + 1] == bs[..i + 1];
      ExtractBatchesFails(bs[..|bs| - 1], from, i);
    } else {
      assert bs[..i + 1] == bs;
    }
  }

  /** The nested loops; control batches are ignored. */
  method ExtractAll(bs: seq<RecordBatch>, from: int64) returns (r: Extracted)
    ensures r == ExtractBatches(bs, from)
  {
    var records := [];
    for i := 0 to |bs|
      invariant ExtractBatches(bs[..i], from) == Ok(records)
    {
      assert bs[..i + 1][..i] == bs[..i];
      if bs[i].payload.Records? {
        var more := ExtractInto(bs[i], bs[i].payload.records, from, records);
        if more.Err? {
          ExtractBatchesFails(bs, from, i);
          return more;
        }
        records := more.value;
      }
    }
    assert bs[..|bs|] == bs;
    return Ok(records);
  }

  lemma {:induction false} ExtractRecordsFilters(b: RecordBatch, rs: seq<Record>, from: int64)
    requires ExtractRecords(b, rs, from).Ok?
    ensures forall x | x in ExtractRecords(b, rs, from).value :: from <= x.offset
  {
    hide Collect, TimestampOf, OffsetOf;
    if rs != [] {
      ExtractRecordsFilters(b, rs[..|rs| - 1], from);
    }
  }

  /** Whatever the broker sends, nothing before the requested offset gets through. */
  lemma {:induction false} ExtractFilters(bs: seq<RecordBatch>, from: int64)
    requires ExtractBatches(bs, from).Ok?
    ensures forall x | x in ExtractBatches(bs, from).value :: from <= x.offset
  {
    hide ExtractRecords;
    if bs != [] {
      var b := bs[|bs| - 1];
      ExtractFilters(bs[..|bs| - 1], from);
      if b.payload.Records? {
        ExtractRecordsFilters(b, b.payload.records, from);
      }
    }
  }

  /** The record is wanted, but its time is not representable. */
  predicate BadTime(b: RecordBatch, r: Record, from: int64) {
    OffsetOf(b, r) >= from && TimestampOf(b, r).Err?
  }

  predicate FirstBadTime(b: RecordBatch, rs: seq<Record>, from: int64, i: int) {
    0 <= i < |rs| && BadTime(b, rs[i], from) && forall j | 0 <= j < i :: !BadTime(b, rs[j], from)
  }

  /** What one more record adds. */
  lemma ExtractSnoc(b: RecordBatch, rs: seq<Record>, r: Record, from: int64)
    ensures ExtractRecords(b, rs + [r], from)
         == match ExtractRecords(b, rs, from)
            case Err(e) => Err(e)
            case Ok(before) =>
              if OffsetOf(b, r) < from then Ok(before)
              else match TimestampOf(b, r)
                case Err(e) => Err(e)
                case Ok(t) =>
                  Ok(before + [RecordAndOffset(ClientRecord(r.key, r.value, Collect(r.headers), t), OffsetOf(b, r))])
  {
    hide TimestampOf, OffsetOf, Collect;
    assert (rs + [r])[..|rs|] == rs;
  }

  lemma {:induction false} NoBadTime(b: RecordBatch, rs: seq<Record>, from: int64)
    requires forall i | 0 <= i < |rs| :: !BadTime(b, rs[i], from)
    ensures ExtractRecords(b, rs, from).Ok?
  {
    hide TimestampOf, OffsetOf, Collect, ExtractRecords;
    if rs == [] {
      NothingExtracted(b, from);
    } else {
      var n := |rs| - 1;
      NoBadTime(b, rs[..n], from);
      assert rs == rs[..n] + [rs[n]] && !BadTime(b, rs[n], from);
      ExtractSnoc(b, rs[..n], rs[n], from);
    }
  }

  lemma NothingExtracted(b: RecordBatch, from: int64)
    ensures ExtractRecords(b, [], from) == Ok([])
  {
  }

  /** Extraction of a batch fails with the error of the first record at or after the requested offset whose time is
      not representable; earlier records do not matter. */
  lemma FirstBadTimeFails(b: RecordBatch, rs: seq<Record>, from: int64, i: int)
    requires FirstBadTime(b, rs, from, i)
    ensures ExtractRecords(b, rs, from) == Err(TimestampOf(b, rs[i]).error)
  {
    hide TimestampOf, OffsetOf, Collect, ExtractRecords;
    NoBadTime(b, rs[..i], from);
    assert rs[..i + 1] == rs[..i] + [rs[i]];
    ExtractSnoc(b, rs[..i], rs[i], from);
    ExtractFails(b, rs, from, i);
  }

  lemma {:induction false} SomeIsFirst(b: RecordBatch, rs: seq<Record>, from: int64, i: nat) returns (k: nat)
    requires i < |rs| && BadTime(b, rs[i], from)
    ensures FirstBadTime(b, rs, from, k)
  {
    hide BadTime;
    if j: nat :| j < i && BadTime(b, rs[j], from) {
      k := SomeIsFirst(b, rs, from, j);
    } else {
      k := i;
    }
  }

  /** And it fails exactly if there is such a record. */
  lemma ExtractRecordsFailsIff(b: RecordBatch, rs: seq<Record>, from: int64)
    ensures ExtractRecords(b, rs, from).Err? <==> exists i :: 0 <= i < |rs| && BadTime(b, rs[i], from)
  {
    hide BadTime, ExtractRecords;
    if i :| 0 <= i < |rs| && BadTime(b, rs[i], from) {
      var k := SomeIsFirst(b, rs, from, i);
      FirstBadTimeFails(b, rs, from, k);
    } else {
      NoBadTime(b, rs, from);
    }
  }

  /** Extraction as a whole fails exactly if that of a data batch does. */
  lemma {:induction false} ExtractFailsIff(bs: seq<RecordBatch>, from: int64)
    ensures ExtractBatches(bs, from).Err? <==>
      exists i :: 0 <= i < |bs| && bs[i].payload.Records? && ExtractRecords(bs[i], bs[i].payload.records, from).Err?
  {
    hide ExtractRecords;
    if bs != [] {
      var n := |bs| - 1;
      ExtractFailsIff(bs[..n], from);
      assert forall i | 0 <= i < n :: bs[..n][i] == bs[i];
    }
  }

  /** A time is the batch's first one plus the record's delta; it is an overflow beyond 64 bits, and invalid beyond
      the calendar. */
  lemma TimestampIs(b: RecordBatch, r: Record)
    ensures var millis := b.firstTimestamp + r.timestampDelta;
      && (TimestampOf(b, r) == Err(TimestampOverflow) <==>
            millis < -0x8000_0000_0000_0000 || millis > 0x7fff_ffff_ffff_ffff)
      && (TimestampOf(b, r).Ok? <==> MIN_MILLIS <= millis <= MAX_MILLIS)
      && (TimestampOf(b, r).Ok? ==> TimestampOf(b, r).value == millis * 1_000_000)
  {
  }

  // ---------------------------------------------------------------- there and back

  /** What the public interface promises about a record: ordered headers with valid keys. */
  predicate Sendable(env: Env, r: ClientRecord) {
    Sorted(r.headers) && forall h | h in r.headers :: env.utf8(h.key)
  }

  /** How many of `n` records with offsets from `base` lie before `from`. */
  function Before(n: nat, base: int, from: int): (k: nat)
    ensures k <= n
  {
    if from <= base then 0 else if from - base >= n then n else from - base
  }

  /** The records with consecutive offsets from `base`, without those before `from`. */
  function Numbered(rs: seq<ClientRecord>, base: int64, from: int64): (out: seq<RecordAndOffset>)
    requires base + |rs| - 1 <= I64_MAX
    ensures var k := Before(|rs|, base, from);
      |out| == |rs| - k && forall i | 0 <= i < |out| :: out[i] == RecordAndOffset(rs[k + i], base + k + i)
  {
    var k := Before(|rs|, base, from);
    seq(|rs| - k, i requires 0 <= i < |rs| - k => RecordAndOffset(rs[k + i], base + k + i))
  }

  lemma NumberedStep(rs: seq<ClientRecord>, r: ClientRecord, base: int64, from: int64)
    requires base + |rs| <= I64_MAX
    ensures Numbered(rs + [r], base, from)
         == Numbered(rs, base, from) + if base + |rs| < from then [] else [RecordAndOffset(r, base + |rs|)]
  {
  }

  /** A sent record as its reader gets it: only the timestamp may differ. */
  function Received(first: instant, r: ClientRecord): ClientRecord {
    RecoveredIsClose(first, r.timestamp);
    r.(timestamp := RecoveredMillis(first, r.timestamp) * MILLI)
  }

  function ReceivedAll(rs: seq<ClientRecord>, first: instant): (out: seq<ClientRecord>)
    ensures |out| == |rs| && forall i | 0 <= i < |rs| :: out[i] == Received(first, rs[i])
  {
    seq(|rs|, i requires 0 <= i < |rs| => Received(first, rs[i]))
  }

  /** What is received is what was sent exactly when all timestamps are whole milliseconds. */
  lemma ReceivedIsSentIff(rs: seq<ClientRecord>)
    requires rs != []
    ensures ReceivedAll(rs, rs[0].timestamp) == rs <==> forall i | 0 <= i < |rs| :: rs[i].timestamp % MILLI == 0
  {
    hide RecoveredMillis;
    var first, out := rs[0].timestamp, ReceivedAll(rs, rs[0].timestamp);
    forall i | 0 <= i < |rs|
      ensures out[i] == rs[i]
         <==> rs[i].timestamp % MILLI == 0 && (first % MILLI == 0 || Millis(rs[i].timestamp) <= Millis(first))
    {
      TimestampSurvivesIff(first, rs[i].timestamp);
    }
    hide Received, Millis;
    if out == rs {
      assert forall i | 0 <= i < |rs| :: out[i] == rs[i];
    }
    if forall i | 0 <= i < |rs| :: rs[i].timestamp % MILLI == 0 {
      assert first % MILLI == 0;
      assert forall i | 0 <= i < |rs| :: out[i] == rs[i];
    }
  }

  /** The `i`th record of a produce batch, fetched from offset `base`, is the one that was sent. */
  lemma RecordComesBack(env: Env, rs: seq<ClientRecord>, compression: Compression, base: int64, i: nat)
    requires i < |rs| <= I32_MAX && base + |rs| - 1 <= I64_MAX
    requires forall r | r in rs :: Sendable(env, r)
    ensures var b := ProduceBatch(rs, compression).(baseOffset := base);
      var p := b.payload.records[i];
      && OffsetOf(b, p) == base + i
      && TimestampOf(b, p) == Ok(Received(rs[0].timestamp, rs[i]).timestamp)
      && p.key == rs[i].key && p.value == rs[i].value && Collect(p.headers) == rs[i].headers
  {
    hide Sorted, Collect, WholeMillis, MaxTimestamp;
    var first, r := rs[0].timestamp, rs[i];
    assert rs[0] in rs && r in rs;
    CollectSorted(r.headers);
    RecoveredIsClose(first, r.timestamp);
    hide Millis;
  }

  lemma {:induction false} ExtractsPrefix(env: Env, rs: seq<ClientRecord>, compression: Compression, base: int64,
                                          from: int64, n: nat)
    requires rs != [] && n <= |rs| <= I32_MAX && base + |rs| - 1 <= I64_MAX
    requires forall r | r in rs :: Sendable(env, r)
    ensures var b := ProduceBatch(rs, compression).(baseOffset := base);
      ExtractRecords(b, b.payload.records[..n], from) == Ok(Numbered(ReceivedAll(rs, rs[0].timestamp)[..n], base, from))
  {
    hide ProduceBatch, OffsetOf, TimestampOf, Collect, Numbered, Sendable, RecoveredMillis, ExtractRecords;
    var b := ProduceBatch(rs, compression).(baseOffset := base);
    var out := ReceivedAll(rs, rs[0].timestamp);
    ProduceBatchSize(rs, compression);
    var ps := b.payload.records;
    if n == 0 {
      NothingExtracted(b, from);
      assert Numbered(out[..0], base, from) == [];
    } else {
      ExtractsPrefix(env, rs, compression, base, from, n - 1);
      var r := ps[n - 1];
      assert ps[..n] == ps[..n - 1] + [r] && out[..n] == out[..n - 1] + [out[n - 1]];
      RecordComesBack(env, rs, compression, base, n - 1);
      NumberedStep(out[..n - 1], out[n - 1], base, from);
      ExtractSnoc(b, ps[..n - 1], r, from);
      assert ClientRecord(r.key, r.value, Collect(r.headers), TimestampOf(b, r).value) == out[n - 1];
      assert Numbered(out[..n - 1], base, from) + [] == Numbered(out[..n - 1], base, from);
    }
  }

  lemma ProduceBatchSize(rs: seq<ClientRecord>, compression: Compression)
    requires rs != []
    ensures ProduceBatch(rs, compression).payload.Records? && |ProduceBatch(rs, compression).payload.records| == |rs|
  {
  }

  /** Records put into a produce batch, written, rebased by the broker to `base`, read and extracted at `from`,
      come back with consecutive offsets from `base`, exactly those at or after `from`; they are equal to what
      was sent exactly if all timestamps are whole milliseconds. */
  lemma ProducedRecordsComeBack(env: Env, rs: seq<ClientRecord>, base: int64, from: int64, tail: seq<byte>)
    requires rs != [] && base + |rs| - 1 <= I64_MAX
    requires forall r | r in rs :: Sendable(env, r)
    requires WriteBatch(env, ProduceBatch(rs, NoCompression).(baseOffset := base)).Ok?
    ensures var b := ProduceBatch(rs, NoCompression).(baseOffset := base);
      var out := ReceivedAll(rs, rs[0].timestamp);
      && ParseBatch(env, WriteBatch(env, b).value + tail) == Done(b, tail)
      && ExtractBatches([b], from) == Ok(Numbered(out, base, from))
      && (out == rs <==> forall i | 0 <= i < |rs| :: rs[i].timestamp % MILLI == 0)
  {
    hide ParseBatch, WriteRecords, MaxTimestamp, Received, ExtractBatches, Numbered, WholeMillis;
    assert |rs| <= I32_MAX;
    ProduceBatchIsValid(env, rs, base);
    hide ProduceBatch, Sendable;
    ReceivedIsSentIff(rs);
    BatchRoundTrip(env, ProduceBatch(rs, NoCompression).(baseOffset := base), tail);
    ExtractsBatch(env, rs, base, from);
  }

  lemma ExtractsBatch(env: Env, rs: seq<ClientRecord>, base: int64, from: int64)
    requires rs != [] && |rs| <= I32_MAX && base + |rs| - 1 <= I64_MAX
    requires forall r | r in rs :: Sendable(env, r)
    ensures ExtractBatches([ProduceBatch(rs, NoCompression).(baseOffset := base)], from)
         == Ok(Numbered(ReceivedAll(rs, rs[0].timestamp), base, from))
  {
    hide ExtractRecords, ProduceBatch, Sendable, Received, Numbered;
    var b, out := ProduceBatch(rs, NoCompression).(baseOffset := base), ReceivedAll(rs, rs[0].timestamp);
    ProduceBatchSize(rs, NoCompression);
    ExtractsPrefix(env, rs, NoCompression, base, from, |rs|);
    assert b.payload.records[..|rs|] == b.payload.records && out[..|rs|] == out;
    assert [b][..0] == [];
    var here := ExtractRecords(b, b.payload.records, from).value;
    assert [] + here == here;
  }

  lemma ProduceBatchIsValid(env: Env, rs: seq<ClientRecord>, base: int64)
    requires rs != [] && forall r | r in rs :: Sendable(env, r)
    ensures ValidBatch(env, ProduceBatch(rs, NoCompression).(baseOffset := base))
  {
    hide MaxTimestamp, WholeMillis, Sorted, WrapI32;
    var b := ProduceBatch(rs, NoCompression).(baseOffset := base);
    forall r | r in b.payload.records ensures ValidRecord(env, r) {
      var i :| 0 <= i < |rs| && r == b.payload.records[i];
      assert rs[i] in rs;
    }
  }

  /** Rebasing touches only the first eight bytes: the checksum does not cover the base offset. */
  lemma RebaseOnTheWire(env: Env, b: RecordBatch, base: int64)
    requires WriteBatch(env, b).Ok?
    ensures WriteBatch(env, b.(baseOffset := base)) == Ok(EncodeInt(base, 8) + WriteBatch(env, b).value[8..])
  {
    var rebased := b.(baseOffset := base);
    assert WriteBody(rebased) == WriteBody(b);
  }

  /** The batch header describes its records: the last delta is n-1 and the maximum bounds every time. */
  lemma ProduceBatchHeader(rs: seq<ClientRecord>, compression: Compression, i: nat)
    requires i < |rs| <= I32_MAX
    ensures var b := ProduceBatch(rs, compression);
      && b.lastOffsetDelta == |rs| - 1
      && b.payload.records[i].offsetDelta == i <= b.lastOffsetDelta
      && b.firstTimestamp + b.payload.records[i].timestampDelta <= b.maxTimestamp
      && (exists r | r in rs :: Millis(r.timestamp) == b.maxTimestamp)
  {
    var at := MaxTimestampIsMaximum(rs);
    assert rs[at] in rs;
    RecoveredWithinMax(rs[0].timestamp, rs[i].timestamp, MaxTimestamp(rs));
  }
}
