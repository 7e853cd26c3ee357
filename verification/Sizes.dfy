/** What the approximate size of a record, by which batches are limited, says about its bytes on the wire. */
module Sizes {
  import opened Bytes
  import opened Primitives
  import opened RecordFormat
  import opened RecordRoundTrip
  import opened RecordErrors
  import opened ClientRecords
  import opened Partition
  import Producer

  /** The most that lengths, counts, deltas and the attribute byte of a record take. */
  const RECORD_OVERHEAD := 36

  const HEADER_OVERHEAD := 10

  /** The bytes of a batch before its records. */
  const BATCH_OVERHEAD := 61

  lemma VarlongSize(x: int64)
    ensures 1 <= |EncodeVarlong(x)| <= 10
    ensures -0x8000_0000 <= x <= I32_MAX ==> |EncodeVarlong(x)| <= 5
  {
    UnsignedRoundTrip(ZigZag(x), []);
    TenGroupsHoldAU64();
    EncodedLength(ZigZag(x), 5);
  }

  lemma NullableSize(o: Option<seq<byte>>)
    requires WriteNullable(o).Ok?
    ensures OptionalSize(o) <= |WriteNullable(o).value| <= OptionalSize(o) + 5
  {
    hide EncodeVarlong;
    VarlongSize(if o.None? then -1 else |o.value|);
  }

  lemma {:induction false} HeadersSizeOnTheWire(hs: seq<Header>)
    requires WriteHeaders(hs).Ok?
    ensures HeadersSize(hs) <= |WriteHeaders(hs).value| <= HeadersSize(hs) + HEADER_OVERHEAD * |hs|
  {
    hide EncodeVarlong;
    if hs != [] {
      VarlongSize(|hs[0].key|);
      VarlongSize(|hs[0].value|);
      HeadersSizeOnTheWire(hs[1..]);
    }
  }

  /** A written record is at least its approximate size, and larger by no more than a fixed number of bytes for
      itself and for each of its headers. */
  lemma RecordSizeOnTheWire(r: ClientRecord, first: instant, i: nat)
    requires WriteRecord(ToProtocol(r, first, i)).Ok?
    ensures var n := |WriteRecord(ToProtocol(r, first, i)).value|;
      ApproximateSize(r) <= n <= ApproximateSize(r) + RECORD_OVERHEAD + HEADER_OVERHEAD * |r.headers|
  {
    hide EncodeVarlong, EncodeInt, WriteNullable, WriteHeaders, HeadersSize, OptionalSize, WrapI32, WholeMillis;
    var p := ToProtocol(r, first, i);
    NullableSize(p.key);
    NullableSize(p.value);
    HeadersSizeOnTheWire(p.headers);
    VarlongSize(p.timestampDelta);
    VarlongSize(p.offsetDelta);
    VarlongSize(|p.headers|);
    VarlongSize(|WriteRecordBody(p).value|);
  }

  /** Small enough records can always be written. */
  lemma SmallRecordIsWritten(r: ClientRecord, first: instant, i: nat)
    requires ApproximateSize(r) + RECORD_OVERHEAD + HEADER_OVERHEAD * |r.headers| <= I32_MAX
    ensures WriteRecord(ToProtocol(r, first, i)).Ok?
  {
    hide EncodeVarlong, EncodeInt, WriteNullable, WriteHeaders, WrapI32, WholeMillis;
    var p := ToProtocol(r, first, i);
    HeaderPartsAreSmall(r.headers);
    RecordWrittenIff(p);
    NullableSize(p.key);
    NullableSize(p.value);
    HeadersSizeOnTheWire(p.headers);
    VarlongSize(p.timestampDelta);
    VarlongSize(p.offsetDelta);
    VarlongSize(|p.headers|);
  }

  lemma {:induction false} HeaderPartsAreSmall(hs: seq<Header>)
    ensures forall h | h in hs :: |h.key| + |h.value| <= HeadersSize(hs)
  {
    if hs != [] {
      HeaderPartsAreSmall(hs[1..]);
      assert hs == [hs[0]] + hs[1..];
    }
  }

  // ---------------------------------------------------------------- batches

  function HeaderCount(rs: seq<ClientRecord>): nat {
    if rs == [] then 0 else HeaderCount(rs[..|rs| - 1]) + |rs[|rs| - 1].headers|
  }

  /** The most bytes that the records can take. */
  function MostBytes(rs: seq<ClientRecord>): nat {
    TotalSize(rs) + RECORD_OVERHEAD * |rs| + HEADER_OVERHEAD * HeaderCount(rs)
  }

  lemma {:induction false} RecordsSnoc(ps: seq<Record>, p: Record)
    ensures WriteRecords(ps + [p]).Ok? <==> WriteRecords(ps).Ok? && WriteRecord(p).Ok?
    ensures WriteRecords(ps + [p]).Ok? ==> WriteRecords(ps + [p]).value == WriteRecords(ps).value + WriteRecord(p).value
  {
    hide WriteRecord;
    if ps == [] {
      assert [] + [p] == [p] && [p][1..] == [];
      if WriteRecord(p).Ok? {
        assert WriteRecord(p).value + [] == [] + WriteRecord(p).value;
      }
    } else {
      RecordsSnoc(ps[1..], p);
      assert (ps + [p])[1..] == ps[1..] + [p];
    }
  }

  lemma {:induction false} RecordsSizeOnTheWire(rs: seq<ClientRecord>, first: instant, n: nat)
    requires n <= |rs|
    ensures var w := WriteRecords(ToProtocolAll(rs, first)[..n]);
      && (w.Ok? ==> TotalSize(rs[..n]) <= |w.value| <= MostBytes(rs[..n]))
      && (MostBytes(rs[..n]) <= I32_MAX ==> w.Ok?)
  {
    hide WriteRecord, ToProtocol, ApproximateSize;
    var ps := ToProtocolAll(rs, first);
    if n == 0 {
      assert ps[..0] == [] && rs[..0] == [];
    } else {
      RecordsSizeOnTheWire(rs, first, n - 1);
      assert ps[..n] == ps[..n - 1] + [ps[n - 1]] && rs[..n][..n - 1] == rs[..n - 1];
      RecordsSnoc(ps[..n - 1], ps[n - 1]);
      if MostBytes(rs[..n]) <= I32_MAX {
        SmallRecordIsWritten(rs[n - 1], first, n - 1);
      }
      if WriteRecord(ps[n - 1]).Ok? {
        RecordSizeOnTheWire(rs[n - 1], first, n - 1);
      }
    }
  }

  /** A written batch is at least as large as its records' approximate sizes together, and larger by a bounded
      number of bytes for each record and header; one for which that bound fits 32 bits can be written. */
  lemma BatchSizeOnTheWire(env: Env, rs: seq<ClientRecord>)
    requires rs != []
    ensures var w := WriteBatch(env, ProduceBatch(rs, NoCompression));
      && (w.Ok? ==> BATCH_OVERHEAD + TotalSize(rs) <= |w.value| <= BATCH_OVERHEAD + MostBytes(rs))
      && (MostBytes(rs) + 49 <= I32_MAX ==> w.Ok?)
  {
    hide WriteRecords, MaxTimestamp, WrapI32, Millis, MostBytes, TotalSize;
    var b := ProduceBatch(rs, NoCompression);
    var ps := ToProtocolAll(rs, rs[0].timestamp);
    RecordsSizeOnTheWire(rs, rs[0].timestamp, |rs|);
    assert ps[..|ps|] == ps && rs[..|rs|] == rs;
    ManyRecordsAreLarge(rs);
    BatchPieces(env, b);
  }

  lemma ManyRecordsAreLarge(rs: seq<ClientRecord>)
    ensures |rs| <= MostBytes(rs)
  {
  }

  lemma BatchPieces(env: Env, b: RecordBatch)
    requires b.payload.Records? && b.compression == NoCompression
    ensures var p, w := WriteRecords(b.payload.records), WriteBatch(env, b);
      && (w.Ok? ==> p.Ok? && |w.value| == BATCH_OVERHEAD + |p.value|)
      && (p.Ok? && |b.payload.records| <= I32_MAX && |p.value| + 49 <= I32_MAX ==> w.Ok?)
  {
    hide WriteRecords, EncodeInt, Attributes;
  }

  /** In a build without codecs, asking for compression makes every produce batch fail. */
  lemma CompressionIsRefused(env: Env, rs: seq<ClientRecord>, compression: Compression)
    requires rs != [] && |rs| <= I32_MAX && compression != NoCompression
    ensures WriteBatch(env, ProduceBatch(rs, compression)) == Err(Unimplemented)
  {
    hide MaxTimestamp, WritePayload;
  }

  /** In every run of the producer, a flushed batch respects the limit on the wire up to the bounded overhead, and
      can be written whenever limit and overhead together fit 32 bits. */
  lemma FlushedBatchOnTheWire(env: Env, max: nat, steps: seq<Producer.Step>, b: nat)
    requires b < |Producer.Exec(max, steps).flushed| && Producer.Exec(max, steps).flushed[b] != []
    ensures var rs := Producer.Exec(max, steps).flushed[b];
      var w := WriteBatch(env, ProduceBatch(rs, NoCompression));
      var bound := max + RECORD_OVERHEAD * |rs| + HEADER_OVERHEAD * HeaderCount(rs);
      && (w.Ok? ==> |w.value| <= BATCH_OVERHEAD + bound)
      && (bound + 49 <= I32_MAX ==> w.Ok?)
  {
    hide Producer.Exec, WriteBatch, ProduceBatch, TotalSize, HeaderCount;
    Producer.NothingLostOrReordered(max, steps);
    BatchSizeOnTheWire(env, Producer.Exec(max, steps).flushed[b]);
  }

  // ---------------------------------------------------------------- the fixed part of a produce batch

  /** What a produce batch says of itself on the wire: offset and leader epoch zero, no flags, producer, epoch and
      sequence -1, and the number of its records. */
  lemma ProduceBatchBytes(env: Env, rs: seq<ClientRecord>)
    requires rs != [] && WriteBatch(env, ProduceBatch(rs, NoCompression)).Ok?
    ensures |rs| <= I32_MAX && MIN_MILLIS <= Millis(rs[0].timestamp) <= MAX_MILLIS
    ensures var w := WriteBatch(env, ProduceBatch(rs, NoCompression)).value;
      && |w| >= 61
      && (forall i | 0 <= i < 8 || 12 <= i < 16 || 21 <= i < 23 :: w[i] == 0)
      && (forall i | 43 <= i < 57 :: w[i] == 255)
      && w[16] == 2
      && w[23..27] == EncodeInt(|rs| - 1, 4)
      && w[27..35] == EncodeInt(Millis(rs[0].timestamp), 8)
      && w[57..61] == EncodeInt(|rs|, 4)
  {
    hide EncodeInt, WriteRecords, MaxTimestamp, ToProtocolAll;
    var b := ProduceBatch(rs, NoCompression);
    BatchLayout(env, b);
    BodyLayout(b);
    var w, d := WriteBatch(env, b).value, WriteBody(b).value;
    hide WriteBatch, WriteBody, WritePayload;
    forall i | 21 <= i < 61 ensures w[i] == d[i - 21] {
      assert w[i] == w[21..][i - 21];
    }
    assert w[23..27] == d[2..6] && w[27..35] == d[6..14] && w[57..61] == d[36..40];
    ZerosAt(w, 0, 8);
    ZerosAt(w, 12, 16);
    ZerosAt(d, 0, 2);
    OnesAt(d, 22, 30);
    OnesAt(d, 30, 32);
    OnesAt(d, 32, 36);
    assert w[16] == w[16..17][0];
  }

  lemma ZerosAt(s: seq<byte>, i: nat, j: nat)
    requires i < j <= |s| && Fits(0, j - i) && s[i..j] == EncodeInt(0, j - i)
    ensures forall k | i <= k < j :: s[k] == 0
  {
    hide EncodeInt;
    forall k | i <= k < j ensures s[k] == 0 {
      ZeroAndMinusOne(j - i, k - i);
      assert s[k] == s[i..j][k - i];
    }
  }

  lemma OnesAt(s: seq<byte>, i: nat, j: nat)
    requires i < j <= |s| && Fits(-1, j - i) && s[i..j] == EncodeInt(-1, j - i)
    ensures forall k | i <= k < j :: s[k] == 255
  {
    hide EncodeInt;
    forall k | i <= k < j ensures s[k] == 255 {
      ZeroAndMinusOne(j - i, k - i);
      assert s[k] == s[i..j][k - i];
    }
  }
}
