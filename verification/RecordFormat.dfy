/** The version-2 record batch format: what the writers emit and what the readers accept.

    Bodies are modelled for uncompressed batches, which is the library built without any compression
    feature: a compressed batch is then an error for writer and reader alike. CRC-32C and UTF-8
    validity belong to foreign code and are parameters. */
module RecordFormat {
  import opened Bytes
  import opened Primitives

  datatype Env = Env(crc: seq<byte> -> u32, utf8: seq<byte> -> bool)

  /** A header key is the byte form of a string. */
  datatype Header = Header(key: seq<byte>, value: seq<byte>)

  datatype Record = Record(timestampDelta: int64, offsetDelta: int32,
                           key: Option<seq<byte>>, value: Option<seq<byte>>, headers: seq<Header>)

  datatype Control = Abort | Commit

  datatype Payload = ControlBatch(control: Control) | Records(records: seq<Record>)

  datatype Compression = NoCompression | Gzip | Snappy | Lz4 | Zstd

  datatype TimestampType = CreateTime | LogAppendTime

  datatype RecordBatch = RecordBatch(
    baseOffset: int64, partitionLeaderEpoch: int32, lastOffsetDelta: int32,
    firstTimestamp: int64, maxTimestamp: int64, producerId: int64, producerEpoch: int16,
    baseSequence: int32, payload: Payload, compression: Compression,
    isTransactional: bool, timestampType: TimestampType)

  datatype WriteError = TooLong | CountOverflow | Unimplemented

  type Written = Result<seq<byte>, WriteError>

  /** Header keys come from strings, so they are valid UTF-8 in every value that can be written. */
  predicate ValidRecord(env: Env, r: Record) {
    forall h | h in r.headers :: env.utf8(h.key)
  }

  predicate ValidBatch(env: Env, b: RecordBatch) {
    b.payload.Records? ==> forall r | r in b.payload.records :: ValidRecord(env, r)
  }

  // ---------------------------------------------------------------- writing

  /** A count or length as a varint, which must fit 32 bits. */
  function WriteCount(n: nat): Written {
    if n <= I32_MAX then Ok(EncodeVarlong(n)) else Err(TooLong)
  }

  function WriteBlob(s: seq<byte>): Written {
    var n :- WriteCount(|s|);
    Ok(n + s)
  }

  function WriteNullable(o: Option<seq<byte>>): Written {
    match o
    case None => Ok(EncodeVarlong(-1))
    case Some(s) => WriteBlob(s)
  }

  function WriteHeader(h: Header): Written {
    var k :- WriteBlob(h.key);
    var v :- WriteBlob(h.value);
    Ok(k + v)
  }

  function WriteHeaders(hs: seq<Header>): Written {
    if hs == [] then Ok([]) else
    var h :- WriteHeader(hs[0]);
    var t :- WriteHeaders(hs[1..]);
    Ok(h + t)
  }

  /** A record without its length prefix. */
  function WriteRecordBody(r: Record): Written {
    var key :- WriteNullable(r.key);
    var value :- WriteNullable(r.value);
    var n :- WriteCount(|r.headers|);
    var hs :- WriteHeaders(r.headers);
    Ok(EncodeInt(0, 1) + (EncodeVarlong(r.timestampDelta) + (EncodeVarlong(r.offsetDelta) +
       (key + (value + (n + hs))))))
  }

  function WriteRecord(r: Record): Written {
    var data :- WriteRecordBody(r);
    WriteBlob(data)
  }

  function WriteRecords(rs: seq<Record>): Written {
    if rs == [] then Ok([]) else
    var r :- WriteRecord(rs[0]);
    var t :- WriteRecords(rs[1..]);
    Ok(r + t)
  }

  function WriteControl(c: Control): seq<byte> {
    EncodeInt(0, 2) + EncodeInt(if c.Abort? then 0 else 1, 2)
  }

  function WritePayload(p: Payload): Written {
    match p
    case ControlBatch(c) => Ok(WriteControl(c))
    case Records(rs) => WriteRecords(rs)
  }

  function PayloadCount(p: Payload): nat {
    if p.ControlBatch? then 1 else |p.records|
  }

  function CompressionCode(c: Compression): (n: nat)
    ensures n < 5
  {
    match c
    case NoCompression => 0
    case Gzip => 1
    case Snappy => 2
    case Lz4 => 3
    case Zstd => 4
  }

  /** Bits 0-2 compression, 3 timestamp type, 4 transactional, 5 control. */
  function Attributes(b: RecordBatch): (a: int16) {
    CompressionCode(b.compression)
    + (if b.timestampType.LogAppendTime? then 8 else 0)
    + (if b.isTransactional then 16 else 0)
    + (if b.payload.ControlBatch? then 32 else 0)
  }

  /** The fixed-width fields that precede the payload. */
  datatype Fields = Fields(attributes: int16, lastOffsetDelta: int32, firstTimestamp: int64, maxTimestamp: int64,
                           producerId: int64, producerEpoch: int16, baseSequence: int32, count: int32)

  function FieldsOf(b: RecordBatch): Fields
    requires PayloadCount(b.payload) <= I32_MAX
  {
    Fields(Attributes(b), b.lastOffsetDelta, b.firstTimestamp, b.maxTimestamp, b.producerId, b.producerEpoch,
           b.baseSequence, PayloadCount(b.payload))
  }

  /** The fields, in front of what follows them. */
  function WriteFields(f: Fields, tail: seq<byte>): seq<byte> {
    EncodeInt(f.attributes, 2) + (EncodeInt(f.lastOffsetDelta, 4) + (EncodeInt(f.firstTimestamp, 8) +
    (EncodeInt(f.maxTimestamp, 8) + (EncodeInt(f.producerId, 8) + (EncodeInt(f.producerEpoch, 2) +
    (EncodeInt(f.baseSequence, 4) + (EncodeInt(f.count, 4) + tail)))))))
  }

  /** The CRC-protected part of a batch. */
  function WriteBody(b: RecordBatch): Written {
    if PayloadCount(b.payload) > I32_MAX then Err(CountOverflow)
    else if b.compression != NoCompression then Err(Unimplemented)
    else
      var payload :- WritePayload(b.payload);
      Ok(WriteFields(FieldsOf(b), payload))
  }

  function AsI32(u: u32): int32 {
    if u <= I32_MAX then u else u - 0x1_0000_0000
  }

  function AsU32(i: int32): (u: u32)
    ensures AsI32(u) == i
  {
    if i >= 0 then i else i + 0x1_0000_0000
  }

  /** Size of leader epoch, magic and CRC, which the batch length field covers besides the body. */
  const HEADER_REST := 9

  const MAGIC := 2

  function WriteBatch(env: Env, b: RecordBatch): Written {
    var data :- WriteBody(b);
    if |data| + HEADER_REST > I32_MAX then Err(TooLong)
    else
      Ok(EncodeInt(b.baseOffset, 8) + (EncodeInt(|data| + HEADER_REST, 4) + (EncodeInt(b.partitionLeaderEpoch, 4) +
         (EncodeInt(MAGIC, 1) + (EncodeInt(AsI32(env.crc(data)), 4) + data)))))
  }

  function WriteBatches(env: Env, bs: seq<RecordBatch>): Written {
    if bs == [] then Ok([]) else
    var b :- WriteBatch(env, bs[0]);
    var t :- WriteBatches(env, bs[1..]);
    Ok(b + t)
  }

  /** INT32 length, -1 for null, then the bytes. */
  function WriteNullableBytes(o: Option<seq<byte>>): Written {
    match o
    case None => Ok(EncodeInt(-1, 4))
    case Some(s) => if |s| <= I32_MAX then Ok(EncodeInt(|s|, 4) + s) else Err(TooLong)
  }

  function WriteRecordSet(env: Env, bs: seq<RecordBatch>): Written {
    var buf :- WriteBatches(env, bs);
    WriteNullableBytes(Some(buf))
  }

  // ---------------------------------------------------------------- reading

  /** The next `n` bytes; a negative length is malformed, a long one meets the end of input. */
  function TakeBytes(s: seq<byte>, n: int): (p: Parse<seq<byte>>)
    ensures p.Done? ==> s == p.value + p.rest && |p.value| == n
  {
    if n < 0 then Fail(Malformed)
    else if n > |s| then Fail(UnexpectedEof)
    else Done(s[..n], s[n..])
  }

  function ParseBlob(s: seq<byte>): (p: Parse<seq<byte>>)
    ensures p.Done? ==> |p.rest| < |s|
  {
    var (n, t) :- ParseVarint(s);
    TakeBytes(t, n)
  }

  function ParseNullable(s: seq<byte>): (p: Parse<Option<seq<byte>>>)
    ensures p.Done? ==> |p.rest| < |s|
  {
    var (n, t) :- ParseVarint(s);
    if n == -1 then Done(None, t) else
    var (b, u) :- TakeBytes(t, n);
    Done(Some(b), u)
  }

  function ParseHeader(env: Env, s: seq<byte>): (p: Parse<Header>)
    ensures p.Done? ==> |p.rest| < |s|
  {
    var (key, t) :- ParseBlob(s);
    if !env.utf8(key) then Fail(Malformed) else
    var (value, u) :- ParseBlob(t);
    Done(Header(key, value), u)
  }

  function ParseHeaders(env: Env, s: seq<byte>, n: nat): (p: Parse<seq<Header>>)
    ensures p.Done? ==> |p.rest| <= |s| && |p.value| == n
    decreases n
  {
    if n == 0 then Done([], s) else
    var (h, t) :- ParseHeader(env, s);
    var (hs, u) :- ParseHeaders(env, t, n - 1);
    Done([h] + hs, u)
  }

  /** A record's fields, read from the bytes `b` its length prefix admits. */
  function ParseRecordBody(env: Env, b: seq<byte>): (p: Parse<Record>)
    ensures p.Done? ==> |p.rest| < |b|
  {
    var (_, b1) :- ParseInt(b, 1);
    var (timestampDelta, b2) :- ParseVarlong(b1);
    var (offsetDelta, b3) :- ParseVarint(b2);
    var (key, b4) :- ParseNullable(b3);
    var (value, b5) :- ParseNullable(b4);
    var (n, b6) :- ParseVarint(b5);
    if n < 0 then Fail(Malformed) else
    var (headers, b7) :- ParseHeaders(env, b6, n);
    Done(Record(timestampDelta, offsetDelta, key, value, headers), b7)
  }

  /** A record reads through a limit of `n` bytes, which it must use up. */
  function ParseRecord(env: Env, s: seq<byte>): (p: Parse<Record>)
    ensures p.Done? ==> |p.rest| < |s|
  {
    var (n, t) :- ParseVarint(s);
    if n < 0 then Fail(Malformed) else
    var limit := Min(n, |t|);
    var (r, left) :- ParseRecordBody(env, t[..limit]);
    var used := limit - |left|;
    if n - used != 0 then Fail(Malformed) else Done(r, t[used..])
  }

  function ParseRecords(env: Env, s: seq<byte>, n: nat): (p: Parse<seq<Record>>)
    ensures p.Done? ==> |p.value| == n
    decreases n
  {
    if n == 0 then Done([], s) else
    var (r, t) :- ParseRecord(env, s);
    var (rs, u) :- ParseRecords(env, t, n - 1);
    Done([r] + rs, u)
  }

  function ParseControl(s: seq<byte>): Parse<Control> {
    var (version, t) :- ParseInt(s, 2);
    if version != 0 then Fail(Malformed) else
    var (kind, u) :- ParseInt(t, 2);
    if kind == 0 then Done(Abort, u)
    else if kind == 1 then Done(Commit, u)
    else Fail(Malformed)
  }

  function ParsePayload(env: Env, s: seq<byte>, isControl: bool, n: nat): Parse<Payload> {
    if isControl then
      if n != 1 then Fail(Malformed) else
      var (c, t) :- ParseControl(s);
      Done(ControlBatch(c), t)
    else
      var (rs, t) :- ParseRecords(env, s, n);
      Done(Records(rs), t)
  }

  /** `attributes & 0x7`; Dafny's `%` agrees with the mask on negative values too. */
  function CompressionOf(attributes: int): Option<Compression> {
    match attributes % 8
    case 0 => Some(NoCompression)
    case 1 => Some(Gzip)
    case 2 => Some(Snappy)
    case 3 => Some(Lz4)
    case 4 => Some(Zstd)
    case _ => None
  }

  /** `(attributes >> k) & 1` for weight 2^k. */
  predicate Bit(attributes: int, weight: int)
    requires weight > 0
  {
    (attributes / weight) % 2 == 1
  }

  function ParseFields(s: seq<byte>): Parse<Fields> {
    var (attributes, s1) :- ParseInt(s, 2);
    if CompressionOf(attributes).None? then Fail(Malformed) else
    var (lastOffsetDelta, s2) :- ParseInt(s1, 4);
    var (firstTimestamp, s3) :- ParseInt(s2, 8);
    var (maxTimestamp, s4) :- ParseInt(s3, 8);
    var (producerId, s5) :- ParseInt(s4, 8);
    var (producerEpoch, s6) :- ParseInt(s5, 2);
    var (baseSequence, s7) :- ParseInt(s6, 4);
    var (count, s8) :- ParseInt(s7, 4);
    Done(Fields(attributes, lastOffsetDelta, firstTimestamp, maxTimestamp,
                producerId, producerEpoch, baseSequence, count), s8)
  }

  /** A batch from its outer fields, its inner fields and its payload. */
  function Assemble(baseOffset: int64, epoch: int32, f: Fields, compression: Compression, payload: Payload): RecordBatch
  {
    RecordBatch(baseOffset, epoch, f.lastOffsetDelta, f.firstTimestamp, f.maxTimestamp, f.producerId, f.producerEpoch,
                f.baseSequence, payload, compression, Bit(f.attributes, 16),
                if Bit(f.attributes, 8) then LogAppendTime else CreateTime)
  }

  /** The body of a batch whose outer fields are `baseOffset` and `epoch`. */
  function ParseBody(env: Env, s: seq<byte>, baseOffset: int64, epoch: int32): Parse<RecordBatch> {
    var (f, s1) :- ParseFields(s);
    if f.count < -1 then Fail(Overflow) else
    if CompressionOf(f.attributes) != Some(NoCompression) then Fail(Malformed) else
    var (payload, s2) :- ParsePayload(env, s1, Bit(f.attributes, 32), if f.count == -1 then 0 else f.count);
    Done(Assemble(baseOffset, epoch, f, NoCompression, payload), s2)
  }

  /** The part of a batch between the length field and the end: epoch, magic, CRC and `n` bytes of body. */
  function ParseSealed(env: Env, s: seq<byte>, baseOffset: int64, n: nat): (p: Parse<RecordBatch>)
    ensures p.Done? ==> |p.rest| <= |s|
  {
    var (epoch, s1) :- ParseInt(s, 4);
    var (magic, s2) :- ParseInt(s1, 1);
    if magic != MAGIC then Fail(Malformed) else
    var (crc, s3) :- ParseInt(s2, 4);
    var (data, s4) :- TakeBytes(s3, n);
    if AsU32(crc) != env.crc(data) then Fail(Malformed) else
    var (batch, left) :- ParseBody(env, data, baseOffset, epoch);
    if left != [] then Fail(Malformed) else Done(batch, s4)
  }

  function ParseBatch(env: Env, s: seq<byte>): (p: Parse<RecordBatch>)
    ensures p.Done? ==> |p.rest| < |s|
  {
    var (baseOffset, s1) :- ParseInt(s, 8);
    var (n, s2) :- ParseInt(s1, 4);
    if n < HEADER_REST then Fail(Malformed) else ParseSealed(env, s2, baseOffset, n - HEADER_REST)
  }

  /** A batch that meets the end of input was cut off by the broker and ends the list. */
  function ParseBatches(env: Env, s: seq<byte>): Result<seq<RecordBatch>, ReadError>
    decreases |s|
  {
    if s == [] then Ok([]) else
    match ParseBatch(env, s)
    case Fail(UnexpectedEof) => Ok([])
    case Fail(e) => Err(e)
    case Done(b, t) =>
      var bs :- ParseBatches(env, t);
      Ok([b] + bs)
  }

  function ParseNullableBytes(s: seq<byte>): Parse<Option<seq<byte>>> {
    var (n, t) :- ParseInt(s, 4);
    if n == -1 then Done(None, t) else
    var (b, u) :- TakeBytes(t, n);
    Done(Some(b), u)
  }

  function ParseRecordSet(env: Env, s: seq<byte>): Parse<seq<RecordBatch>> {
    var (buf, t) :- ParseNullableBytes(s);
    match ParseBatches(env, if buf.None? then [] else buf.value)
    case Ok(bs) => Done(bs, t)
    case Err(e) => Fail(e)
  }
}

/** Reading undoes writing, and a cut-off record set yields exactly its whole batches. */
module RecordRoundTrip {
  import opened Bytes
  import opened Primitives
  import opened RecordFormat

  lemma BlobRoundTrip(b: seq<byte>, tail: seq<byte>)
    requires WriteBlob(b).Ok?
    ensures ParseBlob(WriteBlob(b).value + tail) == Done(b, tail)
  {
    var n := EncodeVarlong(|b|);
    assert n + b + tail == n + (b + tail);
    VarintRoundTrip(|b|, b + tail);
    assert (b + tail)[..|b|] == b && (b + tail)[|b|..] == tail;
  }

  lemma NullableRoundTrip(o: Option<seq<byte>>, tail: seq<byte>)
    requires WriteNullable(o).Ok?
    ensures ParseNullable(WriteNullable(o).value + tail) == Done(o, tail)
  {
    match o
    case None => VarintRoundTrip(-1, tail);
    case Some(b) =>
      var n := EncodeVarlong(|b|);
      assert n + b + tail == n + (b + tail);
      VarintRoundTrip(|b|, b + tail);
      assert (b + tail)[..|b|] == b && (b + tail)[|b|..] == tail;
  }

  lemma HeaderRoundTrip(env: Env, h: Header, tail: seq<byte>)
    requires env.utf8(h.key) && WriteHeader(h).Ok?
    ensures ParseHeader(env, WriteHeader(h).value + tail) == Done(h, tail)
  {
    var k, v := WriteBlob(h.key).value, WriteBlob(h.value).value;
    assert k + v + tail == k + (v + tail);
    BlobRoundTrip(h.key, v + tail);
    BlobRoundTrip(h.value, tail);
  }

  lemma {:induction false} HeadersRoundTrip(env: Env, hs: seq<Header>, tail: seq<byte>)
    requires forall h | h in hs :: env.utf8(h.key)
    requires WriteHeaders(hs).Ok?
    ensures ParseHeaders(env, WriteHeaders(hs).value + tail, |hs|) == Done(hs, tail)
  {
    hide WriteHeader, ParseHeader;
    if hs == [] {
      assert [] + tail == tail;
    } else {
      var h, t := WriteHeader(hs[0]).value, WriteHeaders(hs[1..]).value;
      HeaderRoundTrip(env, hs[0], t + tail);
      HeadersRoundTrip(env, hs[1..], tail);
      assert WriteHeaders(hs).value + tail == h + (t + tail);
      assert [hs[0]] + hs[1..] == hs;
    }
  }

  lemma RecordBodyRoundTrip(env: Env, r: Record)
    requires ValidRecord(env, r) && WriteRecordBody(r).Ok?
    ensures ParseRecordBody(env, WriteRecordBody(r).value) == Done(r, [])
  {
    hide EncodeInt, ParseInt, EncodeVarlong, ParseVarlong, ParseVarint;
    hide WriteNullable, ParseNullable, WriteHeaders, ParseHeaders;
    var key, value := WriteNullable(r.key).value, WriteNullable(r.value).value;
    var n, hs := WriteCount(|r.headers|).value, WriteHeaders(r.headers).value;
    var b5 := n + hs;
    var b4 := value + b5;
    var b3 := key + b4;
    var b2 := EncodeVarlong(r.offsetDelta) + b3;
    var b1 := EncodeVarlong(r.timestampDelta) + b2;
    IntRoundTrip(0, 1, b1);
    VarlongRoundTrip(r.timestampDelta, b2);
    VarintRoundTrip(r.offsetDelta, b3);
    NullableRoundTrip(r.key, b4);
    NullableRoundTrip(r.value, b5);
    VarintRoundTrip(|r.headers|, hs);
    assert hs + [] == hs;
    HeadersRoundTrip(env, r.headers, []);
  }

  lemma SingleRecordRoundTrip(env: Env, r: Record, tail: seq<byte>)
    requires ValidRecord(env, r) && WriteRecord(r).Ok?
    ensures ParseRecord(env, WriteRecord(r).value + tail) == Done(r, tail)
  {
    var data := WriteRecordBody(r).value;
    var n := EncodeVarlong(|data|);
    assert n + data + tail == n + (data + tail);
    VarintRoundTrip(|data|, data + tail);
    assert (data + tail)[..|data|] == data && (data + tail)[|data|..] == tail;
    RecordBodyRoundTrip(env, r);
  }

  lemma {:induction false} RecordsRoundTrip(env: Env, rs: seq<Record>, tail: seq<byte>)
    requires forall r | r in rs :: ValidRecord(env, r)
    requires WriteRecords(rs).Ok?
    ensures ParseRecords(env, WriteRecords(rs).value + tail, |rs|) == Done(rs, tail)
  {
    hide WriteRecord, ParseRecord, ValidRecord;
    if rs == [] {
      assert [] + tail == tail;
    } else {
      var r, t := WriteRecord(rs[0]).value, WriteRecords(rs[1..]).value;
      SingleRecordRoundTrip(env, rs[0], t + tail);
      RecordsRoundTrip(env, rs[1..], tail);
      assert WriteRecords(rs).value + tail == r + (t + tail);
      assert [rs[0]] + rs[1..] == rs;
    }
  }

  /** The attribute word determines compression, timestamp type and both flags. */
  lemma AttributesRoundTrip(b: RecordBatch)
    ensures var a := Attributes(b);
      && CompressionOf(a) == Some(b.compression)
      && (Bit(a, 8) <==> b.timestampType.LogAppendTime?)
      && (Bit(a, 16) <==> b.isTransactional)
      && (Bit(a, 32) <==> b.payload.ControlBatch?)
  {
  }

  lemma PayloadRoundTrip(env: Env, p: Payload)
    requires p.Records? ==> forall r | r in p.records :: ValidRecord(env, r)
    requires WritePayload(p).Ok?
    ensures ParsePayload(env, WritePayload(p).value, p.ControlBatch?, PayloadCount(p)) == Done(p, [])
  {
    match p
    case ControlBatch(c) =>
      var kind := if c.Abort? then 0 else 1;
      IntRoundTrip(0, 2, EncodeInt(kind, 2));
      assert EncodeInt(kind, 2) + [] == EncodeInt(kind, 2);
      IntRoundTrip(kind, 2, []);
    case Records(rs) =>
      assert WriteRecords(rs).value + [] == WriteRecords(rs).value;
      RecordsRoundTrip(env, rs, []);
  }

  lemma FieldsRoundTrip(f: Fields, tail: seq<byte>)
    requires CompressionOf(f.attributes).Some?
    ensures ParseFields(WriteFields(f, tail)) == Done(f, tail)
  {
    hide EncodeInt, ParseInt, CompressionOf;
    var s7 := EncodeInt(f.count, 4) + tail;
    var s6 := EncodeInt(f.baseSequence, 4) + s7;
    var s5 := EncodeInt(f.producerEpoch, 2) + s6;
    var s4 := EncodeInt(f.producerId, 8) + s5;
    var s3 := EncodeInt(f.maxTimestamp, 8) + s4;
    var s2 := EncodeInt(f.firstTimestamp, 8) + s3;
    var s1 := EncodeInt(f.lastOffsetDelta, 4) + s2;
    IntRoundTrip(f.attributes, 2, s1);
    IntRoundTrip(f.lastOffsetDelta, 4, s2);
    IntRoundTrip(f.firstTimestamp, 8, s3);
    IntRoundTrip(f.maxTimestamp, 8, s4);
    IntRoundTrip(f.producerId, 8, s5);
    IntRoundTrip(f.producerEpoch, 2, s6);
    IntRoundTrip(f.baseSequence, 4, s7);
    IntRoundTrip(f.count, 4, tail);
  }

  lemma BodyRoundTrip(env: Env, b: RecordBatch)
    requires ValidBatch(env, b) && WriteBody(b).Ok?
    ensures ParseBody(env, WriteBody(b).value, b.baseOffset, b.partitionLeaderEpoch) == Done(b, [])
  {
    hide WriteFields, ParseFields, WritePayload, ParsePayload, Attributes, CompressionOf, Bit;
    AttributesRoundTrip(b);
    FieldsRoundTrip(FieldsOf(b), WritePayload(b.payload).value);
    PayloadRoundTrip(env, b.payload);
  }

  /** Reading a written batch followed by any suffix returns the batch and leaves the suffix. */
  lemma BatchRoundTrip(env: Env, b: RecordBatch, tail: seq<byte>)
    requires ValidBatch(env, b) && WriteBatch(env, b).Ok?
    ensures ParseBatch(env, WriteBatch(env, b).value + tail) == Done(b, tail)
  {
    hide EncodeInt, ParseInt, WriteBody, ParseBody, ValidBatch;
    var data := WriteBody(b).value;
    var crc := AsI32(env.crc(data));
    var n := |data| + HEADER_REST;
    var e4 := EncodeInt(crc, 4);
    var e3 := EncodeInt(MAGIC, 1);
    var e2 := EncodeInt(b.partitionLeaderEpoch, 4);
    var e1 := EncodeInt(n, 4);
    var e0 := EncodeInt(b.baseOffset, 8);
    var s4 := data + tail;
    var s3 := e4 + s4;
    var s2 := e3 + s3;
    var s1 := e2 + s2;
    var s0 := e1 + s1;
    assert WriteBatch(env, b).value + tail == e0 + s0;
    IntRoundTrip(b.baseOffset, 8, s0);
    IntRoundTrip(n, 4, s1);
    IntRoundTrip(b.partitionLeaderEpoch, 4, s2);
    IntRoundTrip(MAGIC, 1, s3);
    IntRoundTrip(crc, 4, s4);
    assert s4[..|data|] == data && s4[|data|..] == tail;
    BodyRoundTrip(env, b);
  }

  // ---------------------------------------------------------------- layout

  /** The byte positions of the documented record batch layout: the length field counts what follows it,
      and the checksum covers everything from the attributes on. */
  lemma BatchLayout(env: Env, b: RecordBatch)
    requires WriteBatch(env, b).Ok?
    ensures var w := WriteBatch(env, b).value;
      && |w| >= 61
      && w[0..8] == EncodeInt(b.baseOffset, 8)
      && w[8..12] == EncodeInt(|w| - 12, 4)
      && w[12..16] == EncodeInt(b.partitionLeaderEpoch, 4)
      && w[16..17] == [2]
      && w[17..21] == EncodeInt(AsI32(env.crc(w[21..])), 4)
      && w[21..] == WriteBody(b).value
  {
    hide EncodeInt, WriteBody;
    MagicByte();
    BodyLayout(b);
    var data := WriteBody(b).value;
    var w := WriteBatch(env, b).value;
    assert w[21..] == data;
  }

  lemma MagicByte()
    ensures EncodeInt(MAGIC, 1) == [2]
  {
    assert BigEndian(2, 1) == BigEndian(0, 0) + [2];
  }

  lemma BodyLayout(b: RecordBatch)
    requires WriteBody(b).Ok?
    ensures var d := WriteBody(b).value;
      && |d| >= 40
      && d[0..2] == EncodeInt(Attributes(b), 2)
      && d[2..6] == EncodeInt(b.lastOffsetDelta, 4)
      && d[6..14] == EncodeInt(b.firstTimestamp, 8)
      && d[14..22] == EncodeInt(b.maxTimestamp, 8)
      && d[22..30] == EncodeInt(b.producerId, 8)
      && d[30..32] == EncodeInt(b.producerEpoch, 2)
      && d[32..36] == EncodeInt(b.baseSequence, 4)
      && d[36..40] == EncodeInt(PayloadCount(b.payload), 4)
      && d[40..] == WritePayload(b.payload).value
  {
    hide EncodeInt, WritePayload, Attributes;
  }

  // ---------------------------------------------------------------- cut-off record sets

  /** A proper prefix of a written batch meets the end of input, never another error. */
  lemma CutBatchIsEof(env: Env, b: RecordBatch, cut: nat)
    requires WriteBatch(env, b).Ok?
    requires cut < |WriteBatch(env, b).value|
    ensures ParseBatch(env, WriteBatch(env, b).value[..cut]) == Fail(UnexpectedEof)
  {
    hide EncodeInt, ParseInt, WriteBody, ParseBody;
    var data := WriteBody(b).value;
    var n := |data| + HEADER_REST;
    var crc := AsI32(env.crc(data));
    var s4 := EncodeInt(crc, 4) + data;
    var s3 := EncodeInt(MAGIC, 1) + s4;
    var s2 := EncodeInt(b.partitionLeaderEpoch, 4) + s3;
    var s1 := EncodeInt(n, 4) + s2;
    var s := EncodeInt(b.baseOffset, 8) + s1;
    if cut >= 8 {
      var t1 := s1[..cut - 8];
      assert s[..cut] == EncodeInt(b.baseOffset, 8) + t1;
      IntRoundTrip(b.baseOffset, 8, t1);
      if cut >= 12 {
        var t2 := s2[..cut - 12];
        assert t1 == EncodeInt(n, 4) + t2;
        IntRoundTrip(n, 4, t2);
        assert s2 == EncodeInt(b.partitionLeaderEpoch, 4) + (EncodeInt(MAGIC, 1) + (EncodeInt(crc, 4) + data));
        CutSealedIsEof(env, b, cut - 12);
      }
    }
  }

  lemma CutSealedIsEof(env: Env, b: RecordBatch, cut: nat)
    requires WriteBody(b).Ok?
    requires cut < |WriteBody(b).value| + HEADER_REST
    ensures var data := WriteBody(b).value;
      ParseSealed(env, (EncodeInt(b.partitionLeaderEpoch, 4) + (EncodeInt(MAGIC, 1) +
                       (EncodeInt(AsI32(env.crc(data)), 4) + data)))[..cut], b.baseOffset, |data|)
      == Fail(UnexpectedEof)
  {
    hide EncodeInt, ParseInt, WriteBody, ParseBody;
    var data := WriteBody(b).value;
    var crc := AsI32(env.crc(data));
    var s4 := EncodeInt(crc, 4) + data;
    var s3 := EncodeInt(MAGIC, 1) + s4;
    var s2 := EncodeInt(b.partitionLeaderEpoch, 4) + s3;
    if cut >= 4 {
      var t3 := s3[..cut - 4];
      assert s2[..cut] == EncodeInt(b.partitionLeaderEpoch, 4) + t3;
      IntRoundTrip(b.partitionLeaderEpoch, 4, t3);
      if cut >= 5 {
        var t4 := s4[..cut - 5];
        assert t3 == EncodeInt(MAGIC, 1) + t4;
        IntRoundTrip(MAGIC, 1, t4);
        if cut >= 9 {
          var t5 := data[..cut - 9];
          assert t4 == EncodeInt(crc, 4) + t5;
          IntRoundTrip(crc, 4, t5);
        }
      }
    }
  }

  predicate Writable(env: Env, bs: seq<RecordBatch>) {
    forall b | b in bs :: ValidBatch(env, b) && WriteBatch(env, b).Ok?
  }

  /** Encoded size of the first `k` batches. */
  function SizeOfFirst(env: Env, bs: seq<RecordBatch>, k: nat): nat
    requires Writable(env, bs) && k <= |bs|
  {
    if k == 0 then 0 else |WriteBatch(env, bs[0]).value| + SizeOfFirst(env, bs[1..], k - 1)
  }

  lemma {:induction false} WritableConcatenates(env: Env, bs: seq<RecordBatch>)
    requires Writable(env, bs)
    ensures WriteBatches(env, bs).Ok?
    ensures |WriteBatches(env, bs).value| == SizeOfFirst(env, bs, |bs|)
  {
    hide WriteBatch, ValidBatch;
    if bs != [] {
      WritableConcatenates(env, bs[1..]);
    }
  }

  /** Cutting the concatenation after `cut` bytes leaves the `k` batches that end at or before the cut. */
  lemma {:induction false} CutBatches(env: Env, bs: seq<RecordBatch>, cut: nat, k: nat)
    requires Writable(env, bs) && k <= |bs|
    requires WriteBatches(env, bs).Ok? && cut <= |WriteBatches(env, bs).value|
    requires SizeOfFirst(env, bs, k) <= cut
    requires k < |bs| ==> cut < SizeOfFirst(env, bs, k + 1)
    ensures ParseBatches(env, WriteBatches(env, bs).value[..cut]) == Ok(bs[..k])
  {
    hide WriteBatch, ValidBatch, ParseBatch;
    if bs != [] {
      var e, t := WriteBatch(env, bs[0]).value, WriteBatches(env, bs[1..]).value;
      WritableConcatenates(env, bs[1..]);
      assert WriteBatches(env, bs).value == e + t;
      assert SizeOfFirst(env, bs, 1) == |e| + SizeOfFirst(env, bs[1..], 0);
      if k == 0 {
        assert (e + t)[..cut] == e[..cut];
        CutBatchIsEof(env, bs[0], cut);
      } else {
        var rest := t[..cut - |e|];
        assert (e + t)[..cut] == e + rest;
        BatchRoundTrip(env, bs[0], rest);
        WrittenIsNonEmpty(env, bs[0]);
        CutBatches(env, bs[1..], cut - |e|, k - 1);
        assert bs[..k] == [bs[0]] + bs[1..][..k - 1];
      }
    }
  }

  lemma WrittenIsNonEmpty(env: Env, b: RecordBatch)
    requires WriteBatch(env, b).Ok?
    ensures WriteBatch(env, b).value != []
  {
  }

  /** For any cut point, reading a record set cut there returns exactly the batches wholly before the
      cut, never an error, and leaves the bytes after the set alone. */
  lemma CutRecordSet(env: Env, bs: seq<RecordBatch>, cut: nat, k: nat, tail: seq<byte>)
    requires Writable(env, bs) && k <= |bs|
    requires WriteBatches(env, bs).Ok? && cut <= |WriteBatches(env, bs).value|
    requires SizeOfFirst(env, bs, k) <= cut
    requires k < |bs| ==> cut < SizeOfFirst(env, bs, k + 1)
    requires WriteNullableBytes(Some(WriteBatches(env, bs).value[..cut])).Ok?
    ensures ParseRecordSet(env, WriteNullableBytes(Some(WriteBatches(env, bs).value[..cut])).value + tail)
         == Done(bs[..k], tail)
  {
    hide WriteBatches, ParseBatches, EncodeInt, ParseInt;
    var buf := WriteBatches(env, bs).value[..cut];
    CutBatches(env, bs, cut, k);
    assert EncodeInt(|buf|, 4) + buf + tail == EncodeInt(|buf|, 4) + (buf + tail);
    IntRoundTrip(|buf|, 4, buf + tail);
    assert (buf + tail)[..|buf|] == buf && (buf + tail)[|buf|..] == tail;
  }

  /** Every cut point has exactly one such number of whole batches. */
  lemma {:induction false} WholeBatchesExist(env: Env, bs: seq<RecordBatch>, cut: nat) returns (k: nat)
    requires Writable(env, bs)
    ensures k <= |bs| && SizeOfFirst(env, bs, k) <= cut
    ensures k < |bs| ==> cut < SizeOfFirst(env, bs, k + 1)
  {
    hide WriteBatch, ValidBatch;
    if bs == [] {
      k := 0;
    } else {
      var n := |WriteBatch(env, bs[0]).value|;
      assert SizeOfFirst(env, bs, 1) == n + SizeOfFirst(env, bs[1..], 0);
      if cut < n {
        k := 0;
      } else {
        var j := WholeBatchesExist(env, bs[1..], cut - n);
        k := j + 1;
      }
    }
  }

  /** A record set that is not cut reads back whole. */
  lemma RecordSetRoundTrip(env: Env, bs: seq<RecordBatch>, tail: seq<byte>)
    requires Writable(env, bs) && WriteRecordSet(env, bs).Ok?
    ensures ParseRecordSet(env, WriteRecordSet(env, bs).value + tail) == Done(bs, tail)
  {
    WritableConcatenates(env, bs);
    var all := WriteBatches(env, bs).value;
    assert all[..|all|] == all && bs[..|bs|] == bs;
    CutRecordSet(env, bs, |all|, |bs|, tail);
  }
}
