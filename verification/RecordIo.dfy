/** The readers and writers themselves: cursor-advancing methods that refine the parsers and
    encoders of RecordFormat. */
module RecordIo {
  import opened Bytes
  import opened Primitives
  import opened RecordFormat
  import opened VecBuilders

  /** In-memory element sizes handed to the builders; any size from 1 to a block gives the same result. */
  const HEADER_SIZE := 48
  const RECORD_SIZE := 88

  /** Puts already read elements in front of what a parser still yields. */
  function After<T>(xs: seq<T>, p: Parse<seq<T>>): Parse<seq<T>> {
    if p.Done? then Done(xs + p.value, p.rest) else p
  }

  // ---------------------------------------------------------------- reading

  method ReadVarlong(reader: Reader) returns (r: Result<int64, ReadError>)
    modifies reader
    ensures Agrees(ParseVarlong(old(reader.rest)), r, reader.rest)
  {
    var u :- reader.ReadUnsigned();
    return Ok(UnZigZag(u));
  }

  method ReadVarint(reader: Reader) returns (r: Result<int32, ReadError>)
    modifies reader
    ensures Agrees(ParseVarint(old(reader.rest)), r, reader.rest)
  {
    var x :- ReadVarlong(reader);
    if x < -0x8000_0000 || x > I32_MAX {
      return Err(Overflow);
    }
    return Ok(x);
  }

  method ReadBytes(reader: Reader, n: int) returns (r: Result<seq<byte>, ReadError>)
    modifies reader
    ensures Agrees(TakeBytes(old(reader.rest), n), r, reader.rest)
  {
    if n < 0 {
      return Err(Malformed);
    }
    var buf := new VecBuilder<byte>(n, DEFAULT_BLOCK_SIZE, 1);
    var ok, _ := ReadExactInto(buf, reader);
    if ok.Err? {
      return Err(ok.error);
    }
    assert [] + old(reader.rest)[..n] == old(reader.rest)[..n];
    var bytes := buf.IntoVec();
    return Ok(bytes);
  }

  method ReadBlob(reader: Reader) returns (r: Result<seq<byte>, ReadError>)
    modifies reader
    ensures Agrees(ParseBlob(old(reader.rest)), r, reader.rest)
  {
    var n :- ReadVarint(reader);
    r := ReadBytes(reader, n);
  }

  method ReadNullable(reader: Reader) returns (r: Result<Option<seq<byte>>, ReadError>)
    modifies reader
    ensures Agrees(ParseNullable(old(reader.rest)), r, reader.rest)
  {
    var n :- ReadVarint(reader);
    if n == -1 {
      return Ok(None);
    }
    var b :- ReadBytes(reader, n);
    return Ok(Some(b));
  }

  method ReadHeader(env: Env, reader: Reader) returns (r: Result<Header, ReadError>)
    modifies reader
    ensures Agrees(ParseHeader(env, old(reader.rest)), r, reader.rest)
  {
    hide ParseBlob;
    var key :- ReadBlob(reader);
    if !env.utf8(key) {
      return Err(Malformed);
    }
    var value :- ReadBlob(reader);
    return Ok(Header(key, value));
  }

  method ReadHeaders(env: Env, reader: Reader, n: nat) returns (r: Result<seq<Header>, ReadError>)
    modifies reader
    ensures Agrees(ParseHeaders(env, old(reader.rest), n), r, reader.rest)
  {
    hide ParseHeader;
    var headers := new VecBuilder<Header>(n, DEFAULT_BLOCK_SIZE, HEADER_SIZE);
    ghost var whole := ParseHeaders(env, reader.rest, n);
    assert whole.Done? ==> [] + whole.value == whole.value;
    for i := 0 to n
      invariant headers.Valid() && headers.remaining == n - i && fresh(headers)
      invariant whole == After(headers.Contents(), ParseHeaders(env, reader.rest, n - i))
    {
      ghost var done := headers.Contents();
      var h :- ReadHeader(env, reader);
      headers.Push(h);
      assert forall hs: seq<Header> :: done + ([h] + hs) == done + [h] + hs;
    }
    assert headers.Contents() + [] == headers.Contents();
    var out := headers.IntoVec();
    return Ok(out);
  }

  method ReadRecordBody(env: Env, reader: Reader) returns (r: Result<Record, ReadError>)
    modifies reader
    ensures Agrees(ParseRecordBody(env, old(reader.rest)), r, reader.rest)
  {
    hide ParseInt, ParseVarlong, ParseVarint, ParseNullable, ParseHeaders;
    var attributes :- reader.ReadInt(1);
    var timestampDelta :- ReadVarlong(reader);
    var offsetDelta :- ReadVarint(reader);
    var key :- ReadNullable(reader);
    var value :- ReadNullable(reader);
    var n :- ReadVarint(reader);
    if n < 0 {
      return Err(Malformed);
    }
    var headers :- ReadHeaders(env, reader, n);
    return Ok(Record(timestampDelta, offsetDelta, key, value, headers));
  }

  /** Reads through a window of the declared length, then moves past what the window used. */
  method ReadRecord(env: Env, reader: Reader) returns (r: Result<Record, ReadError>)
    modifies reader
    ensures Agrees(ParseRecord(env, old(reader.rest)), r, reader.rest)
  {
    hide ParseVarint, ParseRecordBody;
    var n :- ReadVarint(reader);
    if n < 0 {
      return Err(Malformed);
    }
    var limit := Min(n, |reader.rest|);
    var window := new Reader(reader.rest[..limit]);
    var record :- ReadRecordBody(env, window);
    var used := limit - |window.rest|;
    if n - used != 0 {
      return Err(Malformed);
    }
    reader.rest := reader.rest[used..];
    return Ok(record);
  }

  method ReadRecords(env: Env, reader: Reader, n: nat) returns (r: Result<seq<Record>, ReadError>)
    modifies reader
    ensures Agrees(ParseRecords(env, old(reader.rest), n), r, reader.rest)
  {
    hide ParseRecord;
    var records := new VecBuilder<Record>(n, DEFAULT_BLOCK_SIZE, RECORD_SIZE);
    ghost var whole := ParseRecords(env, reader.rest, n);
    assert whole.Done? ==> [] + whole.value == whole.value;
    for i := 0 to n
      invariant records.Valid() && records.remaining == n - i && fresh(records)
      invariant whole == After(records.Contents(), ParseRecords(env, reader.rest, n - i))
    {
      ghost var done := records.Contents();
      var x :- ReadRecord(env, reader);
      records.Push(x);
      assert forall xs: seq<Record> :: done + ([x] + xs) == done + [x] + xs;
    }
    assert records.Contents() + [] == records.Contents();
    var out := records.IntoVec();
    return Ok(out);
  }

  method ReadPayload(env: Env, reader: Reader, isControl: bool, n: nat) returns (r: Result<Payload, ReadError>)
    modifies reader
    ensures Agrees(ParsePayload(env, old(reader.rest), isControl, n), r, reader.rest)
  {
    hide ParseInt, ParseRecords;
    if isControl {
      if n != 1 {
        return Err(Malformed);
      }
      var version :- reader.ReadInt(2);
      if version != 0 {
        return Err(Malformed);
      }
      var kind :- reader.ReadInt(2);
      if kind == 0 {
        return Ok(ControlBatch(Abort));
      } else if kind == 1 {
        return Ok(ControlBatch(Commit));
      } else {
        return Err(Malformed);
      }
    } else {
      var records :- ReadRecords(env, reader, n);
      return Ok(Records(records));
    }
  }

  method ReadFields(reader: Reader) returns (r: Result<Fields, ReadError>)
    modifies reader
    ensures Agrees(ParseFields(old(reader.rest)), r, reader.rest)
  {
    hide ParseInt, CompressionOf;
    var attributes :- reader.ReadInt(2);
    if CompressionOf(attributes).None? {
      return Err(Malformed);
    }
    var lastOffsetDelta :- reader.ReadInt(4);
    var firstTimestamp :- reader.ReadInt(8);
    var maxTimestamp :- reader.ReadInt(8);
    var producerId :- reader.ReadInt(8);
    var producerEpoch :- reader.ReadInt(2);
    var baseSequence :- reader.ReadInt(4);
    var count :- reader.ReadInt(4);
    return Ok(Fields(attributes, lastOffsetDelta, firstTimestamp, maxTimestamp,
                     producerId, producerEpoch, baseSequence, count));
  }

  method ReadBody(env: Env, reader: Reader, baseOffset: int64, epoch: int32) returns (r: Result<RecordBatch, ReadError>)
    modifies reader
    ensures Agrees(ParseBody(env, old(reader.rest), baseOffset, epoch), r, reader.rest)
  {
    hide ParseFields, ParsePayload, CompressionOf, Bit;
    var f :- ReadFields(reader);
    if f.count < -1 {
      return Err(Overflow);
    }
    if CompressionOf(f.attributes) != Some(NoCompression) {
      return Err(Malformed);
    }
    var payload :- ReadPayload(env, reader, Bit(f.attributes, 32), if f.count == -1 then 0 else f.count);
    return Ok(Assemble(baseOffset, epoch, f, NoCompression, payload));
  }

  method ReadBatch(env: Env, reader: Reader) returns (r: Result<RecordBatch, ReadError>)
    modifies reader
    ensures Agrees(ParseBatch(env, old(reader.rest)), r, reader.rest)
  {
    hide ParseInt, ParseBody;
    var baseOffset :- reader.ReadInt(8);
    var n :- reader.ReadInt(4);
    if n < HEADER_REST {
      return Err(Malformed);
    }
    var epoch :- reader.ReadInt(4);
    var magic :- reader.ReadInt(1);
    if magic != MAGIC {
      return Err(Malformed);
    }
    var crc :- reader.ReadInt(4);
    var data :- ReadBytes(reader, n - HEADER_REST);
    if AsU32(crc) != env.crc(data) {
      return Err(Malformed);
    }
    var body := new Reader(data);
    var batch :- ReadBody(env, body, baseOffset, epoch);
    if body.rest != [] {
      return Err(Malformed);
    }
    return Ok(batch);
  }

  /** The loop over batches: the end of input inside a batch ends the list, other errors propagate. */
  method ReadRecordSet(env: Env, reader: Reader) returns (r: Result<seq<RecordBatch>, ReadError>)
    modifies reader
    ensures Agrees(ParseRecordSet(env, old(reader.rest)), r, reader.rest)
  {
    hide ParseBatch, ParseInt;
    var n :- reader.ReadInt(4);
    var data: seq<byte> := [];
    if n != -1 {
      data :- ReadBytes(reader, n);
    }
    var buf := new Reader(data);
    r := ReadBatches(env, buf);
  }

  method ReadBatches(env: Env, buf: Reader) returns (r: Result<seq<RecordBatch>, ReadError>)
    modifies buf
    ensures r == ParseBatches(env, old(buf.rest))
  {
    hide ParseBatch;
    ghost var whole := ParseBatches(env, buf.rest);
    var batches := [];
    assert whole.Ok? ==> [] + whole.value == whole.value;
    while buf.rest != []
      invariant match ParseBatches(env, buf.rest)
        case Ok(bs) => whole == Ok(batches + bs)
        case Err(e) => whole == Err(e)
      decreases |buf.rest|
    {
      var b := ReadBatch(env, buf);
      match b {
        case Err(UnexpectedEof) => break;
        case Err(e) => return Err(e);
        case Ok(batch) =>
          assert forall bs: seq<RecordBatch> :: batches + ([batch] + bs) == batches + [batch] + bs;
          batches := batches + [batch];
      }
    }
    assert batches + [] == batches;
    return Ok(batches);
  }

  // ---------------------------------------------------------------- writing

  /** A byte sink that only grows. */
  class Writer {
    var buf: seq<byte>

    constructor ()
      ensures buf == []
    {
      buf := [];
    }

    method WriteAll(s: seq<byte>)
      modifies this
      ensures buf == old(buf) + s
    {
      buf := buf + s;
    }

    /** `WriteAll`, keeping track of the bytes `t` that are still to follow. */
    method WriteField(s: seq<byte>, ghost t: seq<byte>)
      modifies this
      ensures buf == old(buf) + s
      ensures buf + t == old(buf) + (s + t)
    {
      WriteAll(s);
    }

    /** The loop that emits seven bits at a time; setting bit 8 adds 128. */
    method WriteUnsigned(x: nat)
      modifies this
      ensures buf == old(buf) + EncodeUnsigned(x)
    {
      var curr := x;
      ghost var start := buf;
      while true
        invariant buf + EncodeUnsigned(curr) == start + EncodeUnsigned(x)
        decreases curr
      {
        var c := curr % 128;
        ghost var left := EncodeUnsigned(curr);
        curr := curr / 128;
        if curr > 0 {
          c := c + 128;
        }
        assert left == if curr > 0 then [c] + EncodeUnsigned(curr) else [c];
        assert curr > 0 ==> buf + ([c] + EncodeUnsigned(curr)) == buf + [c] + EncodeUnsigned(curr);
        WriteAll([c]);
        if curr == 0 {
          break;
        }
      }
    }

    method WriteVarlong(x: int64)
      modifies this
      ensures buf == old(buf) + EncodeVarlong(x)
    {
      WriteUnsigned(ZigZag(x));
    }
  }

  /** A writer's answer and output are what encoder outcome `w` says. */
  predicate Appends(w: Written, r: Result<(), WriteError>, before: seq<byte>, after: seq<byte>) {
    match w
    case Ok(s) => r == Ok(()) && after == before + s
    case Err(e) => r == Err(e)
  }

  method PutCount(writer: Writer, n: nat) returns (r: Result<(), WriteError>)
    modifies writer
    ensures Appends(WriteCount(n), r, old(writer.buf), writer.buf)
  {
    if n > I32_MAX {
      return Err(TooLong);
    }
    writer.WriteVarlong(n);
    return Ok(());
  }

  method PutBlob(writer: Writer, s: seq<byte>) returns (r: Result<(), WriteError>)
    modifies writer
    ensures Appends(WriteBlob(s), r, old(writer.buf), writer.buf)
  {
    var _ :- PutCount(writer, |s|);
    writer.WriteAll(s);
    assert old(writer.buf) + EncodeVarlong(|s|) + s == old(writer.buf) + (EncodeVarlong(|s|) + s);
    return Ok(());
  }

  method PutNullable(writer: Writer, o: Option<seq<byte>>) returns (r: Result<(), WriteError>)
    modifies writer
    ensures Appends(WriteNullable(o), r, old(writer.buf), writer.buf)
  {
    match o
    case Some(s) => r := PutBlob(writer, s);
    case None =>
      writer.WriteVarlong(-1);
      return Ok(());
  }

  method PutHeader(writer: Writer, h: Header) returns (r: Result<(), WriteError>)
    modifies writer
    ensures Appends(WriteHeader(h), r, old(writer.buf), writer.buf)
  {
    hide WriteBlob;
    var _ :- PutBlob(writer, h.key);
    var _ :- PutBlob(writer, h.value);
    ghost var k, v := WriteBlob(h.key).value, WriteBlob(h.value).value;
    assert old(writer.buf) + k + v == old(writer.buf) + (k + v);
    return Ok(());
  }

  method PutHeaders(writer: Writer, hs: seq<Header>) returns (r: Result<(), WriteError>)
    modifies writer
    ensures Appends(WriteHeaders(hs), r, old(writer.buf), writer.buf)
  {
    hide WriteHeader;
    ghost var whole, start := WriteHeaders(hs), writer.buf;
    assert hs[0..] == hs;
    for i := 0 to |hs|
      invariant match WriteHeaders(hs[i..])
        case Ok(t) => whole.Ok? && writer.buf + t == start + whole.value
        case Err(e) => whole == Err(e)
    {
      ghost var before := writer.buf;
      assert hs[i..][1..] == hs[i + 1..];
      var _ :- PutHeader(writer, hs[i]);
      assert forall t: seq<byte> :: before + (WriteHeader(hs[i]).value + t) == writer.buf + t;
    }
    assert writer.buf + [] == writer.buf;
    return Ok(());
  }

  /** Buffers the fields so that their length can be written first. */
  method PutRecord(writer: Writer, rec: Record) returns (r: Result<(), WriteError>)
    modifies writer
    ensures Appends(WriteRecord(rec), r, old(writer.buf), writer.buf)
  {
    hide WriteNullable, WriteHeaders, WriteBlob, WriteCount, EncodeVarlong, EncodeInt;
    var data := new Writer();
    data.WriteAll(EncodeInt(0, 1));
    data.WriteVarlong(rec.timestampDelta);
    data.WriteVarlong(rec.offsetDelta);
    var _ :- PutNullable(data, rec.key);
    var _ :- PutNullable(data, rec.value);
    var _ :- PutCount(data, |rec.headers|);
    var _ :- PutHeaders(data, rec.headers);
    assert data.buf == WriteRecordBody(rec).value;
    r := PutBlob(writer, data.buf);
  }

  method PutRecords(writer: Writer, rs: seq<Record>) returns (r: Result<(), WriteError>)
    modifies writer
    ensures Appends(WriteRecords(rs), r, old(writer.buf), writer.buf)
  {
    hide WriteRecord;
    ghost var whole, start := WriteRecords(rs), writer.buf;
    assert rs[0..] == rs;
    for i := 0 to |rs|
      invariant match WriteRecords(rs[i..])
        case Ok(t) => whole.Ok? && writer.buf + t == start + whole.value
        case Err(e) => whole == Err(e)
    {
      ghost var before := writer.buf;
      assert rs[i..][1..] == rs[i + 1..];
      var _ :- PutRecord(writer, rs[i]);
      assert forall t: seq<byte> :: before + (WriteRecord(rs[i]).value + t) == writer.buf + t;
    }
    assert writer.buf + [] == writer.buf;
    return Ok(());
  }

  method PutPayload(writer: Writer, p: Payload) returns (r: Result<(), WriteError>)
    modifies writer
    ensures Appends(WritePayload(p), r, old(writer.buf), writer.buf)
  {
    hide WriteRecords, EncodeInt;
    match p
    case ControlBatch(c) =>
      writer.WriteAll(EncodeInt(0, 2));
      writer.WriteAll(EncodeInt(if c.Abort? then 0 else 1, 2));
      return Ok(());
    case Records(rs) =>
      r := PutRecords(writer, rs);
  }

  /** The fields before the payload; `tail` is what follows them. The count is checked when its turn comes. */
  method PutFields(writer: Writer, b: RecordBatch, attributes: int16, ghost tail: seq<byte>)
    returns (r: Result<(), WriteError>)
    requires attributes == Attributes(b)
    modifies writer
    ensures r.Ok? <==> PayloadCount(b.payload) <= I32_MAX
    ensures r.Err? ==> r.error == CountOverflow
    ensures r.Ok? ==> writer.buf + tail == old(writer.buf) + WriteFields(FieldsOf(b), tail)
  {
    hide EncodeInt, Attributes;
    ghost var s7 := EncodeInt(Min(PayloadCount(b.payload), I32_MAX), 4) + tail;
    ghost var s6 := EncodeInt(b.baseSequence, 4) + s7;
    ghost var s5 := EncodeInt(b.producerEpoch, 2) + s6;
    ghost var s4 := EncodeInt(b.producerId, 8) + s5;
    ghost var s3 := EncodeInt(b.maxTimestamp, 8) + s4;
    ghost var s2 := EncodeInt(b.firstTimestamp, 8) + s3;
    ghost var s1 := EncodeInt(b.lastOffsetDelta, 4) + s2;
    writer.WriteField(EncodeInt(attributes, 2), s1);
    writer.WriteField(EncodeInt(b.lastOffsetDelta, 4), s2);
    writer.WriteField(EncodeInt(b.firstTimestamp, 8), s3);
    writer.WriteField(EncodeInt(b.maxTimestamp, 8), s4);
    writer.WriteField(EncodeInt(b.producerId, 8), s5);
    writer.WriteField(EncodeInt(b.producerEpoch, 2), s6);
    writer.WriteField(EncodeInt(b.baseSequence, 4), s7);
    var n := PayloadCount(b.payload);
    if n > I32_MAX {
      return Err(CountOverflow);
    }
    writer.WriteField(EncodeInt(n, 4), tail);
    return Ok(());
  }

  /** The attribute word is assembled by setting one bit after the other. */
  method PutBody(writer: Writer, b: RecordBatch) returns (r: Result<(), WriteError>)
    modifies writer
    ensures Appends(WriteBody(b), r, old(writer.buf), writer.buf)
  {
    hide WritePayload, WriteFields;
    var attributes: int16 := CompressionCode(b.compression);
    if b.timestampType.LogAppendTime? {
      attributes := attributes + 8;
    }
    if b.isTransactional {
      attributes := attributes + 16;
    }
    if b.payload.ControlBatch? {
      attributes := attributes + 32;
    }
    ghost var payload := WritePayload(b.payload);
    var _ :- PutFields(writer, b, attributes, if payload.Ok? then payload.value else []);
    if b.compression != NoCompression {
      return Err(Unimplemented);
    }
    r := PutPayload(writer, b.payload);
  }

  method PutBatch(env: Env, writer: Writer, b: RecordBatch) returns (r: Result<(), WriteError>)
    modifies writer
    ensures Appends(WriteBatch(env, b), r, old(writer.buf), writer.buf)
  {
    hide WriteBody, EncodeInt;
    ghost var start := writer.buf;
    var data := new Writer();
    var _ :- PutBody(data, b);
    assert data.buf == WriteBody(b).value;
    var n := |data.buf| + HEADER_REST;
    var crc := AsI32(env.crc(data.buf));
    ghost var s4 := EncodeInt(crc, 4) + data.buf;
    ghost var s3 := EncodeInt(MAGIC, 1) + s4;
    ghost var s2 := EncodeInt(b.partitionLeaderEpoch, 4) + s3;
    ghost var s1 := EncodeInt(Min(n, I32_MAX), 4) + s2;
    writer.WriteField(EncodeInt(b.baseOffset, 8), s1);
    if n > I32_MAX {
      return Err(TooLong);
    }
    writer.WriteField(EncodeInt(n, 4), s2);
    writer.WriteField(EncodeInt(b.partitionLeaderEpoch, 4), s3);
    writer.WriteField(EncodeInt(MAGIC, 1), s4);
    writer.WriteField(EncodeInt(crc, 4), data.buf);
    writer.WriteAll(data.buf);
    assert writer.buf == start + WriteBatch(env, b).value;
    return Ok(());
  }

  method PutBatches(env: Env, buf: Writer, bs: seq<RecordBatch>) returns (r: Result<(), WriteError>)
    modifies buf
    ensures Appends(WriteBatches(env, bs), r, old(buf.buf), buf.buf)
  {
    hide WriteBatch;
    ghost var whole, start := WriteBatches(env, bs), buf.buf;
    assert bs[0..] == bs;
    for i := 0 to |bs|
      invariant match WriteBatches(env, bs[i..])
        case Ok(t) => whole.Ok? && buf.buf + t == start + whole.value
        case Err(e) => whole == Err(e)
    {
      ghost var before := buf.buf;
      assert bs[i..][1..] == bs[i + 1..];
      var _ :- PutBatch(env, buf, bs[i]);
      assert forall t: seq<byte> :: before + (WriteBatch(env, bs[i]).value + t) == buf.buf + t;
    }
    assert buf.buf + [] == buf.buf;
    return Ok(());
  }

  method PutRecordSet(env: Env, writer: Writer, bs: seq<RecordBatch>) returns (r: Result<(), WriteError>)
    modifies writer
    ensures Appends(WriteRecordSet(env, bs), r, old(writer.buf), writer.buf)
  {
    hide WriteBatches, EncodeInt;
    var buf := new Writer();
    var _ :- PutBatches(env, buf, bs);
    assert [] + WriteBatches(env, bs).value == WriteBatches(env, bs).value;
    if |buf.buf| > I32_MAX {
      return Err(TooLong);
    }
    writer.WriteField(EncodeInt(|buf.buf|, 4), buf.buf);
    writer.WriteAll(buf.buf);
    return Ok(());
  }
}
