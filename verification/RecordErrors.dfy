/** The bytes of records, field by field, and what the readers reject. */
module RecordErrors {
  import opened Bytes
  import opened Primitives
  import opened RecordFormat
  import opened RecordRoundTrip

  // ---------------------------------------------------------------- lengths and keys

  /** A length-prefixed byte string: a negative length is malformed, one beyond the input is the end of input. */
  lemma BlobLength(n: int32, tail: seq<byte>)
    ensures ParseBlob(EncodeVarlong(n) + tail)
         == if n < 0 then Fail(Malformed) else if n > |tail| then Fail(UnexpectedEof) else Done(tail[..n], tail[n..])
  {
    VarintRoundTrip(n, tail);
  }

  /** The same for a byte string that may be null, which the length -1 says. */
  lemma NullableLength(n: int32, tail: seq<byte>)
    ensures ParseNullable(EncodeVarlong(n) + tail)
         == if n == -1 then Done(None, tail)
            else if n < 0 then Fail(Malformed)
            else if n > |tail| then Fail(UnexpectedEof)
            else Done(Some(tail[..n]), tail[n..])
  {
    VarintRoundTrip(n, tail);
  }

  /** A header key that is not valid UTF-8 is malformed. */
  lemma HeaderKeyMustBeText(env: Env, h: Header, tail: seq<byte>)
    requires WriteHeader(h).Ok?
    ensures ParseHeader(env, WriteHeader(h).value + tail) == if env.utf8(h.key) then Done(h, tail) else Fail(Malformed)
  {
    hide WriteBlob, ParseBlob;
    var k, v := WriteBlob(h.key).value, WriteBlob(h.value).value;
    assert k + v + tail == k + (v + tail);
    BlobRoundTrip(h.key, v + tail);
    BlobRoundTrip(h.value, tail);
  }

  lemma {:induction false} HeadersAreText(env: Env, s: seq<byte>, n: nat)
    ensures ParseHeaders(env, s, n).Done? ==> forall h | h in ParseHeaders(env, s, n).value :: env.utf8(h.key)
    decreases n
  {
    hide ParseHeader;
    if n > 0 && ParseHeader(env, s).Done? {
      HeaderIsText(env, s);
      HeadersAreText(env, ParseHeader(env, s).rest, n - 1);
    }
  }

  lemma HeaderIsText(env: Env, s: seq<byte>)
    ensures ParseHeader(env, s).Done? ==> env.utf8(ParseHeader(env, s).value.key)
  {
    hide ParseBlob;
  }

  lemma {:induction false} RecordsAreValid(env: Env, s: seq<byte>, n: nat)
    ensures ParseRecords(env, s, n).Done? ==> forall r | r in ParseRecords(env, s, n).value :: ValidRecord(env, r)
    decreases n
  {
    hide ValidRecord, ParseRecord;
    if n > 0 && ParseRecord(env, s).Done? {
      RecordIsValid(env, s);
      RecordsAreValid(env, ParseRecord(env, s).rest, n - 1);
    }
  }

  lemma RecordIsValid(env: Env, s: seq<byte>)
    ensures ParseRecord(env, s).Done? ==> ValidRecord(env, ParseRecord(env, s).value)
  {
    hide ParseRecordBody, ValidRecord, ParseVarint;
    if ParseRecord(env, s).Done? {
      var t := ParseVarint(s).rest;
      BodyIsValid(env, t[..Min(ParseVarint(s).value, |t|)]);
    }
  }

  lemma BodyIsValid(env: Env, b: seq<byte>)
    ensures ParseRecordBody(env, b).Done? ==> ValidRecord(env, ParseRecordBody(env, b).value)
  {
    hide ParseInt, ParseVarlong, ParseVarint, ParseNullable, ParseHeaders;
    if ParseRecordBody(env, b).Done? {
      var b1 := ParseInt(b, 1).rest;
      var b3 := ParseVarint(ParseVarlong(b1).rest).rest;
      var b5 := ParseNullable(ParseNullable(b3).rest).rest;
      HeadersAreText(env, ParseVarint(b5).rest, ParseVarint(b5).value);
    }
  }

  /** Whatever bytes arrive, a batch that is read at all can only hold text keys, as the type of a key says. */
  lemma ReadBatchIsValid(env: Env, s: seq<byte>)
    ensures ParseBatch(env, s).Done? ==> ValidBatch(env, ParseBatch(env, s).value)
  {
    hide ParseInt, ParseBody, ValidBatch;
    if ParseBatch(env, s).Done? {
      var s2 := ParseInt(ParseInt(s, 8).rest, 4).rest;
      var n := ParseInt(ParseInt(s, 8).rest, 4).value;
      var s3 := ParseInt(ParseInt(ParseInt(s2, 4).rest, 1).rest, 4).rest;
      BatchBodyIsValid(env, s3[..n - HEADER_REST], ParseInt(s, 8).value, ParseInt(s2, 4).value);
    }
  }

  lemma BatchBodyIsValid(env: Env, data: seq<byte>, baseOffset: int64, epoch: int32)
    ensures ParseBody(env, data, baseOffset, epoch).Done? ==>
      ValidBatch(env, ParseBody(env, data, baseOffset, epoch).value)
  {
    hide ParseFields, ParseRecords, CompressionOf, Bit, ValidRecord;
    if ParseBody(env, data, baseOffset, epoch).Done? && !Bit(ParseFields(data).value.attributes, 32) {
      var count := ParseFields(data).value.count;
      RecordsAreValid(env, ParseFields(data).rest, if count == -1 then 0 else count);
    }
  }

  // ---------------------------------------------------------------- records

  /** Everything of a record body before its header count; the attribute byte is free. */
  function UpToHeaders(r: Record, attributes: int): Written
    requires Fits(attributes, 1)
  {
    var key :- WriteNullable(r.key);
    var value :- WriteNullable(r.value);
    Ok(EncodeInt(attributes, 1) + (EncodeVarlong(r.timestampDelta) + (EncodeVarlong(r.offsetDelta) + (key + value))))
  }

  /** Reading a record body: any attribute byte will do, a negative header count is malformed, and an error in a
      header is the record's. */
  lemma BodyReads(env: Env, r: Record, attributes: int, n: int32, tail: seq<byte>)
    requires Fits(attributes, 1) && UpToHeaders(r, attributes).Ok?
    ensures ParseRecordBody(env, UpToHeaders(r, attributes).value + (EncodeVarlong(n) + tail))
         == if n < 0 then Fail(Malformed) else
            match ParseHeaders(env, tail, n)
            case Fail(e) => Fail(e)
            case Done(hs, rest) => Done(r.(headers := hs), rest)
  {
    hide EncodeInt, ParseInt, EncodeVarlong, ParseVarlong, ParseVarint, WriteNullable, ParseNullable, ParseHeaders;
    var key, value := WriteNullable(r.key).value, WriteNullable(r.value).value;
    var b5 := EncodeVarlong(n) + tail;
    var b4 := value + b5;
    var b3 := key + b4;
    var b2 := EncodeVarlong(r.offsetDelta) + b3;
    var b1 := EncodeVarlong(r.timestampDelta) + b2;
    assert UpToHeaders(r, attributes).value + b5 == EncodeInt(attributes, 1) + b1;
    IntRoundTrip(attributes, 1, b1);
    VarlongRoundTrip(r.timestampDelta, b2);
    VarintRoundTrip(r.offsetDelta, b3);
    NullableRoundTrip(r.key, b4);
    NullableRoundTrip(r.value, b5);
    VarintRoundTrip(n, tail);
  }

  /** A record is its length, a zero attribute byte, both deltas, key, value, header count and headers. */
  lemma RecordLayout(r: Record)
    requires WriteRecord(r).Ok?
    ensures WriteNullable(r.key).Ok? && WriteNullable(r.value).Ok? && WriteHeaders(r.headers).Ok?
    ensures var body := [0] + EncodeVarlong(r.timestampDelta) + EncodeVarlong(r.offsetDelta)
                        + WriteNullable(r.key).value + WriteNullable(r.value).value
                        + EncodeVarlong(|r.headers|) + WriteHeaders(r.headers).value;
      WriteRecord(r).value == EncodeVarlong(|body|) + body
  {
    hide EncodeVarlong, WriteNullable, WriteHeaders;
    ZeroAndMinusOne(1, 0);
    assert EncodeInt(0, 1) == [0];
    hide EncodeInt;
    var key, value, hs := WriteNullable(r.key).value, WriteNullable(r.value).value, WriteHeaders(r.headers).value;
    var body := [0] + EncodeVarlong(r.timestampDelta) + EncodeVarlong(r.offsetDelta) + key + value
                + EncodeVarlong(|r.headers|) + hs;
    assert WriteRecordBody(r).value == body;
  }

  /** Null is the byte of -1; a value is its length and its bytes. */
  lemma NullableLayout(o: Option<seq<byte>>)
    requires WriteNullable(o).Ok?
    ensures WriteNullable(o).value == if o.None? then [1] else EncodeVarlong(|o.value|) + o.value
  {
    VarintBytes(0, 1);
  }

  /** Headers follow each other, each as key and value with their lengths. */
  lemma HeadersLayout(hs: seq<Header>, h: Header)
    requires WriteHeaders([h] + hs).Ok?
    ensures WriteHeaders(hs).Ok? && WriteHeaders([]) == Ok([])
    ensures WriteHeaders([h] + hs).value
         == EncodeVarlong(|h.key|) + h.key + EncodeVarlong(|h.value|) + h.value + WriteHeaders(hs).value
  {
    hide EncodeVarlong;
    assert ([h] + hs)[1..] == hs;
    var k, v := EncodeVarlong(|h.key|) + h.key, EncodeVarlong(|h.value|) + h.value;
    assert k + v == EncodeVarlong(|h.key|) + h.key + EncodeVarlong(|h.value|) + h.value;
  }

  /** A record must use up its length: bytes that its fields leave over are malformed, whether they have arrived
      or not, and so is a negative length. */
  lemma RecordMustUseItsLength(env: Env, r: Record, pad: seq<byte>, missing: nat, tail: seq<byte>)
    requires ValidRecord(env, r) && WriteRecordBody(r).Ok?
    requires missing > 0 ==> tail == []
    requires |WriteRecordBody(r).value| + |pad| + missing <= I32_MAX
    ensures var body := WriteRecordBody(r).value;
      ParseRecord(env, EncodeVarlong(|body| + |pad| + missing) + (body + pad + tail))
      == if pad == [] && missing == 0 then Done(r, tail) else Fail(Malformed)
  {
    hide EncodeVarlong, ParseRecord, ParseRecordBody, WriteRecordBody, ValidRecord;
    BodyThen(env, r, pad);
    LengthCounts(env, r, WriteRecordBody(r).value, pad, missing, tail);
  }

  lemma LengthCounts(env: Env, r: Record, body: seq<byte>, pad: seq<byte>, missing: nat, tail: seq<byte>)
    requires missing > 0 ==> tail == []
    requires |body| + |pad| + missing <= I32_MAX
    ensures ParseRecordBody(env, body + pad) == Done(r, pad) ==>
      ParseRecord(env, EncodeVarlong(|body| + |pad| + missing) + (body + pad + tail))
      == if pad == [] && missing == 0 then Done(r, tail) else Fail(Malformed)
  {
    hide EncodeVarlong, ParseRecord, ParseRecordBody;
    var n, t := |body| + |pad| + missing, body + pad + tail;
    LimitedRead(env, n, t);
    assert t[..Min(n, |t|)] == body + pad;
    if pad == [] {
      assert t[|body|..] == tail;
    }
  }

  /** A record reads no further than its length, and must get there. */
  lemma LimitedRead(env: Env, n: int32, t: seq<byte>)
    requires n >= 0
    ensures var limit := Min(n, |t|);
      ParseRecord(env, EncodeVarlong(n) + t)
      == match ParseRecordBody(env, t[..limit])
         case Fail(e) => Fail(e)
         case Done(r, left) => if limit - |left| == n then Done(r, t[n..]) else Fail(Malformed)
  {
    hide EncodeVarlong, ParseVarint, ParseRecordBody;
    VarintRoundTrip(n, t);
  }

  /** A negative record length is malformed, and a record of no bytes meets the end of input. */
  lemma BadRecordLength(env: Env, n: int32, tail: seq<byte>)
    requires n <= 0
    ensures ParseRecord(env, EncodeVarlong(n) + tail) == Fail(if n < 0 then Malformed else UnexpectedEof)
  {
    hide EncodeVarlong, ParseVarint, ParseHeaders;
    VarintRoundTrip(n, tail);
    assert tail[..0] == [];
  }

  lemma BodyThen(env: Env, r: Record, tail: seq<byte>)
    requires ValidRecord(env, r) && WriteRecordBody(r).Ok?
    ensures ParseRecordBody(env, WriteRecordBody(r).value + tail) == Done(r, tail)
  {
    hide EncodeInt, EncodeVarlong, WriteNullable, WriteHeaders, ParseRecordBody, ParseHeaders;
    var n, hs := EncodeVarlong(|r.headers|), WriteHeaders(r.headers).value;
    var before := UpToHeaders(r, 0).value;
    assert WriteRecordBody(r).value == before + (n + hs);
    assert before + (n + hs) + tail == before + (n + (hs + tail));
    BodyReads(env, r, 0, |r.headers|, hs + tail);
    HeadersRoundTrip(env, r.headers, tail);
  }

  // ---------------------------------------------------------------- control records, attributes, bodies

  /** An abort marker is four zero bytes, and a commit marker ends in a one. */
  lemma ControlLayout()
    ensures WriteControl(Abort) == [0, 0, 0, 0] && WriteControl(Commit) == [0, 0, 0, 1]
  {
    assert BigEndian(0, 1) == [0] && BigEndian(0, 2) == [0, 0] && BigEndian(1, 2) == [0, 1];
  }

  /** A control record of another version or of an unknown type is malformed. */
  lemma ControlReads(version: int16, kind: int16, tail: seq<byte>)
    ensures ParseControl(EncodeInt(version, 2) + (EncodeInt(kind, 2) + tail))
         == if version != 0 then Fail(Malformed)
            else if kind == 0 then Done(Abort, tail)
            else if kind == 1 then Done(Commit, tail)
            else Fail(Malformed)
  {
    hide EncodeInt, ParseInt;
    IntRoundTrip(version, 2, EncodeInt(kind, 2) + tail);
    IntRoundTrip(kind, 2, tail);
  }

  /** The documented numbers of the compression codecs, and the documented bits of the attribute word. */
  lemma AttributeBits(b: RecordBatch)
    ensures Attributes(b) % 8
         == match b.compression
            case NoCompression => 0
            case Gzip => 1
            case Snappy => 2
            case Lz4 => 3
            case Zstd => 4
    ensures (Attributes(b) / 8) % 2 == if b.timestampType == LogAppendTime then 1 else 0
    ensures (Attributes(b) / 16) % 2 == if b.isTransactional then 1 else 0
    ensures Attributes(b) / 32 == if b.payload.ControlBatch? then 1 else 0
  {
  }

  /** A batch that names an unknown codec is malformed, whatever else it says. */
  lemma UnknownCompression(env: Env, attributes: int16, tail: seq<byte>, baseOffset: int64, epoch: int32)
    requires attributes % 8 > 4
    ensures ParseBody(env, EncodeInt(attributes, 2) + tail, baseOffset, epoch) == Fail(Malformed)
  {
    hide ParseFields, EncodeInt;
    NoSuchCodec(attributes, tail);
  }

  lemma NoSuchCodec(attributes: int16, tail: seq<byte>)
    requires attributes % 8 > 4
    ensures ParseFields(EncodeInt(attributes, 2) + tail) == Fail(Malformed)
  {
    hide EncodeInt, ParseInt;
    IntRoundTrip(attributes, 2, tail);
    assert CompressionOf(attributes).None?;
  }

  /** Reading a body with a known codec: a count below -1 is an overflow, -1 means none, a codec this build lacks is
      malformed, a control batch holds exactly one control record, and the fields end up in the batch. */
  lemma BodyOutcome(env: Env, f: Fields, payload: seq<byte>, baseOffset: int64, epoch: int32)
    requires f.attributes % 8 <= 4
    ensures ParseBody(env, WriteFields(f, payload), baseOffset, epoch)
         == var count := if f.count == -1 then 0 else f.count;
            if count < 0 then Fail(Overflow)
            else if f.attributes % 8 != 0 then Fail(Malformed)
            else if (f.attributes / 32) % 2 == 1 && count != 1 then Fail(Malformed)
            else if (f.attributes / 32) % 2 == 1 then
              match ParseControl(payload)
              case Fail(e) => Fail(e)
              case Done(c, rest) => Done(BatchOf(f, baseOffset, epoch, ControlBatch(c)), rest)
            else
              match ParseRecords(env, payload, count)
              case Fail(e) => Fail(e)
              case Done(rs, rest) => Done(BatchOf(f, baseOffset, epoch, Records(rs)), rest)
  {
    hide WriteFields, ParseFields, ParseControl, ParseRecords;
    FieldsRoundTrip(f, payload);
  }

  /** The uncompressed batch that the fields describe. */
  function BatchOf(f: Fields, baseOffset: int64, epoch: int32, payload: Payload): RecordBatch {
    RecordBatch(baseOffset, epoch, f.lastOffsetDelta, f.firstTimestamp, f.maxTimestamp, f.producerId, f.producerEpoch,
                f.baseSequence, payload, NoCompression, (f.attributes / 16) % 2 == 1,
                if (f.attributes / 8) % 2 == 1 then LogAppendTime else CreateTime)
  }

  // ---------------------------------------------------------------- null record sets

  /** A null record set holds no batches, a length below -1 is malformed, and one beyond the input is the end. */
  lemma RecordSetLength(env: Env, n: int32, tail: seq<byte>)
    requires n < 0 || n > |tail|
    ensures ParseRecordSet(env, EncodeInt(n, 4) + tail)
         == if n == -1 then Done([], tail) else if n < 0 then Fail(Malformed) else Fail(UnexpectedEof)
  {
    hide EncodeInt, ParseInt;
    IntRoundTrip(n, 4, tail);
  }

  lemma NullRecordSet(env: Env, tail: seq<byte>)
    ensures WriteNullableBytes(None).Ok?
    ensures ParseRecordSet(env, WriteNullableBytes(None).value + tail) == Done([], tail)
  {
    hide EncodeInt;
    RecordSetLength(env, -1, tail);
  }

  // ---------------------------------------------------------------- when writing succeeds

  predicate BlobFits(s: seq<byte>) {
    |s| <= 0x7fff_ffff
  }

  /** Every length and count of the record fits 32 bits. */
  predicate PartsFit(r: Record) {
    && (r.key.Some? ==> BlobFits(r.key.value))
    && (r.value.Some? ==> BlobFits(r.value.value))
    && |r.headers| <= 0x7fff_ffff
    && forall h | h in r.headers :: BlobFits(h.key) && BlobFits(h.value)
  }

  lemma {:induction false} HeadersWrittenIff(hs: seq<Header>)
    ensures WriteHeaders(hs).Ok? <==> forall h | h in hs :: BlobFits(h.key) && BlobFits(h.value)
    ensures WriteHeaders(hs).Err? ==> WriteHeaders(hs).error == TooLong
  {
    hide EncodeVarlong;
    if hs != [] {
      HeadersWrittenIff(hs[1..]);
      assert hs == [hs[0]] + hs[1..];
    }
  }

  /** A record can be written exactly if its parts and its body fit; otherwise it is too long. */
  lemma RecordWrittenIff(r: Record)
    ensures WriteRecordBody(r).Ok? <==> PartsFit(r)
    ensures WriteRecord(r).Ok? <==> PartsFit(r) && BlobFits(WriteRecordBody(r).value)
    ensures WriteRecord(r).Err? ==> WriteRecord(r).error == TooLong
  {
    hide EncodeVarlong, EncodeInt, WriteHeaders;
    HeadersWrittenIff(r.headers);
  }

  lemma {:induction false} RecordsWrittenIff(rs: seq<Record>)
    ensures WriteRecords(rs).Ok? <==> forall r | r in rs :: WriteRecord(r).Ok?
    ensures WriteRecords(rs).Err? ==> WriteRecords(rs).error == TooLong
  {
    hide WriteRecord;
    if rs != [] {
      RecordsWrittenIff(rs[1..]);
      RecordWrittenIff(rs[0]);
      assert rs == [rs[0]] + rs[1..];
    }
  }

  /** A batch can be written exactly if it is uncompressed, its records can be written, and their number and the
      whole length fit 32 bits; each failure has its error. */
  lemma BatchWrittenIff(env: Env, b: RecordBatch)
    ensures WriteBatch(env, b).Ok? <==>
      && b.compression == NoCompression
      && (b.payload.Records? ==>
            |b.payload.records| <= 0x7fff_ffff && forall r | r in b.payload.records :: WriteRecord(r).Ok?)
      && WritePayload(b.payload).Ok? && |WritePayload(b.payload).value| + 49 <= 0x7fff_ffff
    ensures WriteBatch(env, b) == Err(CountOverflow) <==> b.payload.Records? && |b.payload.records| > 0x7fff_ffff
    ensures WriteBatch(env, b) == Err(Unimplemented) <==>
      !(b.payload.Records? && |b.payload.records| > 0x7fff_ffff) && b.compression != NoCompression
  {
    hide WriteRecords, WriteControl;
    if b.payload.Records? {
      RecordsWrittenIff(b.payload.records);
    }
    if WriteBody(b).Ok? {
      BodyLayout(b);
    }
  }
}
