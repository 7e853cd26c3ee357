/** What reading makes of arbitrary bytes that are cut off or that run out inside a batch. */
module RecordCuts {
  import opened Bytes
  import opened Primitives
  import opened RecordFormat
  import opened RecordRoundTrip

  /** Bytes before the body: base offset, length, leader epoch, magic and checksum. */
  const BODY_START := 21

  /** The signed integer in `s[i..j]`. */
  function IntAt(s: seq<byte>, i: nat, j: nat): (x: int)
    requires i < j <= |s|
    ensures Fits(x, j - i)
  {
    DecodeInt(s[i..j])
  }

  /** The length of the first batch, by its own length field. */
  function Declared(s: seq<byte>): int
    requires |s| >= 12
  {
    12 + IntAt(s, 8, 12)
  }

  /** The first batch has arrived with all the bytes its length field declares. */
  predicate Whole(s: seq<byte>) {
    |s| >= 12 && BODY_START <= Declared(s) <= |s|
  }

  predicate MagicIsRight(s: seq<byte>)
    requires |s| >= 17
  {
    IntAt(s, 16, 17) == MAGIC
  }

  predicate ChecksumIsRight(env: Env, batch: seq<byte>)
    requires |batch| >= BODY_START
  {
    assert Pow256(2) == 0x1_0000 && Pow256(4) == 0x1_0000_0000;
    AsU32(IntAt(batch, 17, 21)) == env.crc(batch[BODY_START..])
  }

  function BodyOf(env: Env, batch: seq<byte>): Parse<RecordBatch>
    requires |batch| >= BODY_START
  {
    ParseBody(env, batch[BODY_START..], IntAt(batch, 0, 8), IntAt(batch, 12, 16))
  }

  /** The content of a whole batch. */
  function Open(env: Env, batch: seq<byte>): Result<RecordBatch, ReadError>
    requires |batch| >= BODY_START
  {
    if !ChecksumIsRight(env, batch) then Err(Malformed) else
    match BodyOf(env, batch)
    case Fail(e) => Err(e)
    case Done(b, left) => if left != [] then Err(Malformed) else Ok(b)
  }

  /** Reading a batch by byte positions. */
  function ReadAt(env: Env, s: seq<byte>): Parse<RecordBatch> {
    if |s| < 12 then Fail(UnexpectedEof)
    else if Declared(s) < BODY_START then Fail(Malformed)
    else if |s| < 17 then Fail(UnexpectedEof)
    else if !MagicIsRight(s) then Fail(Malformed)
    else if |s| < Declared(s) then Fail(UnexpectedEof)
    else
      match Open(env, s[..Declared(s)])
      case Err(e) => Fail(e)
      case Ok(b) => Done(b, s[Declared(s)..])
  }

  lemma ParseIsReadAt(env: Env, s: seq<byte>)
    ensures ParseBatch(env, s) == ReadAt(env, s)
  {
    hide DecodeInt, ParseBody;
    if |s| >= 12 {
      assert s[8..][..4] == s[8..12] && s[8..][4..] == s[12..];
      if Declared(s) >= BODY_START {
        SealedIsReadAt(env, s);
      }
    }
  }

  lemma SealedIsReadAt(env: Env, s: seq<byte>)
    requires |s| >= 12 && Declared(s) >= BODY_START
    ensures ParseSealed(env, s[12..], IntAt(s, 0, 8), Declared(s) - BODY_START) == ReadAt(env, s)
  {
    hide DecodeInt, ParseBody;
    var n := Declared(s);
    if |s| >= 17 {
      assert s[12..][..4] == s[12..16] && s[12..][4..] == s[16..];
      assert s[16..][..1] == s[16..17] && s[16..][1..] == s[17..];
      if |s| >= 21 {
        assert s[17..][..4] == s[17..21] && s[17..][4..] == s[21..];
        if |s| >= n {
          var batch := s[..n];
          assert batch[12..16] == s[12..16] && batch[17..21] == s[17..21] && batch[0..8] == s[0..8];
          assert s[21..][..n - 21] == batch[21..] && s[21..][n - 21..] == s[n..];
        }
      }
    } else if |s| >= 16 {
      assert s[12..][4..] == s[16..];
    }
  }

  /** A cut changes how a batch reads in one way only: it may meet the end of input. */
  lemma CutReadsAlike(env: Env, s: seq<byte>, cut: nat)
    requires cut <= |s|
    ensures match ParseBatch(env, s)
      case Done(b, rest) =>
        var used := |s| - |rest|;
        && 0 < used && rest == s[used..]
        && ParseBatch(env, s[..cut]) == if cut < used then Fail(UnexpectedEof) else Done(b, rest[..cut - used])
      case Fail(e) => ParseBatch(env, s[..cut]) == Fail(e) || ParseBatch(env, s[..cut]) == Fail(UnexpectedEof)
  {
    hide DecodeInt, Open, ParseBatch;
    ParseIsReadAt(env, s);
    ParseIsReadAt(env, s[..cut]);
    if cut >= 12 {
      assert s[..cut][8..12] == s[8..12];
      if cut >= 17 {
        assert s[..cut][16..17] == s[16..17];
        var n := Declared(s);
        if BODY_START <= n <= cut {
          assert s[..cut][..n] == s[..n] && s[..cut][n..] == s[n..][..cut - n];
        }
      }
    }
  }

  /** For arbitrary bytes, what is read from a prefix is a prefix of what is read from the whole, and a
      prefix fails with no other error than the whole. */
  lemma {:induction false} PrefixYieldsPrefix(env: Env, s: seq<byte>, cut: nat)
    requires cut <= |s|
    ensures match ParseBatches(env, s)
      case Ok(bs) => ParseBatches(env, s[..cut]).Ok? && ParseBatches(env, s[..cut]).value <= bs
      case Err(e) => ParseBatches(env, s[..cut]).Ok? || ParseBatches(env, s[..cut]) == Err(e)
    decreases |s|
  {
    hide ParseBatch;
    if s != [] {
      CutReadsAlike(env, s, cut);
      match ParseBatch(env, s)
      case Fail(_) =>
      case Done(b, rest) =>
        var used := |s| - |rest|;
        if cut >= used {
          PrefixYieldsPrefix(env, rest, cut - used);
        }
    }
  }

  // ---------------------------------------------------------------- batches that are lost

  /** The bytes at which reading stops: where a batch cannot be read, or the end. */
  function StopsAt(env: Env, s: seq<byte>): seq<byte>
    decreases |s|
  {
    if s == [] then [] else
    match ParseBatch(env, s)
    case Fail(_) => s
    case Done(_, rest) => StopsAt(env, rest)
  }

  /** A whole batch whose checksum is right but whose body ends before its records do. */
  predicate RunsOut(env: Env, s: seq<byte>) {
    && Whole(s) && MagicIsRight(s)
    && var batch := s[..Declared(s)];
    ChecksumIsRight(env, batch) && BodyOf(env, batch) == Fail(UnexpectedEof)
  }

  lemma {:induction false} StopMeans(env: Env, s: seq<byte>)
    ensures var stop := StopsAt(env, s);
      ParseBatches(env, s).Ok? <==> stop == [] || ParseBatch(env, stop) == Fail(UnexpectedEof)
    decreases |s|
  {
    hide ParseBatch;
    if s != [] {
      match ParseBatch(env, s)
      case Fail(_) =>
      case Done(_, rest) => StopMeans(env, rest);
    }
  }

  /** Reading that ends without an error has passed over a batch that arrived whole exactly when the bytes it
      stopped at are a batch with the right checksum whose body runs out: it is taken for a cut. */
  lemma WholeBatchLostIff(env: Env, s: seq<byte>)
    requires ParseBatches(env, s).Ok?
    ensures var stop := StopsAt(env, s);
      Whole(stop) <==> RunsOut(env, stop)
  {
    hide ParseBatch, ParseBatches, StopsAt, DecodeInt;
    StopMeans(env, s);
    var stop := StopsAt(env, s);
    ParseIsReadAt(env, stop);
  }

  /** A whole batch reads as no batch at all exactly when it runs out; otherwise it is read or reported. */
  lemma RunsOutIff(env: Env, s: seq<byte>)
    requires Whole(s)
    ensures ParseBatches(env, s) == Ok([]) <==> RunsOut(env, s)
  {
    hide ParseBatch, DecodeInt;
    ParseIsReadAt(env, s);
  }

  /** The bytes of a batch with body `data` and the right length and checksum. */
  function Seal(env: Env, baseOffset: int64, epoch: int32, data: seq<byte>): seq<byte>
    requires |data| + HEADER_REST <= I32_MAX
  {
    EncodeInt(baseOffset, 8) + (EncodeInt(|data| + HEADER_REST, 4) + (EncodeInt(epoch, 4) +
    (EncodeInt(MAGIC, 1) + (EncodeInt(AsI32(env.crc(data)), 4) + data))))
  }

  /** Such a batch exists for every checksum function, and everything after it is lost without an error: a body
      that announces records and holds none. */
  lemma ShortBodyLosesTheRest(env: Env, f: Fields, baseOffset: int64, epoch: int32, more: seq<byte>)
    requires CompressionOf(f.attributes) == Some(NoCompression) && !Bit(f.attributes, 32) && f.count > 0
    ensures var data := WriteFields(f, []);
      |data| == 40 && ParseBatches(env, Seal(env, baseOffset, epoch, data) + more) == Ok([])
  {
    hide EncodeInt, ParseInt, ParseBody, CompressionOf, Bit;
    var data := WriteFields(f, []);
    var crc, n := AsI32(env.crc(data)), |data| + HEADER_REST;
    var s4 := data + more;
    var s3 := EncodeInt(crc, 4) + s4;
    var s2 := EncodeInt(MAGIC, 1) + s3;
    var s1 := EncodeInt(epoch, 4) + s2;
    var s0 := EncodeInt(n, 4) + s1;
    assert Seal(env, baseOffset, epoch, data) + more == EncodeInt(baseOffset, 8) + s0;
    IntRoundTrip(baseOffset, 8, s0);
    IntRoundTrip(n, 4, s1);
    IntRoundTrip(epoch, 4, s2);
    IntRoundTrip(MAGIC, 1, s3);
    IntRoundTrip(crc, 4, s4);
    assert s4[..|data|] == data && s4[|data|..] == more;
    BodyRunsOut(env, f, baseOffset, epoch);
  }

  lemma BodyRunsOut(env: Env, f: Fields, baseOffset: int64, epoch: int32)
    requires CompressionOf(f.attributes) == Some(NoCompression) && !Bit(f.attributes, 32) && f.count > 0
    ensures ParseBody(env, WriteFields(f, []), baseOffset, epoch) == Fail(UnexpectedEof)
  {
    hide WriteFields, ParseFields, CompressionOf, Bit;
    FieldsRoundTrip(f, []);
    assert ParseRecord(env, []) == Fail(UnexpectedEof);
  }
}
