/** Decompressing with growing output buffers, without believing the declared size at once.

    The raw decoder is foreign code. It is modelled element by element: how bytes split into elements is
    the parameter `tokens`, which does not depend on the output, and each element either extends the output
    or stops with the error the decoder reports. */
module Snappy {
  import opened Bytes
  import opened Primitives

  datatype Element =
    | Literal(data: seq<byte>, after: nat)      // `after` source bytes follow the literal
    | CutLiteral(len: nat, left: nat)           // the source ends inside the literal
    | Copy(offset: nat, len: nat)
    | Garbage

  datatype SnapError =
    | HeaderError
    | CopyWrite(len: nat, dstLen: int)
    | LiteralError(len: nat, dstLen: int, srcLen: nat)
    | HeaderMismatch(expected: nat, got: nat)
    | OffsetError
    | SourceError

  /** Copies byte by byte, so the copied range may overlap what it produces. */
  function CopyBytes(out: seq<byte>, offset: nat, len: nat): (r: seq<byte>)
    requires 0 < offset <= |out|
    ensures |r| == |out| + len
    decreases len
  {
    if len == 0 then out else CopyBytes(out + [out[|out| - offset]], offset, len - 1)
  }

  /** A copy repeats what was written `offset` bytes before, including what it has just written. */
  lemma {:induction false} CopyRepeats(out: seq<byte>, offset: nat, len: nat, i: nat)
    requires 0 < offset <= |out| && i < |out| + len
    ensures CopyBytes(out, offset, len)[i]
         == if i < |out| then out[i] else CopyBytes(out, offset, len)[i - offset]
    decreases len
  {
    if len > 0 {
      var next := out + [out[|out| - offset]];
      CopyRepeats(next, offset, len - 1, i);
      if i == |out| {
        CopyRepeats(next, offset, len - 1, i - offset);
      }
    }
  }

  /** One element into an output buffer of `cap` bytes. */
  function DecodeElement(e: Element, out: seq<byte>, cap: nat): (r: Result<seq<byte>, SnapError>)
    requires |out| <= cap
    ensures r.Ok? ==> |out| <= |r.value| <= cap
  {
    match e
    case Literal(data, after) =>
      if |out| + |data| > cap then Err(LiteralError(|data|, cap - |out|, |data| + after)) else Ok(out + data)
    case CutLiteral(len, left) => Err(if left < len then LiteralError(len, cap - |out|, left) else SourceError)
    case Copy(offset, len) =>
      if offset == 0 || |out| < offset then Err(OffsetError)
      else if |out| + len > cap then Err(CopyWrite(len, cap - |out|))
      else Ok(CopyBytes(out, offset, len))
    case Garbage => Err(SourceError)
  }

  function DecodeElements(es: seq<Element>, out: seq<byte>, cap: nat): (r: Result<seq<byte>, SnapError>)
    requires |out| <= cap
    ensures r.Ok? ==> |r.value| == cap
  {
    if es == [] then if |out| == cap then Ok(out) else Err(HeaderMismatch(cap, |out|))
    else
      var next :- DecodeElement(es[0], out, cap);
      DecodeElements(es[1..], next, cap)
  }

  /** What elements produce in a buffer without a limit, if they are all sound. */
  function Output(es: seq<Element>, out: seq<byte>): Option<seq<byte>> {
    if es == [] then Some(out) else
    match es[0]
    case Literal(data, _) => Output(es[1..], out + data)
    case Copy(offset, len) => if 0 < offset <= |out| then Output(es[1..], CopyBytes(out, offset, len)) else None
    case _ => None
  }

  lemma {:induction false} OutputGrows(es: seq<Element>, out: seq<byte>)
    requires Output(es, out).Some?
    ensures |out| <= |Output(es, out).value|
  {
    if es != [] {
      match es[0]
      case Literal(data, _) => OutputGrows(es[1..], out + data);
      case Copy(offset, len) => OutputGrows(es[1..], CopyBytes(out, offset, len));
    }
  }

  /** Decoding succeeds exactly if all elements are sound and produce as many bytes as the buffer has, and then the
      result is what they produce. */
  lemma {:induction false} DecodesIff(es: seq<Element>, out: seq<byte>, cap: nat, result: seq<byte>)
    requires |out| <= cap
    ensures DecodeElements(es, out, cap) == Ok(result) <==> Output(es, out) == Some(result) && |result| == cap
  {
    if es != [] {
      var next := DecodeElement(es[0], out, cap);
      if next.Ok? {
        DecodesIff(es[1..], next.value, cap, result);
      } else if Output(es, out) == Some(result) {
        match es[0]
        case Literal(data, _) => OutputGrows(es[1..], out + data);
        case Copy(offset, len) => OutputGrows(es[1..], CopyBytes(out, offset, len));
      }
    }
  }

  /** How many bytes the elements produce before the first that is not sound. */
  function Produced(es: seq<Element>, out: seq<byte>): nat {
    if es == [] then |out| else
    match es[0]
    case Literal(data, _) => Produced(es[1..], out + data)
    case Copy(offset, len) => if 0 < offset <= |out| then Produced(es[1..], CopyBytes(out, offset, len)) else |out|
    case _ => |out|
  }

  lemma {:induction false} ProducedGrows(es: seq<Element>, out: seq<byte>)
    ensures |out| <= Produced(es, out)
  {
    if es != [] {
      match es[0]
      case Literal(data, _) => ProducedGrows(es[1..], out + data);
      case Copy(offset, len) =>
        if 0 < offset <= |out| {
          ProducedGrows(es[1..], CopyBytes(out, offset, len));
        }
      case _ =>
    }
  }

  /** An error that looks like a buffer that is too small is one: there really is more data than fits. */
  lemma {:induction false} TooSmallMeansMore(es: seq<Element>, out: seq<byte>, cap: nat)
    requires |out| <= cap
    ensures var r := DecodeElements(es, out, cap); r.Err? && LooksTooSmall(r.error) ==> Produced(es, out) > cap
  {
    if es != [] {
      var next := DecodeElement(es[0], out, cap);
      if next.Ok? {
        TooSmallMeansMore(es[1..], next.value, cap);
      } else {
        match es[0]
        case Literal(data, _) => ProducedGrows(es[1..], out + data);
        case Copy(offset, len) =>
          if 0 < offset <= |out| {
            ProducedGrows(es[1..], CopyBytes(out, offset, len));
          }
        case _ =>
      }
    }
  }

  type Tokens = seq<byte> -> seq<Element>

  /** The declared size, which must fit 32 bits, and the payload after it. */
  function Header(input: seq<byte>): Result<(u32, seq<byte>), SnapError> {
    match ParseUnsigned(input)
    case Fail(_) => Err(HeaderError)
    case Done(n, rest) => if n > 0xffff_ffff then Err(HeaderError) else Ok((n, rest))
  }

  /** The declared size must fit 32 bits, and something must be there. */
  lemma HeaderReads(n: u64, payload: seq<byte>)
    ensures Header(EncodeUnsigned(n) + payload) == if n < 0x1_0000_0000 then Ok((n, payload)) else Err(HeaderError)
    ensures Header([]).Err?
  {
    hide EncodeUnsigned, ParseUnsigned;
    UnsignedRoundTrip(n, payload);
    UnsignedErrors([]);
  }

  /** The raw decoder given the whole declared size at once. */
  function Decompress(tokens: Tokens, input: seq<byte>): Result<seq<byte>, SnapError> {
    if input == [] then Err(HeaderError) else
    var (n, payload) :- Header(input);
    DecodeElements(tokens(payload), [], n)
  }

  /** Whether an error may come from an output buffer that is too small. */
  predicate LooksTooSmall(e: SnapError) {
    match e
    case CopyWrite(_, _) => true
    case LiteralError(len, dstLen, srcLen) => dstLen < len && srcLen >= len
    case HeaderMismatch(expected, got) => expected < got
    case _ => false
  }

  /** The caller only sees that the data is malformed. */
  function Visible(r: Result<seq<byte>, SnapError>): Result<seq<byte>, ReadError> {
    if r.Ok? then Ok(r.value) else Err(Malformed)
  }

  /** A smaller buffer that succeeds shows the size is wrong, and one that fails for another reason than its
      size shows the data is broken; both are failures with the full buffer. */
  lemma {:induction false} SmallerBuffer(es: seq<Element>, out: seq<byte>, cap: nat, full: nat)
    requires |out| <= cap <= full
    ensures var r := DecodeElements(es, out, cap);
      && (r.Ok? && cap < full ==> DecodeElements(es, out, full).Err?)
      && (r.Err? && !LooksTooSmall(r.error) ==> DecodeElements(es, out, full).Err?)
  {
    if es != [] {
      var next := DecodeElement(es[0], out, cap);
      if next.Ok? {
        assert DecodeElement(es[0], out, full) == next;
        SmallerBuffer(es[1..], next.value, cap, full);
      }
    }
  }

  /** The prefix is the shortest encoding of the declared size. */
  predicate Canonical(input: seq<byte>) {
    Header(input).Ok? ==> input == EncodeUnsigned(Header(input).value.0) + Header(input).value.1
  }

  /** The length of the shortest encoding of the declared size; the prefix is at least that long. */
  function EncodedSize(input: seq<byte>): (n: nat)
    requires Header(input).Ok?
    ensures n <= |input|
  {
    PrefixFits(input);
    |EncodeUnsigned(Header(input).value.0)|
  }

  /** The input with its prefix rewritten, which the loop feeds to the decoder. */
  function Rewritten(input: seq<byte>, size: nat): seq<byte>
    requires Header(input).Ok?
  {
    EncodeUnsigned(size) + input[EncodedSize(input)..]
  }

  lemma PrefixFits(input: seq<byte>)
    requires Header(input).Ok?
    ensures |EncodeUnsigned(Header(input).value.0)| <= |input|
  {
    hide EncodeUnsigned, GroupSum, Continuations, Pow128;
    var n, k := Header(input).value.0, Continuations(input);
    var g := input[..k + 1];
    if k < 9 {
      SmallGroups(g);
      assert n == GroupSum(g);
      UnsignedIsMinimal(n, g);
    } else {
      FiveGroupsHoldAU32(n);
    }
  }

  lemma SmallGroups(g: seq<byte>)
    requires |g| <= 9
    ensures GroupSum(g) < TWO_64
  {
    NineGroups();
    Pow128Monotone(|g|, 9);
  }

  lemma FiveGroupsHoldAU32(n: u32)
    ensures |EncodeUnsigned(n)| <= 5
  {
    TenGroupsHoldAU64();
    EncodedLength(n, 5);
  }

  lemma RewrittenDecodes(tokens: Tokens, input: seq<byte>, size: u32)
    requires Header(input).Ok?
    ensures Decompress(tokens, Rewritten(input, size))
         == DecodeElements(tokens(input[EncodedSize(input)..]), [], size)
  {
    hide EncodeUnsigned, ParseUnsigned, DecodeElements;
    UnsignedRoundTrip(size, input[EncodedSize(input)..]);
  }

  /** The loop: try with a small buffer, double it while the failure looks like a buffer that is too small. `peak` is
      the largest buffer: beyond the first one, less than twice what the data really holds. */
  method CarefullyDecompress(tokens: Tokens, input: seq<byte>, startSize: nat)
    returns (r: Result<seq<byte>, ReadError>, peak: nat)
    requires startSize > 0
    ensures peak > startSize ==> Header(input).Ok? && Produced(tokens(input[EncodedSize(input)..]), []) > peak / 2
    ensures Header(input).Err? ==> r == Err(Malformed)
    ensures Header(input).Ok? ==> r == Visible(Decompress(tokens, Rewritten(input, Header(input).value.0)))
    ensures Canonical(input) ==> r == Visible(Decompress(tokens, input))
  {
    if Header(input).Ok? && Canonical(input) {
      CanonicalIsUnchanged(tokens, input);
    }
    assert Header(input).Err? ==> Decompress(tokens, input).Err?;
    hide Decompress, Rewritten, DecodeElements, EncodeUnsigned, ParseUnsigned;
    peak := 0;
    if input == [] {
      return Err(Malformed), peak;
    }
    var header := Header(input);
    if header.Err? {
      return Err(Malformed), peak;
    }
    var size := header.value.0;
    ghost var es := tokens(input[EncodedSize(input)..]);
    var max := startSize;
    while true
      invariant max > 0
      invariant max == startSize || Produced(es, []) > max / 2
      invariant peak <= max
      decreases size - max
    {
      var trySize := Min(size, max);
      peak := trySize;
      TooSmallMeansMore(es, [], trySize);
      RewrittenDecodes(tokens, input, trySize);
      RewrittenDecodes(tokens, input, size);
      SmallerBuffer(es, [], trySize, size);
      var out := Decompress(tokens, Rewritten(input, trySize));
      match out {
        case Err(e) =>
          if LooksTooSmall(e) && max < size {
            max := max * 2;
            continue;
          }
          return Err(Malformed), peak;
        case Ok(bytes) =>
          if |bytes| != size {
            return Err(Malformed), peak;
          }
          return Ok(bytes), peak;
      }
    }
  }

  /** For a canonical prefix the loop's result is that of one decode with the full declared size. */
  lemma CanonicalIsUnchanged(tokens: Tokens, input: seq<byte>)
    requires Header(input).Ok? && Canonical(input)
    ensures Decompress(tokens, Rewritten(input, Header(input).value.0)) == Decompress(tokens, input)
  {
    hide EncodeUnsigned, ParseUnsigned, DecodeElements;
    PrefixFits(input);
    var (n, payload) := Header(input).value;
    assert input[|EncodeUnsigned(n)|..] == payload;
  }

  /** The loop agrees with one decode of the full declared size, however the payload splits into elements,
      exactly when the prefix is the shortest encoding of that size. */
  lemma LoopMatchesDirectIff(input: seq<byte>)
    requires Header(input).Ok?
    ensures Canonical(input) <==> forall tokens: Tokens ::
      Visible(Decompress(tokens, Rewritten(input, Header(input).value.0))) == Visible(Decompress(tokens, input))
  {
    hide EncodeUnsigned, ParseUnsigned, DecodeElements, Canonical, Decompress, Rewritten;
    var (n, payload) := Header(input).value;
    if Canonical(input) {
      forall tokens: Tokens ensures Decompress(tokens, Rewritten(input, n)) == Decompress(tokens, input) {
        CanonicalIsUnchanged(tokens, input);
      }
    } else {
      var tokens := TellingTokens(payload, n);
      PayloadDiffers(input);
      assert tokens(payload) == [Literal(Zeros(n), 0)] && tokens(input[EncodedSize(input)..]) == [Garbage];
      RewrittenDecodes(tokens, input, n);
      LiteralDecodes(Zeros(n));
      assert Decompress(tokens, input) == DecodeElements(tokens(payload), [], n) by {
        DecompressIs(tokens, input);
      }
    }
  }

  lemma DecompressIs(tokens: Tokens, input: seq<byte>)
    requires Header(input).Ok?
    ensures var (n, payload) := Header(input).value; Decompress(tokens, input) == DecodeElements(tokens(payload), [], n)
  {
    hide ParseUnsigned, DecodeElements;
  }

  function Zeros(n: nat): (z: seq<byte>)
    ensures |z| == n
  {
    seq(n, _ => 0)
  }

  /** Reads `payload` as one literal of `n` bytes and nothing else as anything. */
  function TellingTokens(payload: seq<byte>, n: nat): Tokens {
    s => if s == payload then [Literal(Zeros(n), 0)] else [Garbage]
  }

  lemma LiteralDecodes(data: seq<byte>)
    ensures DecodeElements([Literal(data, 0)], [], |data|) == Ok(data)
    ensures DecodeElements([Garbage], [], |data|).Err?
  {
    assert [] + data == data;
    assert [Literal(data, 0)][1..] == [];
  }

  lemma PayloadDiffers(input: seq<byte>)
    requires Header(input).Ok? && !Canonical(input)
    ensures input[EncodedSize(input)..] != Header(input).value.1
  {
    if EncodedSize(input) == Continuations(input) + 1 {
      SameSizeIsCanonical(input);
    }
  }

  lemma SameSizeIsCanonical(input: seq<byte>)
    requires Header(input).Ok? && EncodedSize(input) == Continuations(input) + 1
    ensures Canonical(input)
  {
    hide EncodeUnsigned, GroupSum, Continuations, Pow128;
    var n, k := Header(input).value.0, Continuations(input);
    var g := input[..k + 1];
    FiveGroupsHoldAU32(n);
    SmallGroups(g);
    PrefixContinuations(input, k);
    ShortestIsUnique(g);
    assert input == g + input[k + 1..];
  }

  lemma {:induction false} PrefixContinuations(s: seq<byte>, k: nat)
    requires Continuations(s) == k < |s|
    ensures Continuations(s[..k + 1]) == k
  {
    if k > 0 {
      PrefixContinuations(s[1..], k - 1);
      assert s[..k + 1][1..] == s[1..][..k];
    }
  }

  /** A prefix with a redundant group makes the loop read that group as data: empty data in two prefix
      bytes decodes directly, but the loop reports it as malformed. */
  lemma RedundantPrefixFails(tokens: Tokens)
    requires tokens([]) == []
    requires tokens([0]) == [CutLiteral(1, 0)]
    ensures Decompress(tokens, [0x80, 0]) == Ok([])
    ensures Header([0x80, 0]).Ok? && !Canonical([0x80, 0])
    ensures Decompress(tokens, Rewritten([0x80, 0], 0)).Err?
  {
    var input: seq<byte> := [0x80, 0];
    assert input[1..] == [0] && [0][1..] == [];
    assert Continuations(input) == 1;
    assert input[..2] == input && input[2..] == [];
    assert GroupSum(input) == 0;
    assert Header(input) == Ok((0, []));
    assert EncodeUnsigned(0) == [0];
    assert Rewritten(input, 0) == [0] + [0];
    RewrittenDecodes(tokens, input, 0);
  }
}
