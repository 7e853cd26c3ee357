/** Bytes, machine-integer ranges and the result types shared by the protocol modules. */
module Bytes {
  type byte = x: int | 0 <= x < 0x100
  type int16 = x: int | -0x8000 <= x < 0x8000
  type int32 = x: int | -0x8000_0000 <= x < 0x8000_0000
  type int64 = x: int | -0x8000_0000_0000_0000 <= x < 0x8000_0000_0000_0000
  type u32 = x: int | 0 <= x < 0x1_0000_0000
  type u64 = x: int | 0 <= x < 0x1_0000_0000_0000_0000

  const I32_MAX := 0x7fff_ffff
  const I64_MAX := 0x7fff_ffff_ffff_ffff
  const TWO_64 := 0x1_0000_0000_0000_0000

  datatype Option<+T> = None | Some(value: T)

  /** The error classes the readers distinguish; messages are dropped. */
  datatype ReadError = UnexpectedEof | Overflow | Malformed

  /** What a reader returns to its caller. */
  datatype Result<+T, +E> = Ok(value: T) | Err(error: E) {
    predicate IsFailure() { Err? }
    function PropagateFailure<U>(): Result<U, E> requires Err? { Err(error) }
    function Extract(): T requires Ok? { value }
  }

  /** What a parser function computes: a value and the unread bytes, or an error. */
  datatype Parse<+T> = Done(value: T, rest: seq<byte>) | Fail(error: ReadError) {
    predicate IsFailure() { Fail? }
    function PropagateFailure<U>(): Parse<U> requires Fail? { Fail(error) }
    function Extract(): (T, seq<byte>) requires Done? { (value, rest) }
  }

  /** A reader's answer `r` and remaining input `after` are what parser outcome `p` says. */
  predicate Agrees<T(==)>(p: Parse<T>, r: Result<T, ReadError>, after: seq<byte>) {
    match p
    case Done(v, t) => r == Ok(v) && after == t
    case Fail(e) => r == Err(e)
  }

  function Min(a: int, b: int): int {
    if a <= b then a else b
  }
}

/** Fixed-width big-endian integers, base-128 varints and zig-zag varints. */
module Primitives {
  import opened Bytes

  // ---------------------------------------------------------------- fixed width

  function Pow256(n: nat): (p: nat)
    ensures p > 0
    ensures n > 0 ==> p % 2 == 0
  {
    if n == 0 then 1 else 256 * Pow256(n - 1)
  }

  function BigEndian(x: nat, n: nat): (s: seq<byte>)
    requires x < Pow256(n)
    ensures |s| == n
  {
    if n == 0 then [] else BigEndian(x / 256, n - 1) + [x % 256]
  }

  function FromBigEndian(s: seq<byte>): (x: nat)
    ensures x < Pow256(|s|)
  {
    if s == [] then 0 else FromBigEndian(s[..|s| - 1]) * 256 + s[|s| - 1]
  }

  lemma {:induction false} BigEndianRoundTrip(x: nat, n: nat)
    requires x < Pow256(n)
    ensures FromBigEndian(BigEndian(x, n)) == x
  {
    if n > 0 {
      BigEndianRoundTrip(x / 256, n - 1);
      assert BigEndian(x, n)[..n - 1] == BigEndian(x / 256, n - 1);
    }
  }

  /** The most significant byte comes first. */
  lemma {:induction false} FirstByteWeighsMost(c: byte, t: seq<byte>)
    ensures FromBigEndian([c] + t) == c * Pow256(|t|) + FromBigEndian(t)
  {
    if t == [] {
      assert [c] + t == [c] && [c][..0] == [];
    } else {
      var n := |t| - 1;
      FirstByteWeighsMost(c, t[..n]);
      assert ([c] + t)[..n + 1] == [c] + t[..n];
      Shift(c, Pow256(n));
    }
  }

  lemma Shift(x: nat, p: nat)
    ensures x * (256 * p) == 256 * (x * p)
  {
  }

  /** Every byte string of a given length stands for one number, and only that number is written so. */
  lemma {:induction false} BytesRoundTrip(s: seq<byte>)
    ensures BigEndian(FromBigEndian(s), |s|) == s
  {
    if s != [] {
      var t, c := s[..|s| - 1], s[|s| - 1];
      BytesRoundTrip(t);
      var x := FromBigEndian(t);
      assert (x * 256 + c) / 256 == x && (x * 256 + c) % 256 == c;
      hide FromBigEndian, Pow256;
      assert s == t + [c];
    }
  }

  /** Negation flips every bit: the bytes of `-1 - x` are the complements of those of `x`. */
  lemma {:induction false} ComplementFlips(x: nat, n: nat, i: nat)
    requires x < Pow256(n) && i < n
    ensures BigEndian(Pow256(n) - 1 - x, n)[i] == 255 - BigEndian(x, n)[i]
  {
    var p := Pow256(n - 1);
    assert (256 * p - 1 - x) / 256 == p - 1 - x / 256 && (256 * p - 1 - x) % 256 == 255 - x % 256;
    if i < n - 1 {
      ComplementFlips(x / 256, n - 1, i);
    }
  }

  /** `n`-byte two's complement range. */
  predicate Fits(x: int, n: nat) {
    n > 0 && -(Pow256(n) / 2) <= x < Pow256(n) / 2
  }

  /** `to_be_bytes` of an `n`-byte signed integer. */
  function EncodeInt(x: int, n: nat): (s: seq<byte>)
    requires Fits(x, n)
    ensures |s| == n
  {
    BigEndian(if x < 0 then x + Pow256(n) else x, n)
  }

  /** Two's complement: non-negative numbers are plain, and `-1 - x` is `x` with every bit flipped. */
  lemma TwosComplement(x: nat, n: nat, i: nat)
    requires Fits(x, n) && i < n
    ensures EncodeInt(x, n) == BigEndian(x, n)
    ensures Fits(-1 - x, n) && EncodeInt(-1 - x, n)[i] == 255 - EncodeInt(x, n)[i]
  {
    ComplementFlips(x, n, i);
  }

  lemma {:induction false} ZeroBytes(n: nat, i: nat)
    requires i < n
    ensures BigEndian(0, n)[i] == 0
  {
    if i < n - 1 {
      ZeroBytes(n - 1, i);
    }
  }

  /** Zero is all zeros and -1 all ones. */
  lemma ZeroAndMinusOne(n: nat, i: nat)
    requires i < n
    ensures Fits(0, n) && EncodeInt(0, n)[i] == 0
    ensures Fits(-1, n) && EncodeInt(-1, n)[i] == 255
  {
    ZeroBytes(n, i);
    TwosComplement(0, n, i);
  }

  /** `from_be_bytes` of an `n`-byte signed integer. */
  function DecodeInt(s: seq<byte>): (x: int)
    requires s != []
    ensures Fits(x, |s|)
  {
    var v := FromBigEndian(s);
    if v < Pow256(|s|) / 2 then v else v - Pow256(|s|)
  }

  function ParseInt(s: seq<byte>, n: nat): (p: Parse<int>)
    requires n > 0
    ensures p.Done? ==> Fits(p.value, n) && |s| == n + |p.rest| && s[n..] == p.rest
    ensures p.Fail? <==> |s| < n
    ensures p.Fail? ==> p.error == UnexpectedEof
  {
    if |s| < n then Fail(UnexpectedEof) else Done(DecodeInt(s[..n]), s[n..])
  }

  lemma IntRoundTrip(x: int, n: nat, tail: seq<byte>)
    requires Fits(x, n)
    ensures ParseInt(EncodeInt(x, n) + tail, n) == Done(x, tail)
  {
    var e := EncodeInt(x, n);
    BigEndianRoundTrip(if x < 0 then x + Pow256(n) else x, n);
    assert (e + tail)[..n] == e && (e + tail)[n..] == tail;
  }

  // ---------------------------------------------------------------- unsigned varint

  function Pow128(n: nat): (p: nat)
    ensures p > 0
  {
    if n == 0 then 1 else 128 * Pow128(n - 1)
  }

  /** Unsigned varint of KIP-482: 7-bit groups, least significant first, high bit set on all but the last. */
  function EncodeUnsigned(x: nat): (s: seq<byte>)
    ensures s != []
  {
    if x < 128 then [x] else [128 + x % 128] + EncodeUnsigned(x / 128)
  }

  /** The number of leading bytes that carry the continuation bit. */
  function Continuations(s: seq<byte>): (k: nat)
    ensures k <= |s|
    ensures k < |s| ==> s[k] < 128
    ensures forall i | 0 <= i < k :: s[i] >= 128
  {
    if s == [] || s[0] < 128 then 0 else 1 + Continuations(s[1..])
  }

  /** Little-endian base-128 value of the low seven bits of each byte. */
  function GroupSum(g: seq<byte>): (x: nat)
    ensures x < Pow128(|g|)
  {
    if g == [] then 0 else g[0] % 128 + 128 * GroupSum(g[1..])
  }

  const MAX_GROUPS := 10

  /** Reading an unsigned varint: at most ten groups, their base-128 sum modulo 2^64. */
  function ParseUnsigned(s: seq<byte>): (p: Parse<u64>)
    ensures p.Done? ==> |p.rest| < |s| <= |p.rest| + MAX_GROUPS && s[|s| - |p.rest|..] == p.rest
  {
    var k := Continuations(s);
    if k >= MAX_GROUPS then Fail(Malformed)
    else if k == |s| then Fail(UnexpectedEof)
    else Done(GroupSum(s[..k + 1]) % TWO_64, s[k + 1..])
  }

  /** The error cases in terms of the bytes: ten continuation bytes are malformed, fewer and then nothing are the
      end of input, and everything else is a number. */
  lemma UnsignedErrors(s: seq<byte>)
    ensures ParseUnsigned(s) == Fail(Malformed) <==> |s| >= 10 && forall i | 0 <= i < 10 :: s[i] >= 128
    ensures ParseUnsigned(s) == Fail(UnexpectedEof) <==> |s| < 10 && forall i | 0 <= i < |s| :: s[i] >= 128
    ensures ParseUnsigned(s).Fail? ==> ParseUnsigned(s).error == Malformed || ParseUnsigned(s).error == UnexpectedEof
  {
  }

  lemma {:induction false} EncodedShape(x: nat)
    ensures Continuations(EncodeUnsigned(x)) == |EncodeUnsigned(x)| - 1
    ensures GroupSum(EncodeUnsigned(x)) == x
  {
    if x >= 128 {
      EncodedShape(x / 128);
      assert EncodeUnsigned(x)[1..] == EncodeUnsigned(x / 128);
    }
  }

  /** `n` groups suffice exactly for the values below 128^n. */
  lemma {:induction false} EncodedLength(x: nat, n: nat)
    requires n > 0
    ensures |EncodeUnsigned(x)| <= n <==> x < Pow128(n)
  {
    if x < 128 {
      assert Pow128(n) == 128 * Pow128(n - 1);
    } else if n > 1 {
      EncodedLength(x / 128, n - 1);
    } else {
      assert Pow128(1) == 128;
    }
  }

  lemma {:induction false} ContinuationsPrefix(s: seq<byte>, t: seq<byte>)
    requires Continuations(s) < |s|
    ensures Continuations(s + t) == Continuations(s)
  {
    if s[0] >= 128 {
      ContinuationsPrefix(s[1..], t);
      assert (s + t)[1..] == s[1..] + t;
    }
  }

  lemma TenGroupsHoldAU64()
    ensures Pow128(5) == 0x8_0000_0000
    ensures Pow128(10) == 0x40_0000_0000_0000_0000
  {
    assert Pow128(2) == 0x4000 && Pow128(3) == 0x20_0000;
  }

  lemma NineGroups()
    ensures Pow128(8) == 0x100_0000_0000_0000
    ensures Pow128(9) == 0x8000_0000_0000_0000
  {
    TenGroupsHoldAU64();
    assert Pow128(9) * 128 == Pow128(10);
    assert Pow128(8) * 128 == Pow128(9);
  }

  lemma {:induction false} Pow128Monotone(a: nat, b: nat)
    requires a <= b
    ensures Pow128(a) <= Pow128(b)
  {
    if a < b {
      Pow128Monotone(a, b - 1);
    }
  }

  /** Reading undoes writing for every u64, leaving any suffix intact. */
  lemma UnsignedRoundTrip(x: u64, tail: seq<byte>)
    ensures ParseUnsigned(EncodeUnsigned(x) + tail) == Done(x, tail)
    ensures |EncodeUnsigned(x)| <= MAX_GROUPS
  {
    hide EncodeUnsigned, Continuations, GroupSum, Pow128;
    var e := EncodeUnsigned(x);
    EncodedShape(x);
    assert |e| <= MAX_GROUPS by {
      EncodedLength(x, MAX_GROUPS);
      TenGroupsHoldAU64();
    }
    ContinuationsPrefix(e, tail);
    assert (e + tail)[..|e|] == e && (e + tail)[|e|..] == tail;
  }

  /** No sequence of groups that means `x` is shorter than what the writer emits. */
  lemma UnsignedIsMinimal(x: nat, g: seq<byte>)
    requires GroupSum(g) == x
    requires g != []
    ensures |EncodeUnsigned(x)| <= |g|
  {
    EncodedLength(x, |g|);
  }

  /** Of the encodings that mean `x`, only the writer's has that length. */
  lemma {:induction false} ShortestIsUnique(g: seq<byte>)
    requires g != [] && Continuations(g) == |g| - 1
    requires |g| == |EncodeUnsigned(GroupSum(g))|
    ensures g == EncodeUnsigned(GroupSum(g))
  {
    hide Pow128, GroupSum, Continuations;
    var x, rest := GroupSum(g), GroupSum(g[1..]);
    FirstGroup(g);
    if |g| > 1 {
      assert x >= 128;
      ShortestIsUnique(g[1..]);
      assert g == [g[0]] + g[1..];
    } else {
      assert g == [g[0]];
    }
  }

  lemma FirstGroup(g: seq<byte>)
    requires g != []
    ensures GroupSum(g) % 128 == g[0] % 128 && GroupSum(g) / 128 == GroupSum(g[1..])
    ensures |g| == 1 ==> GroupSum(g) == g[0] % 128
    ensures |g| > 1 && Continuations(g) == |g| - 1 ==> g[0] >= 128 && Continuations(g[1..]) == |g| - 2
    ensures |g| == 1 && Continuations(g) == 0 ==> g[0] < 128
  {
  }

  // ---------------------------------------------------------------- zig-zag varints

  function ZigZag(x: int64): (u: u64) {
    if x >= 0 then 2 * x else -2 * x - 1
  }

  /** 0, -1, 1, -2 and so on become 0, 1, 2, 3 and so on. */
  lemma ZigZagAlternates(x: int64)
    ensures ZigZag(0) == 0
    ensures 0 <= x ==> ZigZag(-1 - x) == ZigZag(x) + 1
    ensures 0 <= x < I64_MAX ==> ZigZag(x + 1) == ZigZag(x) + 2
  {
  }

  /** Small numbers take one byte, the low group comes first, and all groups but the last carry the high bit. */
  lemma VarintBytes(low: nat, high: nat)
    requires low < 128 && high > 0
    ensures EncodeUnsigned(low) == [low]
    ensures EncodeUnsigned(128 * high + low) == [128 + low] + EncodeUnsigned(high)
    ensures EncodeVarlong(-1) == [1] && EncodeVarlong(1) == [2] && EncodeVarlong(150) == [0xac, 0x02]
  {
    assert EncodeUnsigned(300) == [0xac] + EncodeUnsigned(2);
  }

  function UnZigZag(u: u64): (x: int64)
    ensures ZigZag(x) == u
  {
    if u % 2 == 0 then u / 2 else -((u + 1) / 2)
  }

  function EncodeVarlong(x: int64): (s: seq<byte>)
    ensures s != []
  {
    EncodeUnsigned(ZigZag(x))
  }

  function ParseVarlong(s: seq<byte>): (p: Parse<int64>)
    ensures p.Done? ==> |p.rest| < |s| && s[|s| - |p.rest|..] == p.rest
  {
    var (u, t) :- ParseUnsigned(s);
    Done(UnZigZag(u), t)
  }

  /** A 32-bit varint is read as 64-bit and downcast with a check. */
  function ParseVarint(s: seq<byte>): (p: Parse<int32>)
    ensures p.Done? ==> |p.rest| < |s| && s[|s| - |p.rest|..] == p.rest
  {
    var (x, t) :- ParseVarlong(s);
    if -0x8000_0000 <= x <= I32_MAX then Done(x, t) else Fail(Overflow)
  }

  /** A number outside 32 bits is an overflow for a 32-bit varint, and every other error is passed on. */
  lemma VarintOverflow(x: int64, tail: seq<byte>)
    ensures ParseVarint(EncodeVarlong(x) + tail)
         == if -0x8000_0000 <= x <= 0x7fff_ffff then Done(x, tail) else Fail(Overflow)
  {
    VarlongRoundTrip(x, tail);
  }

  lemma VarlongRoundTrip(x: int64, tail: seq<byte>)
    ensures ParseVarlong(EncodeVarlong(x) + tail) == Done(x, tail)
  {
    UnsignedRoundTrip(ZigZag(x), tail);
  }

  lemma VarintRoundTrip(x: int32, tail: seq<byte>)
    ensures ParseVarint(EncodeVarlong(x) + tail) == Done(x, tail)
  {
    VarlongRoundTrip(x, tail);
  }
}
