/** A vector assembled block by block so that a declared length never forces one large allocation. */
module VecBuilders {
  import opened Bytes
  import opened Primitives

  const DEFAULT_BLOCK_SIZE := 1024 * 1024 * 10

  /** The blocks in order, joined. */
  function Flatten<T>(blocks: seq<seq<T>>): (s: seq<T>) {
    if blocks == [] then [] else Flatten(blocks[..|blocks| - 1]) + blocks[|blocks| - 1]
  }

  lemma FlattenAppend<T>(blocks: seq<seq<T>>, last: seq<T>)
    ensures Flatten(blocks + [last]) == Flatten(blocks) + last
  {
    assert (blocks + [last])[..|blocks|] == blocks;
  }

  lemma FlattenSetLast<T>(blocks: seq<seq<T>>, last: seq<T>)
    requires blocks != []
    ensures Flatten(blocks[|blocks| - 1 := last]) == Flatten(blocks[..|blocks| - 1]) + last
  {
    assert blocks[|blocks| - 1 := last][..|blocks| - 1] == blocks[..|blocks| - 1];
  }

  /** Elements that fit one block; zero-sized elements all go into one. */
  function ElementsPerBlock(expected: nat, blockSize: nat, elementSize: nat): nat {
    if elementSize == 0 then expected else blockSize / elementSize
  }

  /** As many elements as fit into a block, and all of them if they take no room. */
  lemma MostThatFit(expected: nat, blockSize: nat, elementSize: nat, n: nat)
    ensures elementSize > 0 ==>
      (n <= ElementsPerBlock(expected, blockSize, elementSize) <==> Times(n, elementSize) <= blockSize)
    ensures elementSize == 0 ==> ElementsPerBlock(expected, blockSize, elementSize) == expected
  {
    hide Times;
    if elementSize > 0 {
      var q := blockSize / elementSize;
      DivisionBounds(blockSize, elementSize);
      if n <= q {
        TimesGrows(n, q, elementSize);
      } else {
        TimesGrows(q + 1, n, elementSize);
      }
    }
  }

  lemma DivisionBounds(x: nat, d: nat)
    requires d > 0
    ensures Times(x / d, d) <= x < Times(x / d + 1, d)
  {
  }

  lemma TimesGrows(a: nat, b: nat, d: nat)
    requires a <= b
    ensures Times(a, d) <= Times(b, d)
  {
    assert (b - a) * d >= 0;
  }

  class VecBuilder<T> {
    const elementsPerBlock: nat
    var blocks: seq<seq<T>>
    var remaining: nat

    /** Every block but the last is full. */
    ghost predicate Valid()
      reads this
    {
      && elementsPerBlock > 0
      && blocks != []
      && |blocks[|blocks| - 1]| <= elementsPerBlock
      && forall i | 0 <= i < |blocks| - 1 :: |blocks[i]| == elementsPerBlock
    }

    ghost function Contents(): seq<T>
      reads this
    {
      Flatten(blocks)
    }

    constructor (expected: nat, blockSize: nat, elementSize: nat)
      requires ElementsPerBlock(expected, blockSize, elementSize) > 0
      ensures Valid() && Contents() == [] && remaining == expected
      ensures elementsPerBlock == ElementsPerBlock(expected, blockSize, elementSize)
    {
      elementsPerBlock := ElementsPerBlock(expected, blockSize, elementSize);
      blocks := [[]];
      remaining := expected;
    }

    /** Opens a new block when the last one is full. */
    method EnsureRoom()
      requires Valid()
      modifies this`blocks
      ensures Valid() && Contents() == old(Contents())
      ensures |blocks[|blocks| - 1]| < elementsPerBlock
    {
      if |blocks[|blocks| - 1]| >= elementsPerBlock {
        FlattenAppend(blocks, []);
        blocks := blocks + [[]];
      }
    }

    method Push(element: T)
      requires Valid()
      requires remaining > 0
      modifies this
      ensures Valid()
      ensures Contents() == old(Contents()) + [element]
      ensures remaining == old(remaining) - 1
    {
      EnsureRoom();
      var last := |blocks| - 1;
      FlattenSetLast(blocks, blocks[last] + [element]);
      blocks := blocks[last := blocks[last] + [element]];
      remaining := remaining - 1;
    }

    /** Conversion to a plain vector: one block is handed over, several are appended in order. */
    method IntoVec() returns (out: seq<T>)
      requires Valid()
      ensures out == Contents()
    {
      if |blocks| == 1 {
        assert Flatten(blocks[..0]) == [];
        return blocks[0];
      }
      out := [];
      for i := 0 to |blocks|
        invariant out == Flatten(blocks[..i])
      {
        assert blocks[..i + 1][..i] == blocks[..i];
        out := out + blocks[i];
      }
      assert blocks[..|blocks|] == blocks;
    }
  }

  /** A byte source; `rest` is what has not been read yet. */
  class Reader {
    var rest: seq<byte>

    constructor (data: seq<byte>)
      ensures rest == data
    {
      rest := data;
    }

    /** `read_exact`: all of `n` bytes or the end of input. */
    method ReadExact(n: nat) returns (r: Result<seq<byte>, ReadError>)
      modifies this
      ensures n <= |old(rest)| ==> r == Ok(old(rest)[..n]) && rest == old(rest)[n..]
      ensures n > |old(rest)| ==> r == Err(UnexpectedEof)
    {
      if n > |rest| {
        rest := [];
        return Err(UnexpectedEof);
      }
      r := Ok(rest[..n]);
      rest := rest[n..];
    }

    method ReadInt(n: nat) returns (r: Result<int, ReadError>)
      requires n > 0
      modifies this
      ensures Agrees(ParseInt(old(rest), n), r, rest)
    {
      var buf :- ReadExact(n);
      return Ok(DecodeInt(buf));
    }

    /** The shift-and-or loop; `res` and the shifted group share no bits, so `|` is addition. */
    method ReadUnsigned() returns (r: Result<u64, ReadError>)
      modifies this
      ensures Agrees(ParseUnsigned(old(rest)), r, rest)
    {
      hide GroupSum, Pow128, Continuations, Times;
      ghost var start := rest;
      assert GroupSum(start[..0]) == 0 by { GroupSumEmpty(start[..0]); }
      var res: u64, groups := 0, 0;
      while true
        invariant 0 <= groups < MAX_GROUPS && groups <= Continuations(start)
        invariant rest == start[groups..]
        invariant res == GroupSum(start[..groups])
        decreases MAX_GROUPS - groups
      {
        ContinuationsFrom(start, groups);
        var buf :- ReadExact(1);
        var c := buf[0];
        assert c == start[groups];
        AddGroup(start, groups);
        res := res + Times(c % 128, Pow128(groups)) % TWO_64;
        groups := groups + 1;
        if c < 128 {
          return Ok(res);
        }
        if groups >= MAX_GROUPS {
          return Err(Malformed);
        }
      }
    }
  }

  lemma GroupSumEmpty(g: seq<byte>)
    requires g == []
    ensures GroupSum(g) == 0
  {
  }

  lemma ContinuationsFrom(s: seq<byte>, k: nat)
    requires k <= Continuations(s)
    ensures k < |s| && s[k] < 128 ==> Continuations(s) == k
    ensures k < |s| && s[k] >= 128 ==> Continuations(s) > k
    ensures k == |s| ==> Continuations(s) == k
  {
    hide Continuations;
  }

  lemma ShiftGroup(x: int, d: int, p: int)
    ensures 128 * (x + d * p) == 128 * x + d * (128 * p)
  {
  }

  lemma {:induction false} GroupSumAppend(g: seq<byte>, c: byte)
    ensures GroupSum(g + [c]) == GroupSum(g) + c % 128 * Pow128(|g|)
  {
    if g != [] {
      GroupSumAppend(g[1..], c);
      assert (g + [c])[1..] == g[1..] + [c];
      ShiftGroup(GroupSum(g[1..]), c % 128, Pow128(|g| - 1));
    } else {
      assert g + [c] == [c] && [c][1..] == [];
    }
  }

  lemma SmallProduct(d: nat, p: nat)
    requires d < 128
    ensures Times(d, p) <= 127 * p
  {
    assert (127 - d) * p >= 0;
  }

  lemma TopGroup(x: nat, d: nat)
    requires x < 0x8000_0000_0000_0000
    ensures x + (d * 0x8000_0000_0000_0000) % TWO_64 == (x + d * 0x8000_0000_0000_0000) % TWO_64
  {
    assert d * 0x8000_0000_0000_0000 == (d / 2) * TWO_64 + (d % 2) * 0x8000_0000_0000_0000;
  }

  lemma NoWrap(x: nat, t: nat)
    requires x + t < TWO_64
    ensures x + t % TWO_64 == (x + t) % TWO_64
  {
  }

  /** Below the tenth group nothing is lost; of the tenth only the lowest bit counts. */
  lemma TruncatedSum(x: nat, d: nat, k: nat)
    requires x < Pow128(k) && d < 128 && k < MAX_GROUPS
    ensures x + Times(d, Pow128(k)) % TWO_64 == (x + Times(d, Pow128(k))) % TWO_64
    ensures k < 9 ==> x + Times(d, Pow128(k)) < TWO_64
  {
    hide Pow128, Times;
    NineGroups();
    if k < 9 {
      Pow128Monotone(k, 8);
      SmallProduct(d, Pow128(k));
      NoWrap(x, Times(d, Pow128(k)));
    } else {
      TopGroup(x, d);
      TimesIs(d, 0x8000_0000_0000_0000);
    }
  }

  lemma TimesIs(d: nat, p: nat)
    ensures Times(d, p) == d * p
  {
  }

  function Times(d: nat, p: nat): nat {
    d * p
  }

  /** Adding the truncated group never overflows and equals the sum modulo 2^64. */
  lemma AddGroup(s: seq<byte>, k: nat)
    requires k < |s| && k < MAX_GROUPS
    ensures GroupSum(s[..k]) + Times(s[k] % 128, Pow128(k)) % TWO_64 == GroupSum(s[..k + 1]) % TWO_64
    ensures k + 1 < MAX_GROUPS ==> GroupSum(s[..k + 1]) < TWO_64
  {
    hide GroupSum, Pow128, Times;
    assert s[..k + 1] == s[..k] + [s[k]];
    GroupSumAppend(s[..k], s[k]);
    TimesIs(s[k] % 128, Pow128(k));
    TruncatedSum(GroupSum(s[..k]), s[k] % 128, k);
  }

  /** Of a tenth group only the lowest bit is kept; the others are shifted out. */
  lemma TenthGroupKeepsOneBit(nine: seq<byte>, c: byte, tail: seq<byte>)
    requires |nine| == 9 && (forall i | 0 <= i < 9 :: nine[i] >= 128) && c < 128
    ensures GroupSum(nine) < 0x8000_0000_0000_0000
    ensures ParseUnsigned(nine + [c] + tail) == Done(GroupSum(nine) + (c % 2) * 0x8000_0000_0000_0000, tail)
  {
    hide Pow128, GroupSum, Continuations;
    var s := nine + [c] + tail;
    ContinuationsAre(s, 9);
    assert s[..10] == nine + [c] && s[10..] == tail;
    NineGroups();
    assert GroupSum(nine) < Pow128(9);
    GroupSumAppend(nine, c);
    KeepsOneBit(GroupSum(nine), c);
  }

  lemma {:induction false} ContinuationsAre(s: seq<byte>, k: nat)
    requires k < |s| && s[k] < 128 && forall i | 0 <= i < k :: s[i] >= 128
    ensures Continuations(s) == k
  {
    if k > 0 {
      ContinuationsAre(s[1..], k - 1);
    }
  }

  lemma KeepsOneBit(x: nat, c: nat)
    requires x < 0x8000_0000_0000_0000 && c < 128
    ensures (x + c % 128 * 0x8000_0000_0000_0000) % TWO_64 == x + (c % 2) * 0x8000_0000_0000_0000
  {
    var h, b := c / 2, c % 2;
    assert c % 128 == 2 * h + b;
    assert x + c % 128 * 0x8000_0000_0000_0000 == TWO_64 * h + (x + b * 0x8000_0000_0000_0000);
  }

  /** One block's worth: room is zero-filled first, then overwritten with what the reader delivers. */
  method ReadBlock(b: VecBuilder<byte>, reader: Reader) returns (r: Result<(), ReadError>, filled: nat)
    requires b.Valid() && b.remaining > 0
    modifies b, reader
    ensures b.Valid() && 0 < filled <= b.elementsPerBlock && filled <= old(b.remaining)
    ensures r.Ok? <==> filled <= |old(reader.rest)|
    ensures r.Ok? ==> b.Contents() == old(b.Contents()) + old(reader.rest)[..filled]
    ensures r.Ok? ==> b.remaining == old(b.remaining) - filled && reader.rest == old(reader.rest)[filled..]
    ensures r.Err? ==> r.error == UnexpectedEof
  {
    b.EnsureRoom();
    var last := |b.blocks| - 1;
    var block := b.blocks[last];
    ghost var head := b.blocks[..last];
    filled := Min(b.remaining, b.elementsPerBlock - |block|);
    b.blocks := b.blocks[last := block + seq(filled, i => 0)];
    assert b.blocks[..last] == head;
    var chunk := reader.ReadExact(filled);
    if chunk.Err? {
      return Err(chunk.error), filled;
    }
    FlattenSetLast(b.blocks, block + chunk.value);
    hide Flatten;
    b.blocks := b.blocks[last := block + chunk.value];
    b.remaining := b.remaining - filled;
    r := Ok(());
  }

  /** Fills a byte builder from a reader, one block at a time. `ahead` is the most bytes that were
      ever zero-filled before their data arrived. */
  method ReadExactInto(b: VecBuilder<byte>, reader: Reader) returns (r: Result<(), ReadError>, ahead: nat)
    requires b.Valid()
    modifies b, reader
    ensures b.Valid() && ahead <= b.elementsPerBlock
    ensures r.Ok? <==> old(b.remaining) <= |old(reader.rest)|
    ensures r.Ok? ==> b.Contents() == old(b.Contents()) + old(reader.rest)[..old(b.remaining)]
    ensures r.Ok? ==> b.remaining == 0 && reader.rest == old(reader.rest)[old(b.remaining)..]
    ensures r.Err? ==> r.error == UnexpectedEof
  {
    hide Flatten;
    ahead := 0;
    ghost var total, input, before := b.remaining, reader.rest, b.Contents();
    ghost var got := 0;
    assert before + input[..0] == before;
    while b.remaining > 0
      invariant b.Valid() && ahead <= b.elementsPerBlock
      invariant got + b.remaining == total && got <= |input|
      invariant reader.rest == input[got..]
      invariant b.Contents() == before + input[..got]
    {
      var block, filled := ReadBlock(b, reader);
      ahead := if filled > ahead then filled else ahead;
      if block.Err? {
        return Err(block.error), ahead;
      }
      assert input[..got + filled] == input[..got] + input[got..][..filled];
      got := got + filled;
    }
    r := Ok(());
  }
}
