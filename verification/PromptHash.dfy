/** Hashing a prompt into a chain of prefix hashes.

The hash function itself is a parameter `H`. Nothing is assumed of it except, where a theorem
says so, that it is free of collisions on the finitely many inputs hashed in the runs compared.

The hasher appends the previous hash to a block *inside the prompt's own buffer*, which
overwrites the first 8 bytes of the next block. `IsChain` states the recurrence that this
produces; `IsDocumented` states the one the comment on the function describes.
*/
module PromptHash {
  import opened PrefixTypes
  import opened Arith

  // ---- Little-endian encoding of a hash

  function Digits(h: nat, n: nat): (bs: seq<Byte>)
    ensures |bs| == n
  {
    if n == 0 then [] else [h % 256] + Digits(h / 256, n - 1)
  }

  function Value(bs: seq<Byte>): nat {
    if bs == [] then 0 else bs[0] + 256 * Value(bs[1..])
  }

  function Power256(n: nat): nat {
    if n == 0 then 1 else 256 * Power256(n - 1)
  }

  function ToBytes(h: BlockHash): (bs: seq<Byte>)
    ensures |bs| == 8
  {
    Digits(h, 8)
  }

  lemma {:induction false} DigitsRoundTrip(h: nat, n: nat)
    requires h < Power256(n)
    ensures Value(Digits(h, n)) == h
  {
    if n != 0 {
      DigitsRoundTrip(h / 256, n - 1);
      assert Digits(h, n)[1..] == Digits(h / 256, n - 1);
    }
  }

  lemma ToBytesInjective(a: BlockHash, b: BlockHash)
    requires ToBytes(a) == ToBytes(b)
    ensures a == b
  {
    assert Power256(4) == 0x1_0000_0000;
    assert Power256(6) == 0x1_0000_0000_0000;
    assert Power256(8) == TWO_64;
    DigitsRoundTrip(a, 8);
    DigitsRoundTrip(b, 8);
  }

  // ---- Blocks and chains

  /** The whole blocks of a prompt; a shorter tail is dropped. */
  function Blocks(prompt: seq<Byte>, size: nat): (bs: seq<seq<Byte>>)
    requires size >= 1
    decreases |prompt|
  {
    if |prompt| < size then [] else [prompt[..size]] + Blocks(prompt[size..], size)
  }

  function Take<T>(s: seq<T>, n: nat): seq<T> {
    if n < |s| then s[..n] else s
  }

  /** What is left of a block whose first 8 bytes were overwritten. */
  function Visible(block: seq<Byte>): seq<Byte> {
    if |block| >= 8 then block[8..] else []
  }

  /** What is hashed for block `k`: its own bytes, the first 8 of them (or all, if there are fewer)
      lost to the hash written in place two steps earlier (except for block 0), and then the previous
      hash. */
  ghost function Input(blocks: seq<seq<Byte>>, r: seq<BlockHash>, k: nat): seq<Byte>
    requires k < |blocks| && k < |r|
  {
    (if k == 0 then blocks[0] else Take(ToBytes(r[k - 1]), |blocks[k]|) + Visible(blocks[k])) + ToBytes(r[k])
  }

  ghost predicate IsChain(H: seq<Byte> -> BlockHash, model: seq<Byte>, blocks: seq<seq<Byte>>, r: seq<BlockHash>) {
    && |r| == 1 + |blocks|
    && r[0] == H(model)
    && forall k :: 0 <= k < |blocks| ==> r[k + 1] == H(Input(blocks, r, k))
  }

  /** The chain, computed block by block. */
  ghost function ChainOf(H: seq<Byte> -> BlockHash, model: seq<Byte>, blocks: seq<seq<Byte>>): (r: seq<BlockHash>)
    ensures |r| == 1 + |blocks|
  {
    if blocks == [] then [H(model)]
    else
      var r := ChainOf(H, model, blocks[..|blocks| - 1]);
      r + [H(Input(blocks, r, |blocks| - 1))]
  }

  lemma {:induction false} ChainOfIsChain(H: seq<Byte> -> BlockHash, model: seq<Byte>, blocks: seq<seq<Byte>>)
    ensures IsChain(H, model, blocks, ChainOf(H, model, blocks))
  {
    if blocks != [] {
      var n := |blocks| - 1;
      var r, r' := ChainOf(H, model, blocks[..n]), ChainOf(H, model, blocks);
      ChainOfIsChain(H, model, blocks[..n]);
      forall k | 0 <= k < |blocks| ensures r'[k + 1] == H(Input(blocks, r', k)) {
        if k < n {
          assert Input(blocks, r', k) == Input(blocks[..n], r, k);
        } else {
          assert Input(blocks, r', n) == Input(blocks, r, n);
        }
      }
    }
  }

  ghost predicate IsDocumented(H: seq<Byte> -> BlockHash, model: seq<Byte>, blocks: seq<seq<Byte>>, d: seq<BlockHash>) {
    && |d| == 1 + |blocks|
    && d[0] == H(model)
    && forall k :: 0 <= k < |blocks| ==> d[k + 1] == H(blocks[k] + ToBytes(d[k]))
  }

  // ---- Short blocks

  /** `s`, which begins `d` bytes after a place where `bs` was written, with what of `bs` reaches into it. */
  ghost function Stale(bs: seq<Byte>, d: nat, s: seq<Byte>): (r: seq<Byte>)
    ensures |r| == |s|
  {
    if d >= |bs| then s else if |bs| - d <= |s| then bs[d..] + s[|bs| - d..] else bs[d..d + |s|]
  }

  /** The bytes of `n` blocks. */
  function Span(n: nat, size: nat): nat {
    if n == 0 then 0 else Span(n - 1, size) + size
  }

  /** A part of the buffer once appends no longer fit: the last hash written stays where it is. */
  ghost function Frozen(s: seq<Byte>, r: seq<BlockHash>, g: nat, d: nat): (t: seq<Byte>)
    requires g < |r|
    ensures |t| == |s|
  {
    if g >= 2 then Stale(ToBytes(r[g - 2]), d, s) else s
  }

  /** The hash of block `k` is that of the frozen block and the hash before it. */
  ghost predicate FrozenAt(H: seq<Byte> -> BlockHash, blocks: seq<seq<Byte>>, size: nat, g: nat,
                           r: seq<BlockHash>, k: nat)
    requires g <= k < |blocks| && k + 1 < |r|
  {
    r[k + 1] == H(Frozen(blocks[k], r, g, Span(k + 1 - g, size)) + ToBytes(r[k]))
  }

  /** The hashes of the blocks after the first `g`: the documented recurrence on the frozen buffer. */
  ghost predicate TailHashed(H: seq<Byte> -> BlockHash, blocks: seq<seq<Byte>>, size: nat, g: nat, r: seq<BlockHash>) {
    |r| <= 1 + |blocks| && forall k :: g <= k < |r| - 1 ==> FrozenAt(H, blocks, size, g, r, k)
  }

  /** All the hashes, for every block size and every buffer: the first `g` blocks overwritten in place, the
      rest read from the buffer as the last append that fitted left it. */
  ghost predicate IsHashed(H: seq<Byte> -> BlockHash, model: seq<Byte>, blocks: seq<seq<Byte>>, size: nat,
                           g: nat, r: seq<BlockHash>) {
    && |r| == 1 + |blocks| && g <= |blocks|
    && IsChain(H, model, blocks[..g], r[..g + 1])
    && TailHashed(H, blocks, size, g, r)
  }

  // ---- The hasher

  /** How many of `n` blocks are hashed while the append before the last of them still fits into a
      buffer of `cap` bytes: all, for blocks of at least 8 bytes. */
  function InPlace(n: nat, size: nat, cap: nat): (g: nat)
    requires size >= 1
    ensures g <= n && (size >= 8 ==> g == n)
  {
    if size >= 8 || n <= 1 then n
    else if cap < 8 then 1
    else if n - 1 <= (cap - 8) / size then n else 1 + (cap - 8) / size
  }

  /** `spare` is the capacity that the allocator gave the buffer beyond the prompt. It matters only to how
      many blocks are in place. */
  method HashPrompt(H: seq<Byte> -> BlockHash, model: seq<Byte>, prompt: seq<Byte>, spare: nat,
                    size: nat, maxBlocks: nat)
    returns (res: seq<BlockHash>)
    requires size >= 1
    ensures |prompt| < size ==> res == []
    ensures |prompt| >= size ==> |res| == 1 + (if |prompt| / size <= maxBlocks then |prompt| / size else maxBlocks)
    ensures |prompt| >= size ==>
              var blocks := Take(Blocks(prompt, size), maxBlocks);
              var g := InPlace(|blocks|, size, |prompt| + spare);
              IsHashed(H, model, blocks, size, g, res) && (size >= 8 ==> IsChain(H, model, blocks, res))
  {
    if |prompt| < size {
      return [];
    }
    var len := if |prompt| > size * maxBlocks then maxBlocks * size else |prompt|;
    var buf := new Byte[|prompt| + spare](i => if 0 <= i < |prompt| then prompt[i] else 0);
    CutPrompt(prompt, size, maxBlocks, len);
    assert buf[..len] == prompt[..len];
    res := HashBlocks(H, model, buf, len, size);
    ghost var blocks := Take(Blocks(prompt, size), maxBlocks);
    assert blocks[..|blocks|] == blocks && res[..|res|] == res;
  }

  lemma CutPrompt(prompt: seq<Byte>, size: nat, maxBlocks: nat, len: nat)
    requires size >= 1 && len == if |prompt| > size * maxBlocks then maxBlocks * size else |prompt|
    ensures len <= |prompt| && Blocks(prompt[..len], size) == Take(Blocks(prompt, size), maxBlocks)
    ensures |Blocks(prompt, size)| == |prompt| / size
  {
    TruncatedBlocks(prompt, size, maxBlocks, size * maxBlocks);
    assert prompt[..|prompt|] == prompt;
    BlockCount(prompt, size);
  }

  /** The hasher's loop over the first `len` bytes of its buffer. */
  method HashBlocks(H: seq<Byte> -> BlockHash, model: seq<Byte>, buf: array<Byte>, len: nat, size: nat)
    returns (res: seq<BlockHash>)
    requires size >= 1 && len <= buf.Length
    modifies buf
    ensures |res| == 1 + |Blocks(old(buf[..len]), size)|
    ensures var blocks := Blocks(old(buf[..len]), size);
            IsHashed(H, model, blocks, size, InPlace(|blocks|, size, buf.Length), res)
  {
    ghost var blocks := Blocks(buf[..len], size);
    ghost var g := InPlace(|blocks|, size, buf.Length);
    ghost var left := buf[0..];  // the part of the original buffer not yet hashed
    assert left[..len] == buf[..len];
    Start(H, model, blocks, left, len, size, g);
    res := [H(model)];
    var i := 0;
    ghost var rem, pending := len, left;
    while i + size <= len
      invariant 0 <= i <= len && rem == len - i && pending == buf[i..]
      invariant Progress(blocks, left, pending, rem, size, g, res)
      invariant InChain(H, model, blocks, left, pending, g, res) && Beyond(H, blocks, left, pending, size, g, res)
      decreases len - i
    {
      var h := HashBlock(H, buf, i, size, res[|res| - 1]);
      ghost var left', rem', pending' := left[size..], rem - size, Overwritten(pending[size..], ToBytes(res[|res| - 1]));
      var res' := res + [h];
      Advance(blocks, left, pending, rem, size, g, res, left', pending', rem', res');
      AdvanceBuffer(H, model, blocks, left, pending, size, g, res, h, left', pending', res');
      left, rem, pending, res, i := left', rem', pending', res', i + size;
    }
    Finish(H, model, blocks, left, pending, rem, size, g, res);
  }

  /** Hashes one block followed by the previous hash. The append goes into the shared buffer
      when there is capacity for it, and then overwrites what follows the block. */
  method HashBlock(H: seq<Byte> -> BlockHash, buf: array<Byte>, i: nat, size: nat, prev: BlockHash)
    returns (h: BlockHash)
    requires i + size <= buf.Length
    modifies buf
    ensures h == H(old(buf[i..])[..size] + ToBytes(prev))
    ensures buf[i + size..] == Overwritten(old(buf[i..])[size..], ToBytes(prev))
  {
    ghost var pending := buf[i..];
    var bs := ToBytes(prev);
    assert pending[..size] == buf[i..i + size] && pending[size..] == buf[i + size..];
    if i + size + 8 <= buf.Length {
      forall j | 0 <= j < 8 {
        buf[i + size + j] := bs[j];
      }
      assert buf[i..i + size + 8] == pending[..size] + bs;
      assert buf[i + size..] == bs + pending[size..][8..];
      h := H(buf[i..i + size + 8]);
    } else {
      h := H(buf[i..i + size] + bs);
    }
  }

  /** A byte sequence after `bs` was written over its start, if it was long enough. */
  ghost function Overwritten(s: seq<Byte>, bs: seq<Byte>): (r: seq<Byte>)
    ensures |r| == |s|
  {
    if |bs| <= |s| then bs + s[|bs|..] else s
  }

  /** After `t` more blocks there is no room to append a hash to the next one. */
  ghost predicate Short(t: int, size: nat, cap: int)
    decreases t
  {
    if t <= 0 then cap < size + 8 else Short(t - 1, size, cap - size)
  }

  lemma {:induction false} ShortFor(t: nat, size: nat, cap: int)
    requires cap < t * size + size + 8
    ensures Short(t, size, cap)
  {
    if t > 0 {
      assert t * size == (t - 1) * size + size;
      ShortFor(t - 1, size, cap - size);
    }
  }

  lemma ShortAfter(n: nat, size: nat, cap: nat)
    requires size >= 1 && InPlace(n, size, cap) < n
    ensures Short(InPlace(n, size, cap) - 1, size, cap)
  {
    if cap >= 8 {
      var q := (cap - 8) / size;
      QuotientRest(cap - 8, size);
      ShortFor(q, size, cap);
    }
  }

  lemma QuotientRest(n: nat, d: nat)
    requires d >= 1
    ensures n < n / d * d + d
  {}

  /** There is room to append a hash to each but the last of `todo` blocks. */
  ghost predicate Room(todo: int, size: nat, cap: int)
    decreases todo
  {
    size >= 8 || todo <= 1 || (size + 8 <= cap && Room(todo - 1, size, cap - size))
  }

  lemma {:induction false} RoomFor(todo: nat, size: nat, cap: int)
    requires todo <= 1 || (todo - 1) * size + 8 <= cap
    ensures Room(todo, size, cap)
  {
    if todo > 1 {
      assert (todo - 1) * size == (todo - 2) * size + size;
      AtLeastOnce(todo - 1, size);
      RoomFor(todo - 1, size, cap - size);
    }
  }

  lemma RoomInPlace(n: nat, size: nat, cap: nat)
    requires size >= 1
    ensures Room(InPlace(n, size, cap), size, cap)
  {
    if size < 8 && n > 1 && cap >= 8 {
      var q, g := (cap - 8) / size, InPlace(n, size, cap);
      Quotients(cap - 8, size);
      AtMost(g - 1, q, size);
      RoomFor(g, size, cap);
    }
  }

  lemma Quotients(n: nat, d: nat)
    requires d >= 1
    ensures n / d * d <= n
  {}

  lemma AtMost(a: int, b: int, d: nat)
    requires a <= b
    ensures a * d <= b * d
  {}

  /** The hasher's loop invariant. `left` and `pending` are the rest of the buffer as it was
      and as it is, `rem` is how much of it is still prompt, `g` how many blocks are in place. */
  ghost predicate Progress(blocks: seq<seq<Byte>>, left: seq<Byte>, pending: seq<Byte>, rem: nat, size: nat,
                           g: nat, res: seq<BlockHash>)
    requires size >= 1
  {
    && 1 <= |res| <= 1 + |blocks| && g <= |blocks|
    && rem <= |left| == |pending|
    && Blocks(left[..rem], size) == blocks[|res| - 1..]
    && Room(g - (|res| - 1), size, |left|)
    && (g < |blocks| ==> Short(g - |res|, size, |left|))
  }

  /** After the blocks in place the buffer is frozen. */
  ghost predicate Beyond(H: seq<Byte> -> BlockHash, blocks: seq<seq<Byte>>, left: seq<Byte>, pending: seq<Byte>,
                         size: nat, g: nat, res: seq<BlockHash>)
  {
    && (g < |res| <= |blocks| ==> pending == Frozen(left, res, g, Span(|res| - g, size)))
    && TailHashed(H, blocks, size, g, res)
  }

  /** As many hashes as there are, up to those of the first `g` blocks, are the chain of their blocks; until
      then the buffer differs from the original by one hash. */
  ghost predicate InChain(H: seq<Byte> -> BlockHash, model: seq<Byte>, blocks: seq<seq<Byte>>,
                          left: seq<Byte>, pending: seq<Byte>, g: nat, res: seq<BlockHash>)
    requires 1 <= |res| <= 1 + |blocks| && g <= |blocks|
  {
    if |res| - 1 < g then
      && res == ChainOf(H, model, blocks[..|res| - 1])
      && (|res| > 1 ==> |left| >= 8)
      && pending == if |res| == 1 then left else Overwritten(left, ToBytes(res[|res| - 2]))
    else res[..g + 1] == ChainOf(H, model, blocks[..g])
  }

  lemma {:induction false} Finish(H: seq<Byte> -> BlockHash, model: seq<Byte>, blocks: seq<seq<Byte>>,
                left: seq<Byte>, pending: seq<Byte>, rem: nat, size: nat, g: nat, res: seq<BlockHash>)
    requires size > rem && size >= 1 && Progress(blocks, left, pending, rem, size, g, res)
    requires InChain(H, model, blocks, left, pending, g, res) && Beyond(H, blocks, left, pending, size, g, res)
    ensures IsHashed(H, model, blocks, size, g, res)
  {
    assert blocks[|res| - 1..] == [];
    ChainOfIsChain(H, model, blocks[..g]);
  }

  lemma {:induction false} Advance(blocks: seq<seq<Byte>>, left: seq<Byte>, pending: seq<Byte>, rem: nat, size: nat,
                g: nat, res: seq<BlockHash>, left': seq<Byte>, pending': seq<Byte>, rem': nat, res': seq<BlockHash>)
    requires 1 <= size <= rem && rem' == rem - size && Progress(blocks, left, pending, rem, size, g, res)
    requires left' == left[size..] && |pending'| == |left'| && |res'| == |res| + 1
    ensures Progress(blocks, left', pending', rem', size, g, res')
    ensures |res| <= |blocks| && left[..size] == blocks[|res| - 1]
    ensures |res| < g ==> |left| >= size + 8
    ensures |res| >= g && g < |blocks| ==> |left| < size + 8
  {
    NextBlock(left, rem, size, blocks, |res| - 1);
    AdvanceRoom(size, g, |res| - 1, |left|);
  }

  lemma AdvanceRoom(size: nat, g: nat, n: nat, cap: nat)
    requires 1 <= size <= cap && Room(g - n, size, cap)
    ensures Room(g - (n + 1), size, cap - size)
    ensures Short(g - (n + 1), size, cap) ==> Short(g - (n + 2), size, cap - size)
  {}

  lemma {:induction false} AdvanceBuffer(H: seq<Byte> -> BlockHash, model: seq<Byte>, blocks: seq<seq<Byte>>,
                left: seq<Byte>, pending: seq<Byte>, size: nat, g: nat, res: seq<BlockHash>, h: BlockHash,
                left': seq<Byte>, pending': seq<Byte>, res': seq<BlockHash>)
    requires 1 <= |res| <= |blocks| && g <= |blocks| && 1 <= size <= |left| == |pending| &&
        left[..size] == blocks[|res| - 1]
    requires |res| < g ==> |left| >= size + 8
    requires |res| >= g && g < |blocks| ==> |left| < size + 8
    requires InChain(H, model, blocks, left, pending, g, res) && Beyond(H, blocks, left, pending, size, g, res)
    requires h == H(pending[..size] + ToBytes(res[|res| - 1]))
    requires left' == left[size..] && pending' == Overwritten(pending[size..], ToBytes(res[|res| - 1])) &&
        res' == res + [h]
    ensures InChain(H, model, blocks, left', pending', g, res') && Beyond(H, blocks, left', pending', size, g, res')
  {
    if |res| <= g {
      AdvanceInPlace(H, model, blocks, left, pending, size, g, res, h);
      if |res| == g < |blocks| {
        FirstFrozen(H, blocks, left, pending, size, g, res, left', pending', res');
      }
    } else {
      AdvanceBeyond(H, model, blocks, left, pending, left', pending', g, res, h);
      StayFrozen(H, blocks, left, pending, size, g, res, h, left', pending', res');
    }
  }

  lemma {:induction false} StayFrozen(H: seq<Byte> -> BlockHash, blocks: seq<seq<Byte>>, left: seq<Byte>,
                                      pending: seq<Byte>,
                    size: nat, g: nat, res: seq<BlockHash>, h: BlockHash,
                    left': seq<Byte>, pending': seq<Byte>, res': seq<BlockHash>)
    requires g < |res| <= |blocks| && size <= |left| == |pending| < size + 8 && left[..size] == blocks[|res| - 1]
    requires Beyond(H, blocks, left, pending, size, g, res)
    requires h == H(pending[..size] + ToBytes(res[|res| - 1])) && res' == res + [h]
    requires left' == left[size..] && pending' == Overwritten(pending[size..], ToBytes(res[|res| - 1]))
    ensures Beyond(H, blocks, left', pending', size, g, res')
  {
    var n := |res| - g;
    NextFrozen(H, blocks, left, pending, size, g, res, pending[..size], h, left', pending', res',
               n, Span(n, size), Span(n + 1, size));
    assert |res'| - g == n + 1;
  }

  lemma StaleParts(bs: seq<Byte>, d: nat, s: seq<Byte>, size: nat)
    requires size <= |s|
    ensures Stale(bs, d, s)[..size] == Stale(bs, d, s[..size])
    ensures Stale(bs, d, s)[size..] == Stale(bs, d + size, s[size..])
  {}

  lemma FirstFrozen(H: seq<Byte> -> BlockHash, blocks: seq<seq<Byte>>, left: seq<Byte>, pending: seq<Byte>, size: nat,
                    g: nat, res: seq<BlockHash>, left': seq<Byte>, pending': seq<Byte>, res': seq<BlockHash>)
    requires 1 <= |res| == g < |blocks| && size <= |left| == |pending| && |left| < size + 8
    requires |res| > 1 ==> |left| >= 8
    requires pending == if |res| == 1 then left else Overwritten(left, ToBytes(res[|res| - 2]))
    requires left' == left[size..] && pending' == Overwritten(pending[size..], ToBytes(res[|res| - 1]))
    requires |res'| == |res| + 1 && res'[..|res|] == res
    ensures Beyond(H, blocks, left', pending', size, g, res')
  {
    assert pending' == pending[size..];
    assert |res'| - g == 1 && Span(1, size) == Span(0, size) + size;
    if g >= 2 {
      assert res'[g - 2] == res'[..|res|][g - 2] == res[g - 2];
      StaleParts(ToBytes(res[g - 2]), 0, left, size);
    }
  }

  lemma {:induction false} NextFrozen(H: seq<Byte> -> BlockHash, blocks: seq<seq<Byte>>, left: seq<Byte>,
                                      pending: seq<Byte>,
                    size: nat, g: nat, res: seq<BlockHash>, seen: seq<Byte>, h: BlockHash,
                    left': seq<Byte>, pending': seq<Byte>, res': seq<BlockHash>, n: nat, d: nat, d': nat)
    requires g < |res| <= |blocks| && size <= |left| == |pending| < size + 8
    requires n == |res| - g && d == Span(n, size) && d' == Span(n + 1, size)
    requires left[..size] == blocks[|res| - 1] && pending == Frozen(left, res, g, d) &&
        TailHashed(H, blocks, size, g, res)
    requires seen == pending[..size] && h == H(seen + ToBytes(res[|res| - 1])) && res' == res + [h]
    requires left' == left[size..] && pending' == Overwritten(pending[size..], ToBytes(res[|res| - 1]))
    ensures pending' == Frozen(left', res', g, d') && TailHashed(H, blocks, size, g, res')
  {
    FrozenParts(left, pending, res, g, d, size, blocks[|res| - 1], seen, left', pending', res', d');
    TailOneMore(H, blocks, size, g, res, d, seen, h, res');
  }

  /** A frozen part splits into two. */
  lemma FrozenParts(s: seq<Byte>, t: seq<Byte>, r: seq<BlockHash>, g: nat, d: nat, size: nat,
                    s1: seq<Byte>, t1: seq<Byte>, s2: seq<Byte>, t2: seq<Byte>, r': seq<BlockHash>, d': nat)
    requires g < |r| <= |r'| && r'[..|r|] == r && size <= |s| && t == Frozen(s, r, g, d) && d' == d + size
    requires s1 == s[..size] && t1 == t[..size] && s2 == s[size..] && t2 == t[size..]
    ensures t1 == Frozen(s1, r, g, d) && t2 == Frozen(s2, r', g, d')
  {
    if g >= 2 {
      assert r'[g - 2] == r'[..|r|][g - 2] == r[g - 2];
      StaleParts(ToBytes(r[g - 2]), d, s, size);
    }
  }

  lemma {:induction false} TailOneMore(H: seq<Byte> -> BlockHash, blocks: seq<seq<Byte>>, size: nat, g: nat,
                    res: seq<BlockHash>, d: nat, seen: seq<Byte>, h: BlockHash, res': seq<BlockHash>)
    requires g < |res| <= |blocks| && TailHashed(H, blocks, size, g, res) && d == Span(|res| - g, size)
    requires seen == Frozen(blocks[|res| - 1], res, g, d)
    requires h == H(seen + ToBytes(res[|res| - 1])) && res' == res + [h]
    ensures TailHashed(H, blocks, size, g, res')
  {
    assert g >= 2 ==> res'[g - 2] == res[g - 2];
    forall k | g <= k < |res'| - 1 ensures FrozenAt(H, blocks, size, g, res', k) {
      if k < |res| - 1 {
        assert FrozenAt(H, blocks, size, g, res, k);
      } else {
        assert k + 1 - g == |res| - g;
      }
    }
  }

  lemma {:induction false} AdvanceBeyond(H: seq<Byte> -> BlockHash, model: seq<Byte>, blocks: seq<seq<Byte>>,
                left: seq<Byte>, pending: seq<Byte>, left': seq<Byte>, pending': seq<Byte>, g: nat,
                    res: seq<BlockHash>, h: BlockHash)
    requires g < |res| <= |blocks| && InChain(H, model, blocks, left, pending, g, res)
    ensures InChain(H, model, blocks, left', pending', g, res + [h])
  {
    assert (res + [h])[..g + 1] == res[..g + 1];
  }

  lemma {:induction false} NextBlock(left: seq<Byte>, rem: nat, size: nat, blocks: seq<seq<Byte>>, n: nat)
    requires 1 <= size <= rem <= |left| && n <= |blocks| && Blocks(left[..rem], size) == blocks[n..]
    ensures n < |blocks| && left[..size] == blocks[n]
    ensures Blocks(left[size..][..rem - size], size) == blocks[n + 1..]
    ensures n + 1 < |blocks| ==> rem >= size + size
  {
    assert left[..rem][..size] == left[..size] && left[..rem][size..] == left[size..][..rem - size];
    assert blocks[n..][0] == blocks[n] && blocks[n..][1..] == blocks[n + 1..];
  }

  lemma {:induction false} AdvanceInPlace(H: seq<Byte> -> BlockHash, model: seq<Byte>, blocks: seq<seq<Byte>>,
                left: seq<Byte>, pending: seq<Byte>, size: nat, g: nat, res: seq<BlockHash>, h: BlockHash)
    requires 1 <= |res| <= g <= |blocks| && 1 <= size <= |left| == |pending|
    requires left[..size] == blocks[|res| - 1] && InChain(H, model, blocks, left, pending, g, res)
    requires |res| < g ==> |left| >= size + 8
    requires h == H(pending[..size] + ToBytes(res[|res| - 1]))
    ensures InChain(H, model, blocks, left[size..], Overwritten(pending[size..], ToBytes(res[|res| - 1])), g, res + [h])
  {
    var n, r' := |res| - 1, res + [h];
    if n > 0 {
      OverwrittenParts(left, ToBytes(res[n - 1]), size);
    }
    assert blocks[..n + 1][..n] == blocks[..n];
    assert Input(blocks[..n + 1], res, n) == pending[..size] + ToBytes(res[n]);
    assert r' == ChainOf(H, model, blocks[..n + 1]);
    assert r'[..n + 2] == r';
    if n + 1 < g {
      assert r'[|r'| - 2] == res[n];
      OverwrittenAgain(left, pending, ToBytes(res[n]), size, if n > 0 then ToBytes(res[n - 1]) else []);
    }
  }

  lemma OverwrittenParts(s: seq<Byte>, bs: seq<Byte>, size: nat)
    requires |bs| <= |s| && size <= |s|
    ensures Overwritten(s, bs)[..size] == Take(bs, size) + if |bs| <= size then s[..size][|bs|..] else []
  {}

  /** A second hash, written after the block, covers what is left of the first. */
  lemma OverwrittenAgain(left: seq<Byte>, pending: seq<Byte>, bs: seq<Byte>, size: nat, was: seq<Byte>)
    requires |was| <= |bs| && size + |bs| <= |left| && pending == Overwritten(left, was)
    ensures Overwritten(pending[size..], bs) == Overwritten(left[size..], bs)
  {}

  lemma Start(H: seq<Byte> -> BlockHash, model: seq<Byte>, blocks: seq<seq<Byte>>, left: seq<Byte>, rem: nat,
              size: nat, g: nat)
    requires size >= 1 && rem <= |left| && blocks == Blocks(left[..rem], size)
    requires g == InPlace(|blocks|, size, |left|)
    ensures Progress(blocks, left, left, rem, size, g, [H(model)])
    ensures InChain(H, model, blocks, left, left, g, [H(model)]) && Beyond(H, blocks, left, left, size, g, [H(model)])
  {
    RoomInPlace(|blocks|, size, |left|);
    if g < |blocks| {
      ShortAfter(|blocks|, size, |left|);
    }
    assert blocks[0..] == blocks;
    assert blocks[..0] == [];
    assert g == 0 ==> [H(model)][..1] == [H(model)];
  }

  lemma {:induction false} BlocksFit(prompt: seq<Byte>, size: nat)
    requires size >= 1
    ensures |Blocks(prompt, size)| * size <= |prompt| < |Blocks(prompt, size)| * size + size
    decreases |prompt|
  {
    if |prompt| >= size {
      BlocksFit(prompt[size..], size);
      assert |Blocks(prompt, size)| == |Blocks(prompt[size..], size)| + 1;
    }
  }

  lemma {:induction false} BlocksSized(prompt: seq<Byte>, size: nat, i: nat)
    requires size >= 1 && i < |Blocks(prompt, size)|
    ensures |Blocks(prompt, size)[i]| == size
    decreases |prompt|
  {
    if i > 0 {
      BlocksSized(prompt[size..], size, i - 1);
    }
  }

  lemma BlockCount(prompt: seq<Byte>, size: nat)
    requires size >= 1
    ensures |Blocks(prompt, size)| == |prompt| / size
  {
    BlocksFit(prompt, size);
    Quotient(|prompt|, size, |Blocks(prompt, size)|);
  }

  /** Truncating the prompt is truncating the list of blocks. */
  lemma {:induction false} TruncatedBlocks(prompt: seq<Byte>, size: nat, max: nat, limit: nat)
    requires size >= 1 && limit == size * max
    ensures |prompt| > limit ==> Blocks(prompt[..limit], size) == Take(Blocks(prompt, size), max)
    ensures |prompt| <= limit ==> |Blocks(prompt, size)| <= max
    decreases max
  {
    if max > 0 && |prompt| >= size {
      var rest := prompt[size..];
      assert size * (max - 1) == limit - size;
      TruncatedBlocks(rest, size, max - 1, limit - size);
      if |prompt| > limit {
        var cut := prompt[..limit];
        assert cut[..size] == prompt[..size] && cut[size..] == rest[..limit - size];
        assert Blocks(cut, size) == [prompt[..size]] + Blocks(rest[..limit - size], size);
      }
    }
  }
}
