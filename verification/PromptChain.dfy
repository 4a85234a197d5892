/** What a prefix hash says about the prompt it came from. */
module PromptChain {
  import opened PrefixTypes
  import opened PromptHash

  ghost predicate Sized(blocks: seq<seq<Byte>>, size: nat) {
    size >= 8 && forall i :: 0 <= i < |blocks| ==> |blocks[i]| == size
  }

  lemma PromptIsSized(prompt: seq<Byte>, size: nat, max: nat)
    requires size >= 8
    ensures Sized(Take(Blocks(prompt, size), max), size)
  {
    var blocks := Take(Blocks(prompt, size), max);
    forall i | 0 <= i < |blocks| ensures |blocks[i]| == size {
      BlocksSized(prompt, size, i);
    }
  }

  ghost predicate Wide(blocks: seq<seq<Byte>>) {
    forall i :: 0 <= i < |blocks| ==> |blocks[i]| >= 8
  }

  /** Two prompts agree on the first `k` blocks, except for the first 8 bytes of every block
      after block 0. */
  ghost predicate SameVisible(b1: seq<seq<Byte>>, b2: seq<seq<Byte>>, k: nat) {
    && k <= |b1| && k <= |b2|
    && (k >= 1 ==> b1[0] == b2[0])
    && forall j :: 1 <= j < k ==> |b1[j]| == |b2[j]| && Visible(b1[j]) == Visible(b2[j])
  }

  /** Everything hashed while computing a chain. */
  ghost function Inputs(model: seq<Byte>, blocks: seq<seq<Byte>>, r: seq<BlockHash>): set<seq<Byte>>
    requires |r| == 1 + |blocks|
  {
    {model} + set k | 0 <= k < |blocks| :: Input(blocks, r, k)
  }

  /** The input whose hash stands at place `j` of a chain. */
  ghost function Hashed(model: seq<Byte>, blocks: seq<seq<Byte>>, r: seq<BlockHash>, j: nat): seq<Byte>
    requires j < |r| == 1 + |blocks|
  {
    if j == 0 then model else Input(blocks, r, j - 1)
  }

  lemma HashedAt(H: seq<Byte> -> BlockHash, m: seq<Byte>, blocks: seq<seq<Byte>>, r: seq<BlockHash>, j: nat)
    requires IsChain(H, m, blocks, r) && j < |r|
    ensures H(Hashed(m, blocks, r, j)) == r[j]
    ensures Hashed(m, blocks, r, j) in Inputs(m, blocks, r)
  {
    if j > 0 {
      assert r[(j - 1) + 1] == H(Input(blocks, r, j - 1));
    }
  }

  ghost predicate CollisionFree(H: seq<Byte> -> BlockHash, xs: set<seq<Byte>>) {
    forall x, y :: x in xs && y in xs && H(x) == H(y) ==> x == y
  }

  /** The first k + 1 hashes depend only on the model and the visible bytes of the first k blocks. */
  lemma {:induction false} SharedPrefixSharedHashes(H: seq<Byte> -> BlockHash, m: seq<Byte>,
      b1: seq<seq<Byte>>, r1: seq<BlockHash>, b2: seq<seq<Byte>>, r2: seq<BlockHash>, k: nat)
    requires IsChain(H, m, b1, r1)
    requires IsChain(H, m, b2, r2)
    requires SameVisible(b1, b2, k)
    ensures r1[..k + 1] == r2[..k + 1]
  {
    if k > 0 {
      SharedPrefixSharedHashes(H, m, b1, r1, b2, r2, k - 1);
      assert r1[k - 1] == r1[..k][k - 1] == r2[..k][k - 1] == r2[k - 1];
      if k > 1 {
        assert r1[k - 2] == r1[..k][k - 2] == r2[..k][k - 2] == r2[k - 2];
      }
      assert Input(b1, r1, k - 1) == Input(b2, r2, k - 1);
      assert r1[..k + 1] == r1[..k] + [r1[k]] && r2[..k + 1] == r2[..k] + [r2[k]];
    }
  }

  lemma ChainUnique(H: seq<Byte> -> BlockHash, m: seq<Byte>, blocks: seq<seq<Byte>>, r1: seq<BlockHash>,
                    r2: seq<BlockHash>)
    requires IsChain(H, m, blocks, r1) && IsChain(H, m, blocks, r2)
    ensures r1 == r2
  {
    SharedPrefixSharedHashes(H, m, blocks, r1, blocks, r2, |blocks|);
    assert r1[..|blocks| + 1] == r1 && r2[..|blocks| + 1] == r2;
  }

  /** Equal inputs are equal in each part. */
  lemma InputParts(size: nat, b1: seq<seq<Byte>>, r1: seq<BlockHash>, j: nat,
                   b2: seq<seq<Byte>>, r2: seq<BlockHash>, k: nat)
    requires Sized(b1, size) && Sized(b2, size)
    requires j < |b1| && j < |r1| && k < |b2| && k < |r2|
    requires Input(b1, r1, j) == Input(b2, r2, k)
    ensures r1[j] == r2[k]
    ensures j == k == 0 ==> b1[0] == b2[0]
    ensures j > 0 && k > 0 ==> Visible(b1[j]) == Visible(b2[k])
  {
    var x, y := Input(b1, r1, j), Input(b2, r2, k);
    assert x[size..] == ToBytes(r1[j]) && y[size..] == ToBytes(r2[k]);
    ToBytesInjective(r1[j], r2[k]);
    if j == 0 && k == 0 {
      assert x[..size] == b1[0] && y[..size] == b2[0];
    }
    if j > 0 && k > 0 {
      assert x[..size][8..] == Visible(b1[j]) && y[..size][8..] == Visible(b2[k]);
    }
  }

  /** Equal hashes in two chains come from equal inputs. */
  ghost predicate Faithful(m1: seq<Byte>, b1: seq<seq<Byte>>, r1: seq<BlockHash>,
                           m2: seq<Byte>, b2: seq<seq<Byte>>, r2: seq<BlockHash>) {
    && |r1| == 1 + |b1| && |r2| == 1 + |b2|
    && forall j, k {:trigger Hashed(m1, b1, r1, j), Hashed(m2, b2, r2, k)} ::
         0 <= j < |r1| && 0 <= k < |r2| && r1[j] == r2[k] ==> Hashed(m1, b1, r1, j) == Hashed(m2, b2, r2, k)
  }

  lemma {:induction false} FaithfulSharedPrefix(size: nat,
      m1: seq<Byte>, b1: seq<seq<Byte>>, r1: seq<BlockHash>, j: nat,
      m2: seq<Byte>, b2: seq<seq<Byte>>, r2: seq<BlockHash>, k: nat)
    requires Sized(b1, size) && Sized(b2, size) && Faithful(m1, b1, r1, m2, b2, r2)
    requires j < |r1| && k < |r2| && r1[j] == r2[k]
    requires j == k || (|m1| != size + 8 && |m2| != size + 8)
    ensures j == k && m1 == m2 && SameVisible(b1, b2, k)
    decreases j
  {
    assert Hashed(m1, b1, r1, j) == Hashed(m2, b2, r2, k);
    HashedLength(size, m1, b1, r1, j);
    HashedLength(size, m2, b2, r2, k);
    if j > 0 && k > 0 {
      InputParts(size, b1, r1, j - 1, b2, r2, k - 1);
      FaithfulSharedPrefix(size, m1, b1, r1, j - 1, m2, b2, r2, k - 1);
    }
  }

  lemma HashedLength(size: nat, m: seq<Byte>, blocks: seq<seq<Byte>>, r: seq<BlockHash>, j: nat)
    requires Sized(blocks, size) && j < |r| == 1 + |blocks|
    ensures j > 0 ==> |Hashed(m, blocks, r, j)| == size + 8
  {}

  /** If the hash is free of collisions on what was hashed, then a hash that occurs in two chains
      occurs at the same place, for the same model and the same visible bytes up to there. */
  lemma SharedHashSharedPrefix(H: seq<Byte> -> BlockHash, size: nat,
      m1: seq<Byte>, b1: seq<seq<Byte>>, r1: seq<BlockHash>, j: nat,
      m2: seq<Byte>, b2: seq<seq<Byte>>, r2: seq<BlockHash>, k: nat)
    requires Sized(b1, size) && IsChain(H, m1, b1, r1)
    requires Sized(b2, size) && IsChain(H, m2, b2, r2)
    requires CollisionFree(H, Inputs(m1, b1, r1) + Inputs(m2, b2, r2))
    requires j < |r1| && k < |r2| && r1[j] == r2[k]
    requires j == k || (|m1| != size + 8 && |m2| != size + 8)
    ensures j == k && m1 == m2 && SameVisible(b1, b2, k)
  {
    forall j', k' | 0 <= j' < |r1| && 0 <= k' < |r2| && r1[j'] == r2[k']
      ensures Hashed(m1, b1, r1, j') == Hashed(m2, b2, r2, k')
    {
      HashedAt(H, m1, b1, r1, j');
      HashedAt(H, m2, b2, r2, k');
    }
    FaithfulSharedPrefix(size, m1, b1, r1, j, m2, b2, r2, k);
  }

  /** At one and the same place, two hashes agree exactly when model and visible prefix do. */
  lemma HashesAgreeIff(H: seq<Byte> -> BlockHash, size: nat,
      m1: seq<Byte>, b1: seq<seq<Byte>>, r1: seq<BlockHash>,
      m2: seq<Byte>, b2: seq<seq<Byte>>, r2: seq<BlockHash>, k: nat)
    requires Sized(b1, size) && IsChain(H, m1, b1, r1)
    requires Sized(b2, size) && IsChain(H, m2, b2, r2)
    requires CollisionFree(H, Inputs(m1, b1, r1) + Inputs(m2, b2, r2))
    requires k < |r1| && k < |r2|
    ensures r1[k] == r2[k] <==> m1 == m2 && SameVisible(b1, b2, k)
  {
    if r1[k] == r2[k] {
      SharedHashSharedPrefix(H, size, m1, b1, r1, k, m2, b2, r2, k);
    }
    if m1 == m2 && SameVisible(b1, b2, k) {
      SharedPrefixSharedHashes(H, m1, b1, r1, b2, r2, k);
      assert r1[k] == r1[..k + 1][k] == r2[..k + 1][k] == r2[k];
    }
  }

  // ---- The documented recurrence

  /** The bytes that the in-place append writes over block `k` were there already. */
  ghost predicate Harmless(blocks: seq<seq<Byte>>, r: seq<BlockHash>, k: nat)
    requires 1 <= k < |blocks| && k < |r| && |blocks[k]| >= 8
  {
    blocks[k][..8] == ToBytes(r[k - 1])
  }

  ghost function DocumentedInputs(model: seq<Byte>, blocks: seq<seq<Byte>>, d: seq<BlockHash>): set<seq<Byte>>
    requires |d| == 1 + |blocks|
  {
    {model} + set k | 0 <= k < |blocks| :: blocks[k] + ToBytes(d[k])
  }

  lemma DocumentedIsHarmless(H: seq<Byte> -> BlockHash, m: seq<Byte>, blocks: seq<seq<Byte>>, r: seq<BlockHash>, k: nat)
    requires Wide(blocks) && IsChain(H, m, blocks, r) && IsDocumented(H, m, blocks, r)
    requires CollisionFree(H, Inputs(m, blocks, r) + DocumentedInputs(m, blocks, r))
    requires 1 <= k < |blocks|
    ensures Harmless(blocks, r, k)
  {
    var x, y := Input(blocks, r, k), blocks[k] + ToBytes(r[k]);
    assert x in Inputs(m, blocks, r) && y in DocumentedInputs(m, blocks, r);
    assert H(x) == r[k + 1] == H(y);
    assert x[..8] == ToBytes(r[k - 1]) && y[..8] == blocks[k][..8];
  }

  /** The code computes the documented chain exactly when that chain would make every overwrite harmless. */
  lemma DocumentedIff(H: seq<Byte> -> BlockHash, m: seq<Byte>, blocks: seq<seq<Byte>>,
                      r: seq<BlockHash>, d: seq<BlockHash>)
    requires Wide(blocks) && IsChain(H, m, blocks, r) && IsDocumented(H, m, blocks, d)
    requires CollisionFree(H, Inputs(m, blocks, r) + DocumentedInputs(m, blocks, d))
    ensures r == d <==> forall k :: 1 <= k < |blocks| ==> Harmless(blocks, d, k)
  {
    if r == d {
      forall k | 1 <= k < |blocks| ensures Harmless(blocks, d, k) {
        DocumentedIsHarmless(H, m, blocks, r, k);
      }
    }
    if forall k :: 1 <= k < |blocks| ==> Harmless(blocks, d, k) {
      HarmlessIsDocumented(H, m, blocks, r, d, |blocks|);
      assert r[..|blocks| + 1] == r && d[..|blocks| + 1] == d;
    }
  }

  lemma {:induction false} HarmlessIsDocumented(H: seq<Byte> -> BlockHash, m: seq<Byte>, blocks: seq<seq<Byte>>,
                                                r: seq<BlockHash>, d: seq<BlockHash>, n: nat)
    requires Wide(blocks) && IsChain(H, m, blocks, r) && IsDocumented(H, m, blocks, d)
    requires n <= |blocks| && forall k :: 1 <= k < n ==> Harmless(blocks, d, k)
    ensures r[..n + 1] == d[..n + 1]
  {
    if n > 0 {
      HarmlessIsDocumented(H, m, blocks, r, d, n - 1);
      assert r[n - 1] == r[..n][n - 1] == d[..n][n - 1] == d[n - 1];
      assert n > 1 ==> Harmless(blocks, d, n - 1) && r[n - 2] == r[..n][n - 2] == d[..n][n - 2] == d[n - 2];
      assert blocks[n - 1] == blocks[n - 1][..8] + blocks[n - 1][8..];
      assert Input(blocks, r, n - 1) == blocks[n - 1] + ToBytes(d[n - 1]);
      assert r[..n + 1] == r[..n] + [r[n]] && d[..n + 1] == d[..n] + [d[n]];
    }
  }

  /** Two different prompts of two 8-byte blocks have the same chain, whatever the hash. Their documented
      chains differ under every hash that is free of collisions on them. */
  lemma OverwriteHidesBytes(H: seq<Byte> -> BlockHash, m: seq<Byte>, b1: seq<seq<Byte>>, b2: seq<seq<Byte>>,
                            r1: seq<BlockHash>, r2: seq<BlockHash>, d1: seq<BlockHash>, d2: seq<BlockHash>)
    requires b1 == [[1, 1, 1, 1, 1, 1, 1, 1], [2, 2, 2, 2, 2, 2, 2, 2]]
    requires b2 == [[1, 1, 1, 1, 1, 1, 1, 1], [3, 3, 3, 3, 3, 3, 3, 3]]
    requires IsChain(H, m, b1, r1) && IsDocumented(H, m, b1, d1)
    requires IsChain(H, m, b2, r2) && IsDocumented(H, m, b2, d2)
    ensures r1 == r2
    ensures CollisionFree(H, DocumentedInputs(m, b1, d1) + DocumentedInputs(m, b2, d2)) ==> d1 != d2
  {
    ShortChainsShare(H, m, 8, b1, r1, b2, r2, 2);
    assert r1[..3] == r1 && r2[..3] == r2;
    var x, y := b1[1] + ToBytes(d1[1]), b2[1] + ToBytes(d2[1]);
    assert x in DocumentedInputs(m, b1, d1) && y in DocumentedInputs(m, b2, d2);
    assert x[0] == 2 && y[0] == 3;
    assert d1[1 + 1] == H(x) && d2[1 + 1] == H(y);
  }

  /** With blocks of at most 8 bytes a chain knows nothing but the first block and how many there are. */
  lemma ShortChainsShare(H: seq<Byte> -> BlockHash, m: seq<Byte>, size: nat,
                         b1: seq<seq<Byte>>, r1: seq<BlockHash>, b2: seq<seq<Byte>>, r2: seq<BlockHash>, n: nat)
    requires size <= 8 && 1 <= n <= |b1| && n <= |b2| && b1[0] == b2[0]
    requires forall i :: 0 <= i < n ==> |b1[i]| == |b2[i]| == size
    requires IsChain(H, m, b1, r1) && IsChain(H, m, b2, r2)
    ensures r1[..n + 1] == r2[..n + 1]
  {
    forall j | 1 <= j < n ensures Visible(b1[j]) == Visible(b2[j]) {
      assert Visible(b1[j]) == [] && Visible(b2[j]) == [];
    }
    SharedPrefixSharedHashes(H, m, b1, r1, b2, r2, n);
  }

  /** So do the hashes computed, as far as the blocks are in place: prompts that agree on the first block agree
      on those hashes, whatever the other blocks are. */
  lemma ShortBlocksShare(H: seq<Byte> -> BlockHash, m: seq<Byte>, size: nat, b1: seq<seq<Byte>>, g1: nat,
                         r1: seq<BlockHash>,
                         b2: seq<seq<Byte>>, g2: nat, r2: seq<BlockHash>, n: nat)
    requires size <= 8 && IsHashed(H, m, b1, size, g1, r1) && IsHashed(H, m, b2, size, g2, r2)
    requires 1 <= n <= g1 && n <= g2 && b1[0] == b2[0]
    requires forall i :: 0 <= i < n ==> |b1[i]| == |b2[i]| == size
    ensures r1[..n + 1] == r2[..n + 1]
  {
    ShortChainsShare(H, m, size, b1[..g1], r1[..g1 + 1], b2[..g2], r2[..g2 + 1], n);
    assert r1[..g1 + 1][..n + 1] == r1[..n + 1] && r2[..g2 + 1][..n + 1] == r2[..n + 1];
  }

  /** Where not even the first append fits, nothing is overwritten and the hashes are the documented ones. */
  lemma NoRoomIsDocumented(H: seq<Byte> -> BlockHash, m: seq<Byte>, blocks: seq<seq<Byte>>, size: nat, g: nat,
                           r: seq<BlockHash>)
    requires IsHashed(H, m, blocks, size, g, r) && g <= 1
    ensures IsDocumented(H, m, blocks, r)
  {
    assert r[0] == r[..g + 1][0];
    forall k | 0 <= k < |blocks| ensures r[k + 1] == H(blocks[k] + ToBytes(r[k])) {
      if k >= g {
        assert FrozenAt(H, blocks, size, g, r, k);
      } else {
        assert r[..g + 1][0 + 1] == H(Input(blocks[..g], r[..g + 1], 0));
      }
    }
  }

  /** Four bytes a block, two blocks, no spare capacity: no append fits, and the second block counts. */
  lemma NoRoomExample(H: seq<Byte> -> BlockHash, m: seq<Byte>, blocks: seq<seq<Byte>>, r: seq<BlockHash>)
    requires |blocks| == 2 && IsHashed(H, m, blocks, 4, InPlace(2, 4, 8), r)
    ensures InPlace(2, 4, 8) == 1 && r[2] == H(blocks[1] + ToBytes(r[1]))
  {
    NoRoomIsDocumented(H, m, blocks, 4, 1, r);
    assert r[1 + 1] == H(blocks[1] + ToBytes(r[1]));
  }
}
