/**
 * Possession proofs (api/challenge_helpers.go) and what a Merkle root pins down.
 *
 * No hash of fixed length is injective, so the security statements have the form "equal, or the
 * hash is broken on strings that were hashed to compute the two sides". The sets of those
 * strings are spelled out: a collision somewhere among all strings would prove nothing.
 */
module MerkleProof {
  import opened Basics
  import opened Encoding
  import opened Merkle

  // ----- the code: sibling lists -----

  function Sibling(idx: nat): nat {
    if idx % 2 == 0 then idx + 1 else idx - 1
  }

  /** The siblings met on the way from position idx up to the root. */
  function Siblings(H: Hashes, level: Level, idx: nat): (sibs: Level)
    requires IsPow2(|level|) && idx < |level|
    decreases |level|
  {
    if |level| == 1 then []
    else [level[Sibling(idx)]] + Siblings(H, PairUp(H, level), idx / 2)
  }

  function HexAll(items: Level): (texts: seq<Text>)
    ensures |texts| == |items|
  {
    seq(|items|, i requires 0 <= i < |items| => HexEncode(items[i]))
  }

  function ProofOf(H: Hashes, leaves: Level, idx: nat): seq<Text>
    requires |leaves| > 1 ==> idx < Pow2Ceil(|leaves|)
  {
    if |leaves| <= 1 then [] else HexAll(Siblings(H, Pad(leaves), idx))
  }

  /** Padding as the api package does it: allocate, copy, fill with zero hashes. */
  method PadLevel(leaves: Level) returns (level: Level)
    requires leaves != []
    ensures level == Pad(leaves)
  {
    var target := NextPow2(|leaves|);
    level := leaves;
    for i := |leaves| to target
      invariant |level| == i && level == Pad(leaves)[..i]
    {
      level := level + [ZeroHash()];
    }
  }

  /** The caller checks the index first: past the padded level the original fails. */
  method ComputeMerkleProof(H: Hashes, leaves: Level, leafIndex: nat) returns (siblings: seq<Text>)
    requires |leaves| > 1 ==> leafIndex < Pow2Ceil(|leaves|)
    ensures siblings == ProofOf(H, leaves, leafIndex)
  {
    if |leaves| <= 1 {
      return [];
    }
    var level := PadLevel(leaves);
    siblings := [];
    var idx: nat := leafIndex;
    ghost var gone: Level := [];
    while |level| > 1
      invariant IsPow2(|level|) && idx < |level|
      invariant Siblings(H, Pad(leaves), leafIndex) == gone + Siblings(H, level, idx)
      invariant siblings == HexAll(gone)
      decreases |level|
    {
      ghost var sib, rest := level[Sibling(idx)], Siblings(H, PairUp(H, level), idx / 2);
      assert gone + ([sib] + rest) == gone + [sib] + rest;
      assert HexAll(gone + [sib]) == HexAll(gone) + [HexEncode(sib)];
      gone := gone + [sib];
      if idx % 2 == 0 {
        siblings := siblings + [HexEncode(level[idx + 1])];
      } else {
        siblings := siblings + [HexEncode(level[idx - 1])];
      }
      level := HashPairs(H, level);
      idx := idx / 2;
    }
    assert gone + [] == gone;
  }

  // ----- the verifier's walk -----

  function Combine(current: seq<byte>, sibling: seq<byte>, idx: nat): seq<byte> {
    if idx % 2 == 0 then current + sibling else sibling + current
  }

  function Walk(H: Hashes, current: seq<byte>, siblings: Level, idx: nat): seq<byte>
    decreases |siblings|
  {
    if siblings == [] then current
    else Walk(H, H.sha3(Combine(current, siblings[0], idx)), siblings[1..], idx / 2)
  }

  /** The walk over siblings as they travel, in hex; None where one does not decode. */
  function WalkTexts(H: Hashes, current: seq<byte>, siblings: seq<Text>, idx: nat): Option<seq<byte>>
    decreases |siblings|
  {
    if siblings == [] then Some(current)
    else
      match HexDecode(siblings[0])
      case None => None
      case Some(sib) => WalkTexts(H, H.sha3(Combine(current, sib, idx)), siblings[1..], idx / 2)
  }

  /** A walk over text that succeeds is a walk over some siblings of any lengths. */
  lemma {:induction false} WalkTextsDecodes(H: Hashes, current: seq<byte>, siblings: seq<Text>, idx: nat)
      returns (raw: Level)
    requires WalkTexts(H, current, siblings, idx).Some?
    ensures |raw| == |siblings| && WalkTexts(H, current, siblings, idx) == Some(Walk(H, current, raw, idx))
    decreases |siblings|
  {
    if siblings == [] {
      raw := [];
    } else {
      var sib := HexDecode(siblings[0]).value;
      var rest := WalkTextsDecodes(H, H.sha3(Combine(current, sib, idx)), siblings[1..], idx / 2);
      raw := [sib] + rest;
      assert raw[1..] == rest;
    }
  }

  lemma {:induction false} WalkTextsEncoded(H: Hashes, current: seq<byte>, raw: Level, idx: nat)
    ensures WalkTexts(H, current, HexAll(raw), idx) == Some(Walk(H, current, raw, idx))
    decreases |raw|
  {
    if raw != [] {
      HexRoundTrip(raw[0]);
      assert HexAll(raw)[1..] == HexAll(raw[1..]);
      WalkTextsEncoded(H, H.sha3(Combine(current, raw[0], idx)), raw[1..], idx / 2);
    }
  }

  function Exp2(d: nat): nat {
    if d == 0 then 1 else 2 * Exp2(d - 1)
  }

  /** Honest siblings walk to the root, and there are exactly as many as the tree has levels. */
  lemma {:induction false} SiblingsWalk(H: Hashes, level: Level, idx: nat)
    requires IsPow2(|level|) && idx < |level|
    ensures Walk(H, level[idx], Siblings(H, level, idx), idx) == Fold(H, level)
    ensures Exp2(|Siblings(H, level, idx)|) == |level|
    decreases |level|
  {
    if |level| > 1 {
      var next, sib := PairUp(H, level), level[Sibling(idx)];
      var rest := Siblings(H, next, idx / 2);
      SiblingsWalk(H, next, idx / 2);
      assert Combine(level[idx], sib, idx) == Pair(level, idx / 2);
      assert ([sib] + rest)[1..] == rest && Siblings(H, level, idx) == [sib] + rest;
      assert Walk(H, level[idx], [sib] + rest, idx) == Walk(H, next[idx / 2], rest, idx / 2);
    }
  }

  /** Every leaf has a proof, of length d with 2^d the padded size, that walks to the root. */
  lemma ProofComplete(H: Hashes, leaves: Level, idx: nat)
    requires idx < |leaves|
    ensures WalkTexts(H, leaves[idx], ProofOf(H, leaves, idx), idx) == Some(TreeRoot(H, leaves))
    ensures Exp2(|ProofOf(H, leaves, idx)|) == Pow2Ceil(|leaves|)
    ensures |leaves| <= Pow2Ceil(|leaves|) < 2 * |leaves|
  {
    var level := Pad(leaves);
    SiblingsWalk(H, level, idx);
    WalkTextsEncoded(H, leaves[idx], Siblings(H, level, idx), idx);
    assert level[idx] == level[..|leaves|][idx] == leaves[idx];
    if |leaves| == 1 {
      assert Siblings(H, level, idx) == [];
    }
  }

  // ----- broken hashes -----

  /** SHA3 collides on q, or maps a member of q to the padding leaf. */
  ghost predicate Sha3Broken(H: Hashes, q: set<seq<byte>>) {
    || (exists x, y :: x in q && y in q && x != y && H.sha3(x) == H.sha3(y))
    || (exists x :: x in q && H.sha3(x) == ZeroHash())
  }

  ghost predicate Sha256Broken(H: Hashes, q: set<seq<byte>>) {
    exists x, y :: x in q && y in q && x != y && H.sha256(x) == H.sha256(y)
  }

  /** The strings hashed to fold a level to its root. */
  ghost function FoldQueries(H: Hashes, level: Level): set<seq<byte>>
    requires IsPow2(|level|)
    decreases |level|
  {
    if |level| == 1 then {}
    else (set i | 0 <= i < |level| / 2 :: Pair(level, i)) + FoldQueries(H, PairUp(H, level))
  }

  /** The strings a verifier hashes along a walk. */
  ghost function WalkQueries(H: Hashes, current: seq<byte>, siblings: Level, idx: nat): set<seq<byte>>
    decreases |siblings|
  {
    if siblings == [] then {}
    else
      var pre := Combine(current, siblings[0], idx);
      {pre} + WalkQueries(H, H.sha3(pre), siblings[1..], idx / 2)
  }

  ghost predicate Nodes(level: Level) {
    forall i :: 0 <= i < |level| ==> |level[i]| == 64
  }

  // ----- folding part of the way -----

  ghost function FoldTo(H: Hashes, level: Level, m: nat): (top: Level)
    requires IsPow2(|level|) && IsPow2(m) && m <= |level|
    ensures |top| == m
    decreases |level|
  {
    if |level| == m then level
    else
      Pow2Doubles(m, |level|);
      FoldTo(H, PairUp(H, level), m)
  }

  /** Folding on from the part-way level ends in the same root; its nodes hash 128-byte strings. */
  lemma {:induction false} FoldToFacts(H: Hashes, level: Level, m: nat)
    requires IsPow2(|level|) && IsPow2(m) && m <= |level| && Nodes(level)
    ensures Fold(H, FoldTo(H, level, m)) == Fold(H, level)
    ensures FoldQueries(H, FoldTo(H, level, m)) <= FoldQueries(H, level)
    ensures Nodes(FoldTo(H, level, m))
    ensures m < |level| ==> forall i :: 0 <= i < m ==> HashOfPair(H, FoldTo(H, level, m)[i], FoldQueries(H, level))
    decreases |level|
  {
    if m < |level| {
      Pow2Doubles(m, |level|);
      var next := PairUp(H, level);
      FoldToFacts(H, next, m);
      if |next| == m {
        forall i | 0 <= i < m
          ensures HashOfPair(H, FoldTo(H, level, m)[i], FoldQueries(H, level))
        {
          var x := Pair(level, i);
          assert x in FoldQueries(H, level) && |x| == 128 && H.sha3(x) == next[i];
        }
      }
    }
  }

  ghost predicate HashOfPair(H: Hashes, node: seq<byte>, q: set<seq<byte>>) {
    exists x :: x in q && |x| == 128 && H.sha3(x) == node
  }

  // ----- walks are sound -----

  lemma HalvesOfPair(level: Level, idx: nat, leaf: seq<byte>, sib: seq<byte>)
    requires |level| % 2 == 0 && Nodes(level) && idx < |level| && |leaf| == 64
    requires Combine(leaf, sib, idx) == Pair(level, idx / 2)
    ensures leaf == level[idx]
  {
    var pair := Pair(level, idx / 2);
    assert |pair| == 128;
    assert leaf == if idx % 2 == 0 then pair[..64] else pair[64..];
  }

  /** A walk as long as the tree is deep started at the leaf of that number, or SHA3 collides. */
  lemma {:induction false} WalkSameDepth(H: Hashes, level: Level, leaf: seq<byte>, sibs: Level, idx: nat,
                                         q: set<seq<byte>>)
    requires IsPow2(|level|) && Nodes(level) && |level| == Exp2(|sibs|) && idx < |level| && |leaf| == 64
    requires Walk(H, leaf, sibs, idx) == Fold(H, level)
    requires FoldQueries(H, level) <= q && WalkQueries(H, leaf, sibs, idx) <= q
    ensures leaf == level[idx] || Sha3Broken(H, q)
    decreases |sibs|
  {
    if sibs != [] {
      var pre := Combine(leaf, sibs[0], idx);
      var next := PairUp(H, level);
      WalkSameDepth(H, next, H.sha3(pre), sibs[1..], idx / 2, q);
      var pair := Pair(level, idx / 2);
      assert pre in q && pair in q;
      if H.sha3(pre) == next[idx / 2] && pre == pair {
        HalvesOfPair(level, idx, leaf, sibs[0]);
      }
    }
  }

  /** Only the low bits of the number steer a walk of k steps. */
  ghost function LowBits(idx: nat, k: nat): (r: nat)
    ensures r < Exp2(k)
  {
    if k == 0 then 0 else 2 * LowBits(idx / 2, k - 1) + idx % 2
  }

  lemma {:induction false} WalkLowBits(H: Hashes, leaf: seq<byte>, sibs: Level, idx: nat)
    ensures Walk(H, leaf, sibs, idx) == Walk(H, leaf, sibs, LowBits(idx, |sibs|))
    ensures WalkQueries(H, leaf, sibs, idx) == WalkQueries(H, leaf, sibs, LowBits(idx, |sibs|))
    decreases |sibs|
  {
    if sibs != [] {
      WalkLowBits(H, H.sha3(Combine(leaf, sibs[0], idx)), sibs[1..], idx / 2);
    }
  }

  lemma {:induction false} Exp2Pow2(d: nat)
    ensures IsPow2(Exp2(d))
  {
    if d > 0 {
      Exp2Pow2(d - 1);
    }
  }

  /** A walk too short for the tree would make a 32-byte string collide with a 128-byte one. */
  lemma WalkTooShort(H: Hashes, level: Level, raw: seq<byte>, sibs: Level, idx: nat, q: set<seq<byte>>)
    requires IsPow2(|level|) && Nodes(level) && Exp2(|sibs|) < |level| && |raw| == 32 && raw in q
    requires Walk(H, H.sha3(raw), sibs, idx) == Fold(H, level)
    requires FoldQueries(H, level) <= q && WalkQueries(H, H.sha3(raw), sibs, idx) <= q
    ensures Sha3Broken(H, q)
  {
    var k := |sibs|;
    Exp2Pow2(k);
    FoldToFacts(H, level, Exp2(k));
    WalkLowBits(H, H.sha3(raw), sibs, idx);
    var i := LowBits(idx, k);
    WalkSameDepth(H, FoldTo(H, level, Exp2(k)), H.sha3(raw), sibs, i, q);
    var x :| x in FoldQueries(H, level) && |x| == 128 && H.sha3(x) == FoldTo(H, level, Exp2(k))[i];
    assert x in q && x != raw;
  }

  /** Every entry is the padding leaf or the hash of a 32-byte chunk hash. */
  ghost predicate LeafLevel(H: Hashes, level: Level, q: set<seq<byte>>) {
    forall i :: 0 <= i < |level| ==> IsLeaf(H, level[i], q)
  }

  ghost predicate IsLeaf(H: Hashes, node: seq<byte>, q: set<seq<byte>>) {
    node == ZeroHash() || exists raw :: raw in q && |raw| == 32 && H.sha3(raw) == node
  }

  /** A walk too long for the tree passes through a leaf, whose 32-byte preimage then collides. */
  lemma {:induction false} WalkTooLong(H: Hashes, level: Level, leaf: seq<byte>, sibs: Level, idx: nat,
                                       q: set<seq<byte>>)
    requires IsPow2(|level|) && Nodes(level) && LeafLevel(H, level, q) && |leaf| == 64 && idx < |level|
    requires |level| < Exp2(|sibs|)
    requires Walk(H, leaf, sibs, idx) == Fold(H, level)
    requires FoldQueries(H, level) <= q && WalkQueries(H, leaf, sibs, idx) <= q
    ensures Sha3Broken(H, q)
    decreases |sibs|
  {
    var pre := Combine(leaf, sibs[0], idx);
    if |level| == Exp2(|sibs| - 1) {
      WalkSameDepth(H, level, H.sha3(pre), sibs[1..], idx / 2, q);
      assert IsLeaf(H, level[idx / 2], q);
      assert pre in q && |pre| >= 64;
    } else {
      Exp2Pow2(|sibs| - 1);
      if |level| > Exp2(|sibs| - 1) {
        Pow2Doubles(Exp2(|sibs| - 1), |level|);
      }
      WalkTooLong(H, level, H.sha3(pre), sibs[1..], idx / 2, q);
    }
  }

  function Leaves(H: Hashes, raws: seq<Digest32>): (leaves: Level)
    ensures |leaves| == |raws|
  {
    seq(|raws|, i requires 0 <= i < |raws| => H.sha3(raws[i]))
  }

  /** All strings SHA3 is applied to when the tree over these chunk hashes is built. */
  ghost function TreeQueries(H: Hashes, raws: seq<Digest32>): set<seq<byte>>
    requires raws != []
  {
    (set i | 0 <= i < |raws| :: raws[i]) + FoldQueries(H, Pad(Leaves(H, raws)))
  }

  lemma PadFacts(H: Hashes, raws: seq<Digest32>, q: set<seq<byte>>)
    requires raws != [] && TreeQueries(H, raws) <= q
    ensures Nodes(Pad(Leaves(H, raws))) && LeafLevel(H, Pad(Leaves(H, raws)), q)
    ensures forall i :: 0 <= i < |raws| ==> Pad(Leaves(H, raws))[i] == H.sha3(raws[i]) && raws[i] in q
  {
    var level := Pad(Leaves(H, raws));
    forall i | 0 <= i < |level|
      ensures |level[i]| == 64 && IsLeaf(H, level[i], q)
      ensures i < |raws| ==> level[i] == H.sha3(raws[i]) && raws[i] in q
    {
      if i < |raws| {
        assert level[i] == level[..|raws|][i] == H.sha3(raws[i]);
        assert raws[i] in TreeQueries(H, raws);
      }
    }
  }

  /**
   * Proof soundness. A real leaf with any sibling list, of any length and any sibling lengths,
   * that walks to the root of an n-leaf tree is leaf number idx of that tree, or SHA3 is broken
   * on strings the prover or the verifier hashed.
   */
  lemma ProofSound(H: Hashes, raws: seq<Digest32>, raw: Digest32, sibs: Level, idx: nat)
    requires idx < |raws|
    requires Walk(H, H.sha3(raw), sibs, idx) == TreeRoot(H, Leaves(H, raws))
    ensures raw == raws[idx] ||
            Sha3Broken(H, TreeQueries(H, raws) + {raw} + WalkQueries(H, H.sha3(raw), sibs, idx))
  {
    var q := TreeQueries(H, raws) + {raw} + WalkQueries(H, H.sha3(raw), sibs, idx);
    var level := Pad(Leaves(H, raws));
    PadFacts(H, raws, q);
    if Exp2(|sibs|) < |level| {
      WalkTooShort(H, level, raw, sibs, idx, q);
    } else if Exp2(|sibs|) > |level| {
      WalkTooLong(H, level, H.sha3(raw), sibs, idx, q);
    } else {
      WalkSameDepth(H, level, H.sha3(raw), sibs, idx, q);
    }
  }

  // ----- the root binds the bytes -----

  lemma {:induction false} FoldBinds(H: Hashes, a: Level, b: Level, q: set<seq<byte>>)
    requires IsPow2(|a|) && |a| == |b| && Nodes(a) && Nodes(b)
    requires Fold(H, a) == Fold(H, b)
    requires FoldQueries(H, a) <= q && FoldQueries(H, b) <= q
    ensures a == b || Sha3Broken(H, q)
    decreases |a|
  {
    if |a| > 1 {
      var pa, pb := PairUp(H, a), PairUp(H, b);
      FoldBinds(H, pa, pb, q);
      if pa == pb && !Sha3Broken(H, q) {
        forall i | 0 <= i < |a|
          ensures a[i] == b[i]
        {
          var xa, xb := Pair(a, i / 2), Pair(b, i / 2);
          assert xa in q && xb in q;
          assert H.sha3(xa) == pa[i / 2] && H.sha3(xb) == pb[i / 2];
          assert a[i] == if i % 2 == 0 then xa[..64] else xa[64..];
          assert b[i] == if i % 2 == 0 then xb[..64] else xb[64..];
        }
      }
    }
  }

  /** Trees of different depth with one root: the first leaf of the lower one is an inner node of the other. */
  lemma DepthsDiffer(H: Hashes, low: seq<Digest32>, high: seq<Digest32>, q: set<seq<byte>>)
    requires low != [] && high != [] && Pow2Ceil(|low|) < Pow2Ceil(|high|)
    requires TreeRoot(H, Leaves(H, low)) == TreeRoot(H, Leaves(H, high))
    requires TreeQueries(H, low) <= q && TreeQueries(H, high) <= q
    ensures Sha3Broken(H, q)
  {
    var a, b := Pad(Leaves(H, low)), Pad(Leaves(H, high));
    PadFacts(H, low, q);
    PadFacts(H, high, q);
    FoldToFacts(H, b, |a|);
    FoldBinds(H, a, FoldTo(H, b, |a|), q);
    var x :| x in FoldQueries(H, b) && |x| == 128 && H.sha3(x) == FoldTo(H, b, |a|)[0];
    assert low[0] in q && x in q && a[0] == H.sha3(low[0]);
  }

  /** Where the longer list goes on, its leaf is the other's padding. */
  lemma PaddingIsNoLeaf(H: Hashes, long: seq<Digest32>, short: seq<Digest32>, q: set<seq<byte>>)
    requires short != [] && |short| < |long| && Pad(Leaves(H, long)) == Pad(Leaves(H, short))
    requires TreeQueries(H, long) <= q
    ensures Sha3Broken(H, q)
  {
    PadFacts(H, long, q);
    assert H.sha3(long[|short|]) == Pad(Leaves(H, short))[|short|] == ZeroHash();
  }

  /** One root, one list of chunk hashes: the count included. */
  lemma ChunkHashesBound(H: Hashes, a: seq<Digest32>, b: seq<Digest32>, q: set<seq<byte>>)
    requires a != [] && b != [] && TreeRoot(H, Leaves(H, a)) == TreeRoot(H, Leaves(H, b))
    requires TreeQueries(H, a) <= q && TreeQueries(H, b) <= q
    ensures a == b || Sha3Broken(H, q)
  {
    var la, lb := Pad(Leaves(H, a)), Pad(Leaves(H, b));
    PadFacts(H, a, q);
    PadFacts(H, b, q);
    if |la| < |lb| {
      DepthsDiffer(H, a, b, q);
    } else if |lb| < |la| {
      DepthsDiffer(H, b, a, q);
    } else {
      FoldBinds(H, la, lb, q);
      if la == lb {
        if |b| < |a| {
          PaddingIsNoLeaf(H, a, b, q);
        } else if |a| < |b| {
          PaddingIsNoLeaf(H, b, a, q);
        } else if !Sha3Broken(H, q) {
          forall i | 0 <= i < |a|
            ensures a[i] == b[i]
          {
            assert H.sha3(a[i]) == la[i] && H.sha3(b[i]) == lb[i];
          }
        }
      }
    }
  }

  function RawHashes(H: Hashes, pieces: seq<seq<byte>>): (raws: seq<Digest32>)
    ensures |raws| == |pieces|
    ensures Leaves(H, raws) == LeavesOfPieces(H, pieces)
  {
    seq(|pieces|, i requires 0 <= i < |pieces| => ChunkHash(H, i, pieces[i]))
  }

  /** The strings SHA-256 is applied to when the pieces are hashed. */
  ghost function PieceQueries(pieces: seq<seq<byte>>): set<seq<byte>> {
    set i | 0 <= i < |pieces| :: Preimage(i, pieces[i])
  }

  /** The two halves of the preimage cannot be confused once the number is known. */
  lemma PreimageInjective(i: nat, p: seq<byte>, p': seq<byte>)
    requires Preimage(i, p) == Preimage(i, p')
    ensures p == p'
  {
    assert HexEncode(p) == Preimage(i, p)[|Itoa(i)|..];
    assert HexEncode(p') == Preimage(i, p')[|Itoa(i)|..];
    HexInjective(p, p');
  }

  ghost predicate HashesBroken(H: Hashes, q256: set<seq<byte>>, q3: set<seq<byte>>) {
    Sha256Broken(H, q256) || Sha3Broken(H, q3)
  }

  /** All strings hashed to name data, by SHA3. */
  ghost function NameQueries(H: Hashes, data: seq<byte>, size: nat): set<seq<byte>>
    requires data != [] && size > 0
  {
    TreeQueries(H, RawHashes(H, Split(data, size)))
  }

  /**
   * The root binds the bytes: two non-empty objects of any lengths with one root are equal, or
   * SHA-256 or SHA3 is broken on strings hashed while the two roots were computed.
   */
  lemma RootBindsBytes(H: Hashes, a: seq<byte>, b: seq<byte>, size: nat)
    requires a != [] && b != [] && size > 0
    requires TreeRoot(H, DataLeaves(H, a, size)) == TreeRoot(H, DataLeaves(H, b, size))
    ensures a == b || HashesBroken(H, PieceQueries(Split(a, size)) + PieceQueries(Split(b, size)),
                                   NameQueries(H, a, size) + NameQueries(H, b, size))
  {
    var pa, pb := Split(a, size), Split(b, size);
    var ra, rb := RawHashes(H, pa), RawHashes(H, pb);
    var q := PieceQueries(pa) + PieceQueries(pb);
    ChunkHashesBound(H, ra, rb, NameQueries(H, a, size) + NameQueries(H, b, size));
    if ra == rb && !Sha256Broken(H, q) {
      forall i | 0 <= i < |pa|
        ensures pa[i] == pb[i]
      {
        assert ra[i] == ChunkHash(H, i, pa[i]) && rb[i] == ChunkHash(H, i, pb[i]);
        assert Preimage(i, pa[i]) in q && Preimage(i, pb[i]) in q;
        PreimageInjective(i, pa[i], pb[i]);
      }
      assert pa == pb;
      SplitFacts(a, size);
      SplitFacts(b, size);
    }
  }

  /** The same for names as they are written: hex roots. */
  lemma NameBindsBytes(H: Hashes, a: seq<byte>, b: seq<byte>)
    requires a != [] && b != [] && TreeOf(H, a).value.root == TreeOf(H, b).value.root
    ensures a == b || HashesBroken(H, PieceQueries(Split(a, CHUNK_SIZE)) + PieceQueries(Split(b, CHUNK_SIZE)),
                                   NameQueries(H, a, CHUNK_SIZE) + NameQueries(H, b, CHUNK_SIZE))
  {
    HexInjective(TreeRoot(H, DataLeaves(H, a, CHUNK_SIZE)), TreeRoot(H, DataLeaves(H, b, CHUNK_SIZE)));
    RootBindsBytes(H, a, b, CHUNK_SIZE);
  }

  /**
   * What a challenger learns: bytes and siblings that verify for piece idx of an object are that
   * piece's bytes, or a hash is broken on strings the prover or the verifier hashed.
   */
  lemma AnswerBindsPiece(H: Hashes, data: seq<byte>, size: nat, idx: nat, answer: seq<byte>, sibs: seq<Text>)
      returns (raw: Level)
    requires size > 0 && idx < |Split(data, size)|
    requires WalkTexts(H, H.sha3(ChunkHash(H, idx, answer)), sibs, idx) == Some(TreeRoot(H, DataLeaves(H, data, size)))
    ensures answer == Split(data, size)[idx] ||
            HashesBroken(H, PieceQueries(Split(data, size)) + {Preimage(idx, answer)},
                         NameQueries(H, data, size) + {ChunkHash(H, idx, answer)} +
                         WalkQueries(H, H.sha3(ChunkHash(H, idx, answer)), raw, idx))
  {
    var pieces := Split(data, size);
    var hash := ChunkHash(H, idx, answer);
    raw := WalkTextsDecodes(H, H.sha3(hash), sibs, idx);
    ProofSound(H, RawHashes(H, pieces), hash, raw, idx);
    if hash == RawHashes(H, pieces)[idx] {
      var q := PieceQueries(pieces) + {Preimage(idx, answer)};
      assert Preimage(idx, pieces[idx]) in q;
      if Preimage(idx, answer) == Preimage(idx, pieces[idx]) {
        PreimageInjective(idx, answer, pieces[idx]);
      }
    }
  }
}
