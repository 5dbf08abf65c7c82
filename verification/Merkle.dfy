/**
 * The Merkle tree that names an object: specification functions, and the buffered construction
 * of store/merkle.go proved against them.
 */
module Merkle {
  import opened Basics
  import opened Encoding

  const CHUNK_SIZE: nat := 1048576

  datatype MerkleError = EmptyData | NoChunks | BadChunkHash(index: nat)

  datatype Tree = Tree(root: Text, chunkHashes: seq<Text>)

  // ----- splitting -----

  /** data cut into pieces of `size` bytes; only the last one may be shorter. */
  function Split(data: seq<byte>, size: nat): (pieces: seq<seq<byte>>)
    requires size > 0
    ensures data != [] ==> pieces != []
  {
    if data == [] then []
    else if |data| <= size then [data]
    else [data[..size]] + Split(data[size..], size)
  }

  /** Splitting loses nothing, and no piece is empty or too long. */
  lemma {:induction false} SplitFacts(data: seq<byte>, size: nat)
    requires size > 0
    ensures Flatten(Split(data, size)) == data
    ensures forall i :: 0 <= i < |Split(data, size)| ==> 0 < |Split(data, size)[i]| <= size
  {
    if data != [] && |data| <= size {
      assert Flatten([data]) == data + Flatten([]);
    } else if data != [] {
      SplitFacts(data[size..], size);
      assert data == data[..size] + data[size..];
    }
  }

  /** At most `size` bytes from `start` on: what one turn of a chunk loop takes. */
  function Slice(data: seq<byte>, size: nat, start: nat): seq<byte>
    requires start <= |data|
  {
    data[start..if start + size > |data| then |data| else start + size]
  }

  function CeilDiv(n: nat, d: nat): nat
    requires d > 0
  {
    (n + d - 1) / d
  }

  lemma MulMonotone(a: int, b: int, d: nat)
    requires a <= b
    ensures a * d <= b * d
  {
  }

  lemma DivUnique(n: nat, d: nat, q: nat)
    requires d > 0 && q * d <= n < q * d + d
    ensures n / d == q
  {
    var r := n / d;
    assert r * d <= n < r * d + d;
    if r > q {
      MulMonotone(q + 1, r, d);
    } else if r < q {
      MulMonotone(r + 1, q, d);
    }
  }

  lemma MulStep(i: nat, size: nat)
    requires i > 0
    ensures i * size == (i - 1) * size + size && (i - 1) * size >= 0
  {
  }

  lemma {:induction false} SplitCount(data: seq<byte>, size: nat)
    requires size > 0
    ensures |Split(data, size)| == CeilDiv(|data|, size)
    ensures |data| > 0 ==> (CeilDiv(|data|, size) - 1) * size < |data|
  {
    var q := |Split(data, size)|;
    if |data| > size {
      SplitCount(data[size..], size);
      MulStep(q - 1, size);
      DivideBack(|data| - size, size);
      DivUnique(|data| + size - 1, size, q);
    } else if |data| > 0 {
      DivUnique(|data| + size - 1, size, 1);
    } else {
      DivUnique(size - 1, size, 0);
    }
  }

  lemma DivideBack(n: nat, d: nat)
    requires d > 0
    ensures CeilDiv(n, d) * d <= n + d - 1 < CeilDiv(n, d) * d + d
    ensures (CeilDiv(n, d) + 1) * d == CeilDiv(n, d) * d + d
  {
  }

  /** Where piece i starts, by repeated addition. */
  function StartOf(i: nat, size: nat): nat {
    if i == 0 then 0 else StartOf(i - 1, size) + size
  }

  lemma {:induction false} StartIsProduct(i: nat, size: nat)
    ensures StartOf(i, size) == i * size
  {
    if i > 0 {
      StartIsProduct(i - 1, size);
      MulStep(i, size);
    }
  }

  lemma {:induction false} SplitAt(data: seq<byte>, size: nat, i: nat)
    requires size > 0 && i < |Split(data, size)|
    ensures StartOf(i, size) < |data| && Split(data, size)[i] == Slice(data, size, StartOf(i, size))
  {
    if i > 0 {
      SplitAt(data[size..], size, i - 1);
      SliceShift(data, size, StartOf(i - 1, size));
    }
  }

  /** The i-th piece is the slice that starts at i * size. */
  lemma SplitIndex(data: seq<byte>, size: nat, i: nat)
    requires size > 0 && i < |Split(data, size)|
    ensures 0 <= i * size < |data|
    ensures Split(data, size)[i] == Slice(data, size, i * size)
  {
    SplitAt(data, size, i);
    StartIsProduct(i, size);
  }

  lemma SliceShift(data: seq<byte>, size: nat, start: nat)
    requires size <= |data| && start <= |data| - size
    ensures Slice(data[size..], size, start) == Slice(data, size, start + size)
  {
  }

  predicate Multiple(n: nat, d: nat)
    requires d > 0
  {
    n == 0 || (n >= d && Multiple(n - d, d))
  }

  lemma {:induction false} SplitSnoc(done: seq<byte>, part: seq<byte>, size: nat)
    requires size > 0 && Multiple(|done|, size) && 0 < |part| <= size
    ensures Split(done + part, size) == Split(done, size) + [part]
  {
    if done == [] {
      assert done + part == part;
    } else {
      SplitSnoc(done[size..], part, size);
      assert (done + part)[..size] == done[..size];
      assert (done + part)[size..] == done[size..] + part;
      if |done| == size {
        assert done[..size] == done && done[size..] == [];
      }
    }
  }

  // ----- chunk hashes -----

  /** What is hashed for piece i: its decimal number, then its bytes in hex. */
  function Preimage(i: nat, piece: seq<byte>): Text {
    Itoa(i) + HexEncode(piece)
  }

  function ChunkHash(H: Hashes, i: nat, piece: seq<byte>): Digest32 {
    H.sha256(Preimage(i, piece))
  }

  function HashPieces(H: Hashes, pieces: seq<seq<byte>>): (hashes: seq<Text>)
    ensures |hashes| == |pieces|
  {
    seq(|pieces|, i requires 0 <= i < |pieces| => HexEncode(ChunkHash(H, i, pieces[i])))
  }

  lemma HashPiecesSnoc(H: Hashes, pieces: seq<seq<byte>>, p: seq<byte>)
    ensures HashPieces(H, pieces + [p]) == HashPieces(H, pieces) + [HexEncode(ChunkHash(H, |pieces|, p))]
  {
  }

  // ----- powers of two -----

  predicate IsPow2(n: int) {
    n == 1 || (n > 1 && n % 2 == 0 && IsPow2(n / 2))
  }

  /** The smallest power of two that is at least n. */
  function Pow2Ceil(n: nat): (v: nat)
    ensures IsPow2(v) && n <= v
    ensures n >= 1 ==> v < 2 * n
  {
    if n <= 1 then 1 else 2 * Pow2Ceil((n + 1) / 2)
  }

  lemma {:induction false} Pow2CeilLeast(n: nat, p: nat)
    requires IsPow2(p) && n <= p
    ensures Pow2Ceil(n) <= p
  {
    if n > 1 {
      Pow2CeilLeast((n + 1) / 2, p / 2);
    }
  }

  lemma {:induction false} Pow2Doubles(v: nat, p: nat)
    requires IsPow2(v) && IsPow2(p) && v < p
    ensures 2 * v <= p
  {
    if v > 1 {
      Pow2Doubles(v / 2, p / 2);
    }
  }

  method NextPow2(n: int) returns (v: nat)
    ensures v == Pow2Ceil(if n < 0 then 0 else n)
  {
    v := 1;
    while v < n
      invariant IsPow2(v)
      invariant v <= Pow2Ceil(if n < 0 then 0 else n)
      decreases n - v
    {
      Pow2Doubles(v, Pow2Ceil(n));
      v := v * 2;
    }
    Pow2CeilLeast(if n < 0 then 0 else n, v);
  }

  // ----- the tree -----

  type Level = seq<seq<byte>>

  /** What is hashed for node j of the next level up. */
  function Pair(level: Level, j: nat): seq<byte>
    requires 2 * j + 1 < |level|
  {
    level[2 * j] + level[2 * j + 1]
  }

  function Parent(H: Hashes, level: Level, j: nat): Digest64
    requires 2 * j + 1 < |level|
  {
    H.sha3(Pair(level, j))
  }

  function PairUp(H: Hashes, level: Level): (next: Level)
    requires |level| % 2 == 0
    ensures |next| == |level| / 2
    ensures forall i :: 0 <= i < |next| ==> |next[i]| == 64
  {
    seq(|level| / 2, i requires 0 <= i < |level| / 2 => Parent(H, level, i))
  }

  function Fold(H: Hashes, level: Level): seq<byte>
    requires IsPow2(|level|)
    decreases |level|
  {
    if |level| == 1 then level[0] else Fold(H, PairUp(H, level))
  }

  function Pad(leaves: Level): (level: Level)
    requires leaves != []
    ensures IsPow2(|level|)
    ensures |leaves| <= |level| < 2 * |leaves| && level[..|leaves|] == leaves
    ensures forall i :: |leaves| <= i < |level| ==> level[i] == ZeroHash()
  {
    leaves + seq(Pow2Ceil(|leaves|) - |leaves|, _ => ZeroHash())
  }

  function TreeRoot(H: Hashes, leaves: Level): seq<byte>
    requires leaves != []
  {
    Fold(H, Pad(leaves))
  }

  /** One leaf per chunk hash, or the number of the first one that is not hex. */
  function LeavesOf(H: Hashes, hashes: seq<Text>): (r: Result<Level, nat>)
    ensures r.Ok? ==> |r.value| == |hashes|
  {
    if hashes == [] then Ok([])
    else
      var n := |hashes| - 1;
      match LeavesOf(H, hashes[..n])
      case Err(e) => Err(e)
      case Ok(leaves) =>
        match HexDecode(hashes[n])
        case None => Err(n)
        case Some(raw) => Ok(leaves + [H.sha3(raw)])
  }

  /** The leaves are the SHA3 hashes of what the texts decode to; the error is the first text that does not. */
  lemma {:induction false} LeavesOfIs(H: Hashes, hashes: seq<Text>)
    ensures match LeavesOf(H, hashes)
            case Ok(leaves) => forall i :: 0 <= i < |hashes| ==>
              HexDecode(hashes[i]).Some? && leaves[i] == H.sha3(HexDecode(hashes[i]).value)
            case Err(k) =>
              k < |hashes| && HexDecode(hashes[k]).None? && forall i :: 0 <= i < k ==> HexDecode(hashes[i]).Some?
  {
    if hashes != [] {
      LeavesOfIs(H, hashes[..|hashes| - 1]);
    }
  }

  lemma {:induction false} LeavesOfFails(H: Hashes, hashes: seq<Text>, k: nat)
    requires k <= |hashes| && LeavesOf(H, hashes[..k]).Err?
    ensures LeavesOf(H, hashes) == LeavesOf(H, hashes[..k])
  {
    if k < |hashes| {
      assert hashes[..|hashes| - 1][..k] == hashes[..k];
      LeavesOfFails(H, hashes[..|hashes| - 1], k);
    } else {
      assert hashes[..k] == hashes;
    }
  }

  function RootOfHashes(H: Hashes, hashes: seq<Text>): Result<Text, MerkleError> {
    if hashes == [] then Err(NoChunks)
    else
      match LeavesOf(H, hashes)
      case Err(i) => Err(BadChunkHash(i))
      case Ok(leaves) => Ok(HexEncode(TreeRoot(H, leaves)))
  }

  /** The leaves over the pieces: SHA3 of the raw piece hashes, no hex in between. */
  function LeavesOfPieces(H: Hashes, pieces: seq<seq<byte>>): (leaves: Level)
    ensures |leaves| == |pieces|
  {
    seq(|pieces|, i requires 0 <= i < |pieces| => H.sha3(ChunkHash(H, i, pieces[i])))
  }

  function DataLeaves(H: Hashes, data: seq<byte>, size: nat): (leaves: Level)
    requires size > 0
    ensures data != [] ==> leaves != []
  {
    LeavesOfPieces(H, Split(data, size))
  }

  lemma LeavesSnoc(H: Hashes, hashes: seq<Text>, last: Text)
    requires LeavesOf(H, hashes).Ok? && HexDecode(last).Some?
    ensures LeavesOf(H, hashes + [last]) == Ok(LeavesOf(H, hashes).value + [H.sha3(HexDecode(last).value)])
  {
    assert (hashes + [last])[..|hashes|] == hashes;
  }

  lemma LeavesOfPiecesSnoc(H: Hashes, pieces: seq<seq<byte>>, p: seq<byte>)
    ensures LeavesOfPieces(H, pieces + [p]) == LeavesOfPieces(H, pieces) + [H.sha3(ChunkHash(H, |pieces|, p))]
  {
  }

  lemma {:induction false} LeavesOfHashedPieces(H: Hashes, pieces: seq<seq<byte>>)
    ensures LeavesOf(H, HashPieces(H, pieces)) == Ok(LeavesOfPieces(H, pieces))
  {
    if pieces != [] {
      var n := |pieces| - 1;
      var init, last := pieces[..n], pieces[n];
      assert pieces == init + [last];
      HashPiecesSnoc(H, init, last);
      LeavesOfHashedPieces(H, init);
      HexRoundTrip(ChunkHash(H, n, last));
      LeavesSnoc(H, HashPieces(H, init), HexEncode(ChunkHash(H, n, last)));
      LeavesOfPiecesSnoc(H, init, last);
    }
  }

  /** What both constructions must return for data. */
  function TreeOf(H: Hashes, data: seq<byte>): Result<Tree, MerkleError> {
    if data == [] then Err(EmptyData)
    else Ok(Tree(HexEncode(TreeRoot(H, DataLeaves(H, data, CHUNK_SIZE))), HashPieces(H, Split(data, CHUNK_SIZE))))
  }

  lemma RootOfSplit(H: Hashes, data: seq<byte>)
    requires data != []
    ensures RootOfHashes(H, HashPieces(H, Split(data, CHUNK_SIZE))) == Ok(TreeOf(H, data).value.root)
  {
    LeavesOfHashedPieces(H, Split(data, CHUNK_SIZE));
  }

  // ----- the code -----

  /** One round of the bottom-up loop: parent = SHA3(left || right). */
  method HashPairs(H: Hashes, level: Level) returns (next: Level)
    requires |level| % 2 == 0
    ensures next == PairUp(H, level)
  {
    next := [];
    var i := 0;
    while i < |level|
      invariant 0 <= i <= |level| && i % 2 == 0
      invariant next == PairUp(H, level)[..i / 2]
    {
      var combined: seq<byte> := [];
      combined := combined + level[i];
      combined := combined + level[i + 1];
      assert combined == Pair(level, i / 2);
      next := next + [H.sha3(combined)];
      i := i + 2;
    }
  }

  method TreeFromChunkHashes(H: Hashes, chunkHashes: seq<Text>) returns (r: Result<Text, MerkleError>)
    ensures r == RootOfHashes(H, chunkHashes)
    ensures r == Err(NoChunks) <==> chunkHashes == []
    ensures r.Ok? <==> chunkHashes != [] && forall i :: 0 <= i < |chunkHashes| ==> HexDecode(chunkHashes[i]).Some?
  {
    LeavesOfIs(H, chunkHashes);
    if |chunkHashes| == 0 {
      return Err(NoChunks);
    }
    var leaves: Level := [];
    for i := 0 to |chunkHashes|
      invariant LeavesOf(H, chunkHashes[..i]) == Ok(leaves)
    {
      assert chunkHashes[..i + 1][..i] == chunkHashes[..i];
      match HexDecode(chunkHashes[i]) {
        case None =>
          LeavesOfFails(H, chunkHashes, i + 1);
          return Err(BadChunkHash(i));
        case Some(raw) =>
          leaves := leaves + [H.sha3(raw)];
      }
    }
    assert chunkHashes[..|chunkHashes|] == chunkHashes;
    if |leaves| == 1 {
      return Ok(HexEncode(leaves[0]));
    }
    ghost var unpadded := leaves;
    var size := NextPow2(|leaves|);
    while |leaves| < size
      invariant |unpadded| <= |leaves| <= size
      invariant leaves == Pad(unpadded)[..|leaves|]
    {
      leaves := leaves + [ZeroHash()];
    }
    var level := leaves;
    assert level == Pad(unpadded);
    while |level| > 1
      invariant IsPow2(|level|)
      invariant Fold(H, level) == TreeRoot(H, unpadded)
    {
      level := HashPairs(H, level);
    }
    return Ok(HexEncode(level[0]));
  }

  method BuildMerkleTree(H: Hashes, data: seq<byte>) returns (r: Result<Tree, MerkleError>)
    ensures r == TreeOf(H, data)
    ensures if data == [] then r == Err(EmptyData) else r.Ok?
  {
    if |data| == 0 {
      return Err(EmptyData);
    }
    var chunkHashes := HashChunks(H, data, CHUNK_SIZE, (|data| + CHUNK_SIZE - 1) / CHUNK_SIZE);
    RootOfSplit(H, data);
    var root := TreeFromChunkHashes(H, chunkHashes);
    match root {
      case Err(e) => return Err(e);
      case Ok(rootHex) => return Ok(Tree(rootHex, chunkHashes));
    }
  }

  /** The chunk-hash loop, the same text in BuildMerkleTree and in buildIndex. */
  method HashChunks(H: Hashes, data: seq<byte>, size: nat, count: nat) returns (hashes: seq<Text>)
    requires size > 0 && |data| > 0 && count == CeilDiv(|data|, size)
    ensures hashes == HashPieces(H, Split(data, size))
  {
    SplitCount(data, size);
    ghost var pieces := Split(data, size);
    hashes := [];
    for i := 0 to count
      invariant hashes == HashPieces(H, pieces)[..i]
    {
      SplitIndex(data, size, i);
      var start: nat := i * size;
      var end := start + size;
      if end > |data| {
        end := |data|;
      }
      var chunk := data[start..end];
      assert chunk == pieces[i];
      hashes := hashes + [HexEncode(H.sha256(Itoa(i) + HexEncode(chunk)))];
    }
  }

  datatype Index = Index(chunkSize: nat, totalChunks: nat, chunkHashes: seq<Text>)

  function IndexOf(H: Hashes, data: seq<byte>, size: nat): Index
    requires size > 0
  {
    var hashes := if data == [] then [HexEncode(ChunkHash(H, 0, []))] else HashPieces(H, Split(data, size));
    Index(size, |hashes|, hashes)
  }

  lemma IndexPlain(H: Hashes, data: seq<byte>, size: nat)
    requires size > 0
    ensures data == [] ==> IndexOf(H, data, size).chunkHashes == [HexEncode(H.sha256([48]))]
    ensures data != [] ==>
              (IndexOf(H, data, size).totalChunks - 1) * size < |data| <= IndexOf(H, data, size).totalChunks * size
  {
    if data == [] {
      assert Preimage(0, []) == [48];
    } else {
      SplitCount(data, size);
      DivideBack(|data|, size);
    }
  }

  /** buildIndex: unlike the tree, it gives an empty object one (empty) chunk. */
  method BuildIndex(H: Hashes, data: seq<byte>, size: nat) returns (idx: Index)
    requires size > 0
    ensures idx == IndexOf(H, data, size)
    ensures idx.chunkSize == size && idx.totalChunks == |idx.chunkHashes|
    ensures data == [] ==> idx.chunkHashes == [HexEncode(H.sha256([48]))]
    ensures data != [] ==> (idx.totalChunks - 1) * size < |data| <= idx.totalChunks * size
  {
    IndexPlain(H, data, size);
    var total := (|data| + size - 1) / size;
    if |data| == 0 {
      assert total == 0 by { assert (size - 1) / size == 0; }
      total := 1;
      return Index(size, total, [HexEncode(H.sha256(Itoa(0) + HexEncode(data[0..0])))]);
    }
    SplitCount(data, size);
    var hashes := HashChunks(H, data, size, total);
    return Index(size, total, hashes);
  }

  // ----- the tree in plain terms -----

  /** A full tree hashes the roots of its two halves, the left one first. */
  lemma {:induction false} FoldHalves(H: Hashes, level: Level)
    requires IsPow2(|level|) && |level| > 1
    ensures var half := |level| / 2;
            IsPow2(half) && Fold(H, level) == H.sha3(Fold(H, level[..half]) + Fold(H, level[half..]))
    decreases |level|
  {
    var half := |level| / 2;
    if half == 1 {
      assert Fold(H, level) == Parent(H, level, 0);
    } else {
      var next := PairUp(H, level);
      FoldHalves(H, next);
      assert next[..half / 2] == PairUp(H, level[..half]);
      assert next[half / 2..] == PairUp(H, level[half..]);
    }
  }

  /** The hash of chunk i, from the data itself: decimal number, then lower-case hex. */
  lemma ChunkHashesAre(H: Hashes, data: seq<byte>, size: nat, i: nat)
    requires size > 0 && i < |Split(data, size)|
    ensures 0 <= i * size < |data|
    ensures var end := if i * size + size > |data| then |data| else i * size + size;
            var hash := H.sha256(Itoa(i) + HexEncode(data[i * size..end]));
            && LowerHex(HashPieces(H, Split(data, size))[i]) && HexDecode(HashPieces(H, Split(data, size))[i]) == Some(hash)
            && DataLeaves(H, data, size)[i] == H.sha3(hash)
  {
    SplitIndex(data, size, i);
    HexIsLower(ChunkHash(H, i, Split(data, size)[i]));
    HexRoundTrip(ChunkHash(H, i, Split(data, size)[i]));
  }

  /** Names are 128 lower-case hex digits, chunk hashes 64. */
  lemma TreeTexts(H: Hashes, data: seq<byte>)
    requires data != []
    ensures var tree := TreeOf(H, data).value;
            && |tree.root| == 128 && LowerHex(tree.root)
            && forall i :: 0 <= i < |tree.chunkHashes| ==> |tree.chunkHashes[i]| == 64 && LowerHex(tree.chunkHashes[i])
  {
    var tree := TreeOf(H, data).value;
    var leaves := DataLeaves(H, data, CHUNK_SIZE);
    HexIsLower(TreeRoot(H, leaves));
    forall i | 0 <= i < |Pad(leaves)|
      ensures |Pad(leaves)[i]| == 64
    {
      assert i < |leaves| ==> Pad(leaves)[i] == Pad(leaves)[..|leaves|][i] == leaves[i];
    }
    FoldLength(H, Pad(leaves));
    forall i | 0 <= i < |tree.chunkHashes|
      ensures |tree.chunkHashes[i]| == 64 && LowerHex(tree.chunkHashes[i])
    {
      HexIsLower(ChunkHash(H, i, Split(data, CHUNK_SIZE)[i]));
    }
  }

  lemma {:induction false} FoldLength(H: Hashes, level: Level)
    requires IsPow2(|level|) && forall i :: 0 <= i < |level| ==> |level[i]| == 64
    ensures |Fold(H, level)| == 64
    decreases |level|
  {
    if |level| > 1 {
      FoldLength(H, PairUp(H, level));
    }
  }

  /** The smallest objects, written out: one chunk, two leaves, and three with a zero leaf behind them. */
  lemma RootOfOneChunk(H: Hashes, data: seq<byte>)
    requires 0 < |data| <= CHUNK_SIZE
    ensures TreeOf(H, data).value.root == HexEncode(H.sha3(H.sha256([48] + HexEncode(data))))
  {
    var leaf := H.sha3(H.sha256([48] + HexEncode(data)));
    assert Split(data, CHUNK_SIZE) == [data];
    assert Itoa(0) == [48];
    assert ChunkHash(H, 0, data) == H.sha256([48] + HexEncode(data));
    assert LeavesOfPieces(H, [data]) == [leaf];
    assert Pad([leaf]) == [leaf];
  }

  lemma RootOfTwoLeaves(H: Hashes, a: seq<byte>, b: seq<byte>)
    ensures TreeRoot(H, [a, b]) == Fold(H, [a, b]) == H.sha3(a + b)
  {
    assert Pad([a, b]) == [a, b];
    FoldHalves(H, [a, b]);
    assert [a, b][..1] == [a] && [a, b][1..] == [b];
  }

  lemma RootOfThreeLeaves(H: Hashes, a: seq<byte>, b: seq<byte>, c: seq<byte>)
    ensures TreeRoot(H, [a, b, c]) == H.sha3(H.sha3(a + b) + H.sha3(c + seq(64, _ => 0)))
  {
    var zero := ZeroHash();
    var level := [a, b, c, zero];
    assert zero == seq(64, _ => 0);
    assert Pad([a, b, c]) == level;
    FoldHalves(H, level);
    assert level[..2] == [a, b] && level[2..] == [c, zero];
    RootOfTwoLeaves(H, a, b);
    RootOfTwoLeaves(H, c, zero);
  }

  /** For a non-empty object the index at 1 MiB holds exactly the hashes the tree is built from. */
  lemma IndexMatchesTree(H: Hashes, data: seq<byte>)
    ensures data != [] ==> IndexOf(H, data, CHUNK_SIZE).chunkHashes == TreeOf(H, data).value.chunkHashes
    ensures TreeOf(H, data).Err? <==> data == []
  {
  }
}
