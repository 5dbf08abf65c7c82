/** Compact proofs over the 4096-byte blocks of one chunk (api/subchunk_helpers.go). */
module SubChunk {
  import opened Basics
  import opened Encoding
  import opened Merkle
  import opened MerkleProof

  const BLOCK_SIZE: nat := 4096

  datatype SubChunkError = ChunkEmpty | BlockIndexOutOfRange

  datatype BlockProof = BlockProof(block: seq<byte>, siblings: seq<Text>)

  /** The root a verifier holds for a chunk. */
  function SealOf(H: Hashes, chunk: seq<byte>): seq<byte>
    requires chunk != []
  {
    TreeRoot(H, DataLeaves(H, chunk, BLOCK_SIZE))
  }

  function BlockCount(chunkLen: int): nat {
    if chunkLen <= 0 then 0 else (chunkLen + BLOCK_SIZE - 1) / BLOCK_SIZE
  }

  method SplitBlocks(chunk: seq<byte>) returns (blocks: seq<seq<byte>>)
    ensures blocks == Split(chunk, BLOCK_SIZE)
    ensures |blocks| == BlockCount(|chunk|)
  {
    SplitCount(chunk, BLOCK_SIZE);
    var n := BlockCount(|chunk|);
    blocks := [];
    for i := 0 to n
      invariant blocks == Split(chunk, BLOCK_SIZE)[..i]
    {
      SplitIndex(chunk, BLOCK_SIZE, i);
      var start: nat := i * BLOCK_SIZE;
      var end := start + BLOCK_SIZE;
      if end > |chunk| {
        end := |chunk|;
      }
      blocks := blocks + [chunk[start..end]];
    }
  }

  method BlockLeaves(H: Hashes, blocks: seq<seq<byte>>) returns (leaves: Level)
    ensures leaves == LeavesOfPieces(H, blocks)
  {
    leaves := [];
    for i := 0 to |blocks|
      invariant leaves == LeavesOfPieces(H, blocks)[..i]
    {
      leaves := leaves + [H.sha3(ChunkHash(H, i, blocks[i]))];
    }
  }

  /** In range: exactly the block asked for, with siblings that walk from it to the chunk's seal. */
  method GenerateSubChunkSiblings(H: Hashes, chunk: seq<byte>, blockIndex: int)
      returns (r: Result<BlockProof, SubChunkError>)
    ensures r.Ok? <==> chunk != [] && 0 <= blockIndex < BlockCount(|chunk|)
    ensures r == Err(ChunkEmpty) <==> chunk == []
    ensures r.Ok? ==> blockIndex < |Split(chunk, BLOCK_SIZE)| && r.value.block == Split(chunk, BLOCK_SIZE)[blockIndex]
    ensures r.Ok? ==> WalkTexts(H, H.sha3(ChunkHash(H, blockIndex, r.value.block)), r.value.siblings, blockIndex)
                      == Some(SealOf(H, chunk))
  {
    if |chunk| == 0 {
      return Err(ChunkEmpty);
    }
    var blocks := SplitBlocks(chunk);
    if blockIndex < 0 || blockIndex >= |blocks| {
      return Err(BlockIndexOutOfRange);
    }
    var leaves := BlockLeaves(H, blocks);
    ProofComplete(H, leaves, blockIndex);
    var siblings := ComputeMerkleProof(H, leaves, blockIndex);
    return Ok(BlockProof(blocks[blockIndex], siblings));
  }

  /** None is the original's nil. */
  method BuildSubChunkRoot(H: Hashes, leaves: Level) returns (root: Option<seq<byte>>)
    ensures root == if leaves == [] then None else Some(TreeRoot(H, leaves))
  {
    if |leaves| == 0 {
      return None;
    }
    if |leaves| == 1 {
      return Some(leaves[0]);
    }
    var level := PadLevel(leaves);
    while |level| > 1
      invariant IsPow2(|level|)
      invariant Fold(H, level) == TreeRoot(H, leaves)
    {
      level := HashPairs(H, level);
    }
    return Some(level[0]);
  }

  method BuildSubChunkSeal(H: Hashes, chunk: seq<byte>) returns (r: Result<Text, SubChunkError>)
    ensures r == if chunk == [] then Err(ChunkEmpty) else Ok(HexEncode(SealOf(H, chunk)))
  {
    if |chunk| == 0 {
      return Err(ChunkEmpty);
    }
    var blocks := SplitBlocks(chunk);
    var leaves := BlockLeaves(H, blocks);
    var root := BuildSubChunkRoot(H, leaves);
    return Ok(HexEncode(root.value));
  }
}
