/** Answering audit challenges (api/challenge.go), after decoding and without HTTP. */
module Challenge {
  import opened Basics
  import opened Encoding
  import opened Merkle
  import opened MerkleProof
  import opened SubChunk
  import ProofSig

  const PROOF_V1 := 2
  const PROOF_COMPACT := 4

  datatype Challenge = Challenge(version: int, challengeID: Text, merkleRoot: Text, providerID: Text, chunkIndex: int,
                                 blockIndex: int, nonce: Text, expiresAt: int, proofVersion: int)

  datatype Signature = Signature(bytes: seq<byte>, keyID: Text)

  datatype Signer = Signer(sign: Text -> seq<byte>, keyID: Text)

  datatype Response = Response(version: int, challengeID: Text, providerID: Text, merkleRoot: Text, chunkIndex: int,
                               chunkData: seq<byte>, siblings: seq<Text>, index: int, totalChunkCount: int,
                               nonce: Text, timestamp: int, proofVersion: int, signature: Option<Signature>)

  datatype Refusal =
    | ProviderMismatch | Expired | RootMissing | RootNotHex | UnsupportedVersion
    | ObjectNotFound | ObjectEmpty | ChunkOutOfRange | ReadEmpty | BlockOutOfRange | BadIndexHash(i: nat)

  /** The checks that need nothing from the disk, in the order they are made. */
  function Preflight(providerID: Text, now: int, ch: Challenge): Option<Refusal> {
    if ch.providerID != [] && providerID != [] && ch.providerID != providerID then Some(ProviderMismatch)
    else if ch.expiresAt > 0 && now > ch.expiresAt then Some(Expired)
    else if ch.merkleRoot == [] then Some(RootMissing)
    else if HexDecode(ch.merkleRoot).None? then Some(RootNotHex)
    else if ch.proofVersion != 0 && ch.proofVersion != PROOF_V1 && ch.proofVersion != PROOF_COMPACT then Some(UnsupportedVersion)
    else None
  }

  /** For this provider, not expired, with a root in hex and a version the handler knows. */
  predicate Admissible(providerID: Text, now: int, ch: Challenge) {
    && (ch.providerID == [] || providerID == [] || ch.providerID == providerID)
    && (ch.expiresAt <= 0 || now <= ch.expiresAt)
    && ch.merkleRoot != [] && HexDecode(ch.merkleRoot).Some? && ch.proofVersion in {0, 2, 4}
  }

  /** What the disk holds under a root is some non-empty object and the index of that object. */
  ghost predicate Holds(H: Hashes, index: Option<Index>, stored: Option<seq<byte>>) {
    && stored.Some? && stored.value != [] && index.Some? && index.value.chunkSize > 0
    && index.value == IndexOf(H, stored.value, index.value.chunkSize)
  }

  ghost predicate SignedBy(H: Hashes, signer: Option<Signer>, blockIndex: int, resp: Response) {
    match signer
    case None => resp.signature == None
    case Some(s) =>
      resp.signature == Some(Signature(s.sign(ProofSig.PayloadOf(
        ProofSig.Claim(resp.providerID, resp.challengeID, resp.nonce, resp.merkleRoot, resp.chunkIndex, blockIndex,
                       resp.proofVersion, H.sha256(resp.chunkData)))), s.keyID))
  }

  ghost predicate Echoes(ch: Challenge, providerID: Text, now: int, total: nat, resp: Response) {
    && resp.version == ch.version && resp.challengeID == ch.challengeID && resp.nonce == ch.nonce
    && resp.merkleRoot == ch.merkleRoot && resp.chunkIndex == ch.chunkIndex
    && resp.providerID == providerID && resp.timestamp == now && resp.totalChunkCount == total
  }

  /** The answer to a whole-chunk challenge: chunk number chunkIndex, walking to the object's root. */
  ghost predicate AnswersChunk(H: Hashes, data: seq<byte>, size: nat, ch: Challenge, resp: Response)
    requires size > 0 && data != []
  {
    && 0 <= ch.chunkIndex < |Split(data, size)|
    && resp.proofVersion == PROOF_V1 && resp.index == ch.chunkIndex
    && resp.chunkData == Split(data, size)[ch.chunkIndex]
    && WalkTexts(H, H.sha3(ChunkHash(H, ch.chunkIndex, resp.chunkData)), resp.siblings, resp.index)
       == Some(TreeRoot(H, DataLeaves(H, data, size)))
  }

  /** The answer to a compact challenge: one block, walking to the seal of its chunk. */
  ghost predicate AnswersBlock(H: Hashes, data: seq<byte>, size: nat, ch: Challenge, resp: Response)
    requires size > 0 && data != []
  {
    && 0 <= ch.chunkIndex < |Split(data, size)|
    && var chunk := Split(data, size)[ch.chunkIndex];
    && chunk != []
    && 0 <= ch.blockIndex < |Split(chunk, BLOCK_SIZE)|
    && resp.proofVersion == PROOF_COMPACT && resp.index == ch.blockIndex
    && resp.chunkData == Split(chunk, BLOCK_SIZE)[ch.blockIndex]
    && WalkTexts(H, H.sha3(ChunkHash(H, ch.blockIndex, resp.chunkData)), resp.siblings, resp.index)
       == Some(SealOf(H, chunk))
  }

  /** The whole verdict when the disk holds `data` under the challenged root. */
  ghost predicate RightAnswer(H: Hashes, providerID: Text, signer: Option<Signer>, now: int, ch: Challenge,
                              data: seq<byte>, size: nat, r: Result<Response, Refusal>)
    requires size > 0 && data != []
  {
    var chunks := Split(data, size);
    match Preflight(providerID, now, ch)
    case Some(refusal) => r == Err(refusal)
    case None =>
      if !(0 <= ch.chunkIndex < |chunks|) then r == Err(ChunkOutOfRange)
      else if ch.proofVersion == PROOF_COMPACT then
        if 0 <= ch.blockIndex < BlockCount(|chunks[ch.chunkIndex]|) then
          && r.Ok? && Echoes(ch, providerID, now, |chunks|, r.value)
          && AnswersBlock(H, data, size, ch, r.value) && SignedBy(H, signer, ch.blockIndex, r.value)
        else r == Err(BlockOutOfRange)
      else
        && r.Ok? && Echoes(ch, providerID, now, |chunks|, r.value)
        && AnswersChunk(H, data, size, ch, r.value) && SignedBy(H, signer, 0, r.value)
  }

  /** Seek to `offset`, then ReadFull of at most `size` bytes. */
  function ReadAt(file: seq<byte>, offset: nat, size: nat): (buf: seq<byte>)
    ensures |buf| <= size
  {
    if offset >= |file| then [] else Slice(file, size, offset)
  }

  method Sign(H: Hashes, signer: Option<Signer>, resp: Response, rawBytes: seq<byte>, blockIndex: int)
      returns (signed: Response)
    requires rawBytes == resp.chunkData && resp.signature == None
    ensures signed.(signature := None) == resp
    ensures SignedBy(H, signer, blockIndex, signed)
  {
    if signer.None? {
      return resp;
    }
    var payload := ProofSig.Payload(H, resp.providerID, resp.challengeID, resp.nonce, resp.merkleRoot,
                                    resp.chunkIndex, blockIndex, resp.proofVersion, rawBytes);
    signed := resp.(signature := Some(Signature(signer.value.sign(payload), signer.value.keyID)));
  }

  /** The leaves of an index: of its listed hashes, and nil past them; or the first hash that is not hex. */
  function IndexLevel(H: Hashes, index: Index): (r: Result<Level, Refusal>)
    requires |index.chunkHashes| <= index.totalChunks
    ensures r.Ok? ==> |r.value| == index.totalChunks
  {
    match LeavesOf(H, index.chunkHashes)
    case Err(i) => Err(BadIndexHash(i))
    case Ok(leaves) => Ok(leaves + seq(index.totalChunks - |leaves|, _ => []))
  }

  /** What the disk gives for a challenge with an index in range. */
  function ChunkOnDisk(index: Index, stored: seq<byte>, chunkIndex: nat): seq<byte> {
    ReadAt(stored, chunkIndex * index.chunkSize, index.chunkSize)
  }

  /** Why a challenge is refused, whatever the disk holds; the first reason in the handler's order. */
  function Obstacle(H: Hashes, providerID: Text, now: int, index: Option<Index>, stored: Option<seq<byte>>,
                    ch: Challenge): Option<Refusal>
    requires index.Some? ==> |index.value.chunkHashes| <= index.value.totalChunks
  {
    if Preflight(providerID, now, ch).Some? then Preflight(providerID, now, ch)
    else if index.None? then Some(ObjectNotFound)
    else if index.value.totalChunks == 0 then Some(ObjectEmpty)
    else if !(0 <= ch.chunkIndex < index.value.totalChunks) then Some(ChunkOutOfRange)
    else if stored.None? then Some(ObjectNotFound)
    else
      var chunk := ChunkOnDisk(index.value, stored.value, ch.chunkIndex);
      if chunk == [] then Some(ReadEmpty)
      else if ch.proofVersion == PROOF_COMPACT then
        (if 0 <= ch.blockIndex < BlockCount(|chunk|) then None else Some(BlockOutOfRange))
      else if IndexLevel(H, index.value).Err? then Some(IndexLevel(H, index.value).error)
      else None
  }

  /** The leaf loop: entries past the listed hashes stay nil. */
  method IndexLeaves(H: Hashes, index: Index) returns (r: Result<Level, Refusal>)
    requires |index.chunkHashes| <= index.totalChunks
    ensures r == IndexLevel(H, index)
  {
    var leaves: Level := [];
    for i := 0 to |index.chunkHashes|
      invariant LeavesOf(H, index.chunkHashes[..i]) == Ok(leaves)
    {
      assert index.chunkHashes[..i + 1][..i] == index.chunkHashes[..i];
      match HexDecode(index.chunkHashes[i]) {
        case None =>
          LeavesOfFails(H, index.chunkHashes, i + 1);
          return Err(BadIndexHash(i));
        case Some(raw) =>
          leaves := leaves + [H.sha3(raw)];
      }
    }
    assert index.chunkHashes[..|index.chunkHashes|] == index.chunkHashes;
    return Ok(leaves + seq(index.totalChunks - |index.chunkHashes|, _ => []));
  }

  /**
   * serveChallenge. `index` and `stored` are what the two stores return for the challenged root.
   * The original fails on an index that lists more hashes than chunks; every writer makes the two equal.
   */
  method ServeChallenge(H: Hashes, providerID: Text, signer: Option<Signer>, now: int,
                        index: Option<Index>, stored: Option<seq<byte>>, ch: Challenge)
      returns (r: Result<Response, Refusal>)
    requires index.Some? ==> |index.value.chunkHashes| <= index.value.totalChunks
    ensures r == Err(ProviderMismatch) <==> ch.providerID != [] && providerID != [] && ch.providerID != providerID
    ensures r == Err(Expired) <==>
              && (ch.providerID == [] || providerID == [] || ch.providerID == providerID)
              && 0 < ch.expiresAt < now
    ensures r == Err(RootMissing) <==>
              && (ch.providerID == [] || providerID == [] || ch.providerID == providerID)
              && (ch.expiresAt <= 0 || now <= ch.expiresAt) && ch.merkleRoot == []
    ensures r == Err(RootNotHex) ==> HexDecode(ch.merkleRoot).None?
    ensures r == Err(UnsupportedVersion) ==> ch.proofVersion !in {0, 2, 4}
    ensures Admissible(providerID, now, ch) && Holds(H, index, stored) && 0 <= ch.chunkIndex < index.value.totalChunks
            && (ch.proofVersion == 4 ==>
                  0 <= ch.blockIndex * 4096 < |Split(stored.value, index.value.chunkSize)[ch.chunkIndex]|) ==>
              r.Ok?
    ensures !Admissible(providerID, now, ch) ==> r.Err?
    ensures match Obstacle(H, providerID, now, index, stored, ch)
            case Some(refusal) => r == Err(refusal)
            case None => r.Ok? && Echoes(ch, providerID, now, index.value.totalChunks, r.value)
    ensures Holds(H, index, stored) ==>
              RightAnswer(H, providerID, signer, now, ch, stored.value, index.value.chunkSize, r)
  {
    if ch.providerID != [] && providerID != [] && ch.providerID != providerID {
      return Err(ProviderMismatch);
    }
    if ch.expiresAt > 0 && now > ch.expiresAt {
      return Err(Expired);
    }
    if ch.merkleRoot == [] {
      return Err(RootMissing);
    }
    if HexDecode(ch.merkleRoot).None? {
      return Err(RootNotHex);
    }
    if ch.proofVersion != 0 && ch.proofVersion != PROOF_V1 && ch.proofVersion != PROOF_COMPACT {
      return Err(UnsupportedVersion);
    }
    if index.None? {
      return Err(ObjectNotFound);
    }
    r := AnswerFromDisk(H, providerID, signer, now, index.value, stored, ch);
  }

  method ReadChunk(idx: Index, stored: seq<byte>, i: nat) returns (chunkBuf: seq<byte>)
    ensures chunkBuf == ChunkOnDisk(idx, stored, i)
  {
    var offset: nat := i * idx.chunkSize;
    chunkBuf := ReadAt(stored, offset, idx.chunkSize);
  }

  /** From the index on. */
  method AnswerFromDisk(H: Hashes, providerID: Text, signer: Option<Signer>, now: int,
                        idx: Index, stored: Option<seq<byte>>, ch: Challenge)
      returns (r: Result<Response, Refusal>)
    requires |idx.chunkHashes| <= idx.totalChunks && Preflight(providerID, now, ch).None?
    ensures match Obstacle(H, providerID, now, Some(idx), stored, ch)
            case Some(refusal) => r == Err(refusal)
            case None => r.Ok? && Echoes(ch, providerID, now, idx.totalChunks, r.value)
    ensures Holds(H, Some(idx), stored) ==>
              RightAnswer(H, providerID, signer, now, ch, stored.value, idx.chunkSize, r)
  {
    if idx.totalChunks == 0 {
      return Err(ObjectEmpty);
    }
    if ch.chunkIndex < 0 || ch.chunkIndex >= idx.totalChunks {
      return Err(ChunkOutOfRange);
    }
    if stored.None? {
      return Err(ObjectNotFound);
    }
    var chunkBuf := ReadChunk(idx, stored.value, ch.chunkIndex);
    if Holds(H, Some(idx), stored) {
      HeldFacts(H, idx, stored.value, ch.chunkIndex);
    }
    if |chunkBuf| == 0 {
      return Err(ReadEmpty);
    }
    if ch.proofVersion == PROOF_COMPACT {
      r := CompactAnswer(H, providerID, signer, now, idx, chunkBuf, ch);
    } else {
      r := ChunkAnswer(H, providerID, signer, now, idx, chunkBuf, ch);
    }
    if Holds(H, Some(idx), stored) {
      HeldIsAnswered(H, providerID, signer, now, idx, stored.value, chunkBuf, ch, r);
    }
  }

  /** What the two branches promise about a non-empty chunk read, for any index. */
  ghost predicate AnswersRead(H: Hashes, providerID: Text, signer: Option<Signer>, now: int, idx: Index,
                              chunkBuf: seq<byte>, ch: Challenge, r: Result<Response, Refusal>)
    requires chunkBuf != [] && |idx.chunkHashes| <= idx.totalChunks && 0 <= ch.chunkIndex < idx.totalChunks
  {
    if ch.proofVersion == PROOF_COMPACT then CompactAnswered(H, providerID, signer, now, idx, chunkBuf, ch, r)
    else ChunkAnswered(H, providerID, signer, now, idx, chunkBuf, ch, r)
  }

  ghost predicate ChunkAnswered(H: Hashes, providerID: Text, signer: Option<Signer>, now: int, idx: Index,
                                chunkBuf: seq<byte>, ch: Challenge, r: Result<Response, Refusal>)
    requires |idx.chunkHashes| <= idx.totalChunks && 0 <= ch.chunkIndex < idx.totalChunks
  {
    match IndexLevel(H, idx)
    case Err(refusal) => r == Err(refusal)
    case Ok(leaves) =>
      && r.Ok? && Echoes(ch, providerID, now, idx.totalChunks, r.value) && SignedBy(H, signer, 0, r.value)
      && r.value.proofVersion == PROOF_V1 && r.value.index == ch.chunkIndex && r.value.chunkData == chunkBuf
      && WalkTexts(H, leaves[ch.chunkIndex], r.value.siblings, ch.chunkIndex) == Some(TreeRoot(H, leaves))
  }

  ghost predicate CompactAnswered(H: Hashes, providerID: Text, signer: Option<Signer>, now: int, idx: Index,
                                  chunkBuf: seq<byte>, ch: Challenge, r: Result<Response, Refusal>)
    requires chunkBuf != []
  {
    if 0 <= ch.blockIndex < BlockCount(|chunkBuf|) then
      && r.Ok? && Echoes(ch, providerID, now, idx.totalChunks, r.value)
      && SignedBy(H, signer, ch.blockIndex, r.value)
      && r.value.proofVersion == PROOF_COMPACT && r.value.index == ch.blockIndex
      && ch.blockIndex < |Split(chunkBuf, BLOCK_SIZE)|
      && r.value.chunkData == Split(chunkBuf, BLOCK_SIZE)[ch.blockIndex]
      && WalkTexts(H, H.sha3(ChunkHash(H, ch.blockIndex, r.value.chunkData)), r.value.siblings, ch.blockIndex)
         == Some(SealOf(H, chunkBuf))
    else r == Err(BlockOutOfRange)
  }

  /** With an object and its index on disk, that is the right answer. */
  lemma HeldIsAnswered(H: Hashes, providerID: Text, signer: Option<Signer>, now: int, idx: Index, data: seq<byte>,
                       chunkBuf: seq<byte>, ch: Challenge, r: Result<Response, Refusal>)
    requires Holds(H, Some(idx), Some(data)) && Preflight(providerID, now, ch).None?
    requires 0 <= ch.chunkIndex < idx.totalChunks && chunkBuf == ChunkOnDisk(idx, data, ch.chunkIndex) != []
    requires |idx.chunkHashes| <= idx.totalChunks && AnswersRead(H, providerID, signer, now, idx, chunkBuf, ch, r)
    ensures RightAnswer(H, providerID, signer, now, ch, data, idx.chunkSize, r)
  {
    HeldFacts(H, idx, data, ch.chunkIndex);
    if ch.proofVersion == PROOF_COMPACT {
      HeldBlockAnswered(H, providerID, signer, now, idx, data, chunkBuf, ch, r);
    } else {
      HeldChunkAnswered(H, providerID, signer, now, idx, data, chunkBuf, ch, r);
    }
  }

  lemma HeldFacts(H: Hashes, idx: Index, data: seq<byte>, i: nat)
    requires Holds(H, Some(idx), Some(data)) && i < idx.totalChunks && |idx.chunkHashes| <= idx.totalChunks
    ensures idx.totalChunks == |Split(data, idx.chunkSize)|
    ensures ChunkOnDisk(idx, data, i) == Split(data, idx.chunkSize)[i] != []
    ensures IndexLevel(H, idx) == Ok(DataLeaves(H, data, idx.chunkSize))
  {
    ChunkRead(data, idx.chunkSize, i);
    LeavesOfHashedPieces(H, Split(data, idx.chunkSize));
    FullIndexLevel(H, idx, DataLeaves(H, data, idx.chunkSize));
  }

  lemma FullIndexLevel(H: Hashes, idx: Index, leaves: Level)
    requires |idx.chunkHashes| == idx.totalChunks && LeavesOf(H, idx.chunkHashes) == Ok(leaves)
    ensures IndexLevel(H, idx) == Ok(leaves)
  {
    assert leaves + seq(idx.totalChunks - |leaves|, _ => []) == leaves;
  }

  lemma HeldChunkAnswered(H: Hashes, providerID: Text, signer: Option<Signer>, now: int, idx: Index, data: seq<byte>,
                          chunkBuf: seq<byte>, ch: Challenge, r: Result<Response, Refusal>)
    requires idx.chunkSize > 0 && data != [] && idx.totalChunks == |Split(data, idx.chunkSize)|
    requires 0 <= ch.chunkIndex < idx.totalChunks && chunkBuf == Split(data, idx.chunkSize)[ch.chunkIndex]
    requires |idx.chunkHashes| <= idx.totalChunks && IndexLevel(H, idx) == Ok(DataLeaves(H, data, idx.chunkSize))
    requires ChunkAnswered(H, providerID, signer, now, idx, chunkBuf, ch, r)
    ensures r.Ok? && Echoes(ch, providerID, now, idx.totalChunks, r.value) && SignedBy(H, signer, 0, r.value)
    ensures AnswersChunk(H, data, idx.chunkSize, ch, r.value)
  {
  }

  lemma HeldBlockAnswered(H: Hashes, providerID: Text, signer: Option<Signer>, now: int, idx: Index, data: seq<byte>,
                          chunkBuf: seq<byte>, ch: Challenge, r: Result<Response, Refusal>)
    requires idx.chunkSize > 0 && data != [] && idx.totalChunks == |Split(data, idx.chunkSize)|
    requires 0 <= ch.chunkIndex < idx.totalChunks && chunkBuf == Split(data, idx.chunkSize)[ch.chunkIndex] != []
    requires CompactAnswered(H, providerID, signer, now, idx, chunkBuf, ch, r)
    ensures if 0 <= ch.blockIndex < BlockCount(|chunkBuf|) then
              && r.Ok? && Echoes(ch, providerID, now, idx.totalChunks, r.value)
              && AnswersBlock(H, data, idx.chunkSize, ch, r.value) && SignedBy(H, signer, ch.blockIndex, r.value)
            else r == Err(BlockOutOfRange)
  {
  }

  /** The read of an in-range chunk returns that chunk and never comes back empty. */
  lemma ChunkRead(data: seq<byte>, size: nat, i: nat)
    requires size > 0 && i < |Split(data, size)|
    ensures i * size >= 0 && ReadAt(data, i * size, size) == Split(data, size)[i] != []
  {
    SplitIndex(data, size, i);
    SplitFacts(data, size);
  }

  method ChunkAnswer(H: Hashes, providerID: Text, signer: Option<Signer>, now: int, idx: Index,
                     chunkBuf: seq<byte>, ch: Challenge)
      returns (r: Result<Response, Refusal>)
    requires |idx.chunkHashes| <= idx.totalChunks && 0 <= ch.chunkIndex < idx.totalChunks
    ensures ChunkAnswered(H, providerID, signer, now, idx, chunkBuf, ch, r)
  {
    var leaves := IndexLeaves(H, idx);
    if leaves.Err? {
      return Err(leaves.error);
    }
    ProofComplete(H, leaves.value, ch.chunkIndex);
    var siblings := ComputeMerkleProof(H, leaves.value, ch.chunkIndex);
    var resp := Response(ch.version, ch.challengeID, providerID, ch.merkleRoot, ch.chunkIndex, chunkBuf, siblings,
                         ch.chunkIndex, idx.totalChunks, ch.nonce, now, PROOF_V1, None);
    resp := Sign(H, signer, resp, chunkBuf, 0);
    return Ok(resp);
  }

  method CompactAnswer(H: Hashes, providerID: Text, signer: Option<Signer>, now: int, idx: Index,
                       chunkBuf: seq<byte>, ch: Challenge)
      returns (r: Result<Response, Refusal>)
    requires chunkBuf != []
    ensures CompactAnswered(H, providerID, signer, now, idx, chunkBuf, ch, r)
  {
    var blockCount := BlockCount(|chunkBuf|);
    if ch.blockIndex < 0 || ch.blockIndex >= blockCount {
      return Err(BlockOutOfRange);
    }
    var proof := GenerateSubChunkSiblings(H, chunkBuf, ch.blockIndex);
    var resp := Response(ch.version, ch.challengeID, providerID, ch.merkleRoot, ch.chunkIndex, proof.value.block,
                         proof.value.siblings, ch.blockIndex, idx.totalChunks, ch.nonce, now, PROOF_COMPACT, None);
    resp := Sign(H, signer, resp, proof.value.block, ch.blockIndex);
    return Ok(resp);
  }
}
