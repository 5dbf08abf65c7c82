/** The constant-memory tree builder of store/merkle.go, proved to refine the buffered one. */
module TreeBuilder {
  import opened Basics
  import opened Encoding
  import opened Merkle

  /** A running SHA-256: its state is the bytes it has taken in. */
  class RunningHash {
    const H: Hashes
    var absorbed: seq<byte>

    constructor (H: Hashes)
      ensures this.H == H && absorbed == []
    {
      this.H := H;
      absorbed := [];
    }

    method Write(p: seq<byte>)
      modifies this
      ensures absorbed == old(absorbed) + p
    {
      absorbed := absorbed + p;
    }

    method Sum() returns (digest: Digest32)
      ensures digest == H.sha256(absorbed)
    {
      digest := H.sha256(absorbed);
    }
  }

  class TreeBuilder {
    const H: Hashes
    var chunkHashes: seq<Text>
    var chunkHash: RunningHash?
    var chunkFill: nat
    var total: nat
    const hexScratch: array<byte>

    ghost var hashed: seq<byte>   // bytes of the finished chunks
    ghost var partial: seq<byte>  // bytes of the chunk under way

    ghost function Written(): seq<byte>
      reads this
    {
      hashed + partial
    }

    /** The finished chunks, the fill and the total are those of what was written. */
    ghost predicate Consistent()
      reads this
    {
      && hexScratch.Length == 65536
      && chunkHashes == HashPieces(H, Split(hashed, CHUNK_SIZE))
      && chunkFill == |partial| < CHUNK_SIZE
      && total == |hashed| + |partial|
    }

    /** A chunk is under way, after full ones only, and its running hash has taken in `partial`. */
    ghost predicate Filling()
      reads this, chunkHash
    {
      && Consistent()
      && Multiple(|hashed|, CHUNK_SIZE)
      && chunkHash != null && chunkHash.H == H
      && chunkHash.absorbed == Preimage(|chunkHashes|, partial)
    }

    ghost predicate Valid()
      reads this, chunkHash
    {
      && Consistent()
      && (chunkHash == null <==> partial == [])
      && (chunkHash != null ==> Filling())
    }

    /** More bytes may follow: every finished chunk is a full one. Finish closes a builder. */
    ghost predicate Open()
      reads this, chunkHash
    {
      Valid() && Multiple(|hashed|, CHUNK_SIZE)
    }

    constructor (H: Hashes)
      ensures Open() && Written() == [] && fresh(hexScratch)
      ensures this.H == H
    {
      this.H := H;
      chunkHashes, chunkHash, chunkFill, total := [], null, 0, 0;
      hexScratch := new byte[65536];
      hashed, partial := [], [];
    }

    /** hex.Encode into the scratch buffer, in place. */
    method EncodeToScratch(seg: seq<byte>)
      requires 2 * |seg| <= hexScratch.Length
      modifies hexScratch
      ensures hexScratch[..2 * |seg|] == HexEncode(seg)
    {
      for i := 0 to |seg|
        invariant hexScratch[..2 * i] == HexEncode(seg[..i])
      {
        hexScratch[2 * i] := HexDigit(seg[i] / 16);
        hexScratch[2 * i + 1] := HexDigit(seg[i] % 16);
        assert seg[..i + 1] == seg[..i] + [seg[i]];
        HexConcat(seg[..i], [seg[i]]);
        assert HexEncode([seg[i]]) == HexByte(seg[i]) + HexEncode([]);
        assert hexScratch[..2 * i + 2] == hexScratch[..2 * i] + HexByte(seg[i]);
      }
      assert seg[..|seg|] == seg;
    }

    /** The scratch-buffer loop: the running hash takes in the hex of `take`. */
    method HashSegment(take: seq<byte>)
      requires chunkHash != null && hexScratch.Length == 65536
      modifies hexScratch, chunkHash
      ensures chunkHash.absorbed == old(chunkHash.absorbed) + HexEncode(take)
    {
      ghost var before := chunkHash.absorbed;
      var seg := take;
      ghost var gone: seq<byte> := [];
      while |seg| > 0
        invariant take == gone + seg
        invariant chunkHash.absorbed == before + HexEncode(gone)
        decreases |seg|
      {
        var m := hexScratch.Length / 2;
        if m > |seg| {
          m := |seg|;
        }
        EncodeToScratch(seg[..m]);
        chunkHash.Write(hexScratch[..2 * m]);
        HexConcat(gone, seg[..m]);
        gone := gone + seg[..m];
        assert seg == seg[..m] + seg[m..];
        seg := seg[m..];
      }
      assert gone == take;
    }

    /** A new chunk's hash input starts with the decimal chunk number. */
    method StartChunk()
      requires Open()
      modifies this`chunkHash
      ensures Filling()
      ensures old(chunkHash) == null ==> fresh(chunkHash)
      ensures old(chunkHash) != null ==> chunkHash == old(chunkHash)
    {
      if chunkHash == null {
        chunkHash := new RunningHash(H);
        chunkHash.Write(Itoa(|chunkHashes|));
        assert Preimage(|chunkHashes|, partial) == Itoa(|chunkHashes|) + HexEncode([]);
      }
    }

    /** One turn of Write's loop: as much of `rest` as the chunk under way has room for. */
    method Absorb(rest: seq<byte>) returns (take: nat)
      requires Filling() && |rest| > 0
      modifies this, chunkHash, hexScratch
      ensures 0 < take <= |rest|
      ensures Open() && (chunkHash == old(chunkHash) || chunkHash == null)
      ensures Written() == old(Written()) + rest[..take]
    {
      take := CHUNK_SIZE - chunkFill;
      if take > |rest| {
        take := |rest|;
      }
      var seg := rest[..take];
      HexConcat(partial, seg);
      HashSegment(seg);
      ghost var written := Written();
      chunkFill := chunkFill + take;
      total := total + take;
      assert chunkHash.absorbed == Preimage(|chunkHashes|, partial + seg);
      partial := partial + seg;
      assert Written() == written + seg;
      if chunkFill == CHUNK_SIZE {
        FinishChunk();
      }
    }

    method Write(p: seq<byte>) returns (n: nat)
      requires Open()
      modifies this, chunkHash, hexScratch
      ensures Open() && (chunkHash == old(chunkHash) || chunkHash == null || fresh(chunkHash))
      ensures Written() == old(Written()) + p && n == |p|
    {
      n := |p|;
      var rest := p;
      ghost var gone: seq<byte> := [];
      while |rest| > 0
        invariant Open() && (chunkHash == old(chunkHash) || chunkHash == null || fresh(chunkHash))
        invariant p == gone + rest
        invariant Written() == old(Written()) + gone
        decreases |rest|
      {
        StartChunk();
        var take := Absorb(rest);
        ghost var seg := rest[..take];
        assert rest == seg + rest[take..];
        ConcatAssociates(old(Written()), gone, seg);
        ConcatAssociates(gone, seg, rest[take..]);
        gone := gone + seg;
        rest := rest[take..];
      }
      assert gone == p;
    }

    method FinishChunk()
      requires chunkHash != null && chunkHash.H == H && hexScratch.Length == 65536
      requires chunkHashes == HashPieces(H, Split(hashed, CHUNK_SIZE))
      requires chunkFill == |partial| && 0 < |partial| <= CHUNK_SIZE && total == |hashed| + |partial|
      requires Multiple(|hashed|, CHUNK_SIZE)
      requires chunkHash.absorbed == Preimage(|chunkHashes|, partial)
      modifies this
      ensures Valid() && chunkHash == null && partial == []
      ensures Written() == old(Written()) && total == old(total)
      ensures old(|partial|) == CHUNK_SIZE ==> Open()
    {
      var digest := chunkHash.Sum();
      chunkHashes := chunkHashes + [HexEncode(digest)];
      chunkHash := null;
      chunkFill := 0;
      SplitSnoc(hashed, partial, CHUNK_SIZE);
      HashPiecesSnoc(H, Split(hashed, CHUNK_SIZE), partial);
      hashed, partial := hashed + partial, [];
    }

    method Size() returns (n: nat)
      requires Valid()
      ensures n == |Written()|
    {
      n := total;
    }

    /** The tree of everything written, however it was cut into writes; a second call says the same. */
    method Finish() returns (r: Result<Tree, MerkleError>)
      requires Valid()
      modifies this
      ensures Valid() && Written() == old(Written())
      ensures r == TreeOf(H, Written())
    {
      if total == 0 {
        assert Written() == [];
        return Err(EmptyData);
      }
      if chunkFill > 0 {
        FinishChunk();
      }
      assert Written() == hashed;
      RootOfSplit(H, hashed);
      var root := TreeFromChunkHashes(H, chunkHashes);
      match root {
        case Err(e) => return Err(e);
        case Ok(rootHex) => return Ok(Tree(rootHex, chunkHashes));
      }
    }
  }

  /**
   * Streaming refines buffered: any segmentation into writes, empty and many-chunk ones included,
   * ends in the tree (or the error) and the size of the concatenation.
   */
  method StreamTree(H: Hashes, segments: seq<seq<byte>>) returns (r: Result<Tree, MerkleError>, size: nat)
    ensures r == TreeOf(H, Flatten(segments)) && size == |Flatten(segments)|
  {
    var b := new TreeBuilder(H);
    for i := 0 to |segments|
      invariant b.Open() && fresh(b) && fresh(b.hexScratch) && b.H == H
      invariant b.chunkHash != null ==> fresh(b.chunkHash)
      invariant b.Written() == Flatten(segments[..i])
    {
      FlattenNext(segments, i);
      var _ := b.Write(segments[i]);
    }
    assert segments[..|segments|] == segments;
    size := b.Size();
    r := b.Finish();
  }
}
