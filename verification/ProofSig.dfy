/** The byte string a provider signs for a challenge response (identity/proofsig.go). */
module ProofSig {
  import opened Basics
  import opened Encoding

  const DOMAIN := "obsideo-proof-response-v1"

  /** The signed fields, before they are joined. */
  datatype Claim = Claim(providerID: Text, challengeID: Text, nonce: Text, merkleRoot: Text,
                         chunkIndex: int, blockIndex: int, proofVersion: int, digest: Digest32)

  function Lines(fields: seq<Text>): Text
    requires fields != []
  {
    if |fields| == 1 then fields[0] else fields[0] + [NEWLINE] + Lines(fields[1..])
  }

  function Fields(c: Claim): (fields: seq<Text>)
    ensures |fields| == 9
  {
    [Ascii(DOMAIN), c.providerID, c.challengeID, c.nonce, c.merkleRoot,
     Itoa(c.chunkIndex), Itoa(c.blockIndex), Itoa(c.proofVersion), HexEncode(c.digest)]
  }

  function PayloadOf(c: Claim): Text {
    Lines(Fields(c))
  }

  /** The signed bytes, written out: nine lines, the second to the last each after a newline. */
  function PlainPayload(providerID: Text, challengeID: Text, nonce: Text, merkleRoot: Text,
                        chunkIndex: int, blockIndex: int, proofVersion: int, digest: Digest32): Text
  {
    Ascii("obsideo-proof-response-v1")
    + ([10] + providerID) + ([10] + challengeID) + ([10] + nonce) + ([10] + merkleRoot)
    + ([10] + Itoa(chunkIndex)) + ([10] + Itoa(blockIndex)) + ([10] + Itoa(proofVersion)) + ([10] + HexEncode(digest))
  }

  lemma PayloadIsPlain(c: Claim)
    ensures PayloadOf(c) == PlainPayload(c.providerID, c.challengeID, c.nonce, c.merkleRoot,
                                         c.chunkIndex, c.blockIndex, c.proofVersion, c.digest)
  {
    var f := Fields(c);
    LinesTail(f);
    TailTakes(f, 1);
    TailTakes(f, 2);
    TailTakes(f, 3);
    TailTakes(f, 4);
    TailTakes(f, 5);
    TailTakes(f, 6);
    TailTakes(f, 7);
    TailTakes(f, 8);
    assert TailFrom(f, 9) == [];
    Reassociate(f[0], [10] + f[1], [10] + f[2], [10] + f[3], [10] + f[4], [10] + f[5], [10] + f[6], [10] + f[7], [10] + f[8]);
  }

  function TailFrom(f: seq<Text>, k: nat): Text
    requires k <= |f|
  {
    Tail(f[k..])
  }

  lemma TailTakes(f: seq<Text>, k: nat)
    requires k < |f|
    ensures TailFrom(f, k) == ([10] + f[k]) + TailFrom(f, k + 1)
  {
    assert f[k..][1..] == f[k + 1..];
  }

  lemma Reassociate(a: Text, b: Text, c: Text, d: Text, e: Text, f: Text, g: Text, h: Text, i: Text)
    ensures a + (b + (c + (d + (e + (f + (g + (h + (i + [])))))))) == a + b + c + d + e + f + g + h + i
  {
    assert i + [] == i;
  }

  method Payload(H: Hashes, providerID: Text, challengeID: Text, nonce: Text, merkleRoot: Text,
                 chunkIndex: int, blockIndex: int, proofVersion: int, chunkData: seq<byte>) returns (b: Text)
    ensures b == PayloadOf(Claim(providerID, challengeID, nonce, merkleRoot, chunkIndex, blockIndex, proofVersion,
                                 H.sha256(chunkData)))
    ensures b == PlainPayload(providerID, challengeID, nonce, merkleRoot, chunkIndex, blockIndex, proofVersion,
                              H.sha256(chunkData))
  {
    var digest := H.sha256(chunkData);
    var fields := [providerID, challengeID, nonce, merkleRoot,
                   Itoa(chunkIndex), Itoa(blockIndex), Itoa(proofVersion), HexEncode(digest)];
    ghost var claim := Claim(providerID, challengeID, nonce, merkleRoot, chunkIndex, blockIndex, proofVersion, digest);
    assert fields == Fields(claim)[1..];
    LinesTail(Fields(claim));
    PayloadIsPlain(claim);
    b := Ascii(DOMAIN);
    for i := 0 to |fields|
      invariant b + Tail(fields[i..]) == PayloadOf(claim)
    {
      assert fields[i..][1..] == fields[i + 1..];
      NextLine(b, fields[i], Tail(fields[i + 1..]));
      b := b + [NEWLINE];
      b := b + fields[i];
    }
  }

  lemma NextLine(b: Text, f: Text, rest: Text)
    ensures b + ([NEWLINE] + f + rest) == b + [NEWLINE] + f + rest
  {
  }

  /** Every field with a newline before it. */
  function Tail(fields: seq<Text>): Text {
    if fields == [] then [] else [NEWLINE] + fields[0] + Tail(fields[1..])
  }

  lemma {:induction false} LinesTail(fields: seq<Text>)
    requires fields != []
    ensures Lines(fields) == fields[0] + Tail(fields[1..])
  {
    if |fields| == 1 {
      assert fields[1..] == [];
    } else {
      LinesTail(fields[1..]);
    }
  }

  lemma FirstLine(f: Text, r: Text, g: Text, s: Text)
    requires NEWLINE !in f && NEWLINE !in g && f + [NEWLINE] + r == g + [NEWLINE] + s
    ensures f == g && r == s
  {
    var t := f + [NEWLINE] + r;
    assert t[|f|] == NEWLINE && t[|g|] == NEWLINE;
    assert forall i :: 0 <= i < |f| ==> t[i] == f[i];
    assert forall i :: 0 <= i < |g| ==> t[i] == g[i];
    assert |f| == |g|;
    assert f == t[..|f|] && g == t[..|g|];
    assert r == t[|f| + 1..] && s == t[|g| + 1..];
  }

  lemma {:induction false} LinesInjective(a: seq<Text>, b: seq<Text>)
    requires a != [] && |a| == |b|
    requires forall i :: 0 <= i < |a| ==> NEWLINE !in a[i] && NEWLINE !in b[i]
    requires Lines(a) == Lines(b)
    ensures a == b
  {
    if |a| > 1 {
      FirstLine(a[0], Lines(a[1..]), b[0], Lines(b[1..]));
      LinesInjective(a[1..], b[1..]);
      assert a == [a[0]] + a[1..] && b == [b[0]] + b[1..];
    }
  }

  function Newlines(t: Text): nat {
    multiset(t)[NEWLINE]
  }

  /** Joined lines show how many they are, and more newlines than that give a field away. */
  lemma {:induction false} LineCount(fields: seq<Text>)
    requires fields != []
    ensures Newlines(Lines(fields)) >= |fields| - 1
    ensures Newlines(Lines(fields)) == |fields| - 1 <==> forall i :: 0 <= i < |fields| ==> NEWLINE !in fields[i]
  {
    assert fields == [fields[0]] + fields[1..];
    assert NEWLINE in fields[0] <==> Newlines(fields[0]) > 0;
    if |fields| > 1 {
      LineCount(fields[1..]);
      assert Newlines(Lines(fields)) == Newlines(fields[0]) + 1 + Newlines(Lines(fields[1..]));
    }
  }

  predicate SingleLine(c: Claim) {
    NEWLINE !in c.providerID && NEWLINE !in c.challengeID && NEWLINE !in c.nonce && NEWLINE !in c.merkleRoot
  }

  lemma FieldsAreLines(c: Claim)
    ensures SingleLine(c) <==> forall i :: 0 <= i < 9 ==> NEWLINE !in Fields(c)[i]
  {
    var f := Fields(c);
    assert f[1] == c.providerID && f[2] == c.challengeID && f[3] == c.nonce && f[4] == c.merkleRoot;
    assert NEWLINE !in Ascii(DOMAIN);
    ItoaHasNoNewline(c.chunkIndex);
    ItoaHasNoNewline(c.blockIndex);
    ItoaHasNoNewline(c.proofVersion);
    HexHasNoNewline(c.digest);
  }

  /**
   * A signature on a claim without newlines is for that claim only: all seven fields and the digest of
   * the returned bytes. Nothing is asked of the other claim.
   */
  lemma PayloadInjective(a: Claim, b: Claim)
    requires SingleLine(a) && PayloadOf(a) == PayloadOf(b)
    ensures a == b
  {
    var fa, fb := Fields(a), Fields(b);
    FieldsAreLines(a);
    FieldsAreLines(b);
    LineCount(fa);
    LineCount(fb);
    LinesInjective(fa, fb);
    assert fa[1] == fb[1] && fa[2] == fb[2] && fa[3] == fb[3] && fa[4] == fb[4];
    assert fa[5] == fb[5] && fa[6] == fb[6] && fa[7] == fb[7] && fa[8] == fb[8];
    ItoaInjective(a.chunkIndex, b.chunkIndex);
    ItoaInjective(a.blockIndex, b.blockIndex);
    ItoaInjective(a.proofVersion, b.proofVersion);
    HexInjective(a.digest, b.digest);
  }

  /** Two neighbouring fields can be cut apart elsewhere if the joined text stays the same. */
  lemma {:induction false} NeighboursRecut(f: seq<Text>, g: seq<Text>, k: nat)
    requires |f| == |g| && k + 1 < |f| && (forall i :: 0 <= i < |f| && i != k && i != k + 1 ==> f[i] == g[i])
    requires f[k] + [NEWLINE] + f[k + 1] == g[k] + [NEWLINE] + g[k + 1]
    ensures Lines(f) == Lines(g)
  {
    if k > 0 {
      NeighboursRecut(f[1..], g[1..], k - 1);
    } else {
      LinesTail(f[1..]);
      LinesTail(g[1..]);
      assert f[1..][1..] == g[1..][1..];
      ConcatAssociates(f[0] + [NEWLINE], f[1], Tail(f[1..][1..]));
      ConcatAssociates(g[0] + [NEWLINE], g[1], Tail(g[1..][1..]));
    }
  }

  /** A newline in the challenge's own text can be the one between two fields: the two payloads are the same. */
  lemma NewlineMakesPayloadsAgree(c: Claim, x: Text, y: Text, z: Text)
    ensures var a, b := c.(challengeID := x + [NEWLINE] + y, nonce := z), c.(challengeID := x, nonce := y + [NEWLINE] + z);
            a != b && PayloadOf(a) == PayloadOf(b)
  {
    var a, b := c.(challengeID := x + [NEWLINE] + y, nonce := z), c.(challengeID := x, nonce := y + [NEWLINE] + z);
    assert |a.challengeID| > |b.challengeID|;
    assert a.challengeID + [NEWLINE] + a.nonce == b.challengeID + [NEWLINE] + b.nonce;
    NeighboursRecut(Fields(a), Fields(b), 2);
  }

  /** The text before the first newline, and after it. */
  lemma CutAtNewline(t: Text) returns (x: Text, y: Text)
    requires NEWLINE in t
    ensures t == x + [NEWLINE] + y
  {
    var i :| 0 <= i < |t| && t[i] == NEWLINE;
    x, y := t[..i], t[i + 1..];
  }

  /** A claim with a newline shares its payload with another one. */
  lemma OtherClaim(c: Claim) returns (d: Claim)
    requires !SingleLine(c)
    ensures d != c && PayloadOf(d) == PayloadOf(c)
  {
    var x, y, k;
    if NEWLINE in c.providerID {
      x, y := CutAtNewline(c.providerID);
      d, k := c.(providerID := x, challengeID := y + [NEWLINE] + c.challengeID), 1;
      assert |d.providerID| < |c.providerID|;
    } else if NEWLINE in c.challengeID {
      x, y := CutAtNewline(c.challengeID);
      d, k := c.(challengeID := x, nonce := y + [NEWLINE] + c.nonce), 2;
      assert |d.challengeID| < |c.challengeID|;
    } else if NEWLINE in c.nonce {
      x, y := CutAtNewline(c.nonce);
      d, k := c.(nonce := x, merkleRoot := y + [NEWLINE] + c.merkleRoot), 3;
      assert |d.nonce| < |c.nonce|;
    } else {
      x, y := CutAtNewline(c.merkleRoot);
      d, k := c.(nonce := c.nonce + [NEWLINE] + x, merkleRoot := y), 3;
      assert |d.merkleRoot| < |c.merkleRoot|;
    }
    NeighboursRecut(Fields(d), Fields(c), k);
  }

  /** The exact condition: a payload is one claim's only if and only if that claim's texts hold no newline. */
  lemma SoleClaimIffSingleLine(c: Claim)
    ensures (forall d :: PayloadOf(d) == PayloadOf(c) ==> d == c) <==> SingleLine(c)
  {
    if SingleLine(c) {
      forall d | PayloadOf(d) == PayloadOf(c)
        ensures d == c
      {
        PayloadInjective(c, d);
      }
    } else {
      var d := OtherClaim(c);
    }
  }
}
