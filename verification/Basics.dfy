/** Types shared by every module: optional values, results, bytes and the two hash functions. */
module Basics {

  datatype Option<+T> = None | Some(value: T)

  datatype Result<+T, +E> = Ok(value: T) | Err(error: E)

  newtype byte = x: int | 0 <= x < 256

  /** Text that is hashed or put on the wire; every character the program writes is one byte. */
  type Text = seq<byte>

  type Digest32 = s: seq<byte> | |s| == 32 witness seq(32, _ => 0)
  type Digest64 = s: seq<byte> | |s| == 64 witness seq(64, _ => 0)

  /**
   * SHA-256 and SHA3-512. Nothing is known about them but the length of their results, so every
   * theorem that takes an H holds for any two functions of these types.
   */
  datatype Hashes = Hashes(sha256: seq<byte> -> Digest32, sha3: seq<byte> -> Digest64)

  /** The padding leaf: 64 zero bytes. */
  function ZeroHash(): (z: Digest64)
    ensures |z| == 64 && forall i :: 0 <= i < 64 ==> z[i] == 0
  {
    seq(64, _ => 0)
  }

  /** The pieces one after the other. */
  function Flatten(pieces: seq<seq<byte>>): seq<byte> {
    if pieces == [] then [] else pieces[0] + Flatten(pieces[1..])
  }

  lemma ConcatAssociates<T>(a: seq<T>, b: seq<T>, c: seq<T>)
    ensures a + b + c == a + (b + c)
  {
  }

  /** The first i + 1 pieces. */
  lemma FlattenNext(pieces: seq<seq<byte>>, i: nat)
    requires i < |pieces|
    ensures Flatten(pieces[..i + 1]) == Flatten(pieces[..i]) + pieces[i]
  {
    assert pieces[..i + 1] == pieces[..i] + [pieces[i]];
    FlattenSnoc(pieces[..i], pieces[i]);
  }

  lemma {:induction false} FlattenSnoc(pieces: seq<seq<byte>>, p: seq<byte>)
    ensures Flatten(pieces + [p]) == Flatten(pieces) + p
  {
    if pieces == [] {
      assert Flatten([p]) == p + Flatten([]);
    } else {
      FlattenSnoc(pieces[1..], p);
      assert (pieces + [p])[1..] == pieces[1..] + [p];
    }
  }
}
