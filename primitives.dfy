/** The cryptographic and encoding primitives the agent calls into, as
    parameters: PEM, SHA-256 and Ed25519. Only the facts stated in the
    predicates below are assumed about them, and only where a lemma asks. */
module Primitives {
  import opened Wrappers
  import opened FileSystem

  const SignatureSize := 64
  const PublicKeySize := 32
  const PrivateKeySize := 64

  /** A PEM block: its type line and decoded payload. */
  datatype Block = Block(kind: string, payload: bytes)

  datatype Suite = Suite(
    pemEncode: Block -> bytes,
    pemDecode: bytes -> Option<Block>,
    sha256: bytes -> bytes,
    ed25519Sign: (bytes, bytes) -> bytes,
    ed25519Verify: (bytes, bytes, bytes) -> bool)

  /** An Ed25519 private key carries its public key in its upper half. */
  function PublicOf(priv: bytes): bytes
    requires |priv| == PrivateKeySize
  {
    priv[32..]
  }

  /** PEM decoding inverts encoding. */
  ghost predicate PemRoundTrip(c: Suite) {
    forall b :: c.pemDecode(c.pemEncode(b)) == Some(b)
  }

  /** SHA-256 yields 32 bytes. */
  ghost predicate DigestSized(c: Suite) {
    forall d :: |c.sha256(d)| == 32
  }

  /** A signature made with a private key over a 32-byte digest is 64 bytes
      long and verifies under its public key. */
  ghost predicate SignaturesVerify(c: Suite) {
    forall k, m :: |k| == PrivateKeySize && |m| == 32 ==>
      |c.ed25519Sign(k, m)| == SignatureSize && c.ed25519Verify(k[32..], m, c.ed25519Sign(k, m))
  }

  /** The assumed behaviour of the primitives. */
  ghost predicate Sound(c: Suite) {
    PemRoundTrip(c) && DigestSized(c) && SignaturesVerify(c)
  }

  /** A signature over one digest does not verify another digest under the
      same key. Collision-freeness of SHA-256 is not part of it: it cannot
      hold for every pair of inputs, so lemmas ask for it pair by pair. */
  ghost predicate Unforgeable(c: Suite) {
    forall k, m1, m2 :: |k| == PrivateKeySize && |m1| == 32 && |m2| == 32 && m1 != m2 ==>
      !c.ed25519Verify(k[32..], m2, c.ed25519Sign(k, m1))
  }

  /** A toy suite whose signature is the digest followed by the public key,
      and whose digest tells the empty payload from every other. */
  function ToySuite(): Suite {
    Suite(
      b => [],
      d => None,
      d => if d == [] then seq(32, _ => 0 as byte) else seq(32, _ => 1 as byte),
      (k, m) => if |k| == PrivateKeySize && |m| == 32 then m + k[32..] else seq(SignatureSize, _ => 0 as byte),
      (pk, m, s) => |s| == SignatureSize && |m| == 32 && s[..32] == m && s[32..] == pk)
  }

  /** The signing assumptions hold together for some suite, so the lemmas that
      ask for them are not vacuous. */
  lemma SigningAssumptionsConsistent()
    ensures DigestSized(ToySuite()) && SignaturesVerify(ToySuite()) && Unforgeable(ToySuite())
    ensures ToySuite().sha256([]) != ToySuite().sha256([1])
  {
    var c := ToySuite();
    assert c.sha256([])[0] != c.sha256([1])[0];
    forall k: bytes, m1: bytes, m2: bytes | |k| == PrivateKeySize && |m1| == 32 && |m2| == 32 && m1 != m2
      ensures !c.ed25519Verify(k[32..], m2, c.ed25519Sign(k, m1))
    {
      assert c.ed25519Sign(k, m1) == m1 + k[32..];
      assert (m1 + k[32..])[..32] == m1;
    }
  }
}
