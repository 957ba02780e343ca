/** Signing and verifying payloads: Ed25519 over the SHA-256 digest, and the
    64-byte signature files. */
module Signer {
  import opened Wrappers
  import opened FileSystem
  import opened Primitives

  /** A key pair whose slices may be nil (None). */
  datatype KeyPair = KeyPair(publicKey: Option<bytes>, privateKey: Option<bytes>)

  datatype SignError =
    | NoPrivateKey
    | ReadFailed
    | BadSignatureSize(size: nat)

  /** ed25519.Sign panics on a private key that is not 64 bytes; a Signer
      without a key pair, or whose private key is nil, reports an error. */
  predicate SignerUsable(keyPair: Option<KeyPair>) {
    keyPair.Some? && keyPair.value.privateKey.Some?
  }

  predicate KeyWellSized(keyPair: Option<KeyPair>) {
    SignerUsable(keyPair) ==> |keyPair.value.privateKey.value| == PrivateKeySize
  }

  /** Signer.Sign. */
  function Sign(c: Suite, keyPair: Option<KeyPair>, data: bytes): (r: Result<bytes, SignError>)
    requires KeyWellSized(keyPair)
    ensures r.Err? <==> !SignerUsable(keyPair)
    ensures r.Err? ==> r.error == NoPrivateKey
    ensures DigestSized(c) && SignaturesVerify(c) && r.Ok? ==> |r.value| == SignatureSize
  {
    if !SignerUsable(keyPair) then Err(NoPrivateKey)
    else Ok(c.ed25519Sign(keyPair.value.privateKey.value, c.sha256(data)))
  }

  /** Verify: false for a signature of the wrong length, without hashing;
      otherwise Ed25519 verification of the digest. ed25519.Verify panics on a
      public key that is not 32 bytes. */
  function Verify(c: Suite, publicKey: bytes, data: bytes, signature: bytes): (ok: bool)
    requires |signature| == SignatureSize ==> |publicKey| == PublicKeySize
    ensures |signature| != SignatureSize ==> !ok
  {
    if |signature| != SignatureSize then false
    else c.ed25519Verify(publicKey, c.sha256(data), signature)
  }

  /** A signature made with a private key verifies under its public key. */
  lemma SignThenVerify(c: Suite, priv: bytes, data: bytes)
    requires DigestSized(c) && SignaturesVerify(c) && |priv| == PrivateKeySize
    ensures var r := Sign(c, Some(KeyPair(Some(PublicOf(priv)), Some(priv))), data);
      r.Ok? && Verify(c, PublicOf(priv), data, r.value)
  {
  }

  /** It does not verify a payload whose digest differs. */
  lemma SignatureBindsPayload(c: Suite, priv: bytes, d1: bytes, d2: bytes)
    requires DigestSized(c) && Unforgeable(c) && |priv| == PrivateKeySize
    requires c.sha256(d1) != c.sha256(d2)
    ensures var r := Sign(c, Some(KeyPair(Some(PublicOf(priv)), Some(priv))), d1);
      r.Ok? && !Verify(c, PublicOf(priv), d2, r.value)
  {
    assert |c.sha256(d1)| == 32 && |c.sha256(d2)| == 32;
  }

  /** The hypotheses of SignatureBindsPayload all hold for one suite, key
      and pair of payloads, so the lemma is not vacuous. */
  lemma SignatureBindsPayloadApplies()
    ensures var c, priv := ToySuite(), seq(PrivateKeySize, _ => 7 as byte);
      var r := Sign(c, Some(KeyPair(Some(PublicOf(priv)), Some(priv))), []);
      r.Ok? && !Verify(c, PublicOf(priv), [1], r.value)
  {
    SigningAssumptionsConsistent();
    SignatureBindsPayload(ToySuite(), seq(PrivateKeySize, _ => 7 as byte), [], [1]);
  }

  /** A Signer built from an empty KeyPair cannot sign. */
  lemma EmptyKeyPairCannotSign(c: Suite, data: bytes)
    ensures Sign(c, Some(KeyPair(None, None)), data) == Err(NoPrivateKey)
    ensures Sign(c, None, data) == Err(NoPrivateKey)
  {
  }

  /** SignFile. */
  function SignFile(c: Suite, keyPair: Option<KeyPair>, disk: Disk, path: string): (r: Result<bytes, SignError>)
    requires KeyWellSized(keyPair)
    reads disk
    ensures path !in disk.files ==> r == Err(ReadFailed)
    ensures path in disk.files ==> r == Sign(c, keyPair, disk.files[path].data)
  {
    match disk.ReadFile(path)
    case None => Err(ReadFailed)
    case Some(data) => Sign(c, keyPair, data)
  }

  /** VerifyFile. */
  function VerifyFile(c: Suite, publicKey: bytes, disk: Disk, path: string, signature: bytes): (r: Result<bool, SignError>)
    requires |signature| == SignatureSize ==> |publicKey| == PublicKeySize
    reads disk
    ensures path !in disk.files ==> r == Err(ReadFailed)
    ensures path in disk.files ==> r == Ok(Verify(c, publicKey, disk.files[path].data, signature))
  {
    match disk.ReadFile(path)
    case None => Err(ReadFailed)
    case Some(data) => Ok(Verify(c, publicKey, data, signature))
  }

  datatype SaveSignatureError = WrongSize(size: nat) | WriteFailed(step: SaveStep)

  /** SaveSignature: refuses a signature that is not 64 bytes before touching
      the disk; otherwise saves it through `path.tmp` with mode 0644. */
  method SaveSignature(disk: Disk, signature: bytes, path: string, faults: Faults)
    returns (r: Outcome<SaveSignatureError>)
    requires disk.Valid()
    modifies disk
    ensures disk.Valid() && disk.dirs == old(disk.dirs)
    ensures |signature| != SignatureSize ==> r == Fail(WrongSize(|signature|)) && unchanged(disk)
    ensures r == Pass <==> |signature| == SignatureSize && Saves(old(disk.dirs), path, faults)
    ensures r == Pass ==> disk.ReadFile(path) == Some(signature) && TmpPath(path) !in disk.files
    ensures r != Pass ==> Lookup(disk.files, path) == Lookup(old(disk.files), path)
    ensures r == Fail(WriteFailed(TempRenameFailed)) && !faults.remove ==> TmpPath(path) !in disk.files
    ensures forall p :: p != path && p != TmpPath(path) ==> Lookup(disk.files, p) == Lookup(old(disk.files), p)
    ensures r == Pass ==> LoadSignature(disk, path) == Ok(signature)
  {
    if |signature| != SignatureSize {
      return Fail(WrongSize(|signature|));
    }
    var step := SaveViaTemp(disk, path, signature, Perm0644, faults);
    return if step.Pass? then Pass else Fail(WriteFailed(step.error));
  }

  /** LoadSignature: the file's contents, if they are exactly 64 bytes. */
  function LoadSignature(disk: Disk, path: string): (r: Result<bytes, SignError>)
    reads disk
    ensures r.Ok? <==> path in disk.files && |disk.files[path].data| == SignatureSize
    ensures r.Ok? ==> r.value == disk.files[path].data
    ensures path !in disk.files ==> r == Err(ReadFailed)
  {
    match disk.ReadFile(path)
    case None => Err(ReadFailed)
    case Some(data) => if |data| != SignatureSize then Err(BadSignatureSize(|data|)) else Ok(data)
  }
}
