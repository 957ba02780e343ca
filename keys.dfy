/** Ed25519 key files: PEM envelopes with a type tag and a fixed payload size,
    saved through a temp file. */
module Keys {
  import opened Wrappers
  import opened FileSystem
  import opened Primitives

  const PrivateKeyType := "PRIVATE KEY"
  const PublicKeyType := "PUBLIC KEY"

  datatype KeyError =
    | ReadFailed
    | NotPEM
    | WrongType(kind: string)
    | WrongSize(size: nat)

  /** The checks LoadPrivateKey and LoadPublicKey apply to a file's contents:
      a PEM block, of the expected type, with a payload of the expected size. */
  function DecodeKey(c: Suite, file: Option<bytes>, kind: string, size: nat): (r: Result<bytes, KeyError>)
    ensures r.Ok? <==> file.Some? && c.pemDecode(file.value).Some?
                       && c.pemDecode(file.value).value.kind == kind && |c.pemDecode(file.value).value.payload| == size
    ensures r.Ok? ==> r.value == c.pemDecode(file.value).value.payload && |r.value| == size
    ensures file.None? ==> r == Err(ReadFailed)
    ensures file.Some? && c.pemDecode(file.value).None? ==> r == Err(NotPEM)
    ensures r.Err? && r.error.WrongType? ==> r.error.kind != kind
  {
    if file.None? then Err(ReadFailed)
    else
      var block := c.pemDecode(file.value);
      if block.None? then Err(NotPEM)
      else if block.value.kind != kind then Err(WrongType(block.value.kind))
      else if |block.value.payload| != size then Err(WrongSize(|block.value.payload|))
      else Ok(block.value.payload)
  }

  function LoadPrivateKey(c: Suite, disk: Disk, path: string): Result<bytes, KeyError>
    reads disk
  {
    DecodeKey(c, disk.ReadFile(path), PrivateKeyType, PrivateKeySize)
  }

  function LoadPublicKey(c: Suite, disk: Disk, path: string): Result<bytes, KeyError>
    reads disk
  {
    DecodeKey(c, disk.ReadFile(path), PublicKeyType, PublicKeySize)
  }

  /** Decoding what was encoded with the expected type and size returns the
      payload. */
  lemma DecodeEncoded(c: Suite, kind: string, key: bytes)
    requires Sound(c)
    ensures DecodeKey(c, Some(c.pemEncode(Block(kind, key))), kind, |key|) == Ok(key)
  {
  }

  /** A private-key file does not load as a public key, nor the reverse. */
  lemma CrossLoadFails(c: Suite, key: bytes)
    requires Sound(c)
    ensures DecodeKey(c, Some(c.pemEncode(Block(PrivateKeyType, key))), PublicKeyType, PublicKeySize)
            == Err(WrongType(PrivateKeyType))
    ensures DecodeKey(c, Some(c.pemEncode(Block(PublicKeyType, key))), PrivateKeyType, PrivateKeySize)
            == Err(WrongType(PublicKeyType))
  {
  }

  /** A correctly tagged payload of the wrong length is rejected with its size. */
  lemma WrongSizeRejected(c: Suite, kind: string, key: bytes, size: nat)
    requires Sound(c) && |key| != size
    ensures DecodeKey(c, Some(c.pemEncode(Block(kind, key))), kind, size) == Err(WrongSize(|key|))
  {
  }

  /** SavePrivateKey and SavePublicKey: encode the key under `kind` and save it
      through `path.tmp` created with `perm`. */
  method SaveKey(c: Suite, disk: Disk, key: bytes, kind: string, perm: int, path: string, faults: Faults)
    returns (r: Outcome<SaveStep>)
    requires disk.Valid()
    modifies disk
    ensures disk.Valid() && disk.dirs == old(disk.dirs)
    ensures r == Pass <==> Saves(old(disk.dirs), path, faults)
    ensures r == Pass ==> disk.ReadFile(path) == Some(c.pemEncode(Block(kind, key))) && TmpPath(path) !in disk.files
    ensures r == Pass && TmpPath(path) !in old(disk.files) ==> disk.files[path].perm == perm
    ensures r != Pass ==> Lookup(disk.files, path) == Lookup(old(disk.files), path)
    ensures r == Fail(TempRenameFailed) && !faults.remove ==> TmpPath(path) !in disk.files
    ensures forall p :: p != path && p != TmpPath(path) ==> Lookup(disk.files, p) == Lookup(old(disk.files), p)
    ensures r == Pass && Sound(c) ==> DecodeKey(c, disk.ReadFile(path), kind, |key|) == Ok(key)
  {
    var pemData := c.pemEncode(Block(kind, key));
    r := SaveViaTemp(disk, path, pemData, perm, faults);
  }

  method SavePrivateKey(c: Suite, disk: Disk, key: bytes, path: string, faults: Faults) returns (r: Outcome<SaveStep>)
    requires disk.Valid()
    modifies disk
    ensures disk.Valid() && disk.dirs == old(disk.dirs)
    ensures r == Pass <==> Saves(old(disk.dirs), path, faults)
    ensures r == Pass ==> disk.ReadFile(path) == Some(c.pemEncode(Block(PrivateKeyType, key))) && TmpPath(path) !in disk.files
    ensures r == Pass && TmpPath(path) !in old(disk.files) ==> disk.files[path].perm == Perm0600
    ensures r != Pass ==> Lookup(disk.files, path) == Lookup(old(disk.files), path)
    ensures r == Fail(TempRenameFailed) && !faults.remove ==> TmpPath(path) !in disk.files
    ensures forall p :: p != path && p != TmpPath(path) ==> Lookup(disk.files, p) == Lookup(old(disk.files), p)
    ensures r == Pass && Sound(c) && |key| == PrivateKeySize ==> LoadPrivateKey(c, disk, path) == Ok(key)
  {
    r := SaveKey(c, disk, key, PrivateKeyType, Perm0600, path, faults);
  }

  method SavePublicKey(c: Suite, disk: Disk, key: bytes, path: string, faults: Faults) returns (r: Outcome<SaveStep>)
    requires disk.Valid()
    modifies disk
    ensures disk.Valid() && disk.dirs == old(disk.dirs)
    ensures r == Pass <==> Saves(old(disk.dirs), path, faults)
    ensures r == Pass ==> disk.ReadFile(path) == Some(c.pemEncode(Block(PublicKeyType, key))) && TmpPath(path) !in disk.files
    ensures r == Pass && TmpPath(path) !in old(disk.files) ==> disk.files[path].perm == Perm0644
    ensures r != Pass ==> Lookup(disk.files, path) == Lookup(old(disk.files), path)
    ensures r == Fail(TempRenameFailed) && !faults.remove ==> TmpPath(path) !in disk.files
    ensures forall p :: p != path && p != TmpPath(path) ==> Lookup(disk.files, p) == Lookup(old(disk.files), p)
    ensures r == Pass && Sound(c) && |key| == PublicKeySize ==> LoadPublicKey(c, disk, path) == Ok(key)
  {
    r := SaveKey(c, disk, key, PublicKeyType, Perm0644, path, faults);
  }
}
