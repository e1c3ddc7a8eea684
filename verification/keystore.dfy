/** The sealed key files (filebackend.go, keystore.go) as a map from key ID to sealed key. */
module Keystores {
  import opened Prelude
  import opened X509

  /** What Seal writes and Unseal opens under the same passphrase only. */
  datatype SealedKey = SealedKey(priv: PrivateKey, passphrase: Bytes)

  type Keys = map<string, SealedKey>

  /** 32 lower-case hexadecimal characters. */
  predicate ValidKeyId(id: string) {
    |id| == 32 && forall i :: 0 <= i < |id| ==> '0' <= id[i] <= '9' || 'a' <= id[i] <= 'f'
  }

  /** O_EXCL: an existing file is never overwritten. */
  function AfterStore(keys: Keys, keyId: string, priv: PrivateKey, passphrase: Bytes): (Keys, Option<Error>) {
    if !ValidKeyId(keyId) then (keys, Some(Other))
    else if passphrase == [] then (keys, Some(EmptyPassphrase))
    else if keyId in keys then (keys, Some(KeyExists))
    else (keys[keyId := SealedKey(priv, passphrase)], None)
  }

  /** The key pair behind the signer, when the passphrase opens it. */
  function LoadResult(keys: Keys, keyId: string, passphrase: Bytes): Result<PrivateKey> {
    if !ValidKeyId(keyId) then Err(Other)
    else if keyId !in keys then Err(KeyNotFound)
    else if passphrase == [] then Err(EmptyPassphrase)
    else if passphrase != keys[keyId].passphrase then Err(WrongPassphrase)
    else Ok(keys[keyId].priv)
  }

  function AfterDelete(keys: Keys, keyId: string): (Keys, Option<Error>) {
    if !ValidKeyId(keyId) then (keys, Some(Other))
    else if keyId !in keys then (keys, Some(KeyNotFound))
    else (keys - {keyId}, None)
  }

  /** Storing under a fresh identifier and deleting it again changes nothing. */
  lemma DeleteUndoesStore(keys: Keys, keyId: string, priv: PrivateKey, passphrase: Bytes)
    requires AfterStore(keys, keyId, priv, passphrase).1.None?
    ensures AfterDelete(AfterStore(keys, keyId, priv, passphrase).0, keyId) == (keys, None)
  {
    assert keys[keyId := SealedKey(priv, passphrase)] - {keyId} == keys;
  }

  /** A stored key opens under its own passphrase and under no other, and storing it changes what
      opening any other key gives in no way. */
  lemma StoreThenLoad(keys: Keys, keyId: string, priv: PrivateKey, passphrase: Bytes, otherId: string, other: Bytes)
    requires AfterStore(keys, keyId, priv, passphrase).1.None?
    ensures var after := AfterStore(keys, keyId, priv, passphrase).0;
            && LoadResult(after, keyId, passphrase) == Ok(priv)
            && (other != passphrase ==> LoadResult(after, keyId, other).Err?)
            && (otherId != keyId ==> LoadResult(after, otherId, other) == LoadResult(keys, otherId, other))
  {
    hide ValidKeyId;
  }

  class FileBackend {
    var files: Keys

    constructor ()
      ensures files == map[]
    {
      files := map[];
    }

    method Store(keyId: string, priv: PrivateKey, passphrase: Bytes) returns (err: Option<Error>)
      modifies this
      ensures (files, err) == AfterStore(old(files), keyId, priv, passphrase)
      ensures forall k :: k in old(files) ==> k in files && files[k] == old(files)[k]
      ensures err == if !ValidKeyId(keyId) then Some(Other)
                     else if passphrase == [] then Some(EmptyPassphrase)
                     else if keyId in old(files) then Some(KeyExists) else None
      ensures err.None? ==> files[keyId] == SealedKey(priv, passphrase)
      ensures err.None? ==> files.Keys == old(files).Keys + {keyId}
      ensures err.Some? ==> files == old(files)
    {
      if !ValidKeyId(keyId) {
        return Some(Other);
      }
      if passphrase == [] {
        return Some(EmptyPassphrase);
      }
      if keyId in files {
        return Some(KeyExists);
      }
      files := files[keyId := SealedKey(priv, passphrase)];
      return None;
    }

    /** The key material and the identifier come from the random source: `seed` and `id`. */
    method Generate(alg: Algorithm, passphrase: Bytes, seed: nat, id: Option<string>)
      returns (r: Result<(string, PrivateKey)>)
      modifies this
      ensures id.None? ==> r.Err? && files == old(files)
      ensures id.Some? ==>
                && (files, if r.Err? then Some(r.error) else None)
                   == AfterStore(old(files), id.value, PrivateKey(alg, seed), passphrase)
                && (r.Ok? ==> r.value == (id.value, PrivateKey(alg, seed)))
      ensures id.None? ==> r == Err(Other)
    {
      var priv := PrivateKey(alg, seed);
      if id.None? {
        return Err(Other);
      }
      var err := Store(id.value, priv, passphrase);
      if err.Some? {
        return Err(err.value);
      }
      return Ok((id.value, priv));
    }

    method Load(keyId: string, passphrase: Bytes) returns (r: Result<PrivateKey>)
      ensures r == LoadResult(files, keyId, passphrase)
      ensures r == if !ValidKeyId(keyId) then Err(Other)
                   else if keyId !in files then Err(KeyNotFound)
                   else if passphrase == [] then Err(EmptyPassphrase)
                   else if files[keyId].passphrase != passphrase then Err(WrongPassphrase)
                   else Ok(files[keyId].priv)
    {
      if !ValidKeyId(keyId) {
        return Err(Other);
      }
      if keyId !in files {
        return Err(KeyNotFound);
      }
      if passphrase == [] {
        return Err(EmptyPassphrase);
      }
      if passphrase != files[keyId].passphrase {
        return Err(WrongPassphrase);
      }
      return Ok(files[keyId].priv);
    }

    method Delete(keyId: string) returns (err: Option<Error>)
      modifies this
      ensures (files, err) == AfterDelete(old(files), keyId)
      ensures forall k :: k in old(files) && k != keyId ==> k in files && files[k] == old(files)[k]
      ensures files.Keys <= old(files).Keys
      ensures err == if !ValidKeyId(keyId) then Some(Other)
                     else if keyId !in old(files) then Some(KeyNotFound) else None
      ensures err.None? ==> keyId !in files
    {
      if !ValidKeyId(keyId) {
        return Some(Other);
      }
      if keyId !in files {
        return Some(KeyNotFound);
      }
      files := files - {keyId};
      return None;
    }
  }
}
