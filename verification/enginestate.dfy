/** What the engine's calls share, and what each of them takes from outside. */
module EngineStates {
  import opened Prelude
  import opened Names
  import opened X509
  import opened RevocationLists
  import opened Stores
  import opened Keystores

  /** crlCacheEntry (crl.go:13-18) */
  datatype CacheEntry = CacheEntry(der: CrlDer, entryCount: nat, nextUpdate: int, number: int)

  datatype Config = Config(maxValidity: int, crlValidity: int)

  /** The tables, the key files, the CRL cache, and the last reading of the clock. */
  datatype Shared = Shared(db: DB, keys: Keys, cache: map<string, CacheEntry>, clock: int)

  /** The clock reading and the random values a step may use. None is a failure of the
      random source; `expands` is false when a seed does not expand to a signer. */
  datatype Env = Env(
    now: int,
    keyId: Option<string>,
    seed: nat,
    expands: bool,
    serial: Option<int>,
    newId: Option<string>)

  /** What the generators promise: identifiers in their format and positive serial numbers. */
  predicate EnvOk(env: Env) {
    && (env.keyId.Some? ==> ValidKeyId(env.keyId.value))
    && (env.newId.Some? ==> ValidKeyId(env.newId.value))
    && (env.serial.Some? ==> env.serial.value > 0)
  }

  function NewTemplate(serial: int, signatureAlgorithm: Algorithm, subject: Name, notBefore: int, notAfter: int,
                       bc: BasicConstraints, usage: KeyUsage, purposes: seq<int>, sans: SANs): Certificate
  {
    Certificate(ForeignCertificate([]), ForeignTbs([]), serial, signatureAlgorithm, Unsigned(0), EMPTY_NAME, [],
                subject, [], notBefore, notAfter, PublicKey(signatureAlgorithm, 0), bc, true, usage, purposes,
                None, None, sans, [])
  }
}
