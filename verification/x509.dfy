/** The certificate record and the signatures on it (certificate.go, keys.go, extensions.go). */
module X509 {
  import opened Prelude
  import opened Names
  import opened Der

  datatype Algorithm =
    | MLDSA44
    | MLDSA65
    | MLDSA87
    | SLHDSA_SHA2_128s
    | SLHDSA_SHA2_128f
    | SLHDSA_SHA2_192s
    | SLHDSA_SHA2_192f
    | SLHDSA_SHA2_256s
    | SLHDSA_SHA2_256f
    | SLHDSA_SHAKE_128s
    | SLHDSA_SHAKE_128f
    | SLHDSA_SHAKE_192s
    | SLHDSA_SHAKE_192f
    | SLHDSA_SHAKE_256s
    | SLHDSA_SHAKE_256f

  datatype PrivateKey = PrivateKey(algorithm: Algorithm, seed: nat)

  datatype PublicKey = PublicKey(algorithm: Algorithm, material: nat)

  /** Key expansion, as a free constructor on the seed. */
  function PublicOf(priv: PrivateKey): PublicKey {
    PublicKey(priv.algorithm, priv.seed)
  }

  /** A signature is either made with the private half of `signer` over `message`,
      or bytes that no key made. */
  datatype Signature<+M> = Signed(signer: PublicKey, message: M) | Unsigned(bytes: nat)

  predicate SignatureValid<M(==)>(pub: PublicKey, message: M, sig: Signature<M>) {
    sig == Signed(pub, message)
  }

  /** A KeyUsage bit mask; bit n of RFC 5280 section 4.2.1.3 is 1 << n. */
  type KeyUsage = bv16

  const DIGITAL_SIGNATURE: KeyUsage := 0x0001
  const KEY_CERT_SIGN: KeyUsage := 0x0020
  const CRL_SIGN: KeyUsage := 0x0040

  datatype BasicConstraints = BasicConstraints(isCA: bool, maxPathLen: int, maxPathLenSet: bool)

  datatype SANs = SANs(dnsNames: seq<Bytes>, emailAddresses: seq<Bytes>, ipAddresses: seq<Bytes>) {
    predicate Empty() {
      |dnsNames| == 0 && |emailAddresses| == 0 && |ipAddresses| == 0
    }
  }

  const NO_SANS := SANs([], [], [])

  /** The extensions of RFC 5280 that the code interprets, and all others by number. */
  datatype ExtensionId =
    | BasicConstraintsId
    | KeyUsageId
    | ExtKeyUsageId
    | SubjectKeyIdId
    | AuthorityKeyIdId
    | SubjectAltNameId
    | UnknownId(oid: nat)

  /** The SHA-256 key identifier of a public key, as a free constructor on the key. */
  datatype KeyIdentifier = KeyIdentifier(key: PublicKey) | ForeignKeyIdentifier(bytes: Bytes)

  /** The DER value of an extension: the bytes for basicConstraints and subjectAltName and for
      whatever else a parser meets, a free constructor for each other structure. */
  datatype ExtensionValue =
    | KeyUsageValue(bits: KeyUsage)
    | ExtKeyUsageValue(purposes: seq<int>)
    | KeyIdValue(id: KeyIdentifier)
    | AuthorityKeyIdValue(id: KeyIdentifier)
    | RawValue(bytes: Bytes)

  datatype Extension = Extension(id: ExtensionId, critical: bool, value: ExtensionValue)

  /** DER of a TBSCertificate: what the code writes, or any other bytes. */
  datatype TbsDer =
    | TbsDer(serialNumber: int,
             signatureAlgorithm: Algorithm,
             issuer: Bytes,
             notBefore: Element,
             notAfter: Element,
             subject: Bytes,
             publicKey: PublicKey,
             extensions: seq<Extension>)
    | ForeignTbs(bytes: Bytes)

  datatype CertificateDer =
    | CertificateDer(tbs: TbsDer, signatureAlgorithm: Algorithm, signature: Signature<TbsDer>)
    | ForeignCertificate(bytes: Bytes)

  /** Times are integers: nanoseconds on the Unix scale. */
  datatype Certificate = Certificate(
    raw: CertificateDer,
    rawTbs: TbsDer,
    serialNumber: int,
    signatureAlgorithm: Algorithm,
    signature: Signature<TbsDer>,
    issuer: Name,
    rawIssuer: Bytes,
    subject: Name,
    rawSubject: Bytes,
    notBefore: int,
    notAfter: int,
    publicKey: PublicKey,
    basicConstraints: BasicConstraints,
    basicConstraintsValid: bool,
    keyUsage: KeyUsage,
    extKeyUsage: seq<int>,
    subjectKeyId: Option<KeyIdentifier>,
    authorityKeyId: Option<KeyIdentifier>,
    sans: SANs,
    unhandledExtensions: seq<Extension>)
}
