# pqtrust: a verified model

pqtrust is a small certificate authority with post-quantum signatures. This project models the
parts of it where a mistake would be a wrong certificate, a wrong revocation list or a wrongly
accepted chain, and proves what they promise. `dafny verify dfyconfig.toml` checks everything.

## What is modelled

**Path validation** (`verify.dfy`, `pathlen.dfy`). The depth-first search is written twice: as the
object the source's closure is (`PathSearch.Walk` appends to `chains` and sets `firstErr` in nested
loops), and as a function `Search` the loops are proved to compute. `ValidPath` defines the wanted
chains without reference to the search, and `Verify`'s contract is stated with `ValidPath` alone:
which chains come back and in which order, when it fails, and with whose error. The positional path length test is
related to the working variable of section 6.1 of RFC 5280.

**Names and DER** (`names.dfy`, `nametext.dfy`, `der.dfy`, `directorystring.dfy`, `rdn.dfy`,
`time.dfy`). The RFC 4514 printer, parser and splitter, the length and TLV codec, the RDNSequence
codec, the BMPString and UniversalString decoders and the two time forms work on bytes; the first
five on byte strings of any content and length. 64-bit wrap-around in `parseDERLength` is written
out, and so is the panic that it can lead to. encoding/asn1 is a strict TLV reader for one-byte
tags, with its own limit of 2^31, its refusal of long forms that are not needed, and its checks of
object identifiers, booleans and integers.

**Certificates, requests, revocation lists** (`x509.dfy`, `sans.dfy`, `certificate.dfy`, `csr.dfy`,
`crl.dfy`) at the level of fields and extension lists, with names, times, basicConstraints,
alternative names and request attributes down to bytes. Signatures, key identifiers, sealed keys and
the outer DER of certificates and lists are free constructors: a signature is valid when it was made
with the private half of the key over exactly that content. Nothing is assumed about them.

**The engine** (`profiles.dfy`, `store.dfy`, `keystore.dfy`, `createca.dfy`, `issue.dfy`, `revoke.dfy`,
`crlcall.dfy`, `engine.dfy`). Each engine call is a sequence of atomic steps: one store or key file
operation, one reading of the clock, one critical section on the cache. `Engines.Engine` is the
object of the source, with the cache as a field, over a `Store` and a `FileBackend`; each of its
methods is proved to be its steps with nothing in between.

**All interleavings** (`system.dfy`, `crlinvariant.dfy`, `hierarchy.dfy`, `preservation.dfy`,
`timely.dfy`, `alone.dfy`, `caching.dfy`, `theorems.dfy`, `leaks.dfy`, `requests.dfy`,
`revocation.dfy`, `success.dfy`, `failures.dfy`). A `System` has shared tables, key files and cache, and any number of calls in
flight; a run is any sequence of beginning a call, running one step of one call, or restarting the
process, which loses the cache and the unfinished calls. An inductive invariant holds after every
step of every run; the theorems follow from it. Runs on which the clock never goes backwards
(`IsTimelyRun`) have more: validity windows nest, and lengths are capped.

## Reading the model

- Clock readings, random key material, identifiers and serial numbers are fields of `Env`, one `Env`
  for each step; `None` is a failing random source. `EnvOk` says what the generators promise:
  identifiers in their format, positive serial numbers.
- A row holds the certificate that its stored text parses to, and a map from primary key to row
  stands for a table. The loop in `Store.ListRevoked` stands for the query engine.
- `Panic` among the errors is no error value but the run-time panic of a slice expression; nothing
  wraps or catches it.
- `history`, `readAt`, `clock`, `calls` and `leaked` are history variables: no branch depends on
  them. `history` is the order in which revocations committed.
- Times are whole nanoseconds. `AddDate(0, 0, n)` in UTC adds n times 86400 seconds to a 64-bit count
  of seconds, and `time.Duration(days) * 24 * time.Hour` is a 64-bit count of nanoseconds; both wrap.
- A function `Printed`, `ParsedName`, `RdnSequence`, `ParsedCertificate` and so on is the specification
  of the method of the same purpose; the round trips are lemmas about these functions.

## What the proofs found

- A failing `CreateCA` leaves the new key file behind when, after writing it, the serial number fails,
  or, for a root, its own signer (engine.go:145-155 return without the `Delete` that every later
  failure makes). `Leaks.LeakExactly` proves for every interleaving that these are all the cases,
  `Leaks.LeakExample` gives a run, and `Leaks.LeakedKeyStays` shows the file in every later state.
  Every other key file that a failed call wrote, a later step of the same call deletes
  (`Leaks.FailedCallCleansUp`); a failed `IssueCertificate` has no such gap
  (`Leaks.FailedIssueCleansUp`), up to the errors listed under "Left out".
- A length of eight or more octets whose eighth octet from the end is 128 or more is a negative int.
  It passes the test `len(rest) < l` at name.go:203 and 218, and the slice expression after it panics.
  `Der.NegativeExactly`, `Der.TaggedPanicsExactly` and `Rdn.NamePanicsExactly` give the exact inputs.
  encoding/asn1 has checked the outermost SEQUENCE of a name before, not the SETs inside it
  (`Rdn.NamePanicExample`). Names that the code wrote itself never panic; a
  certificate created over a caller's own RawSubject does exactly where reading that name does
  (`Certificates.CertificateRoundTrip`).
- The comment at name.go:307-309 calls `ParseNameString(String())` lossless. It is so exactly for
  names with at least one attribute and no empty attribute value (`NameText.TextRoundTrip`).
- The path length test counts self-issued intermediates, which RFC 5280 does not: the code is never
  laxer (`PathLength.PositionalImpliesRfc`), and stricter exactly when the excess below each issuer
  that it finds too deep is self-issued (`PathLength.PositionalStricter`). `PathLength.SelfIssuedExample`
  is a path that RFC 5280 accepts and for which Verify finds no chain.
- The comparison of the requested validity with the cap would alone accept 213504 days, by
  wrap-around (`Theorems.ComparisonAloneWraps`). The check against the issuing CA's own end makes the
  cap right (`Theorems.IssuedWithinCap`), given a clock that does not run backwards. `AddDate` wraps
  too: a request for 2^57 + 90 days is issued with 90 (`Profiles.DaysRepeat`). The length issued is
  always the one that was compared, and the one requested exactly when the request does not wrap in
  nanoseconds (`Requests.IssuedLength`).
- Through encoding/asn1 `marshalTime` writes times before 1950 as GeneralizedTime, although its comment
  promises UTCTime through 2049 (time.go:14-15); only years before 0 and after 9999 fail
  (`Times.TimeWritable`).
- The CRL cache compares a count, outside any lock that spans reading, building and writing. It is
  right nevertheless, and without `invalidateCRL`, because revoked rows are never removed or changed
  (`Snapshots.EqualCountsEqualRows`, `Theorems.CrlServesOwnSnapshot`).
- A revocation list made for an issuer record without its encoded subject does not verify under that
  record (`RevocationLists.RevocationListRoundTrip`). The engine's records always carry it.

## Model

| member | source | states |
|---|---|---|
| PathValidation.CheckLink | internal/pqx509/verify.go:105-144 | an edge has no error exactly when issuer validity, CA flag, keyCertSign, path length, signature and hook all allow it; otherwise the error of the first that does not, in this order |
| PathValidation.VerifySignatureFrom | internal/pqx509/verify.go:13-25 | no error exactly when the algorithms match and the parent's key signed the TBS bytes, and else ErrBadSignature |
| PathValidation.PathSearch.Walk | internal/pqx509/verify.go:58-92 | the loops append the chains, first error and calls of the recursive search, in order |
| PathValidation.Contains | internal/pqx509/verify.go:146-153 | found exactly when some member has the same Raw |
| PathValidation.SearchSound | internal/pqx509/verify.go:58-92 | every chain the search returns is a valid path that extends the chain it started from |
| PathValidation.SearchComplete | internal/pqx509/verify.go:58-92 | every valid path that extends the chain is returned |
| PathValidation.SearchExact | internal/pqx509/verify.go:58-92 | the chains returned are exactly the valid paths: from c over distinct intermediates to a root, at most 6 before the root, all edges accepted |
| PathValidation.ChainsInOrder | internal/pqx509/verify.go:58-92 | the chains come one for each position of the search tree that completes a path, in the order of the search: roots before intermediates, list order, below before above |
| PathValidation.SearchErrorIsFirst | internal/pqx509/verify.go:51-93 | the noted error is that of the rejected edge that comes first in this order; none is noted exactly when no reached edge is rejected |
| PathValidation.Verify | internal/pqx509/verify.go:41-101 | fails exactly when the leaf is outside its window at the given or the current time or no valid path exists; else returns exactly the valid paths, in search order; the error is ErrNotYetValid or ErrExpired for the leaf, else that of the first rejected edge, and ErrUnknownAuthority when no edge was rejected |
| PathValidation.CallsBound | internal/pqx509/verify.go:58-92 | with m intermediates, at most the sum of m^k calls of walk, k from 0 to the remaining depth |
| PathValidation.ChainsPerCall | internal/pqx509/verify.go:62-72 | at most as many chains for each call of walk as there are roots |
| PathValidation.SearchSize | internal/pqx509/verify.go:58-92 | both bounds for the whole search, depth 6 |
| PathValidation.SearchNoDuplicates | internal/pqx509/verify.go:58-92 | with duplicate-free lists no chain is returned twice |
| PathLength.ParsedIsNatural | internal/pqx509/extensions.go:242-259 | whatever ParseCertificate accepts has no negative path length |
| PathLength.RfcRunMeaning | internal/pqx509/verify.go:115-121 | the working variable of RFC 5280 section 6.1.4 accepts exactly when each constrained issuer has at most that many intermediates below it, self-issued ones not counted |
| PathLength.RfcMeaning | internal/pqx509/verify.go:115-121 | the same for a whole path, the root's constraint applied first |
| PathLength.PositionalImpliesRfc | internal/pqx509/verify.go:115-121 | whatever path the positional test accepts, RFC 5280 accepts |
| PathLength.PositionalEqualsRfc | internal/pqx509/verify.go:115-121 | without self-issued intermediates the two agree |
| PathLength.PositionalStricter | internal/pqx509/verify.go:115-121 | RFC 5280 accepts and the code rejects exactly when some constrained issuer has more intermediates below it than it allows, and below each such issuer at least the excess is self-issued |
| PathLength.SelfIssuedExample | internal/pqx509/verify.go:105-121 | certificates and options for which checkLink fails with the path length alone, RFC 5280 accepts, and no valid path exists |
| PathLength.VerifiedPathsSatisfyRfc | internal/pqx509/verify.go:103-121 | every path Verify returns passes the RFC's path length processing |
| Der.MarshalLength | internal/pqx509/name.go:94-104 | the loop writes the definite form: short below 128, else octet count and shortest octets |
| Der.ParseDERLength | internal/pqx509/name.go:225-244 | reads short and long forms, accumulating in a wrapping 64-bit int |
| Der.LengthRoundTrip | internal/pqx509/name.go:94-104 | for every l below 2^63 and every tail, reading the written length gives (l, tail) |
| Der.LengthShortest | internal/pqx509/name.go:94-104 | no form that reads as l is shorter than the one written |
| Der.NegativeExactly | internal/pqx509/name.go:239-243 | length octets give a negative int exactly when the eighth from the end exists and is 128 or more |
| Der.TaggedPanicsExactly | internal/pqx509/name.go:195-222 | reading a SET or SEQUENCE panics exactly on its tag followed by such a length |
| Der.TlvRoundTrip | internal/pqx509/name.go:195-222 | a written SET or SEQUENCE reads back as its content and the tail, for any length |
| Der.IntegerRoundTrip | internal/pqx509/extensions.go:222-240 | every non-negative machine int survives its minimal INTEGER form |
| Der.ElementRoundTrip | internal/pqx509/name.go:84-104 | encoding/asn1 reads what marshalSet and marshalSequence write, below 2^31 bytes |
| Der.ElementTooLong | internal/pqx509/name.go:84-104 | and refuses it at or above 2^31 bytes |
| Der.ElementCanonical | internal/pqx509/name.go:149-175 | what encoding/asn1 reads as one element is the form that the writers write, and no other |
| Times.SecondsCivil | internal/pqx509/time.go:16-24 | going from a second to its date and time and back loses nothing |
| Times.CivilSeconds | internal/pqx509/time.go:35-55 | every valid date and time comes back from its second |
| Times.SecondsClosed | internal/pqx509/time.go:16-27 | the second of a date in closed form: the Gregorian leap years, the month lengths, and 1970-01-01 as second 0 |
| Times.TimeOctets | internal/pqx509/time.go:14-33 | the octets written for a time: YYMMDDHHMMSSZ with tag 23 from 1950 to 2049, YYYYMMDDHHMMSSZ with tag 24 otherwise, for the second that the time falls in |
| Times.TimeRoundTrip | internal/pqx509/time.go:16-55 | whatever time can be written, in either form, reads back truncated to the second |
| Times.TimeWritable | internal/pqx509/time.go:14-27 | exactly the times of the years 0 to 9999 can be written, as UTCTime exactly from 1950 to 2049 |
| Times.TimeCanonical | internal/pqx509/time.go:16-55 | a time that was read is written as the same bytes, unless it is a GeneralizedTime of the years 1950 to 2049 |
| DirectoryStrings.LocalTestIsGrammar | internal/pqx509/name.go:278-287 | the adjacency test at every unit holds exactly for sequences of single units and lead-trail pairs |
| DirectoryStrings.DecodeEncode | internal/pqx509/name.go:270-289 | the UTF-16 form of any scalar sequence is well formed and decodes to it |
| DirectoryStrings.EncodeDecode | internal/pqx509/name.go:270-289 | well-formed units are the encoding of what they decode to |
| DirectoryStrings.DecodeBMPString | internal/pqx509/name.go:270-289 | the two loops accept exactly even-length, well-formed UTF-16BE and return its scalars in UTF-8 |
| DirectoryStrings.BMPStringRoundTrip | internal/pqx509/name.go:270-289 | the UTF-16BE form of every scalar sequence decodes to it |
| DirectoryStrings.BMPStringAccepted | internal/pqx509/name.go:270-289 | octets are accepted exactly when they are the UTF-16BE form of some scalar sequence |
| DirectoryStrings.DecodeUniversalString | internal/pqx509/name.go:292-305 | accepts exactly whole sequences of valid UTF-32BE scalars and returns them in UTF-8 |
| DirectoryStrings.UniversalStringMeaning | internal/pqx509/name.go:292-305 | the UTF-32BE form of every scalar sequence decodes to it, and nothing else is accepted |
| DirectoryStrings.Utf8RoundTrip | internal/pqx509/name.go:289-305 | what the decoders return, read as UTF-8 by lead octets, is the scalars in order |
| DirectoryStrings.ParseDirectoryString | internal/pqx509/name.go:246-265 | the four one-octet kinds are taken as they are, BMPString and UniversalString are decoded, other tags are malformed |
| Names.DerOrderRebuilds | internal/pqx509/name.go:61-79 | collecting the attributes in DER order gives the name back, lists in order |
| Rdn.ToRDNSequence | internal/pqx509/name.go:45-81 | the loops write the attributes in order, and fail with the first value that cannot be written |
| Rdn.ReadNextRdn | internal/pqx509/name.go:149-175 | one RDN is read with every check of the source, the arcs of its type included, and a panic of the length reader stays one |
| Rdn.ParseName | internal/pqx509/name.go:138-192 | the loop reads one RDN at a time, drops unknown types, keeps the last CN, rejects trailing bytes |
| Rdn.NamePanicsExactly | internal/pqx509/name.go:138-222 | ParseName panics exactly when its own SEQUENCE, or the SET or SEQUENCE of the first RDN that does not read, has an overflowing length |
| Rdn.NamePanicExample | internal/pqx509/name.go:195-207 | such a name, well formed to encoding/asn1 from outside |
| Rdn.NameRoundTrip | internal/pqx509/name.go:45-192 | whatever name can be written reads back equal, through three TLV levels of any length |
| Rdn.NameEncodingInjective | internal/pqx509/name.go:45-81 | different names have different encodings |
| Rdn.RdnsWritable | internal/pqx509/name.go:45-79 | the attributes can be written exactly when every value is below 2^31 bytes |
| Rdn.NameOctets | internal/pqx509/name.go:45-121 | a written name octet by octet: C, ST, L, O, OU, CN in this order, each value in a SET of a SEQUENCE of 2.5.4.6, .8, .7, .10, .11 or .3 and a PrintableString exactly when all its characters are of that alphabet, else a UTF8String |
| Rdn.NameErrors | internal/pqx509/name.go:138-192 | bytes after the name are ErrTrailingData, exactly then; every other returned error is ErrMalformedDER |
| Rdn.OtherTypesDropped | internal/pqx509/name.go:163-188 | an attribute of a type other than the six changes nothing, wherever it stands |
| Rdn.OneAttributeOnly | internal/pqx509/name.go:155-162 | a second attribute in one SET is malformed |
| Rdn.LastCommonNameStays | internal/pqx509/name.go:186-188 | of several common names the last one stays |
| NameText.BackwardCountIsForwardState | internal/pqx509/name.go:410-427 | an odd run of backslashes before a byte means exactly that a left-to-right scanner is in the escaped state |
| NameText.SplitUnescaped | internal/pqx509/name.go:410-427 | splits exactly at the separators where the forward scanner is not in the escaped state |
| NameText.SplitRejoins | internal/pqx509/name.go:410-427 | the parts rejoined give the input |
| NameText.SplitParts | internal/pqx509/name.go:410-427 | no part has an unescaped separator; none but the last ends inside an escape |
| NameText.SplitUndoesJoin | internal/pqx509/name.go:410-427 | splitting undoes joining of any such parts, so the parts are unique |
| NameText.EscapeAttributeValue | internal/pqx509/name.go:335-359 | the loop escapes the seven special bytes everywhere, # and space at the start, space at the end |
| NameText.UnescapeAttributeValue | internal/pqx509/name.go:431-470 | the loop decodes plain bytes, escaped specials and hex pairs, and fails on anything else |
| NameText.EscapesRead | internal/pqx509/name.go:431-470 | after a backslash the ten accepted characters stand for themselves and two hexadecimal digits of either case for a byte; anything else fails |
| NameText.EscapeRoundTrip | internal/pqx509/name.go:335-359 | every byte string survives escaping and unescaping |
| NameText.NameString | internal/pqx509/name.go:310-331 | a name without attributes gives the empty text; any other splits at its unescaped commas into components whose labels come in the order CN, OU, O, L, ST, C, with the values of each field, unescaped, in their order |
| NameText.PrintedShowsName | internal/pqx509/name.go:310-331 | the same of the printed form: read back component by component, the labels are in the order CN, OU, O, L, ST, C and under each label stand the field's values in order |
| NameText.ParseNameString | internal/pqx509/name.go:364-406 | the loop reads one component at a time with the source's rejections |
| NameText.NameStringMeaning | internal/pqx509/name.go:364-406 | a text is read exactly when it is not blank and every component between unescaped commas is; the attributes then enter the name from left to right |
| NameText.ComponentMeaning | internal/pqx509/name.go:370-404 | a component is read exactly when the trimmed key is that of a type in any letter case and the value has no unescaped +, no leading #, and unescapes to something |
| NameText.KeysOfTypes | internal/pqx509/name.go:386-402 | the keys of each of the six types, byte by byte: any letter case, and U+017F for S |
| NameText.TrimSpaceMeaning | internal/pqx509/name.go:365-378 | trimming takes all white space off both ends and nothing else |
| NameText.SpacesFound | internal/pqx509/name.go:365-378 | white space is the UTF-8 form of exactly the characters of unicode.IsSpace |
| NameText.TextRoundTrip | internal/pqx509/name.go:307-331 | print then parse is the identity exactly for names with an attribute and no empty value, and fails on all others |
| NameText.ParsePrintParse | internal/pqx509/name.go:361-406 | on every accepted text, parse-print-parse equals parse |
| SubjectAltNames.MarshalSANs | internal/pqx509/extensions.go:324-347 | DNS names, e-mail addresses, then addresses, IPv4-mapped ones in 4 bytes |
| SubjectAltNames.SANsWritten | internal/pqx509/extensions.go:324-347 | the written elements one by one: dNSName, rfc822Name, iPAddress with tags 2, 1 and 7 in the order of the lists, an address of 16 octets that begins with ten zeros and FF FF cut to its last four |
| SubjectAltNames.ParseSANs | internal/pqx509/extensions.go:349-375 | the loop collects each kind in order and rejects other tags and sizes |
| SubjectAltNames.SANsErrors | internal/pqx509/extensions.go:349-375 | bytes after the list are ErrTrailingData, exactly then; every other error is ErrMalformedDER |
| SubjectAltNames.SANsRoundTrip | internal/pqx509/extensions.go:324-375 | written names read back in order and normalised exactly when every address has 4 or 16 bytes and the list is below 2^31 bytes; else malformed |
| CertificateRequests.SansFromCSRAttributes | internal/pqx509/csr.go:194-233 | the nested loops with their duplicate checks |
| CertificateRequests.ExtensionsRoundTrip | internal/pqx509/csr.go:101-123 | a written list of requested extensions reads back, whatever it holds |
| CertificateRequests.UnrelatedExtensionIgnored | internal/pqx509/csr.go:208-230 | an unrelated requested extension anywhere in the list of any attribute changes nothing, however both lists are encoded |
| CertificateRequests.UnrelatedAttributeIgnored | internal/pqx509/csr.go:194-209 | an unrelated attribute anywhere changes nothing |
| CertificateRequests.RequestedAttributes | internal/pqx509/csr.go:194-209 | one extensionRequest attribute counts, which must have one value that is a list of extensions; a second one is ErrInvalidCSR |
| CertificateRequests.RequestedNames | internal/pqx509/csr.go:210-230 | one subjectAltName extension counts, with its names or its error; a second one is ErrInvalidCSR |
| CertificateRequests.AttributesWritten | internal/pqx509/csr.go:101-123 | the octets of the attributes: none without names, else one extensionRequest with one subjectAltName extension that is not critical |
| CertificateRequests.CsrSANsRoundTrip | internal/pqx509/csr.go:101-123 | the request's names survive marshalCSRAttributes and sansFromCSRAttributes, in order and normalised, exactly when every address has 4 or 16 bytes; at or above 2^31 bytes nothing reads back |
| Certificates.BasicConstraintsRoundTrip | internal/pqx509/extensions.go:227-259 | the DER of every basicConstraints reads back, a path length only for a CA; it can be written unless a CA sets one that is negative or no machine int |
| Certificates.ConstraintsBytes | internal/pqx509/extensions.go:227-240 | the octets of basicConstraints: empty for no CA, the flag for a CA, and a one-octet path length after it |
| Certificates.ConstraintsEdges | internal/pqx509/extensions.go:242-259 | a path length without the CA flag is malformed, an explicit FALSE is read, bytes after the structure are ErrTrailingData |
| Certificates.BuildExtensions | internal/pqx509/certificate.go:177-239 | the extensions come in the order basicConstraints, keyUsage, extKeyUsage, key identifiers, alternative names, each exactly when its field asks for it; critical are the first two, and the alternative names of an empty subject; then the template's own list |
| Certificates.CreatedWhen | internal/pqx509/certificate.go:80-175 | a certificate is created exactly for a positive serial number, a writable window in time order, the signer's algorithm, writable names and extensions, and a subject or alternative names |
| Certificates.ParseCertificate | internal/pqx509/certificate.go:243-365 | the extension loop with its duplicate and unknown-critical checks |
| Certificates.ParseRefuses | internal/pqx509/certificate.go:264-282 | two different signature algorithms or a serial number that is not positive are ErrMalformedDER |
| Certificates.FilterStep | internal/pqx509/extensions.go:195-213 | purposes other than serverAuth and clientAuth are dropped, the others stay in order |
| Certificates.ExtensionErrors | internal/pqx509/certificate.go:323-360 | the first extension that repeats an identifier is ErrMalformedDER, and the first critical one that is not interpreted ErrUnsupportedCriticalExtension |
| Certificates.ExtensionsReadBack | internal/pqx509/certificate.go:177-239 | reading the written list restores the template's fields for every combination of extensions, and goes on with the template's own list, whatever it holds |
| Certificates.ExtensionsRoundTrip | internal/pqx509/certificate.go:323-363 | with uninterpreted extensions of the template's own the list reads back exactly when the alternative names do and those are distinct and not critical |
| Certificates.CertificateRoundTrip | internal/pqx509/certificate.go:80-175 | a created certificate parses to the names, truncated times, key, signature and extension fields it was made from, exactly when both encoded names are names and its extensions read back; it panics exactly when reading one of the names does |
| Certificates.CertificateFields | internal/pqx509/certificate.go:80-365 | every field of the parsed certificate in terms of template, parent and keys, the key identifiers and path length defaults included |
| RevocationLists.CreateRevocationList | internal/pqx509/crl.go:39-135 | guards, then one entry for each input in order, a reason extension only for a nonzero reason |
| RevocationLists.ListWritten | internal/pqx509/crl.go:39-135 | exactly when a list is created, which error it has otherwise, and the signed list field by field: version 2, entries in order with a reason extension exactly for a nonzero reason, two extensions that are not critical |
| RevocationLists.ParseRevocationList | internal/pqx509/crl.go:138-245 | times, version rule, the extension loop with its duplicate and unknown-critical checks, and the nested entry loops |
| RevocationLists.ListExtensionErrors | internal/pqx509/crl.go:199-224 | the first list extension that repeats an identifier is ErrMalformedDER, the first critical one that is not interpreted ErrUnsupportedCriticalExtension; others are skipped |
| RevocationLists.OldVersionRefused | internal/pqx509/crl.go:191-198 | a list that is not version 2 and has extensions is ErrMalformedDER |
| RevocationLists.ReasonsRead | internal/pqx509/crl.go:230-242 | the last reason extension of an entry counts; a critical one of another kind is refused |
| RevocationLists.VerifyListFrom | internal/pqx509/crl.go:248-260 | no error exactly when issuer name, algorithm and signature fit; ErrUnknownAuthority exactly for another name |
| RevocationLists.EntriesRoundTrip | internal/pqx509/crl.go:66-84 | entries read back in order with their reason and their time to the second |
| RevocationLists.RevocationListRoundTrip | internal/pqx509/crl.go:39-135 | a created list parses, to its entries, number and window, exactly when the issuer's encoded subject is a name, and then verifies exactly when the issuer's key signed it and the issuer record carries its encoded subject |
| RevocationLists.IsRevoked | internal/pqx509/crl.go:263-270 | found exactly when an entry has the serial, and then the first such entry |
| RevocationLists.SerialRoundTrip | internal/ca/engine.go:489-492 | the hexadecimal form of every serial number parses back to it |
| RevocationLists.SerialAnyCase | internal/ca/engine.go:474-492 | lower-casing a string gives a serial number's stored form exactly when the string has its digits in any letter case |
| Profiles.ResolveDays | internal/ca/profiles.go:90-102 | with a sound profile a request is accepted exactly from 0 to the maximum, and the days are positive, within it, and as asked unless 0 was asked |
| Keystores.FileBackend.Generate | internal/keystore/filebackend.go:39-52 | a fresh key under the drawn identifier, or no change |
| Keystores.FileBackend.Store | internal/keystore/filebackend.go:55-78 | adds that one sealed key exactly for a valid, unused identifier and a passphrase; every old key file survives unchanged |
| Keystores.FileBackend.Load | internal/keystore/filebackend.go:82-99 | the stored key under its own passphrase only |
| Keystores.FileBackend.Delete | internal/keystore/filebackend.go:102-113 | removes that key; every other key file survives unchanged |
| Keystores.DeleteUndoesStore | internal/keystore/filebackend.go:54-113 | delete after a successful store restores the key files |
| Keystores.StoreThenLoad | internal/keystore/filebackend.go:55-99 | a stored key opens under its own passphrase and no other, and opening any other key is unaffected |
| Stores.Store.CreateCA | internal/store/cas.go:12-28 | adds that one row under an unused id, or a conflict or foreign key failure without change; every old row survives |
| Stores.Store.GetCA | internal/store/cas.go:45-55 | the row under that id |
| Stores.Store.InsertCertificate | internal/store/certificates.go:15-31 | adds that one row without revocation columns under an unused serial, or fails without change; every old row survives |
| Stores.Store.ListRevoked | internal/store/certificates.go:96-100 | exactly the CA's revoked rows, in the order of time and serial |
| Stores.Store.RevokeCertificate | internal/store/certificates.go:104-131 | succeeds exactly for a present row that is not revoked, and changes that row only |
| Stores.RevokedOnce | internal/store/certificates.go:104-131 | a second revocation of the row is a conflict and changes nothing |
| Stores.SortedUnique | internal/store/certificates.go:96-100 | two listings of the same rows are the same list |
| Stores.ListingUnique | internal/store/certificates.go:96-100 | a listing is determined by its set of rows |
| Stores.ListingOrder | internal/store/certificates.go:96-100 | the order of a listing: by revocation time, and for one time by the serial number's text, compared character by character |
| Snapshots.SnapshotsOrdered | internal/ca/crl.go:28-38 | an earlier snapshot is no larger, and one of the same size is the same list |
| Snapshots.EqualCountsEqualRows | internal/ca/crl.go:37-39 | the count alone identifies the rows, in whichever order the snapshots were read |
| Snapshots.SnapshotsGrow | internal/store/certificates.go:102-131 | a revocation between two reads makes the later listing strictly larger |
| Snapshots.HitDescribes | internal/ca/crl.go:34-39 | a cached list with the caller's count lists exactly the caller's snapshot |
| Snapshots.BuildDescribes | internal/ca/crl.go:41-74 | a rebuild lists exactly the snapshot, verifies under the CA, is dated at the call's own time, and has number count + 1 |
| Snapshots.EntriesOfRows | internal/ca/crl.go:50-64 | on stored rows no fallback is used: each entry has the row's serial, time and reason |
| Hierarchy.SignedCAOk | internal/ca/engine.go:164-204 | signing with the loaded or own key yields a row that belongs in the hierarchy, or an undo of that key |
| Hierarchy.SignedLeafOk | internal/ca/engine.go:380-431 | signing yields a leaf row under its intermediate with the stated window and serial, or a failure |
| Preservation.CreateStepOk | internal/ca/engine.go:92-218 | every step of CreateCA keeps tables, keys and cache consistent and moves its key between holder and row |
| Preservation.IssueStepOk | internal/ca/engine.go:296-458 | every step of IssueCertificate does |
| Preservation.RevokeStepOk | internal/ca/engine.go:469-487 | every step of Revoke does |
| Preservation.CrlStepOk | internal/ca/crl.go:23-77 | every step of CRL does, cache hit and rebuild alike |
| Preservation.AccountKept | internal/ca/engine.go:139-208 | a step of one call keeps the partition of key files into named and held ones |
| Preservation.NextKeepsInv | internal/ca/engine.go:92-487 | any step of any call, any start and any restart keeps the invariant |
| Preservation.RunInv | internal/ca/engine.go:92-487 | so it holds in every state of every run |
| Profiles.AddDaysIsDuration | internal/ca/engine.go:356-363 | a date that AddDate moves by less than 292 years is moved by exactly the wrapped duration that is compared with the cap |
| Profiles.DaysRepeat | internal/ca/engine.go:356-363 | 2^57 more days make no difference to either product |
| Timeliness.CapIsTrueLength | internal/ca/engine.go:349-366 | the true length of an accepted request is within the cap although both products wrap, because the issuing CA's remaining life is below the wrap point |
| Timeliness.NextKeepsTimeInv | internal/ca/engine.go:132-137 | under a clock that does not run backwards every step keeps nested windows and capped lengths |
| Timeliness.TimelyRunInv | internal/ca/engine.go:132-137 | so they hold in every state of such a run |
| AloneRuns.CreateAlone | internal/ca/engine.go:92-218 | a failed CreateCA changes no table, and leaves a key file exactly when it wrote one and then the serial number or a root's signer failed; success adds exactly one row and one key |
| AloneRuns.IssueAlone | internal/ca/engine.go:296-458 | a failed IssueCertificate leaves tables and key files as they were |
| AloneRuns.IssuedAlone | internal/ca/engine.go:380-437 | a successful IssueCertificate adds exactly one row, under the drawn serial number, and exactly when asked one key file, sealed with the CA's passphrase |
| AloneRuns.ChainNeverFails | internal/ca/engine.go:439-442 | in a reachable state the lookups after the insert cannot fail |
| AloneRuns.RunCrlKeeps | internal/ca/crl.go:23-77 | a whole CRL call keeps the shared state consistent and ends in a right list |
| Caching.CrlOutcome | internal/ca/crl.go:23-77 | a CRL call run alone is one lookup and otherwise one rebuild that replaces the CA's entry |
| Caching.CrlCaches | internal/ca/crl.go:34-76 | a fresh cached list is served as it is; any other successful call leaves its list fresh in the cache, dated at its own time; other entries, tables and key files stay |
| Caching.ServedUntilRevoked | internal/ca/crl.go:20-76 | after a successful CRL call and any whole calls that revoke no row of the CA, before the list ends, the next CRL call returns the same list for any passphrase and leaves the cache as it is |
| Caching.RevokeOutcome | internal/ca/engine.go:470-487 | a Revoke call run alone: ErrConstraintViolation for a bad reason, ErrNotFound, ErrAlreadyRevoked, or the row revoked with reason and time and the list of its CA dropped |
| Theorems.SnapshotOrigin | internal/ca/crl.go:28-31 | a call's rows come from one step of the run, its own ListRevoked |
| Theorems.CrlServesOwnSnapshot | internal/ca/crl.go:20-77 | in every interleaving the list returned has exactly the rows the call's own ListRevoked read, verifies under the CA and is not past nextUpdate at the call's own time |
| Theorems.EndToEndRevocation | internal/ca/crl.go:50-76 | for every serial, the parsed list has it exactly when the CA's row for it was revoked in the state the call read, and every entry has that row's stored reason and time, to the second |
| Theorems.RevokeFindsAnyCase | internal/ca/engine.go:474-478 | in every reachable state Revoke finds a row exactly for its serial number in hexadecimal, in any letter case |
| Revocations.RevocationTime | internal/ca/engine.go:479 | the time of a revocation is one reading of the clock by the call itself, after it found the row |
| Revocations.RevokedThenListed | internal/ca/crl.go:20-77 | once Revoke has returned success, every CRL call for that CA that begins later and succeeds lists the certificate, with the reason Revoke was given and the time it read |
| Theorems.CrlNumbersFollowRevocations | internal/ca/crl.go:66-74 | ordered by their ListRevoked, also across restarts, numbers never decrease, grow over a revocation, and equal numbers mean identical entries |
| Theorems.TwoLevelHierarchy | internal/ca/profiles.go:44-63 | in every reachable table roots have path length 1 and intermediates 0, each level its algorithms and key usage and, extension by extension, its signed list with criticality; each child is named and signed by and does not outlast its issuer, leaves hang off intermediates, and a root has no revoked rows |
| Theorems.KeysAccountedFor | internal/ca/engine.go:139-208 | the key files are exactly those that rows name and those that calls hold, without overlap, and each row's key fits its certificate |
| Leaks.LeakExactly | internal/ca/engine.go:139-155 | in every interleaving a CreateCA call leaks a key exactly when one of its steps wrote the key file and then failed for want of a serial number or of a root's signer |
| Leaks.LeakedKeyStays | internal/ca/engine.go:139-155 | the leaked file is in every later state and no row names it |
| Leaks.WrittenKeyFate | internal/ca/engine.go:139-208 | a key file a call wrote is held by it, was deleted by a later step of its own, or its row is written |
| Leaks.FailedCallCleansUp | internal/ca/engine.go:156-208 | a finished call that wrote no row deleted, by its own steps, every key file it wrote, but for the leaking step |
| Leaks.FailedIssueCleansUp | internal/ca/engine.go:406-437 | a failed IssueCertificate deleted every key file it wrote |
| Leaks.LeakExample | internal/ca/engine.go:145-155 | a run with a leak |
| Theorems.NamedKeysStay | internal/keystore/filebackend.go:54-113 | a key that a row names is never replaced or deleted in the rest of the run |
| Theorems.UnwrittenChangesNoTable | internal/ca/engine.go:92-487 | in any interleaving, a call that has not written its row changed no table in any of its steps |
| Theorems.RowsStay | internal/store/certificates.go:104-131 | rows are never removed, CA rows never change, a certificate row changes at most once, to its revoked version |
| Theorems.IssuedWithinCap | internal/ca/engine.go:349-366 | every issued certificate's true length is at most maxValidity from the moment of issue |
| Theorems.ComparisonAloneWraps | internal/ca/engine.go:356-359 | the comparison alone lets 213504 days pass |
| Theorems.TriadIsValidPath | internal/pqx509/verify.go:58-133 | leaf, intermediate, root as stored form a valid path throughout the leaf's window |
| Theorems.IssuedVerifies | internal/pqx509/verify.go:41-101 | whatever the engine issued, Verify accepts, with any further certificates in the two lists |
| Theorems.IntermediatesVerify | internal/pqx509/verify.go:41-101 | the same for every intermediate under its root |
| Theorems.RevokedExactlyRejected | internal/pqx509/verify.go:33-36 | with a revocation hook over a returned list, the leaf's chain is accepted exactly when its row was not revoked in the state the list was read from |
| Requests.CallsAnswer | internal/ca/engine.go:92-458 | in every interleaving each unfinished or finished call fits the request that the step beginning it carried |
| Requests.IssuedAsRequested | internal/ca/engine.go:320-431 | what IssueCertificate returns and stores: with a CSR the CSR's subject, alternative names and signed key and no stored key; without one those of the request, with ML-DSA-44 by default; serverAuth and 90 days by default; AddDate's span |
| Requests.IssuedLength | internal/ca/engine.go:349-366 | in time order the issued length is the compared duration, at most the cap and 1825 days, and the requested length exactly when that does not wrap in nanoseconds |
| Requests.CreatedAsRequested | internal/ca/engine.go:164-204 | what CreateCA returns and stores has the requested subject, algorithm, parent and length, by default 3650 days for a root and 1825 for an intermediate |
| Successes.CertifiedExactly | internal/pqx509/certificate.go:80-175 | a template as the engine builds it becomes a certificate that reads back exactly when its name, its window and its alternative names can be written and read |
| Successes.IssueSucceedsExactly | internal/ca/engine.go:296-458 | run alone, IssueCertificate succeeds exactly under conditions on request, CSR, CA, key directory, clock and random values that hold before the call |
| Successes.CreateSucceedsExactly | internal/ca/engine.go:92-218 | run alone, CreateCA succeeds exactly under such conditions |
| Successes.CrlSucceedsExactly | internal/ca/crl.go:23-77 | run alone, CRL succeeds exactly for a known CA with a cached list, or a key that opens and times that can be written |
| Failures.IssueFailsWith | internal/ca/engine.go:296-383 | which error IssueCertificate returns, run alone, up to the certificate: the first missed requirement on CA, CSR, policy, end, passphrase and serial number, each with its own error |
| Failures.IssueEndsWith | internal/ca/engine.go:406-437 | and after it: a missing or used identifier for the key, or a used serial number |
| Failures.CreateFailsWith | internal/ca/engine.go:92-162 | which error CreateCA returns up to the certificate: request, parent, policy, end, key file, serial number, signer |
| Failures.CreateEndsWith | internal/ca/engine.go:181-208 | and after it: a missing or used identifier for the row |
| Failures.CrlFailsWith | internal/ca/crl.go:23-77 | which error CRL returns: unknown CA, and without a fresh list the passphrase or a list that cannot be written; else it returns a list |
| Successes.Example | internal/ca/engine.go:92-458 | from empty tables a root, an intermediate, a certificate and a list are made, one call after the other |
| Engines.Engine.constructor | internal/ca/engine.go:42-64 | an empty engine satisfies the invariant; zero options mean 397 days and 168 hours |
| Engines.Engine.CreateCA | internal/ca/engine.go:92-218 | runs the steps of the call, keeps the invariant; on success adds one row and one sealed key, on failure changes no table and leaks a key only under the exact condition |
| Engines.Engine.IssueCertificate | internal/ca/engine.go:296-458 | runs the steps, keeps the invariant; on success adds one row and, when asked, one sealed key, on failure changes nothing |
| Engines.Engine.CheckOrder | internal/ca/engine.go:296-359 | the guards in order, up to the clock |
| Engines.Engine.Revoke | internal/ca/engine.go:470-487 | each outcome with its error: bad reason, unknown serial number, already revoked, or success; which sets that row and drops that CA's cached list |
| Engines.Engine.CRL | internal/ca/crl.go:23-77 | returns a list of exactly the CA's revoked rows whose window has not passed: the cached one when it is fresh, and else a new one that is then in the cache under that CA, every other entry unchanged |
| Engines.Engine.BuildEntry | internal/ca/crl.go:41-74 | the entry loop, the number and the signed list |
| Engines.Engine.InvalidateCRL | internal/ca/crl.go:79-83 | removes that CA's entry and no other |

## Left out

- ML-DSA, SLH-DSA, Argon2id, AES-GCM and SHA-256: foreign arithmetic, represented by free constructors.
- The outer DER of certificates, requests and lists, PEM, JSON and SQL text: library code.
- Certificates.ParseCertificate: bytes that are no certificate structure are malformed as a whole; the version, the parameters and the key and signature sizes are not looked at.
- RevocationLists.ParseRevocationList: reads any list structure, but not its outer DER, its AlgorithmIdentifier parameters and its signature size.
- Versions of certificates and AlgorithmIdentifier parameters: fixed by the free constructors.
- Signature and key sizes, OID tables, KeyUsage bit strings and extended key usage names: finite tables.
- Identifier octets of more than one byte, which encoding/asn1 reads and this code never writes.
- encoding/asn1 details outside the parts modelled: character sets of strings, UTCTime without seconds,
  times with an offset or a fraction.
- The text form of `revoked_at` in SQLite: rows are ordered by the time itself.
- Database and file system errors, partial writes, permissions, fsync: a store or key file operation
  succeeds or fails for the reasons in the model and is atomic. Context cancellation likewise.
- `ListCAs`, `ListCertificatesByCA`, the engine's `GetCA` and `GetCertificate`, the `sans` column and the chain text of results:
  reads and text that no invariant depends on.
- HTTP routing, tokens, configuration, migration, TLS, the command line: plumbing or one-branch checks.
- Zeroing of key material in memory.
- nil arguments and nil pointers: types without null stand for them.
- A revocation hook that reads or changes state: it is a function of the two certificates.
- Clocks that run backwards, for the theorems stated on `IsTimelyRun`; the others hold for any clock.
- AloneRuns.IssueAlone: after the insert the source can also return an error from `EncodePrivateKeyPEM` (engine.go:449-453), which fails for no key that it generated.
- AloneRuns.ChainNeverFails: covers the lookup of the parent; `caResult` also parses the CA's stored certificate and algorithm text (engine.go:247-254), which fails for no row that the engine stored.
- Engines.Engine.IssueCertificate: leaves out the same two errors after the insert.
- Leaks.FailedIssueCleansUp: leaves them out too; a call that failed there would have written its row and, when asked to store it, kept its key.
- Successes.IssueSucceedsExactly: leaves them out too.
- Theorems.RevokedExactlyRejected: the hook is one a caller could write; the repository ships the hook's type but no hook.
