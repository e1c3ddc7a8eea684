/** Certificate revocation lists (crl.go of pqx509) and serial numbers in hexadecimal
    (engine.go:489-492). */
module RevocationLists {
  import opened Prelude
  import opened Names
  import opened X509
  import opened Certificates
  import opened Der
  import opened Times
  import Rdn

  datatype RevocationEntry = RevocationEntry(serialNumber: int, revocationTime: int, reasonCode: int)

  /** A crlEntryExtension: the reason code, or another extension. */
  datatype EntryExtension = ReasonExtension(reason: int) | OtherEntryExtension(critical: bool)

  datatype RevokedCertificate = RevokedCertificate(serialNumber: int, revocationDate: Element,
                                                   extensions: seq<EntryExtension>)

  datatype ListExtensionId = ListAuthorityKeyId | ListNumber | OtherListId(oid: nat)

  datatype ListExtensionValue =
    | KeyIdentifierOf(id: KeyIdentifier)
    | NumberOf(number: int)
    | OtherListValue(bytes: Bytes)

  datatype ListExtension = ListExtension(id: ListExtensionId, critical: bool, value: ListExtensionValue)

  /** `version` is the encoded one: 1 means v2. */
  datatype TbsCertList = TbsCertList(
    version: nat,
    signatureAlgorithm: Algorithm,
    issuer: Bytes,
    thisUpdate: Element,
    nextUpdate: Option<Element>,
    revokedCertificates: seq<RevokedCertificate>,
    extensions: seq<ListExtension>)

  datatype CrlDer = CrlDer(tbs: TbsCertList, signatureAlgorithm: Algorithm, signature: Signature<TbsCertList>)

  datatype RevocationList = RevocationList(
    rawTbs: TbsCertList,
    issuer: Name,
    rawIssuer: Bytes,
    signatureAlgorithm: Algorithm,
    signature: Signature<TbsCertList>,
    thisUpdate: int,
    nextUpdate: Option<int>,
    number: Option<int>,
    authorityKeyId: Option<KeyIdentifier>,
    entries: seq<RevocationEntry>)

  // ---------------------------------------------------------------- creation

  function WrittenEntry(e: RevocationEntry): Result<RevokedCertificate> {
    if e.serialNumber <= 0 then Err(Other)
    else
      var when := MarshalTime(e.revocationTime);
      if when.Err? then Err(Other)
      else Ok(RevokedCertificate(e.serialNumber, when.value,
                                 if e.reasonCode != 0 then [ReasonExtension(e.reasonCode)] else []))
  }

  function WrittenEntries(entries: seq<RevocationEntry>): Result<seq<RevokedCertificate>> {
    if entries == [] then Ok([])
    else
      var before := WrittenEntries(entries[..|entries| - 1]);
      if before.Err? then before
      else
        var last := WrittenEntry(entries[|entries| - 1]);
        if last.Err? then Err(last.error) else Ok(before.value + [last.value])
  }

  function ListExtensions(issuer: Certificate, number: int): seq<ListExtension> {
    [ListExtension(ListAuthorityKeyId, false, KeyIdentifierOf(KeyIdentifier(issuer.publicKey))),
     ListExtension(ListNumber, false, NumberOf(number))]
  }

  function RevocationListDer(issuer: Certificate, signer: PrivateKey, number: int, entries: seq<RevocationEntry>,
                             thisUpdate: int, nextUpdate: int): Result<CrlDer>
  {
    if number < 0 || nextUpdate <= thisUpdate then Err(Other)
    else if issuer.keyUsage != 0 && issuer.keyUsage & CRL_SIGN == 0 then Err(KeyUsageNotPermitted)
    else if signer.algorithm != issuer.publicKey.algorithm then Err(Other)
    else
      var thisTime, nextTime := MarshalTime(thisUpdate), MarshalTime(nextUpdate);
      if thisTime.Err? || nextTime.Err? then Err(Other)
      else
        var revoked := WrittenEntries(entries);
        if revoked.Err? then Err(revoked.error)
        else
          var issuerDer := NameBytes(issuer.rawSubject, issuer.subject);
          if issuerDer.Err? then Err(issuerDer.error)
          else
            var tbs := TbsCertList(1, signer.algorithm, issuerDer.value, thisTime.value, Some(nextTime.value),
                                   revoked.value, ListExtensions(issuer, number));
            Ok(CrlDer(tbs, signer.algorithm, Signed(PublicOf(signer), tbs)))
  }

  lemma {:induction false} WrittenEntriesFail(entries: seq<RevocationEntry>, k: nat)
    requires k <= |entries| && WrittenEntries(entries[..k]).Err?
    ensures WrittenEntries(entries) == WrittenEntries(entries[..k])
  {
    if k == |entries| {
      assert entries[..k] == entries;
    } else {
      assert entries[..|entries| - 1][..k] == entries[..k];
      WrittenEntriesFail(entries[..|entries| - 1], k);
    }
  }

  method CreateRevocationList(issuer: Certificate, signer: PrivateKey, number: int, entries: seq<RevocationEntry>,
                              thisUpdate: int, nextUpdate: int) returns (r: Result<CrlDer>)
    ensures r == RevocationListDer(issuer, signer, number, entries, thisUpdate, nextUpdate)
  {
    hide WrittenEntry, NameBytes;
    if number < 0 || nextUpdate <= thisUpdate {
      return Err(Other);
    }
    if issuer.keyUsage != 0 && issuer.keyUsage & CRL_SIGN == 0 {
      return Err(KeyUsageNotPermitted);
    }
    if signer.algorithm != issuer.publicKey.algorithm {
      return Err(Other);
    }
    var thisTime, nextTime := MarshalTime(thisUpdate), MarshalTime(nextUpdate);
    if thisTime.Err? || nextTime.Err? {
      return Err(Other);
    }
    var revoked: seq<RevokedCertificate> := [];
    for i := 0 to |entries|
      invariant WrittenEntries(entries[..i]) == Ok(revoked)
    {
      assert entries[..i + 1][..i] == entries[..i];
      var entry := WrittenEntry(entries[i]);
      if entry.Err? {
        WrittenEntriesFail(entries, i + 1);
        return Err(entry.error);
      }
      revoked := revoked + [entry.value];
    }
    assert entries[..|entries|] == entries;
    var issuerDer := NameBytes(issuer.rawSubject, issuer.subject);
    if issuerDer.Err? {
      return Err(issuerDer.error);
    }
    var tbs := TbsCertList(1, signer.algorithm, issuerDer.value, thisTime.value, Some(nextTime.value), revoked,
                           ListExtensions(issuer, number));
    return Ok(CrlDer(tbs, signer.algorithm, Signed(PublicOf(signer), tbs)));
  }

  /** One list entry: no extension for reason 0, which is "unspecified", and else the reason alone. */
  predicate EntryWritten(rc: RevokedCertificate, e: RevocationEntry) {
    && rc.serialNumber == e.serialNumber
    && MarshalTime(e.revocationTime) == Ok(rc.revocationDate)
    && rc.extensions == if e.reasonCode == 0 then [] else [ReasonExtension(e.reasonCode)]
  }

  lemma {:induction false} EntriesWrittenInOrder(entries: seq<RevocationEntry>)
    ensures var w := WrittenEntries(entries);
            && (w.Ok? <==> forall i :: 0 <= i < |entries| ==>
                             entries[i].serialNumber > 0 && MarshalTime(entries[i].revocationTime).Ok?)
            && (w.Ok? ==> |w.value| == |entries|
                          && forall i :: 0 <= i < |entries| ==> EntryWritten(w.value[i], entries[i]))
            && (w.Err? ==> w == Err(Other))
  {
    hide MarshalTime;
    if entries != [] {
      var front, last := entries[..|entries| - 1], entries[|entries| - 1];
      EntriesWrittenInOrder(front);
      assert entries == front + [last];
    }
  }

  predicate ListRequested(issuer: Certificate, signer: PrivateKey, number: int, thisUpdate: int, nextUpdate: int) {
    && number >= 0 && thisUpdate < nextUpdate
    && signer.algorithm == issuer.publicKey.algorithm
    && MarshalTime(thisUpdate).Ok? && MarshalTime(nextUpdate).Ok?
    && (issuer.rawSubject != [] || Rdn.RdnSequence(issuer.subject).Ok?)
  }

  /** The signed list, octets of the times and the name aside: version 2, one entry for each of the given
      ones in order, and two extensions that are not critical. A key usage without cRLSign, which is bit
      6, has an error of its own. */
  lemma ListWritten(issuer: Certificate, signer: PrivateKey, number: int, entries: seq<RevocationEntry>,
                    thisUpdate: int, nextUpdate: int)
    ensures var r := RevocationListDer(issuer, signer, number, entries, thisUpdate, nextUpdate);
            var mayList := issuer.keyUsage == 0 || issuer.keyUsage & 0x0040 != 0;
            && (r.Ok? <==> ListRequested(issuer, signer, number, thisUpdate, nextUpdate) && mayList
                           && forall i :: 0 <= i < |entries| ==>
                                entries[i].serialNumber > 0 && MarshalTime(entries[i].revocationTime).Ok?)
            && (r.Err? ==> r == Err(if number >= 0 && thisUpdate < nextUpdate && !mayList then KeyUsageNotPermitted
                                    else Other))
            && (r.Ok? ==>
                  && r.value.signatureAlgorithm == signer.algorithm
                  && r.value.signature == Signed(PublicOf(signer), r.value.tbs)
                  && var tbs := r.value.tbs;
                  && tbs.version == 1 && tbs.signatureAlgorithm == signer.algorithm
                  && (issuer.rawSubject != [] ==> tbs.issuer == issuer.rawSubject)
                  && MarshalTime(thisUpdate) == Ok(tbs.thisUpdate)
                  && tbs.nextUpdate.Some? && MarshalTime(nextUpdate) == Ok(tbs.nextUpdate.value)
                  && |tbs.revokedCertificates| == |entries|
                  && (forall i :: 0 <= i < |entries| ==> EntryWritten(tbs.revokedCertificates[i], entries[i]))
                  && tbs.extensions
                     == [ListExtension(ListAuthorityKeyId, false, KeyIdentifierOf(KeyIdentifier(issuer.publicKey))),
                         ListExtension(ListNumber, false, NumberOf(number))])
  {
    hide MarshalTime, WrittenEntries, EntryWritten, Rdn.RdnSequence;
    EntriesWrittenInOrder(entries);
    Rdn.WriteError(issuer.subject);
  }

  // ---------------------------------------------------------------- parsing

  function ReadReason(reason: int, exts: seq<EntryExtension>): Result<int>
    decreases |exts|
  {
    if exts == [] then Ok(reason)
    else
      match exts[0]
      case ReasonExtension(r) => ReadReason(r, exts[1..])
      case OtherEntryExtension(critical) =>
        if critical then Err(UnsupportedCriticalExtension) else ReadReason(reason, exts[1..])
  }

  function ReadEntry(rc: RevokedCertificate): Result<RevocationEntry> {
    var when := ParseTime(rc.revocationDate);
    if when.Err? then Err(when.error)
    else
      var reason := ReadReason(0, rc.extensions);
      if reason.Err? then Err(reason.error) else Ok(RevocationEntry(rc.serialNumber, when.value, reason.value))
  }

  function ReadEntries(rcs: seq<RevokedCertificate>): Result<seq<RevocationEntry>> {
    if rcs == [] then Ok([])
    else
      var before := ReadEntries(rcs[..|rcs| - 1]);
      if before.Err? then before
      else
        var last := ReadEntry(rcs[|rcs| - 1]);
        if last.Err? then Err(last.error) else Ok(before.value + [last.value])
  }

  /** The switch of the extension loop. */
  function ApplyListExtension(l: RevocationList, e: ListExtension): Result<RevocationList> {
    match e.id
    case ListAuthorityKeyId =>
      if !e.value.KeyIdentifierOf? then Err(MalformedDER) else Ok(l.(authorityKeyId := Some(e.value.id)))
    case ListNumber =>
      if !e.value.NumberOf? then Err(MalformedDER) else Ok(l.(number := Some(e.value.number)))
    case OtherListId(_) =>
      if e.critical then Err(UnsupportedCriticalExtension) else Ok(l)
  }

  function ApplyListExtensions(l: RevocationList, exts: seq<ListExtension>, seen: set<ListExtensionId>)
    : (r: Result<RevocationList>)
    ensures r.Ok? ==> r.value.entries == l.entries
    decreases |exts|
  {
    if exts == [] then Ok(l)
    else if exts[0].id in seen then Err(MalformedDER)
    else
      var next := ApplyListExtension(l, exts[0]);
      if next.Err? then next else ApplyListExtensions(next.value, exts[1..], seen + {exts[0].id})
  }

  function ReadNextUpdate(e: Option<Element>): Result<Option<int>> {
    if e.None? then Ok(None)
    else
      var t := ParseTime(e.value);
      if t.Err? then Err(t.error) else Ok(Some(t.value))
  }

  /** The list before its extensions and entries are read. */
  function BareList(der: CrlDer, issuer: Name, thisUpdate: int, nextUpdate: Option<int>): RevocationList {
    RevocationList(der.tbs, issuer, der.tbs.issuer, der.signatureAlgorithm, der.signature, thisUpdate, nextUpdate,
                   None, None, [])
  }

  /** Only v2 lists may carry extensions (RFC 5280 section 5.1.2.1). */
  predicate VersionFits(tbs: TbsCertList) {
    tbs.version == 1 || tbs.extensions == []
  }

  function ParsedRevocationList(der: CrlDer): Result<RevocationList> {
    var issuer := Rdn.ParsedName(der.tbs.issuer);
    if issuer.Err? then Err(issuer.error)
    else
      var thisUpdate, nextUpdate := ParseTime(der.tbs.thisUpdate), ReadNextUpdate(der.tbs.nextUpdate);
      if thisUpdate.Err? then Err(thisUpdate.error)
      else if nextUpdate.Err? then Err(nextUpdate.error)
      else if !VersionFits(der.tbs) then Err(MalformedDER)
      else
        var l := ApplyListExtensions(BareList(der, issuer.value, thisUpdate.value, nextUpdate.value),
                                     der.tbs.extensions, {});
        if l.Err? then l
        else
          var entries := ReadEntries(der.tbs.revokedCertificates);
          if entries.Err? then Err(entries.error) else Ok(l.value.(entries := entries.value))
  }

  // ---------------------------------------------------------------- what is refused

  function ListIdsOf(exts: seq<ListExtension>): set<ListExtensionId> {
    set i | 0 <= i < |exts| :: exts[i].id
  }

  lemma {:induction false} ApplyListConcat(l: RevocationList, a: seq<ListExtension>, b: seq<ListExtension>,
                                           seen: set<ListExtensionId>)
    ensures ApplyListExtensions(l, a + b, seen)
            == if ApplyListExtensions(l, a, seen).Err? then ApplyListExtensions(l, a, seen)
               else ApplyListExtensions(ApplyListExtensions(l, a, seen).value, b, seen + ListIdsOf(a))
    decreases |a|
  {
    hide ApplyListExtension;
    if a == [] {
      assert a + b == b && seen + ListIdsOf(a) == seen;
    } else {
      assert (a + b)[1..] == a[1..] + b;
      assert a == [a[0]] + a[1..];
      assert seen + ListIdsOf(a) == seen + {a[0].id} + ListIdsOf(a[1..]);
      if a[0].id !in seen && ApplyListExtension(l, a[0]).Ok? {
        ApplyListConcat(ApplyListExtension(l, a[0]).value, a[1..], b, seen + {a[0].id});
      }
    }
  }

  /** The first list extension that repeats an identifier, or is critical and not interpreted, decides. */
  lemma ListExtensionErrors(l: RevocationList, good: seq<ListExtension>, e: ListExtension, rest: seq<ListExtension>)
    requires ApplyListExtensions(l, good, {}).Ok?
    ensures e.id in ListIdsOf(good) ==> ApplyListExtensions(l, good + ([e] + rest), {}) == Err(MalformedDER)
    ensures e.id !in ListIdsOf(good) && e.id.OtherListId? && e.critical ==>
              ApplyListExtensions(l, good + ([e] + rest), {}) == Err(UnsupportedCriticalExtension)
    ensures e.id !in ListIdsOf(good) && e.id.OtherListId? && !e.critical ==>
              ApplyListExtensions(l, good + ([e] + rest), {})
              == ApplyListExtensions(ApplyListExtensions(l, good, {}).value, rest, ListIdsOf(good) + {e.id})
  {
    ApplyListConcat(l, good, [e] + rest, {});
    assert {} + ListIdsOf(good) == ListIdsOf(good) && ([e] + rest)[1..] == rest;
  }

  /** A list that is not version 2 and has extensions is malformed. */
  lemma OldVersionRefused(der: CrlDer)
    requires der.tbs.version != 1 && der.tbs.extensions != [] && Rdn.ParsedName(der.tbs.issuer).Ok?
    requires ParseTime(der.tbs.thisUpdate).Ok? && ReadNextUpdate(der.tbs.nextUpdate).Ok?
    ensures ParsedRevocationList(der) == Err(MalformedDER)
  {
    hide Rdn.ParsedName, ParseTime;
  }

  /** Of an entry's extensions the last reason stays; a critical one of another kind is refused. */
  lemma {:induction false} ReasonsRead(reason: int, a: seq<EntryExtension>, r: int, critical: bool)
    ensures ReadReason(reason, a).Ok? ==> ReadReason(reason, a + [ReasonExtension(r)]) == Ok(r)
    ensures ReadReason(reason, a).Ok? ==>
              ReadReason(reason, a + [OtherEntryExtension(critical)])
              == if critical then Err(UnsupportedCriticalExtension) else ReadReason(reason, a)
    ensures ReadReason(reason, a).Err? ==> ReadReason(reason, a) == Err(UnsupportedCriticalExtension)
    decreases |a|
  {
    if a != [] {
      assert (a + [ReasonExtension(r)])[1..] == a[1..] + [ReasonExtension(r)];
      assert (a + [OtherEntryExtension(critical)])[1..] == a[1..] + [OtherEntryExtension(critical)];
      ReasonsRead(if a[0].ReasonExtension? then a[0].reason else reason, a[1..], r, critical);
    } else {
      assert [ReasonExtension(r)][1..] == [] && [OtherEntryExtension(critical)][1..] == [];
    }
  }

  // ---------------------------------------------------------------- reading in steps

  lemma {:induction false} ReadEntriesFail(rcs: seq<RevokedCertificate>, k: nat)
    requires k <= |rcs| && ReadEntries(rcs[..k]).Err?
    ensures ReadEntries(rcs) == ReadEntries(rcs[..k])
  {
    if k == |rcs| {
      assert rcs[..k] == rcs;
    } else {
      assert rcs[..|rcs| - 1][..k] == rcs[..k];
      ReadEntriesFail(rcs[..|rcs| - 1], k);
    }
  }

  method ParseRevocationList(der: CrlDer) returns (r: Result<RevocationList>)
    ensures r == ParsedRevocationList(der)
  {
    hide Rdn.ParsedName, ParseTime, ApplyListExtension;
    var issuer := Rdn.ParseName(der.tbs.issuer);
    if issuer.Err? {
      return Err(issuer.error);
    }
    var thisUpdate := ParseTime(der.tbs.thisUpdate);
    if thisUpdate.Err? {
      return Err(thisUpdate.error);
    }
    var nextUpdate: Option<int> := None;
    if der.tbs.nextUpdate.Some? {
      var t := ParseTime(der.tbs.nextUpdate.value);
      if t.Err? {
        return Err(t.error);
      }
      nextUpdate := Some(t.value);
    }
    if der.tbs.version != 1 && |der.tbs.extensions| > 0 {
      return Err(MalformedDER);
    }
    var bare := BareList(der, issuer.value, thisUpdate.value, nextUpdate);
    var l := ReadListExtensions(bare, der.tbs.extensions);
    if l.Err? {
      return l;
    }
    var entries := ReadEntryList(der.tbs.revokedCertificates);
    if entries.Err? {
      return Err(entries.error);
    }
    return Ok(l.value.(entries := entries.value));
  }

  method ReadListExtensions(bare: RevocationList, exts: seq<ListExtension>) returns (r: Result<RevocationList>)
    ensures r == ApplyListExtensions(bare, exts, {})
  {
    hide ApplyListExtension;
    var l := bare;
    var seen: set<ListExtensionId> := {};
    assert exts[0..] == exts;
    for i := 0 to |exts|
      invariant ApplyListExtensions(l, exts[i..], seen) == ApplyListExtensions(bare, exts, {})
    {
      var e := exts[i];
      assert exts[i..][0] == e && exts[i..][1..] == exts[i + 1..];
      if e.id in seen {
        return Err(MalformedDER);
      }
      seen := seen + {e.id};
      var next := ApplyListExtension(l, e);
      if next.Err? {
        return next;
      }
      l := next.value;
    }
    return Ok(l);
  }

  method ReadEntryList(rcs: seq<RevokedCertificate>) returns (r: Result<seq<RevocationEntry>>)
    ensures r == ReadEntries(rcs)
  {
    hide ParseTime;
    var entries: seq<RevocationEntry> := [];
    for i := 0 to |rcs|
      invariant ReadEntries(rcs[..i]) == Ok(entries)
    {
      assert rcs[..i + 1][..i] == rcs[..i];
      var when := ParseTime(rcs[i].revocationDate);
      if when.Err? {
        ReadEntriesFail(rcs, i + 1);
        return Err(when.error);
      }
      var reason := 0;
      var exts := rcs[i].extensions;
      assert exts[0..] == exts;
      for j := 0 to |exts|
        invariant ReadReason(reason, exts[j..]) == ReadReason(0, exts)
      {
        assert exts[j..][0] == exts[j] && exts[j..][1..] == exts[j + 1..];
        match exts[j] {
          case ReasonExtension(code) =>
            reason := code;
          case OtherEntryExtension(critical) =>
            if critical {
              ReadEntriesFail(rcs, i + 1);
              return Err(UnsupportedCriticalExtension);
            }
        }
      }
      entries := entries + [RevocationEntry(rcs[i].serialNumber, when.value, reason)];
    }
    assert rcs[..|rcs|] == rcs;
    return Ok(entries);
  }

  /** The entry as it reads back: revocation times have second resolution. */
  function Rounded(e: RevocationEntry): RevocationEntry {
    e.(revocationTime := Truncate(e.revocationTime))
  }

  function RoundedAll(entries: seq<RevocationEntry>): (r: seq<RevocationEntry>)
    ensures |r| == |entries|
    ensures forall i :: 0 <= i < |entries| ==> r[i] == Rounded(entries[i])
  {
    seq(|entries|, i requires 0 <= i < |entries| => Rounded(entries[i]))
  }

  lemma EntryRoundTrip(e: RevocationEntry)
    requires WrittenEntry(e).Ok?
    ensures ReadEntry(WrittenEntry(e).value) == Ok(Rounded(e))
  {
    hide MarshalTime, ParseTime;
    TimeRoundTrip(e.revocationTime);
    if e.reasonCode != 0 {
      assert ReadReason(0, [ReasonExtension(e.reasonCode)])
             == ReadReason(e.reasonCode, [ReasonExtension(e.reasonCode)][1..]) == Ok(e.reasonCode);
    }
  }

  lemma {:induction false} EntriesRoundTrip(entries: seq<RevocationEntry>)
    requires WrittenEntries(entries).Ok?
    ensures ReadEntries(WrittenEntries(entries).value) == Ok(RoundedAll(entries))
  {
    hide WrittenEntry, ReadEntry, Rounded;
    if entries != [] {
      var front := entries[..|entries| - 1];
      var written := WrittenEntries(entries).value;
      EntriesRoundTrip(front);
      EntryRoundTrip(entries[|entries| - 1]);
      assert written[..|written| - 1] == WrittenEntries(front).value;
      assert RoundedAll(entries) == RoundedAll(front) + [Rounded(entries[|entries| - 1])];
    }
  }

  predicate VerifiedFrom(l: RevocationList, issuer: Certificate) {
    && l.rawIssuer == issuer.rawSubject
    && l.signatureAlgorithm == issuer.publicKey.algorithm
    && SignatureValid(issuer.publicKey, l.rawTbs, l.signature)
  }

  /** RevocationList.VerifySignatureFrom: another name, another algorithm, another key. */
  function VerifyListFrom(l: RevocationList, issuer: Certificate): (e: Option<Error>)
    ensures e.None? <==> VerifiedFrom(l, issuer)
    ensures e == Some(UnknownAuthority) <==> l.rawIssuer != issuer.rawSubject
    ensures e.Some? ==> e.value == UnknownAuthority || e.value == BadSignature
  {
    if l.rawIssuer != issuer.rawSubject then Some(UnknownAuthority)
    else if l.signatureAlgorithm != issuer.publicKey.algorithm then Some(BadSignature)
    else if SignatureValid(issuer.publicKey, l.rawTbs, l.signature) then None
    else Some(BadSignature)
  }

  /** A list that was created parses to the same entries in order, with its number and window,
      exactly when the issuer's encoded subject is a name. It then verifies under the issuer exactly
      when the issuer's key signed it and the issuer record carries its encoded subject: without one,
      the name is encoded for the list alone. */
  lemma RevocationListRoundTrip(issuer: Certificate, signer: PrivateKey, number: int, entries: seq<RevocationEntry>,
                                thisUpdate: int, nextUpdate: int)
    requires RevocationListDer(issuer, signer, number, entries, thisUpdate, nextUpdate).Ok?
    ensures var der := RevocationListDer(issuer, signer, number, entries, thisUpdate, nextUpdate).value;
            var l := ParsedRevocationList(der);
            && (l.Ok? <==> (issuer.rawSubject != [] ==> Rdn.ParsedName(issuer.rawSubject).Ok?))
            && (l.Err? ==> l.error == Rdn.ParsedName(issuer.rawSubject).error)
            && (l.Ok? ==>
                  && l.value.entries == RoundedAll(entries)
                  && l.value.number == Some(number)
                  && l.value.authorityKeyId == Some(KeyIdentifier(issuer.publicKey))
                  && l.value.rawTbs == der.tbs && l.value.rawIssuer == der.tbs.issuer
                  && Rdn.ParsedName(der.tbs.issuer) == Ok(l.value.issuer)
                  && (issuer.rawSubject == [] ==> l.value.issuer == issuer.subject)
                  && l.value.thisUpdate == Truncate(thisUpdate) && l.value.nextUpdate == Some(Truncate(nextUpdate))
                  && (VerifiedFrom(l.value, issuer) <==>
                        PublicOf(signer) == issuer.publicKey && issuer.rawSubject != []))
  {
    hide Rdn.ParsedName, ReadEntries, WrittenEntries, Truncate, Rdn.RdnSequence, MarshalTime, ParseTime,
         ApplyListExtensions;
    EntriesRoundTrip(entries);
    TimeRoundTrip(thisUpdate);
    TimeRoundTrip(nextUpdate);
    if issuer.rawSubject == [] {
      Rdn.NameRoundTrip(issuer.subject);
      NameIsNotEmpty(issuer.subject);
    }
    var der := RevocationListDer(issuer, signer, number, entries, thisUpdate, nextUpdate).value;
    if Rdn.ParsedName(der.tbs.issuer).Ok? {
      var bare := BareList(der, Rdn.ParsedName(der.tbs.issuer).value, Truncate(thisUpdate), Some(Truncate(nextUpdate)));
      ListExtensionsRead(bare, issuer, number);
    }
  }

  lemma ListExtensionsRead(l: RevocationList, issuer: Certificate, number: int)
    ensures ApplyListExtensions(l, ListExtensions(issuer, number), {})
            == Ok(l.(authorityKeyId := Some(KeyIdentifier(issuer.publicKey)), number := Some(number)))
  {
    var exts := ListExtensions(issuer, number);
    var l1 := l.(authorityKeyId := Some(KeyIdentifier(issuer.publicKey)));
    assert exts[1..][0] == exts[1] && exts[1..][1..] == [];
    assert ApplyListExtensions(l1, exts[1..], {} + {ListAuthorityKeyId}) == Ok(l1.(number := Some(number)));
  }

  lemma NameIsNotEmpty(n: Name)
    ensures Rdn.RdnSequence(n).Ok? ==> Rdn.RdnSequence(n).value != []
  {
    hide Rdn.RdnsOf;
  }

  // ---------------------------------------------------------------- lookup

  predicate Lists(entries: seq<RevocationEntry>, serial: int) {
    exists i :: 0 <= i < |entries| && entries[i].serialNumber == serial
  }

  method IsRevoked(l: RevocationList, serial: int) returns (r: Option<RevocationEntry>)
    ensures r.Some? <==> Lists(l.entries, serial)
    ensures r.Some? ==> exists i :: 0 <= i < |l.entries| && l.entries[i] == r.value && r.value.serialNumber == serial
                                    && forall k :: 0 <= k < i ==> l.entries[k].serialNumber != serial
  {
    for i := 0 to |l.entries|
      invariant forall k :: 0 <= k < i ==> l.entries[k].serialNumber != serial
    {
      if l.entries[i].serialNumber == serial {
        return Some(l.entries[i]);
      }
    }
    return None;
  }

  // ---------------------------------------------------------------- serial numbers

  function HexDigit(d: nat): (c: char)
    requires d < 16
    ensures '0' <= c <= '9' || 'a' <= c <= 'f'
  {
    if d < 10 then '0' + d as char else 'a' + (d - 10) as char
  }

  function DigitValue(c: char): Option<nat> {
    if '0' <= c <= '9' then Some(c as int - '0' as int)
    else if 'a' <= c <= 'f' then Some(c as int - 'a' as int + 10)
    else if 'A' <= c <= 'F' then Some(c as int - 'A' as int + 10)
    else None
  }

  /** Lower-case hexadecimal without leading zeros. */
  function SerialHex(n: nat): (s: string)
    ensures |s| > 0
    ensures forall i :: 0 <= i < |s| ==> '0' <= s[i] <= '9' || 'a' <= s[i] <= 'f'
  {
    if n < 16 then [HexDigit(n)] else SerialHex(n / 16) + [HexDigit(n % 16)]
  }

  function ParsedDigits(s: string): Option<nat> {
    if s == [] then Some(0)
    else
      var high, low := ParsedDigits(s[..|s| - 1]), DigitValue(s[|s| - 1]);
      if high.None? || low.None? then None else Some(high.value * 16 + low.value)
  }

  /** big.Int.SetString with base 16: an optional sign, then at least one digit. */
  function ParsedSerial(s: string): Option<int> {
    if s == [] then None
    else if s[0] == '-' || s[0] == '+' then
      var d := ParsedDigits(s[1..]);
      if |s| == 1 || d.None? then None
      else
        var v: int := d.value;
        Some(if s[0] == '-' then -v else v)
    else ParsedDigits(s)
  }

  lemma {:induction false} DigitsRoundTrip(n: nat)
    ensures ParsedDigits(SerialHex(n)) == Some(n)
  {
    if n < 16 {
      assert [HexDigit(n)][..0] == [];
    } else {
      var s := SerialHex(n);
      assert s[..|s| - 1] == SerialHex(n / 16);
      DigitsRoundTrip(n / 16);
    }
  }

  /** Every serial number survives its hexadecimal form; so the form is injective. */
  lemma SerialRoundTrip(n: nat)
    ensures ParsedSerial(SerialHex(n)) == Some(n)
  {
    DigitsRoundTrip(n);
    var c := SerialHex(n)[0];
    assert '0' <= c <= '9' || 'a' <= c <= 'f';
  }

  function LowerChar(c: char): char {
    if 'A' <= c <= 'Z' then c - 'A' + 'a' else c
  }

  /** strings.ToLower on ASCII; nothing else lower-cases to a hexadecimal digit. */
  function Lower(s: string): (r: string)
    ensures |r| == |s|
    ensures forall i :: 0 <= i < |s| ==> r[i] == LowerChar(s[i])
  {
    seq(|s|, i requires 0 <= i < |s| => LowerChar(s[i]))
  }

  /** The same hexadecimal digits, in any letter case. */
  predicate SameDigits(s: string, t: string) {
    |s| == |t| && forall i :: 0 <= i < |s| ==> DigitValue(s[i]).Some? && DigitValue(s[i]) == DigitValue(t[i])
  }

  /** Lower-casing finds the stored form of a serial number exactly for its own digits. */
  lemma SerialAnyCase(s: string, n: nat)
    ensures Lower(s) == SerialHex(n) <==> SameDigits(s, SerialHex(n))
  {
    var hex := SerialHex(n);
    hide SerialHex;
    if Lower(s) == hex {
      forall i | 0 <= i < |s| ensures DigitValue(s[i]).Some? && DigitValue(s[i]) == DigitValue(hex[i]) {
        assert Lower(s)[i] == hex[i];
      }
    }
    if SameDigits(s, hex) {
      forall i | 0 <= i < |s| ensures Lower(s)[i] == hex[i] {
      }
    }
  }
}
