/** The positional pathLen test of verify.go:115-121 against the max_path_length working
    variable of RFC 5280 section 6.1. */
module PathLength {
  import opened Prelude
  import opened X509
  import opened PathValidation
  import opened Certificates
  import opened Der
  import opened Names
  import opened Times
  import Rdn
  import SubjectAltNames

  /** A certificate whose issuer and subject names are the same (RFC 5280 section 3.2). */
  predicate SelfIssued(c: Certificate) {
    c.rawIssuer == c.rawSubject
  }

  predicate Constrained(c: Certificate) {
    c.basicConstraints.maxPathLenSet
  }

  /** pathLenConstraint is an INTEGER (0..MAX) in RFC 5280 section 4.2.1.9. */
  predicate IssuersNatural(p: Chain) {
    forall i :: 1 <= i < |p| ==> NaturalPathLen(p[i])
  }

  predicate NaturalPathLen(c: Certificate) {
    Constrained(c) ==> 0 <= c.basicConstraints.maxPathLen
  }

  lemma {:induction false} ExtensionsKeepNatural(c: Certificate, exts: seq<Extension>, seen: set<ExtensionId>)
    requires NaturalPathLen(c) && ApplyExtensions(c, exts, seen).Ok?
    ensures NaturalPathLen(ApplyExtensions(c, exts, seen).value)
    decreases |exts|
  {
    hide SubjectAltNames.ParsedSANs, ReadFlag, ReadPathLen, ReadElement;
    if exts != [] {
      ExtensionsKeepNatural(ApplyExtension(c, exts[0]).value, exts[1..], seen + {exts[0].id});
    }
  }

  /** Every certificate that ParseCertificate accepts is of that kind. */
  lemma ParsedIsNatural(der: CertificateDer)
    requires ParsedCertificate(der).Ok?
    ensures NaturalPathLen(ParsedCertificate(der).value)
  {
    hide ApplyExtensions, Rdn.ParsedName, ParseTime;
    ExtensionsKeepNatural(Bare(der, Rdn.ParsedName(der.tbs.issuer).value, Rdn.ParsedName(der.tbs.subject).value,
                               ParseTime(der.tbs.notBefore).value, ParseTime(der.tbs.notAfter).value),
                          der.tbs.extensions, {});
  }

  function Tighten(c: Certificate, maxPathLength: int): int {
    if Constrained(c) && c.basicConstraints.maxPathLen < maxPathLength
    then c.basicConstraints.maxPathLen
    else maxPathLength
  }

  /** Steps (l) and (m) of section 6.1.4 for the intermediates p[k], ..., p[1], in the
      direction from the root to the leaf p[0]. */
  predicate RfcRun(p: Chain, k: nat, maxPathLength: int)
    requires k < |p|
  {
    if k == 0 then true
    else if SelfIssued(p[k]) then RfcRun(p, k - 1, Tighten(p[k], maxPathLength))
    else maxPathLength > 0 && RfcRun(p, k - 1, Tighten(p[k], maxPathLength - 1))
  }

  /** The whole run on a path leaf = p[0], ..., root = last: max_path_length starts at the
      path length n (section 6.1.2(k)) and the root's own constraint is applied first. */
  predicate RfcAccepts(p: Chain)
    requires |p| >= 2
  {
    RfcRun(p, |p| - 2, Tighten(p[|p| - 1], |p| - 1))
  }

  /** The test the code makes, on every issuer of the path. */
  predicate PositionalAccepts(p: Chain) {
    forall j :: 1 <= j < |p| ==> PathLenAllows(p[j], j - 1)
  }

  /** The number of intermediates among p[1], ..., p[k] that are not self-issued. */
  function Counted(p: Chain, k: nat): (n: nat)
    requires k < |p|
    ensures n <= k
  {
    if k == 0 then 0 else Counted(p, k - 1) + if SelfIssued(p[k]) then 0 else 1
  }

  /** A constrained issuer p[j] has at most maxPathLen counted intermediates below it. */
  predicate CountAllows(p: Chain, j: nat)
    requires 1 <= j < |p|
  {
    Constrained(p[j]) ==> Counted(p, j - 1) <= p[j].basicConstraints.maxPathLen
  }

  /** The meaning of the working variable: it accepts exactly when every constrained issuer
      has at most that many counted intermediates below it. */
  lemma {:induction false} RfcRunMeaning(p: Chain, k: nat, maxPathLength: int)
    requires k < |p| && 0 <= maxPathLength && IssuersNatural(p)
    ensures RfcRun(p, k, maxPathLength) <==>
            Counted(p, k) <= maxPathLength && forall j :: 1 <= j <= k ==> CountAllows(p, j)
  {
    if k > 0 {
      var m := if SelfIssued(p[k]) then maxPathLength else maxPathLength - 1;
      if m >= 0 {
        RfcRunMeaning(p, k - 1, Tighten(p[k], m));
      }
      assert Counted(p, k) <= maxPathLength <==> Counted(p, k - 1) <= m;
      assert (forall j :: 1 <= j <= k ==> CountAllows(p, j))
             <==> CountAllows(p, k) && forall j :: 1 <= j <= k - 1 ==> CountAllows(p, j);
    }
  }

  lemma RfcMeaning(p: Chain)
    requires |p| >= 2 && IssuersNatural(p)
    ensures RfcAccepts(p) <==> forall j :: 1 <= j < |p| ==> CountAllows(p, j)
  {
    var top := |p| - 1;
    RfcRunMeaning(p, top - 1, Tighten(p[top], top));
    assert CountAllows(p, top) <==> Counted(p, top - 1) <= Tighten(p[top], top);
  }

  lemma {:induction false} CountedAll(p: Chain, k: nat)
    requires k < |p| && forall i :: 1 <= i <= k ==> !SelfIssued(p[i])
    ensures Counted(p, k) == k
  {
    if k > 0 {
      CountedAll(p, k - 1);
    }
  }

  /** What the code accepts, RFC 5280 accepts. */
  lemma PositionalImpliesRfc(p: Chain)
    requires |p| >= 2 && PositionalAccepts(p)
    ensures RfcAccepts(p)
  {
    assert forall j :: 1 <= j < |p| ==> PathLenAllows(p[j], j - 1);
    RfcMeaning(p);
    forall j | 1 <= j < |p|
      ensures CountAllows(p, j)
    {
      assert PathLenAllows(p[j], j - 1);
    }
  }

  /** Without self-issued intermediates the two tests agree. */
  lemma PositionalEqualsRfc(p: Chain)
    requires |p| >= 2 && IssuersNatural(p)
    requires forall i :: 1 <= i < |p| - 1 ==> !SelfIssued(p[i])
    ensures PositionalAccepts(p) <==> RfcAccepts(p)
  {
    RfcMeaning(p);
    forall k: nat | k < |p| - 1
      ensures Counted(p, k) == k
    {
      CountedAll(p, k);
    }
    if RfcAccepts(p) {
      forall j | 1 <= j < |p|
        ensures PathLenAllows(p[j], j - 1)
      {
        assert CountAllows(p, j);
      }
    } else {
      var j :| 1 <= j < |p| && !CountAllows(p, j);
      assert !PathLenAllows(p[j], j - 1);
    }
  }

  /** The number of self-issued certificates among p[1], ..., p[k]. */
  function SelfIssuedCount(p: Chain, k: nat): nat
    requires k < |p|
  {
    if k == 0 then 0 else SelfIssuedCount(p, k - 1) + if SelfIssued(p[k]) then 1 else 0
  }

  lemma {:induction false} CountsAddUp(p: Chain, k: nat)
    requires k < |p|
    ensures Counted(p, k) + SelfIssuedCount(p, k) == k
  {
    if k > 0 {
      CountsAddUp(p, k - 1);
    }
  }

  /** A constrained issuer with more intermediates below it than it allows. */
  predicate TooDeep(p: Chain, j: nat) {
    1 <= j < |p| && Constrained(p[j]) && p[j].basicConstraints.maxPathLen < j - 1
  }

  /** The code rejects what RFC 5280 accepts exactly on the paths where some constrained issuer has
      more intermediates below it than it allows, and below each such issuer the excess is made up
      of self-issued certificates. */
  lemma PositionalStricter(p: Chain)
    requires |p| >= 2 && IssuersNatural(p)
    ensures RfcAccepts(p) && !PositionalAccepts(p) <==>
            && (exists j: nat :: TooDeep(p, j))
            && (forall j: nat :: TooDeep(p, j) ==>
                  SelfIssuedCount(p, j - 1) >= j - 1 - p[j].basicConstraints.maxPathLen)
  {
    RfcMeaning(p);
    forall j: nat | 1 <= j < |p|
      ensures PathLenAllows(p[j], j - 1) <==> !TooDeep(p, j)
      ensures CountAllows(p, j) <==>
              (TooDeep(p, j) ==> SelfIssuedCount(p, j - 1) >= j - 1 - p[j].basicConstraints.maxPathLen)
    {
      CountsAddUp(p, j - 1);
    }
  }

  /** A certificate with key number n, signed by `signer`, under the given names. */
  function Sample(n: nat, signer: nat, subject: Bytes, bc: BasicConstraints): Certificate {
    var tbs := ForeignTbs([n % 256]);
    Certificate(ForeignCertificate([n % 256]), tbs, n, MLDSA65, Signed(PublicKey(MLDSA65, signer), tbs),
                EMPTY_NAME, [1], EMPTY_NAME, subject, 0, 0, PublicKey(MLDSA65, n), bc, true, 0, [],
                None, None, NO_SANS, [])
  }

  /** A root with pathLen 0 over one self-issued intermediate: every guard of the upper link but the
      path length passes, RFC 5280 accepts the path, and Verify finds no chain at all. */
  lemma SelfIssuedExample() returns (leaf: Certificate, inter: Certificate, root: Certificate, opts: VerifyOptions)
    ensures opts.roots == [root] && opts.intermediates == [inter]
    ensures NameChained(leaf, inter) && LinkOk(leaf, inter, 0, 0, opts)
    ensures NameChained(inter, root) && LinkOk(inter, root, 0, 0, opts)
    ensures CheckLink(inter, root, [leaf, inter, root], 0, opts) == Some(PathLenExceeded)
    ensures RfcAccepts([leaf, inter, root])
    ensures forall p :: !ValidPath(leaf, p, 0, opts)
  {
    leaf := Sample(3, 2, [3], BasicConstraints(false, 0, false));
    inter := Sample(2, 1, [1], BasicConstraints(true, 0, false));
    root := Sample(1, 1, [1], BasicConstraints(true, 0, true));
    opts := VerifyOptions([root], [inter], None, None);
    var q := [leaf, inter, root];
    assert RfcRun(q, 1, 0) == RfcRun(q, 0, 0);
    forall p ensures !ValidPath(leaf, p, 0, opts) {
      if ValidPath(leaf, p, 0, opts) {
        OnlyDirectPaths(leaf, root, opts, p);
      }
    }
  }

  /** Under the one root that allows no intermediates, a valid path is a certificate it signed. */
  lemma OnlyDirectPaths(c: Certificate, root: Certificate, opts: VerifyOptions, p: Chain)
    requires opts.roots == [root] && Constrained(root) && root.basicConstraints.maxPathLen == 0
    requires ValidPath(c, p, 0, opts)
    ensures SignedBy(c, root)
  {
    hide LinkOk, NameChained;
    var q := p[..|p| - 1];
    assert p[|p| - 1] == root && p[|p| - 2] == q[|p| - 2];
    LinkNeedsBoth(p[|p| - 2], root, |p| - 2, opts);
  }

  lemma LinkNeedsBoth(child: Certificate, issuer: Certificate, below: int, opts: VerifyOptions)
    requires LinkOk(child, issuer, below, 0, opts)
    ensures SignedBy(child, issuer) && PathLenAllows(issuer, below)
  {
    hide SignedBy;
  }

  /** Every path that Verify returns satisfies the RFC's path length processing. */
  lemma VerifiedPathsSatisfyRfc(c: Certificate, p: Chain, now: int, opts: VerifyOptions)
    requires ValidPath(c, p, now, opts)
    ensures PositionalAccepts(p) && RfcAccepts(p)
  {
    var q := p[..|p| - 1];
    forall j | 1 <= j < |p|
      ensures PathLenAllows(p[j], j - 1)
    {
      if j < |p| - 1 {
        assert q[j] == p[j] && q[j - 1] == p[j - 1];
        assert LinkOk(q[j - 1], q[j - 1 + 1], j - 1, now, opts);
      }
    }
    PositionalImpliesRfc(p);
  }
}
