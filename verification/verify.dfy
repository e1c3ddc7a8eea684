/** Path building and validation (verify.go): the depth-first search over the configured
    roots and intermediates, and the declarative definition of the paths it returns. */
module PathValidation {
  import opened Prelude
  import opened X509

  const MAX_CHAIN_DEPTH: nat := 6

  type Chain = seq<Certificate>

  /** The revocation hook is a function: it reads nothing the search changes. */
  datatype VerifyOptions = VerifyOptions(
    roots: seq<Certificate>,
    intermediates: seq<Certificate>,
    currentTime: Option<int>,
    checkRevocation: Option<(Certificate, Certificate) -> Option<Error>>)

  // ---------------------------------------------------------------- guards

  predicate ValidAt(c: Certificate, now: int) {
    c.notBefore <= now <= c.notAfter
  }

  function CheckValidity(c: Certificate, now: int): (e: Option<Error>)
    ensures e.None? <==> ValidAt(c, now)
    ensures e == Some(NotYetValid) <==> now < c.notBefore
    ensures e == Some(Expired) <==> c.notBefore <= now && c.notAfter < now
  {
    if now < c.notBefore then Some(NotYetValid)
    else if now > c.notAfter then Some(Expired)
    else None
  }

  predicate SignedBy(c: Certificate, parent: Certificate) {
    && c.signatureAlgorithm == parent.publicKey.algorithm
    && SignatureValid(parent.publicKey, c.rawTbs, c.signature)
  }

  function VerifySignatureFrom(c: Certificate, parent: Certificate): (e: Option<Error>)
    ensures e == if c.signatureAlgorithm == parent.publicKey.algorithm
                    && c.signature == Signed(parent.publicKey, c.rawTbs) then None else Some(BadSignature)
  {
    if c.signatureAlgorithm != parent.publicKey.algorithm then Some(BadSignature)
    else if SignatureValid(parent.publicKey, c.rawTbs, c.signature) then None
    else Some(BadSignature)
  }

  predicate NotRevoked(child: Certificate, issuer: Certificate, opts: VerifyOptions) {
    opts.checkRevocation.Some? ==> opts.checkRevocation.value(child, issuer).None?
  }

  predicate MayIssue(issuer: Certificate) {
    && issuer.basicConstraintsValid
    && issuer.basicConstraints.isCA
    && (issuer.keyUsage == 0 || issuer.keyUsage & KEY_CERT_SIGN != 0)
  }

  predicate PathLenAllows(issuer: Certificate, below: int) {
    issuer.basicConstraints.maxPathLenSet ==> below <= issuer.basicConstraints.maxPathLen
  }

  /** What an edge from `child` up to `issuer` has to satisfy, with `below`
      intermediates between the leaf and the issuer. */
  predicate LinkOk(child: Certificate, issuer: Certificate, below: int, now: int, opts: VerifyOptions) {
    && ValidAt(issuer, now)
    && MayIssue(issuer)
    && PathLenAllows(issuer, below)
    && SignedBy(child, issuer)
    && NotRevoked(child, issuer, opts)
  }

  /** The error of an edge: the conditions exclude each other, so that an error is that of the
      first requirement the edge misses, in the order window, CA, key usage, path length,
      signature, revocation. */
  predicate RejectedFor(child: Certificate, issuer: Certificate, below: int, e: Error, now: int, opts: VerifyOptions) {
    var isCA := issuer.basicConstraintsValid && issuer.basicConstraints.isCA;
    var maySign := issuer.keyUsage == 0 || issuer.keyUsage & 0x20 != 0;
    var shallow := issuer.basicConstraints.maxPathLenSet ==> below <= issuer.basicConstraints.maxPathLen;
    || (now < issuer.notBefore && e == NotYetValid)
    || (issuer.notBefore <= now && issuer.notAfter < now && e == Expired)
    || (issuer.notBefore <= now <= issuer.notAfter &&
        (|| (!isCA && e == NotACA)
         || (isCA && !maySign && e == KeyUsageNotPermitted)
         || (isCA && maySign && !shallow && e == PathLenExceeded)
         || (isCA && maySign && shallow && !SignedBy(child, issuer) && e == BadSignature)
         || (isCA && maySign && shallow && SignedBy(child, issuer) && opts.checkRevocation.Some?
             && opts.checkRevocation.value(child, issuer) == Some(e))))
  }

  function CheckLink(child: Certificate, issuer: Certificate, candidate: Chain, now: int, opts: VerifyOptions)
    : (e: Option<Error>)
    ensures e.None? <==> LinkOk(child, issuer, |candidate| - 2, now, opts)
    ensures e.Some? ==> RejectedFor(child, issuer, |candidate| - 2, e.value, now, opts)
  {
    var validity := CheckValidity(issuer, now);
    if validity.Some? then validity
    else if !issuer.basicConstraintsValid || !issuer.basicConstraints.isCA then Some(NotACA)
    else if issuer.keyUsage != 0 && issuer.keyUsage & KEY_CERT_SIGN == 0 then Some(KeyUsageNotPermitted)
    else if issuer.basicConstraints.maxPathLenSet && |candidate| - 2 > issuer.basicConstraints.maxPathLen
    then Some(PathLenExceeded)
    else
      var signature := VerifySignatureFrom(child, issuer);
      if signature.Some? then signature
      else if opts.checkRevocation.Some? then opts.checkRevocation.value(child, issuer)
      else None
  }

  // ---------------------------------------------------------------- the search as a function

  /** What a part of the search adds: the chains it appends, the first error it notes,
      and the number of calls of `walk` it makes. */
  datatype Outcome = Outcome(chains: seq<Chain>, firstErr: Option<Error>, calls: nat)

  const NOTHING := Outcome([], None, 0)

  function FirstOf(a: Option<Error>, b: Option<Error>): Option<Error> {
    if a.Some? then a else b
  }

  function Then(a: Outcome, b: Outcome): Outcome {
    Outcome(a.chains + b.chains, FirstOf(a.firstErr, b.firstErr), a.calls + b.calls)
  }

  predicate NameChained(child: Certificate, issuer: Certificate) {
    child.rawIssuer == issuer.rawSubject
  }

  predicate InChain(chain: Chain, c: Certificate) {
    exists i :: 0 <= i < |chain| && chain[i].raw == c.raw
  }

  function TryRoot(chain: Chain, root: Certificate, now: int, opts: VerifyOptions): Outcome
    requires |chain| > 0
  {
    var leaf := chain[|chain| - 1];
    if !NameChained(leaf, root) then NOTHING
    else
      var e := CheckLink(leaf, root, chain + [root], now, opts);
      if e.Some? then Outcome([], e, 0) else Outcome([chain + [root]], None, 0)
  }

  function TryRoots(chain: Chain, n: nat, now: int, opts: VerifyOptions): Outcome
    requires |chain| > 0 && n <= |opts.roots|
  {
    if n == 0 then NOTHING
    else Then(TryRoots(chain, n - 1, now, opts), TryRoot(chain, opts.roots[n - 1], now, opts))
  }

  function TryIntermediate(chain: Chain, inter: Certificate, now: int, opts: VerifyOptions): Outcome
    requires 0 < |chain| < MAX_CHAIN_DEPTH
    decreases MAX_CHAIN_DEPTH - |chain|, 0
  {
    var leaf := chain[|chain| - 1];
    if !NameChained(leaf, inter) || InChain(chain, inter) then NOTHING
    else
      var e := CheckLink(leaf, inter, chain + [inter], now, opts);
      if e.Some? then Outcome([], e, 0) else Search(chain + [inter], now, opts)
  }

  function TryIntermediates(chain: Chain, n: nat, now: int, opts: VerifyOptions): Outcome
    requires 0 < |chain| < MAX_CHAIN_DEPTH && n <= |opts.intermediates|
    decreases MAX_CHAIN_DEPTH - |chain|, 1, n
  {
    if n == 0 then NOTHING
    else Then(TryIntermediates(chain, n - 1, now, opts),
              TryIntermediate(chain, opts.intermediates[n - 1], now, opts))
  }

  function Search(chain: Chain, now: int, opts: VerifyOptions): Outcome
    requires 0 < |chain| <= MAX_CHAIN_DEPTH
    decreases MAX_CHAIN_DEPTH - |chain|, 2
  {
    var direct := Then(Outcome([], None, 1), TryRoots(chain, |opts.roots|, now, opts));
    if |chain| >= MAX_CHAIN_DEPTH then direct
    else Then(direct, TryIntermediates(chain, |opts.intermediates|, now, opts))
  }

  // ---------------------------------------------------------------- the search as the source runs it

  /** The variables `chains` and `firstErr` that the closure `walk` captures. */
  class PathSearch {
    var chains: seq<Chain>
    var firstErr: Option<Error>
    ghost var calls: nat

    ghost function State(): Outcome
      reads this
    {
      Outcome(chains, firstErr, calls)
    }

    constructor ()
      ensures State() == NOTHING
    {
      chains, firstErr, calls := [], None, 0;
    }

    method Note(err: Option<Error>)
      modifies this`firstErr
      ensures firstErr == FirstOf(old(firstErr), err)
    {
      if firstErr.None? && err.Some? {
        firstErr := err;
      }
    }

    method Walk(chain: Chain, now: int, opts: VerifyOptions)
      requires 0 < |chain| <= MAX_CHAIN_DEPTH
      modifies this
      ensures State() == Then(old(State()), Search(chain, now, opts))
      decreases MAX_CHAIN_DEPTH - |chain|
    {
      hide CheckLink, LinkOk, RejectedFor, InChain;
      ghost var start := State();
      calls := calls + 1;
      var leaf := chain[|chain| - 1];

      for i := 0 to |opts.roots|
        invariant State() == Then(start, Then(Outcome([], None, 1), TryRoots(chain, i, now, opts)))
      {
        var root := opts.roots[i];
        if leaf.rawIssuer != root.rawSubject {
          continue;
        }
        var candidate := chain + [root];
        var err := CheckLink(leaf, root, candidate, now, opts);
        if err.Some? {
          Note(err);
          continue;
        }
        chains := chains + [candidate];
      }

      ghost var direct := Then(Outcome([], None, 1), TryRoots(chain, |opts.roots|, now, opts));
      if |chain| >= MAX_CHAIN_DEPTH {
        return;
      }
      for j := 0 to |opts.intermediates|
        invariant State() == Then(start, Then(direct, TryIntermediates(chain, j, now, opts)))
      {
        ghost var before, done := State(), TryIntermediates(chain, j, now, opts);
        ghost var step := TryIntermediate(chain, opts.intermediates[j], now, opts);
        ThenAssociates(start, direct, done, step);
        var inter := opts.intermediates[j];
        if leaf.rawIssuer != inter.rawSubject {
          continue;
        }
        var seen := Contains(chain, inter);
        if seen {
          continue;
        }
        var candidate := chain + [inter];
        var err := CheckLink(leaf, inter, candidate, now, opts);
        if err.Some? {
          Note(err);
          continue;
        }
        Walk(candidate, now, opts);
      }
    }
  }

  lemma ThenAssociates(a: Outcome, b: Outcome, c: Outcome, d: Outcome)
    ensures Then(Then(a, Then(b, c)), d) == Then(a, Then(b, Then(c, d)))
  {
    assert a.chains + (b.chains + c.chains) + d.chains == a.chains + (b.chains + (c.chains + d.chains));
  }

  /** Pointer identity implies equal Raw, so on values the Raw comparison is the whole test. */
  method Contains(chain: Chain, c: Certificate) returns (found: bool)
    ensures found <==> InChain(chain, c)
  {
    for i := 0 to |chain|
      invariant forall k :: 0 <= k < i ==> chain[k].raw != c.raw
    {
      if chain[i] == c || chain[i].raw == c.raw {
        return true;
      }
    }
    return false;
  }

  // ---------------------------------------------------------------- valid paths

  predicate DistinctRaw(chain: Chain) {
    forall i, j :: 0 <= i < j < |chain| ==> chain[i].raw != chain[j].raw
  }

  predicate LinksOk(p: Chain, now: int, opts: VerifyOptions) {
    forall i :: 0 <= i < |p| - 1 ==> NameChained(p[i], p[i + 1]) && LinkOk(p[i], p[i + 1], i, now, opts)
  }

  /** A chain the search may extend: every member above the leaf is a configured intermediate. */
  predicate ValidPrefix(c: Certificate, q: Chain, now: int, opts: VerifyOptions) {
    && 0 < |q| <= 6
    && q[0] == c
    && (forall i :: 0 < i < |q| ==> q[i] in opts.intermediates)
    && DistinctRaw(q)
    && LinksOk(q, now, opts)
  }

  /** A validated path from c to a configured root. */
  predicate ValidPath(c: Certificate, p: Chain, now: int, opts: VerifyOptions) {
    && 2 <= |p|
    && ValidPrefix(c, p[..|p| - 1], now, opts)
    && p[|p| - 1] in opts.roots
    && NameChained(p[|p| - 2], p[|p| - 1])
    && LinkOk(p[|p| - 2], p[|p| - 1], |p| - 2, now, opts)
  }

  lemma {:induction false} RootsComplete(chain: Chain, n: nat, now: int, opts: VerifyOptions, p: Chain)
    requires |chain| > 0 && n <= |opts.roots|
    ensures p in TryRoots(chain, n, now, opts).chains <==>
            exists k :: 0 <= k < n && p == chain + [opts.roots[k]]
                        && NameChained(chain[|chain| - 1], opts.roots[k])
                        && LinkOk(chain[|chain| - 1], opts.roots[k], |chain| - 1, now, opts)
  {
    if n > 0 {
      RootsComplete(chain, n - 1, now, opts, p);
      assert |chain + [opts.roots[n - 1]]| - 2 == |chain| - 1;
    }
  }

  lemma {:induction false} IntermediatesSplit(chain: Chain, n: nat, now: int, opts: VerifyOptions, p: Chain)
    requires 0 < |chain| < MAX_CHAIN_DEPTH && n <= |opts.intermediates|
    ensures p in TryIntermediates(chain, n, now, opts).chains <==>
            exists k :: 0 <= k < n && p in TryIntermediate(chain, opts.intermediates[k], now, opts).chains
  {
    hide TryIntermediate;
    if n > 0 {
      IntermediatesSplit(chain, n - 1, now, opts, p);
    }
  }

  lemma PrefixGrows(c: Certificate, chain: Chain, inter: Certificate, now: int, opts: VerifyOptions)
    requires ValidPrefix(c, chain, now, opts) && |chain| < MAX_CHAIN_DEPTH
    requires inter in opts.intermediates
    requires NameChained(chain[|chain| - 1], inter) && !InChain(chain, inter)
    requires LinkOk(chain[|chain| - 1], inter, |chain| - 1, now, opts)
    ensures ValidPrefix(c, chain + [inter], now, opts)
  {
    var q := chain + [inter];
    forall i | 0 <= i < |q| - 1
      ensures NameChained(q[i], q[i + 1]) && LinkOk(q[i], q[i + 1], i, now, opts)
    {
      if i < |chain| - 1 {
        assert q[i] == chain[i] && q[i + 1] == chain[i + 1];
      }
    }
  }

  /** Restricting a valid prefix to its first members keeps it valid. */
  lemma PrefixShrinks(c: Certificate, q: Chain, m: nat, now: int, opts: VerifyOptions)
    requires ValidPrefix(c, q, now, opts) && 0 < m <= |q|
    ensures ValidPrefix(c, q[..m], now, opts)
  {
    var r := q[..m];
    forall i | 0 <= i < |r| - 1
      ensures NameChained(r[i], r[i + 1]) && LinkOk(r[i], r[i + 1], i, now, opts)
    {
      assert r[i] == q[i] && r[i + 1] == q[i + 1];
    }
  }

  lemma {:induction false} SearchSound(c: Certificate, chain: Chain, now: int, opts: VerifyOptions, p: Chain)
    requires ValidPrefix(c, chain, now, opts)
    requires p in Search(chain, now, opts).chains
    ensures ValidPath(c, p, now, opts) && |chain| < |p| && chain == p[..|chain|]
    decreases MAX_CHAIN_DEPTH - |chain|
  {
    hide CheckLink, RejectedFor;
    if p in TryRoots(chain, |opts.roots|, now, opts).chains {
      RootsComplete(chain, |opts.roots|, now, opts, p);
      assert p[..|p| - 1] == chain;
    } else {
      IntermediatesSplit(chain, |opts.intermediates|, now, opts, p);
      var k :| 0 <= k < |opts.intermediates|
               && p in TryIntermediate(chain, opts.intermediates[k], now, opts).chains;
      var q := chain + [opts.intermediates[k]];
      assert |q| - 2 == |chain| - 1;
      PrefixGrows(c, chain, opts.intermediates[k], now, opts);
      SearchSound(c, q, now, opts, p);
      assert chain == q[..|chain|] == p[..|chain|];
    }
  }

  lemma {:induction false} SearchComplete(c: Certificate, chain: Chain, now: int, opts: VerifyOptions, p: Chain)
    requires ValidPrefix(c, chain, now, opts)
    requires ValidPath(c, p, now, opts) && |chain| < |p| && chain == p[..|chain|]
    ensures p in Search(chain, now, opts).chains
    decreases MAX_CHAIN_DEPTH - |chain|
  {
    hide CheckLink;
    var body := p[..|p| - 1];
    var leaf := chain[|chain| - 1];
    assert leaf == p[|chain| - 1];
    if |p| == |chain| + 1 {
      var k :| 0 <= k < |opts.roots| && opts.roots[k] == p[|p| - 1];
      assert p == chain + [opts.roots[k]];
      RootsComplete(chain, |opts.roots|, now, opts, p);
    } else {
      var inter := p[|chain|];
      assert inter == body[|chain|] && leaf == body[|chain| - 1];
      var k :| 0 <= k < |opts.intermediates| && opts.intermediates[k] == inter;
      var q := chain + [inter];
      assert q == p[..|chain| + 1] == body[..|chain| + 1];
      assert NameChained(leaf, inter) && LinkOk(leaf, inter, |chain| - 1, now, opts);
      assert !InChain(chain, inter) by {
        forall i | 0 <= i < |chain| ensures chain[i].raw != inter.raw {
          assert chain[i] == body[i];
        }
      }
      PrefixShrinks(c, body, |chain| + 1, now, opts);
      SearchComplete(c, q, now, opts, p);
      assert p in TryIntermediate(chain, opts.intermediates[k], now, opts).chains;
      IntermediatesSplit(chain, |opts.intermediates|, now, opts, p);
    }
  }

  /** The search returns exactly the valid paths. */
  lemma SearchExact(c: Certificate, now: int, opts: VerifyOptions, p: Chain)
    ensures p in Search([c], now, opts).chains <==> ValidPath(c, p, now, opts)
  {
    assert ValidPrefix(c, [c], now, opts);
    if p in Search([c], now, opts).chains {
      SearchSound(c, [c], now, opts, p);
    }
    if ValidPath(c, p, now, opts) {
      assert p[..1] == [c] by { assert p[0] == p[..|p| - 1][0]; }
      SearchComplete(c, [c], now, opts, p);
    }
  }

  // ---------------------------------------------------------------- errors

  /** A position of the search tree: the numbers, in roots followed by intermediates, of the
      issuers tried one above the other. */
  type Position = seq<nat>

  function Issuers(opts: VerifyOptions): seq<Certificate> {
    opts.roots + opts.intermediates
  }

  predicate IsPosition(pos: Position, opts: VerifyOptions) {
    && (forall i :: 0 <= i < |pos| ==> pos[i] < |Issuers(opts)|)
    && (forall i :: 0 <= i < |pos| - 1 ==> |opts.roots| <= pos[i])
  }

  /** The chain from `c` through the issuers at a position. */
  function ChainAt(c: Certificate, pos: Position, opts: VerifyOptions): (chain: Chain)
    requires forall i :: 0 <= i < |pos| ==> pos[i] < |Issuers(opts)|
    ensures |chain| == |pos| + 1
  {
    [c] + seq(|pos|, i requires 0 <= i < |pos| => Issuers(opts)[pos[i]])
  }

  /** The search reaches the chain below the last issuer of `pos`, tries to extend it with that
      issuer, and rejects the edge for `e`. */
  predicate FailsAt(c: Certificate, pos: Position, e: Error, now: int, opts: VerifyOptions) {
    && 0 < |pos|
    && IsPosition(pos, opts)
    && var q, x := ChainAt(c, pos[..|pos| - 1], opts), Issuers(opts)[pos[|pos| - 1]];
    && ValidPrefix(c, q, now, opts)
    && (|opts.roots| <= pos[|pos| - 1] ==> |q| < MAX_CHAIN_DEPTH && !InChain(q, x))
    && NameChained(q[|q| - 1], x)
    && RejectedFor(q[|q| - 1], x, |q| - 1, e, now, opts)
  }

  /** The search tries `a` before `b`: an issuer before those above it, and else in list order. */
  predicate TriedBefore(a: Position, b: Position) {
    a < b || exists i :: 0 <= i < |a| && i < |b| && a[..i] == b[..i] && a[i] < b[i]
  }

  /** Of the edges at `base` and above, the search rejects the one at `pos` first, for `e`. */
  ghost predicate FirstFailure(c: Certificate, base: Position, pos: Position, e: Error,
                               now: int, opts: VerifyOptions) {
    && base <= pos
    && FailsAt(c, pos, e, now, opts)
    && forall other, x :: base <= other && other != pos && FailsAt(c, other, x, now, opts) ==> TriedBefore(pos, other)
  }

  ghost predicate NoFailure(c: Certificate, base: Position, now: int, opts: VerifyOptions) {
    forall pos, x :: base <= pos ==> !FailsAt(c, pos, x, now, opts)
  }

  /** `e` is what the edges at `base` and above contribute to the search's first error. */
  ghost predicate ErrorIsFirst(c: Certificate, base: Position, e: Option<Error>, now: int, opts: VerifyOptions) {
    if e.None? then NoFailure(c, base, now, opts)
    else exists pos :: FirstFailure(c, base, pos, e.value, now, opts)
  }

  lemma {:induction false} RootErrors(chain: Chain, n: nat, now: int, opts: VerifyOptions)
    requires |chain| > 0 && n <= |opts.roots|
    ensures var e := TryRoots(chain, n, now, opts).firstErr;
            if e.None? then forall k :: 0 <= k < n ==> TryRoot(chain, opts.roots[k], now, opts).firstErr.None?
            else exists k :: 0 <= k < n && TryRoot(chain, opts.roots[k], now, opts).firstErr == e
                             && forall m :: 0 <= m < k ==> TryRoot(chain, opts.roots[m], now, opts).firstErr.None?
  {
    if n > 0 {
      RootErrors(chain, n - 1, now, opts);
    }
  }

  lemma {:induction false} IntermediateErrors(chain: Chain, n: nat, now: int, opts: VerifyOptions)
    requires 0 < |chain| < MAX_CHAIN_DEPTH && n <= |opts.intermediates|
    ensures var e, inters := TryIntermediates(chain, n, now, opts).firstErr, opts.intermediates;
            if e.None? then forall k :: 0 <= k < n ==> TryIntermediate(chain, inters[k], now, opts).firstErr.None?
            else exists k :: 0 <= k < n && TryIntermediate(chain, inters[k], now, opts).firstErr == e
                             && forall m :: 0 <= m < k ==> TryIntermediate(chain, inters[m], now, opts).firstErr.None?
  {
    if n > 0 {
      IntermediateErrors(chain, n - 1, now, opts);
    }
  }

  /** A position whose issuers are all intermediates and have all passed. */
  predicate ReachedAt(c: Certificate, base: Position, now: int, opts: VerifyOptions) {
    && (forall i :: 0 <= i < |base| ==> |opts.roots| <= base[i] < |Issuers(opts)|)
    && ValidPrefix(c, ChainAt(c, base, opts), now, opts)
  }

  lemma ChainGrows(c: Certificate, base: Position, k: nat, opts: VerifyOptions)
    requires (forall i :: 0 <= i < |base| ==> base[i] < |Issuers(opts)|) && k < |Issuers(opts)|
    ensures ChainAt(c, base + [k], opts) == ChainAt(c, base, opts) + [Issuers(opts)[k]]
    ensures (base + [k])[..|base|] == base
  {
  }

  /** An edge that passed is not rejected. */
  lemma ReachedPasses(c: Certificate, base: Position, now: int, opts: VerifyOptions)
    requires ReachedAt(c, base, now, opts)
    ensures forall x :: !FailsAt(c, base, x, now, opts)
  {
    if |base| > 0 {
      var q := ChainAt(c, base, opts);
      ChainGrows(c, base[..|base| - 1], base[|base| - 1], opts);
      assert base[..|base| - 1] + [base[|base| - 1]] == base;
      assert LinkOk(q[|base| - 1], q[|base| - 1 + 1], |base| - 1, now, opts);
    }
  }

  /** The edge above a reached chain. */
  lemma EdgeFails(c: Certificate, base: Position, k: nat, x: Error, now: int, opts: VerifyOptions)
    requires ReachedAt(c, base, now, opts) && k < |Issuers(opts)|
    ensures var chain, issuer := ChainAt(c, base, opts), Issuers(opts)[k];
            FailsAt(c, base + [k], x, now, opts) <==>
            && (|opts.roots| <= k ==> |chain| < MAX_CHAIN_DEPTH && !InChain(chain, issuer))
            && NameChained(chain[|chain| - 1], issuer)
            && CheckLink(chain[|chain| - 1], issuer, chain + [issuer], now, opts) == Some(x)
  {
    hide ValidPrefix, LinkOk, RejectedFor, CheckLink, InChain;
    ChainGrows(c, base, k, opts);
    var chain, issuer := ChainAt(c, base, opts), Issuers(opts)[k];
    assert |chain + [issuer]| - 2 == |chain| - 1;
    RejectionsAgree(chain[|chain| - 1], issuer, chain + [issuer], x, now, opts);
  }

  /** There is no other error than the one the guards give. */
  lemma RejectionsAgree(child: Certificate, issuer: Certificate, candidate: Chain, x: Error, now: int,
                        opts: VerifyOptions)
    ensures CheckLink(child, issuer, candidate, now, opts) == Some(x) <==>
            RejectedFor(child, issuer, |candidate| - 2, x, now, opts)
  {
    hide SignedBy;
  }

  /** Everything a rejected edge lies above was reached. */
  lemma FailureNeedsPrefix(c: Certificate, base: Position, k: nat, pos: Position, x: Error,
                           now: int, opts: VerifyOptions)
    requires base + [k] < pos && FailsAt(c, pos, x, now, opts) && k < |Issuers(opts)|
    ensures |opts.roots| <= k && ReachedAt(c, base + [k], now, opts)
  {
    hide LinkOk, RejectedFor, LinksOk, DistinctRaw;
    var low := pos[..|pos| - 1];
    assert low[..|base| + 1] == base + [k];
    assert pos[|base|] == k;
    PrefixShrinks(c, ChainAt(c, low, opts), |base| + 2, now, opts);
    assert ChainAt(c, low, opts)[..|base| + 2] == ChainAt(c, base + [k], opts);
    forall i | 0 <= i < |base| + 1
      ensures |opts.roots| <= (base + [k])[i]
    {
      assert pos[i] == (base + [k])[i];
    }
  }

  /** What the search notes first while it tries the k-th issuer above `chain`. */
  function IssuerError(chain: Chain, k: nat, now: int, opts: VerifyOptions): Option<Error>
    requires 0 < |chain| <= MAX_CHAIN_DEPTH && k < |Issuers(opts)|
  {
    if k < |opts.roots| then TryRoot(chain, Issuers(opts)[k], now, opts).firstErr
    else if |chain| < MAX_CHAIN_DEPTH then TryIntermediate(chain, Issuers(opts)[k], now, opts).firstErr
    else None
  }

  lemma FirstIssuerError(chain: Chain, now: int, opts: VerifyOptions)
    requires 0 < |chain| <= MAX_CHAIN_DEPTH
    ensures var e := Search(chain, now, opts).firstErr;
            if e.None? then forall k :: 0 <= k < |Issuers(opts)| ==> IssuerError(chain, k, now, opts).None?
            else exists k :: 0 <= k < |Issuers(opts)| && IssuerError(chain, k, now, opts) == e
                             && forall m :: 0 <= m < k ==> IssuerError(chain, m, now, opts).None?
  {
    hide CheckLink, TryRoot, TryIntermediate;
    var e, r := Search(chain, now, opts).firstErr, |opts.roots|;
    RootErrors(chain, r, now, opts);
    if TryRoots(chain, r, now, opts).firstErr.Some? {
      var k :| 0 <= k < r && TryRoot(chain, opts.roots[k], now, opts).firstErr == e
               && forall m :: 0 <= m < k ==> TryRoot(chain, opts.roots[m], now, opts).firstErr.None?;
      assert IssuerError(chain, k, now, opts) == e;
    } else if |chain| < MAX_CHAIN_DEPTH {
      IntermediateErrors(chain, |opts.intermediates|, now, opts);
      if e.Some? {
        var k :| 0 <= k < |opts.intermediates| && TryIntermediate(chain, opts.intermediates[k], now, opts).firstErr == e
                 && forall m :: 0 <= m < k ==> TryIntermediate(chain, opts.intermediates[m], now, opts).firstErr.None?;
        assert IssuerError(chain, r + k, now, opts) == e;
      }
    }
  }

  lemma {:induction false} IssuerErrorIsFirst(c: Certificate, base: Position, k: nat, now: int, opts: VerifyOptions)
    requires ReachedAt(c, base, now, opts) && k < |Issuers(opts)|
    ensures ErrorIsFirst(c, base + [k], IssuerError(ChainAt(c, base, opts), k, now, opts), now, opts)
    decreases MAX_CHAIN_DEPTH - |base|, 0
  {
    hide CheckLink, LinkOk, FailsAt, Search;
    var chain, issuer, next := ChainAt(c, base, opts), Issuers(opts)[k], base + [k];
    var leaf := chain[|chain| - 1];
    ChainGrows(c, base, k, opts);
    assert |chain + [issuer]| - 2 == |chain| - 1;
    var tried := |opts.roots| <= k ==> |chain| < MAX_CHAIN_DEPTH && !InChain(chain, issuer);
    var e := CheckLink(leaf, issuer, chain + [issuer], now, opts);
    forall x
      ensures FailsAt(c, next, x, now, opts) <==> tried && NameChained(leaf, issuer) && e == Some(x)
    {
      EdgeFails(c, base, k, x, now, opts);
    }
    if tried && NameChained(leaf, issuer) && e.Some? {
      assert FirstFailure(c, next, next, e.value, now, opts);
    } else if tried && NameChained(leaf, issuer) && |opts.roots| <= k {
      PrefixGrows(c, chain, issuer, now, opts);
      SearchErrorIsFirst(c, next, now, opts);
    } else {
      forall pos, x | next <= pos
        ensures !FailsAt(c, pos, x, now, opts)
      {
        if pos != next && FailsAt(c, pos, x, now, opts) {
          FailureNeedsPrefix(c, base, k, pos, x, now, opts);
          ReachedIsChained(c, base, k, now, opts);
        }
      }
    }
  }

  lemma ReachedIsChained(c: Certificate, base: Position, k: nat, now: int, opts: VerifyOptions)
    requires ReachedAt(c, base, now, opts) && k < |Issuers(opts)| && ReachedAt(c, base + [k], now, opts)
    ensures var chain, issuer := ChainAt(c, base, opts), Issuers(opts)[k];
            |chain| < MAX_CHAIN_DEPTH && NameChained(chain[|chain| - 1], issuer) && !InChain(chain, issuer)
  {
    hide LinkOk;
    var q, chain := ChainAt(c, base + [k], opts), ChainAt(c, base, opts);
    ChainGrows(c, base, k, opts);
    assert NameChained(q[|base|], q[|base| + 1]);
    forall i | 0 <= i < |chain| ensures chain[i].raw != Issuers(opts)[k].raw {
      assert q[i].raw != q[|chain|].raw;
    }
  }

  /** The error that a reached chain contributes is that of its first rejected edge. */
  lemma {:induction false} SearchErrorIsFirst(c: Certificate, base: Position, now: int, opts: VerifyOptions)
    requires ReachedAt(c, base, now, opts)
    ensures ErrorIsFirst(c, base, Search(ChainAt(c, base, opts), now, opts).firstErr, now, opts)
    decreases MAX_CHAIN_DEPTH - |base|, 1
  {
    hide Search, FailsAt, IssuerError, CheckLink;
    var chain := ChainAt(c, base, opts);
    var e := Search(chain, now, opts).firstErr;
    FirstIssuerError(chain, now, opts);
    ReachedPasses(c, base, now, opts);
    forall k: nat | k < |Issuers(opts)|
      ensures ErrorIsFirst(c, base + [k], IssuerError(chain, k, now, opts), now, opts)
    {
      IssuerErrorIsFirst(c, base, k, now, opts);
    }
    if e.None? {
      forall pos, x | base <= pos
        ensures !FailsAt(c, pos, x, now, opts)
      {
        if FailsAt(c, pos, x, now, opts) {
          var k := NextIssuer(c, base, pos, x, now, opts);
          assert false;
        }
      }
    } else {
      var k :| 0 <= k < |Issuers(opts)| && IssuerError(chain, k, now, opts) == e
               && forall m :: 0 <= m < k ==> IssuerError(chain, m, now, opts).None?;
      var pos :| FirstFailure(c, base + [k], pos, e.value, now, opts);
      forall other, x | base <= other && other != pos && FailsAt(c, other, x, now, opts)
        ensures TriedBefore(pos, other)
      {
        var m := NextIssuer(c, base, other, x, now, opts);
        if m < k {
          assert false;
        } else if m > k {
          assert pos[..|base|] == base == other[..|base|] && pos[|base|] == k;
        }
      }
      assert FirstFailure(c, base, pos, e.value, now, opts);
    }
  }

  lemma NextIssuer(c: Certificate, base: Position, pos: Position, x: Error, now: int, opts: VerifyOptions)
    returns (k: nat)
    requires ReachedAt(c, base, now, opts) && base <= pos && FailsAt(c, pos, x, now, opts)
    ensures k < |Issuers(opts)| && base + [k] <= pos && |base| < |pos| && pos[|base|] == k
  {
    hide ValidPrefix, RejectedFor;
    ReachedPasses(c, base, now, opts);
    assert pos != base;
    k := pos[|base|];
    assert pos[..|base| + 1] == base + [k];
  }

  // ---------------------------------------------------------------- the order of the chains

  /** The search completes a path at `pos`: its last issuer is a root. */
  predicate SucceedsAt(c: Certificate, pos: Position, now: int, opts: VerifyOptions) {
    && 0 < |pos|
    && IsPosition(pos, opts)
    && pos[|pos| - 1] < |opts.roots|
    && ValidPath(c, ChainAt(c, pos, opts), now, opts)
  }

  /** `chains` are the paths completed at the positions above `base` whose next issuer is one of
      the first n, each position once and in the order of the search; `ps` are the positions. */
  ghost predicate InSearchOrder(c: Certificate, base: Position, n: nat, ps: seq<Position>, chains: seq<Chain>,
                                now: int, opts: VerifyOptions) {
    && |ps| == |chains|
    && (forall i :: 0 <= i < |ps| ==> base < ps[i] && ps[i][|base|] < n)
    && (forall i :: 0 <= i < |ps| ==> SucceedsAt(c, ps[i], now, opts) && chains[i] == ChainAt(c, ps[i], opts))
    && (forall i, j :: 0 <= i < j < |ps| ==> TriedBefore(ps[i], ps[j]))
    && (forall pos: Position :: base < pos && pos[|base|] < n && SucceedsAt(c, pos, now, opts) ==> pos in ps)
  }

  function IssuerChains(chain: Chain, k: nat, now: int, opts: VerifyOptions): seq<Chain>
    requires 0 < |chain| <= MAX_CHAIN_DEPTH && k < |Issuers(opts)|
  {
    if k < |opts.roots| then TryRoot(chain, Issuers(opts)[k], now, opts).chains
    else if |chain| < MAX_CHAIN_DEPTH then TryIntermediate(chain, Issuers(opts)[k], now, opts).chains
    else []
  }

  function ChainsUpTo(chain: Chain, n: nat, now: int, opts: VerifyOptions): seq<Chain>
    requires 0 < |chain| <= MAX_CHAIN_DEPTH && n <= |Issuers(opts)|
  {
    if n == 0 then [] else ChainsUpTo(chain, n - 1, now, opts) + IssuerChains(chain, n - 1, now, opts)
  }

  lemma IssuerIs(k: nat, opts: VerifyOptions)
    requires k < |Issuers(opts)|
    ensures Issuers(opts)[k]
            == if k < |opts.roots| then opts.roots[k] else opts.intermediates[k - |opts.roots|]
  {
  }

  lemma NoChains()
    ensures forall a: seq<Chain> :: a + [] == a
  {
  }

  lemma {:induction false} ChainsSplit(chain: Chain, n: nat, now: int, opts: VerifyOptions)
    requires 0 < |chain| <= MAX_CHAIN_DEPTH && n <= |Issuers(opts)|
    ensures var r := |opts.roots|;
            ChainsUpTo(chain, n, now, opts) ==
            if n <= r then TryRoots(chain, n, now, opts).chains
            else if |chain| < MAX_CHAIN_DEPTH
            then TryRoots(chain, r, now, opts).chains + TryIntermediates(chain, n - r, now, opts).chains
            else TryRoots(chain, r, now, opts).chains
  {
    hide TryRoot, TryIntermediate, CheckLink;
    if n > 0 {
      ChainsSplit(chain, n - 1, now, opts);
      IssuerIs(n - 1, opts);
      NoChains();
    }
  }

  lemma SearchChains(chain: Chain, now: int, opts: VerifyOptions)
    requires 0 < |chain| <= MAX_CHAIN_DEPTH
    ensures Search(chain, now, opts).chains == ChainsUpTo(chain, |Issuers(opts)|, now, opts)
  {
    hide TryRoot, TryIntermediate, IssuerChains;
    ChainsSplit(chain, |Issuers(opts)|, now, opts);
  }

  lemma IssuerChainsAre(chain: Chain, k: nat, now: int, opts: VerifyOptions)
    requires 0 < |chain| <= MAX_CHAIN_DEPTH && k < |Issuers(opts)|
    ensures var leaf, issuer := chain[|chain| - 1], Issuers(opts)[k];
            var good := NameChained(leaf, issuer) && LinkOk(leaf, issuer, |chain| - 1, now, opts);
            IssuerChains(chain, k, now, opts) ==
            if good && k < |opts.roots| then [chain + [issuer]]
            else if good && |opts.roots| <= k && |chain| < MAX_CHAIN_DEPTH && !InChain(chain, issuer)
            then Search(chain + [issuer], now, opts).chains
            else []
  {
    hide CheckLink, LinkOk, Search, NameChained, InChain;
    assert |chain + [Issuers(opts)[k]]| - 2 == |chain| - 1;
  }

  /** The positions at which the search completes paths through the k-th issuer above `base`. */
  lemma {:induction false} IssuerInOrder(c: Certificate, base: Position, k: nat, now: int, opts: VerifyOptions)
    returns (ps: seq<Position>)
    requires ReachedAt(c, base, now, opts) && k < |Issuers(opts)|
    ensures var chains := IssuerChains(ChainAt(c, base, opts), k, now, opts);
            && |ps| == |chains|
            && (forall i :: 0 <= i < |ps| ==> base + [k] <= ps[i])
            && (forall i :: 0 <= i < |ps| ==> SucceedsAt(c, ps[i], now, opts) && chains[i] == ChainAt(c, ps[i], opts))
            && (forall i, j :: 0 <= i < j < |ps| ==> TriedBefore(ps[i], ps[j]))
            && forall pos :: base + [k] <= pos && SucceedsAt(c, pos, now, opts) ==> pos in ps
    decreases MAX_CHAIN_DEPTH - |base|, 0
  {
    hide CheckLink, LinkOk, SucceedsAt, Search, LinksOk, DistinctRaw, TriedBefore, IssuerChains, InChain, NameChained;
    var chain, issuer, next := ChainAt(c, base, opts), Issuers(opts)[k], base + [k];
    var leaf := chain[|chain| - 1];
    ChainGrows(c, base, k, opts);
    IssuerChainsAre(chain, k, now, opts);
    ps := [];
    if NameChained(leaf, issuer) && LinkOk(leaf, issuer, |base|, now, opts) {
      if k < |opts.roots| {
        ps := [next];
        RootSucceeds(c, base, k, now, opts);
      } else if |chain| < MAX_CHAIN_DEPTH && !InChain(chain, issuer) {
        PrefixGrows(c, chain, issuer, now, opts);
        ps := SearchInOrder(c, next, |Issuers(opts)|, now, opts);
        SearchChains(chain + [issuer], now, opts);
      }
    }
    forall pos | next <= pos && SucceedsAt(c, pos, now, opts)
      ensures pos in ps
    {
      SuccessNeedsPrefix(c, base, k, pos, now, opts);
      assert |opts.roots| <= k ==> next < pos;
    }
  }

  lemma RootSucceeds(c: Certificate, base: Position, k: nat, now: int, opts: VerifyOptions)
    requires ReachedAt(c, base, now, opts) && k < |opts.roots|
    requires var leaf := ChainAt(c, base, opts)[|base|];
             NameChained(leaf, opts.roots[k]) && LinkOk(leaf, opts.roots[k], |base|, now, opts)
    ensures SucceedsAt(c, base + [k], now, opts)
  {
    hide LinkOk, ValidPrefix;
    ChainGrows(c, base, k, opts);
    var p := ChainAt(c, base + [k], opts);
    assert p[..|p| - 1] == ChainAt(c, base, opts);
  }

  /** Every edge below a completed path passed. */
  lemma SuccessNeedsPrefix(c: Certificate, base: Position, k: nat, pos: Position, now: int, opts: VerifyOptions)
    requires ReachedAt(c, base, now, opts) && k < |Issuers(opts)|
    requires base + [k] <= pos && SucceedsAt(c, pos, now, opts)
    ensures forall i :: 0 <= i < |pos| ==> pos[i] < |Issuers(opts)|
    ensures var chain, issuer := ChainAt(c, base, opts), Issuers(opts)[k];
            && NameChained(chain[|base|], issuer) && LinkOk(chain[|base|], issuer, |base|, now, opts)
            && if k < |opts.roots| then pos == base + [k]
               else pos != base + [k] && |chain| < MAX_CHAIN_DEPTH && !InChain(chain, issuer)
  {
    hide LinkOk, DistinctRaw;
    assert pos[|base|] == k;
    var p, next := ChainAt(c, pos, opts), base + [k];
    ChainGrows(c, base, k, opts);
    if |opts.roots| <= k {
      var low := p[..|p| - 1];
      PrefixShrinks(c, low, |base| + 2, now, opts);
      assert pos[..|base| + 1] == next;
      assert low[..|base| + 2] == ChainAt(c, next, opts);
      forall i | 0 <= i < |next|
        ensures |opts.roots| <= next[i]
      {
        assert pos[i] == next[i];
      }
      ReachedIsChained(c, base, k, now, opts);
      var q := ChainAt(c, next, opts);
      assert LinkOk(q[|base|], q[|base| + 1], |base|, now, opts);
    }
  }

  lemma {:induction false} SearchInOrder(c: Certificate, base: Position, n: nat, now: int, opts: VerifyOptions)
    returns (ps: seq<Position>)
    requires ReachedAt(c, base, now, opts) && n <= |Issuers(opts)|
    ensures InSearchOrder(c, base, n, ps, ChainsUpTo(ChainAt(c, base, opts), n, now, opts), now, opts)
    decreases MAX_CHAIN_DEPTH - |base|, 1, n
  {
    hide ReachedAt, SucceedsAt, IssuerChains;
    ps := [];
    if n > 0 {
      var before := SearchInOrder(c, base, n - 1, now, opts);
      var more := IssuerInOrder(c, base, n - 1, now, opts);
      ps := before + more;
      forall i, j | 0 <= i < |before| <= j < |ps|
        ensures TriedBefore(ps[i], ps[j])
      {
        var a, b := ps[i], ps[j];
        assert b == more[j - |before|];
        assert b[..|base| + 1] == base + [n - 1];
        assert a[..|base|] == base == b[..|base|] && b[|base|] == n - 1;
      }
      forall pos: Position | base < pos && pos[|base|] < n && SucceedsAt(c, pos, now, opts)
        ensures pos in ps
      {
        if pos[|base|] == n - 1 {
          assert pos[..|base| + 1] == base + [n - 1];
        }
      }
    }
  }

  /** The chains come in the order of the search, one for each position that completes a path. */
  lemma ChainsInOrder(c: Certificate, now: int, opts: VerifyOptions)
    returns (ps: seq<Position>)
    ensures InSearchOrder(c, [], |Issuers(opts)|, ps, Search([c], now, opts).chains, now, opts)
  {
    hide Search, InSearchOrder, ChainsUpTo;
    assert ChainAt(c, [], opts) == [c];
    ps := SearchInOrder(c, [], |Issuers(opts)|, now, opts);
    SearchChains([c], now, opts);
  }

  // ---------------------------------------------------------------- Verify

  /** Path validation of `c` at the given time, or else at the clock's. It fails exactly when the leaf
      is outside its validity window or no valid path exists; otherwise it returns exactly the valid
      paths, in the order of the search. Without a rejected edge the error is UnknownAuthority, and
      else that of the first rejected edge. */
  method Verify(c: Certificate, opts: VerifyOptions, wallClock: int)
    returns (r: Result<seq<Chain>>)
    ensures
      var now := if opts.currentTime == None then wallClock else opts.currentTime.value;
      && (r.Ok? <==> c.notBefore <= now <= c.notAfter && exists p :: ValidPath(c, p, now, opts))
      && (r.Ok? ==> forall p :: p in r.value <==> ValidPath(c, p, now, opts))
      && (r.Ok? ==> exists ps :: InSearchOrder(c, [], |Issuers(opts)|, ps, r.value, now, opts))
      && (now < c.notBefore ==> r == Err(NotYetValid))
      && (c.notBefore <= now && c.notAfter < now ==> r == Err(Expired))
      && (c.notBefore <= now <= c.notAfter && r.Err? ==>
            || (exists pos :: FirstFailure(c, [], pos, r.error, now, opts))
            || (r.error == UnknownAuthority && NoFailure(c, [], now, opts)))
  {
    hide Search, FailsAt, ValidPath, TriedBefore, InSearchOrder;
    var now := if opts.currentTime.None? then wallClock else opts.currentTime.value;
    var err := CheckValidity(c, now);
    if err.Some? {
      return Err(err.value);
    }
    var search := new PathSearch();
    search.Walk([c], now, opts);
    ghost var out := Search([c], now, opts);
    assert search.State() == out;
    forall p
      ensures p in out.chains <==> ValidPath(c, p, now, opts)
    {
      SearchExact(c, now, opts, p);
    }
    if |search.chains| == 0 {
      assert ChainAt(c, [], opts) == [c];
      SearchErrorIsFirst(c, [], now, opts);
      if search.firstErr.Some? {
        return Err(search.firstErr.value);
      }
      return Err(UnknownAuthority);
    }
    assert ValidPath(c, search.chains[0], now, opts);
    ghost var ps := ChainsInOrder(c, now, opts);
    return Ok(search.chains);
  }

  // ---------------------------------------------------------------- size of the search

  function Power(m: nat, k: nat): nat {
    if k == 0 then 1 else m * Power(m, k - 1)
  }

  /** m^0 + m^1 + ... + m^d */
  function PowerSum(m: nat, d: nat): nat {
    if d == 0 then 1 else PowerSum(m, d - 1) + Power(m, d)
  }

  lemma {:induction false} PowerSumShift(m: nat, d: nat)
    requires d > 0
    ensures PowerSum(m, d) == 1 + m * PowerSum(m, d - 1)
  {
    if d == 1 {
      assert Power(m, 1) == m * Power(m, 0) == m;
    } else {
      PowerSumShift(m, d - 1);
      calc {
        PowerSum(m, d);
        1 + m * PowerSum(m, d - 2) + m * Power(m, d - 1);
        1 + m * (PowerSum(m, d - 2) + Power(m, d - 1));
        1 + m * PowerSum(m, d - 1);
      }
    }
  }

  lemma {:induction false} CallsBound(chain: Chain, now: int, opts: VerifyOptions)
    requires 0 < |chain| <= MAX_CHAIN_DEPTH
    ensures Search(chain, now, opts).calls <= PowerSum(|opts.intermediates|, MAX_CHAIN_DEPTH - |chain|)
    decreases MAX_CHAIN_DEPTH - |chain|, 1
  {
    RootsMakeNoCalls(chain, |opts.roots|, now, opts);
    if |chain| < MAX_CHAIN_DEPTH {
      CallsBoundBelow(chain, |opts.intermediates|, now, opts);
      PowerSumShift(|opts.intermediates|, MAX_CHAIN_DEPTH - |chain|);
    }
  }

  lemma {:induction false} RootsMakeNoCalls(chain: Chain, n: nat, now: int, opts: VerifyOptions)
    requires |chain| > 0 && n <= |opts.roots|
    ensures TryRoots(chain, n, now, opts).calls == 0
    ensures |TryRoots(chain, n, now, opts).chains| <= n
  {
    if n > 0 {
      RootsMakeNoCalls(chain, n - 1, now, opts);
    }
  }

  lemma {:induction false} CallsBoundBelow(chain: Chain, n: nat, now: int, opts: VerifyOptions)
    requires 0 < |chain| < MAX_CHAIN_DEPTH && n <= |opts.intermediates|
    ensures TryIntermediates(chain, n, now, opts).calls
            <= n * PowerSum(|opts.intermediates|, MAX_CHAIN_DEPTH - |chain| - 1)
    decreases MAX_CHAIN_DEPTH - |chain|, 0, n
  {
    if n > 0 {
      var bound := PowerSum(|opts.intermediates|, MAX_CHAIN_DEPTH - |chain| - 1);
      CallsBoundBelow(chain, n - 1, now, opts);
      CallsBound(chain + [opts.intermediates[n - 1]], now, opts);
      assert (n - 1) * bound + bound == n * bound;
    }
  }

  lemma {:induction false} ChainsPerCall(chain: Chain, now: int, opts: VerifyOptions)
    requires 0 < |chain| <= MAX_CHAIN_DEPTH
    ensures |Search(chain, now, opts).chains| <= |opts.roots| * Search(chain, now, opts).calls
    decreases MAX_CHAIN_DEPTH - |chain|, 1
  {
    RootsMakeNoCalls(chain, |opts.roots|, now, opts);
    if |chain| < MAX_CHAIN_DEPTH {
      var below := TryIntermediates(chain, |opts.intermediates|, now, opts);
      ChainsPerCallBelow(chain, |opts.intermediates|, now, opts);
      TimesSum(|opts.roots|, 1, below.calls);
    }
  }

  lemma {:induction false} ChainsPerCallBelow(chain: Chain, n: nat, now: int, opts: VerifyOptions)
    requires 0 < |chain| < MAX_CHAIN_DEPTH && n <= |opts.intermediates|
    ensures |TryIntermediates(chain, n, now, opts).chains|
            <= |opts.roots| * TryIntermediates(chain, n, now, opts).calls
    decreases MAX_CHAIN_DEPTH - |chain|, 0, n
  {
    if n > 0 {
      var a := TryIntermediates(chain, n - 1, now, opts);
      var b := TryIntermediate(chain, opts.intermediates[n - 1], now, opts);
      ChainsPerCallBelow(chain, n - 1, now, opts);
      ChainsPerCall(chain + [opts.intermediates[n - 1]], now, opts);
      assert |b.chains| <= |opts.roots| * b.calls;
      TimesSum(|opts.roots|, a.calls, b.calls);
    }
  }

  /** The number of `walk` calls and of returned chains, in the sizes of the two lists. */
  lemma SearchSize(c: Certificate, now: int, opts: VerifyOptions)
    ensures Search([c], now, opts).calls <= PowerSum(|opts.intermediates|, 5)
    ensures |Search([c], now, opts).chains| <= |opts.roots| * PowerSum(|opts.intermediates|, 5)
  {
    CallsBound([c], now, opts);
    ChainsPerCall([c], now, opts);
    TimesMonotone(|opts.roots|, Search([c], now, opts).calls, PowerSum(|opts.intermediates|, 5));
  }

  // ---------------------------------------------------------------- no chain twice

  lemma {:induction false} SearchShape(chain: Chain, now: int, opts: VerifyOptions, p: Chain)
    requires 0 < |chain| <= MAX_CHAIN_DEPTH
    requires p in Search(chain, now, opts).chains
    ensures chain < p
    ensures p in TryRoots(chain, |opts.roots|, now, opts).chains ==> |p| == |chain| + 1
    decreases MAX_CHAIN_DEPTH - |chain|, 1
  {
    RootsComplete(chain, |opts.roots|, now, opts, p);
    if p !in TryRoots(chain, |opts.roots|, now, opts).chains {
      var _ := IntermediateShape(chain, |opts.intermediates|, now, opts, p);
    }
  }

  lemma {:induction false} IntermediateShape(chain: Chain, n: nat, now: int, opts: VerifyOptions, p: Chain)
    returns (k: nat)
    requires 0 < |chain| < MAX_CHAIN_DEPTH && n <= |opts.intermediates|
    requires p in TryIntermediates(chain, n, now, opts).chains
    ensures k < n && chain + [opts.intermediates[k]] < p
    decreases MAX_CHAIN_DEPTH - |chain|, 0
  {
    IntermediatesSplit(chain, n, now, opts, p);
    k :| 0 <= k < n && p in TryIntermediate(chain, opts.intermediates[k], now, opts).chains;
    SearchShape(chain + [opts.intermediates[k]], now, opts, p);
  }

  lemma DisjointConcat<T>(a: seq<T>, b: seq<T>)
    requires NoDuplicates(a) && NoDuplicates(b)
    requires forall x :: x in a ==> x !in b
    ensures NoDuplicates(a + b)
  {
    forall i, j | 0 <= i < j < |a + b| ensures (a + b)[i] != (a + b)[j] {
      if i < |a| <= j {
        assert a[i] in a && b[j - |a|] in b;
      }
    }
  }

  lemma {:induction false} RootsNoDuplicates(chain: Chain, n: nat, now: int, opts: VerifyOptions)
    requires |chain| > 0 && n <= |opts.roots| && NoDuplicates(opts.roots)
    ensures NoDuplicates(TryRoots(chain, n, now, opts).chains)
  {
    if n > 0 {
      RootsNoDuplicates(chain, n - 1, now, opts);
      var a, b := TryRoots(chain, n - 1, now, opts), TryRoot(chain, opts.roots[n - 1], now, opts);
      forall p | p in a.chains
        ensures p !in b.chains
      {
        RootsComplete(chain, n - 1, now, opts, p);
        assert p[|chain|] != (chain + [opts.roots[n - 1]])[|chain|];
      }
      DisjointConcat(a.chains, b.chains);
    }
  }

  lemma {:induction false} IntermediatesNoDuplicates(chain: Chain, n: nat, now: int, opts: VerifyOptions)
    requires 0 < |chain| < MAX_CHAIN_DEPTH && n <= |opts.intermediates|
    requires NoDuplicates(opts.roots) && NoDuplicates(opts.intermediates)
    ensures NoDuplicates(TryIntermediates(chain, n, now, opts).chains)
    decreases MAX_CHAIN_DEPTH - |chain|, 0, n
  {
    if n > 0 {
      var inter := opts.intermediates[n - 1];
      var a, b := TryIntermediates(chain, n - 1, now, opts), TryIntermediate(chain, inter, now, opts);
      IntermediatesNoDuplicates(chain, n - 1, now, opts);
      SearchNoDuplicates(chain + [inter], now, opts);
      forall p | p in a.chains
        ensures p !in b.chains
      {
        var k := IntermediateShape(chain, n - 1, now, opts, p);
        assert p[|chain|] == opts.intermediates[k];
        if p in b.chains {
          SearchShape(chain + [inter], now, opts, p);
          assert false;
        }
      }
      DisjointConcat(a.chains, b.chains);
    }
  }

  /** Duplicate-free lists give every chain once. */
  lemma {:induction false} SearchNoDuplicates(chain: Chain, now: int, opts: VerifyOptions)
    requires 0 < |chain| <= MAX_CHAIN_DEPTH
    requires NoDuplicates(opts.roots) && NoDuplicates(opts.intermediates)
    ensures NoDuplicates(Search(chain, now, opts).chains)
    decreases MAX_CHAIN_DEPTH - |chain|, 1
  {
    var a := TryRoots(chain, |opts.roots|, now, opts);
    RootsNoDuplicates(chain, |opts.roots|, now, opts);
    if |chain| < MAX_CHAIN_DEPTH {
      var b := TryIntermediates(chain, |opts.intermediates|, now, opts);
      IntermediatesNoDuplicates(chain, |opts.intermediates|, now, opts);
      forall p | p in a.chains
        ensures p !in b.chains
      {
        RootsComplete(chain, |opts.roots|, now, opts, p);
        if p in b.chains {
          var k := IntermediateShape(chain, |opts.intermediates|, now, opts, p);
          assert false;
        }
      }
      DisjointConcat(a.chains, b.chains);
      assert [] + a.chains == a.chains;
    }
  }
}
