/** Issuance policy (profiles.go). */
module Profiles {
  import opened Prelude
  import opened X509
  import opened Times

  const MINUTE: int := 60 * SECOND
  const HOUR: int := 60 * MINUTE
  const DAY: int := 24 * HOUR

  const ROOT_VALIDITY_DAYS := 3650
  const INTERMEDIATE_VALIDITY_DAYS := 1825
  const END_ENTITY_VALIDITY_DAYS := 90
  const MAX_END_ENTITY_VALIDITY_DAYS := 397

  const CLOCK_SKEW: int := 5 * MINUTE

  /** The `Algorithm` field of a request: zero, a supported value, or any other number. */
  datatype AlgorithmChoice = Unset | Chosen(algorithm: Algorithm) | Unsupported

  datatype CAProfile = CAProfile(
    allowedAlgorithms: seq<Algorithm>,
    pathLen: int,
    keyUsage: KeyUsage,
    defaultDays: int,
    maxDays: int)

  const CA_KEY_USAGE: KeyUsage := KEY_CERT_SIGN | CRL_SIGN

  const ROOT_PROFILE := CAProfile([MLDSA87, SLHDSA_SHA2_256s, SLHDSA_SHAKE_256s], 1, CA_KEY_USAGE,
                                  ROOT_VALIDITY_DAYS, ROOT_VALIDITY_DAYS)

  const INTERMEDIATE_PROFILE := CAProfile([MLDSA65, SLHDSA_SHA2_192s, SLHDSA_SHAKE_192s], 0, CA_KEY_USAGE,
                                          INTERMEDIATE_VALIDITY_DAYS, INTERMEDIATE_VALIDITY_DAYS)

  const END_ENTITY_ALGORITHMS := [MLDSA44, MLDSA65, SLHDSA_SHA2_128s, SLHDSA_SHA2_128f,
                                  SLHDSA_SHAKE_128s, SLHDSA_SHAKE_128f]

  predicate Allows(allowed: seq<Algorithm>, choice: AlgorithmChoice) {
    choice.Chosen? && choice.algorithm in allowed
  }

  function ProfileOf(isRoot: bool): CAProfile {
    if isRoot then ROOT_PROFILE else INTERMEDIATE_PROFILE
  }

  function ResolveDays(p: CAProfile, requested: int): (r: Result<int>)
    ensures 0 < p.defaultDays <= p.maxDays ==>
              && (r.Ok? <==> 0 <= requested <= p.maxDays)
              && (r.Ok? ==> 0 < r.value <= p.maxDays && (requested != 0 ==> r.value == requested))
  {
    if requested == 0 then Ok(p.defaultDays)
    else if requested < 0 || requested > p.maxDays then Err(ConstraintViolation)
    else Ok(requested)
  }

  /** From 0001-01-01, where time.Time counts its seconds from, to 1970-01-01. */
  const UNIX_TO_INTERNAL: int := 62_135_596_800

  /** time.AddDate(0, 0, days) in UTC: days of 86400 seconds, in a 64-bit count of seconds. */
  function AddDays(t: int, days: int): int {
    (Wrap64(t / SECOND + UNIX_TO_INTERNAL + days * 86400) - UNIX_TO_INTERNAL) * SECOND + t % SECOND
  }

  /** time.Duration(days) * 24 * time.Hour in 64 bits. */
  function DaysDuration(days: int): int {
    Wrap64(days * DAY)
  }

  /** Both products wrap, one in seconds and one in nanoseconds, and differ by multiples of 2^64
      nanoseconds. */
  lemma AddDaysCongruent(t: int, days: int) returns (k: int)
    ensures AddDays(t, days) - t == days * DAY + k * 0x1_0000_0000_0000_0000
  {
    var q := WrapQuotient(t / SECOND + UNIX_TO_INTERNAL + days * 86400);
    k := q * SECOND;
    assert t == t / SECOND * SECOND + t % SECOND;
  }

  /** So a date that is less than 292 years off is off by the compared duration. */
  lemma AddDaysIsDuration(t: int, days: int)
    requires -MAX_INT - 1 <= AddDays(t, days) - t <= MAX_INT
    ensures DaysDuration(days) == AddDays(t, days) - t
  {
    hide AddDays;
    var k := AddDaysCongruent(t, days);
    WrapMultiple(days * DAY, k);
  }

  /** Where the count of seconds does not wrap, the date is exact. */
  lemma AddDaysExact(t: int, days: int)
    requires -MAX_INT - 1 <= t / SECOND + UNIX_TO_INTERNAL + days * 86400 <= MAX_INT
    ensures AddDays(t, days) == t + days * DAY
  {
    assert t == t / SECOND * SECOND + t % SECOND;
  }

  /** What AddDate adds, when neither end is far off. */
  function AddedSpan(days: int): int {
    Wrap64(days * 86400) * SECOND
  }

  lemma AddedSpanExact(t: int, days: int)
    requires t % SECOND == 0 && -MAX_INT - 1 <= (AddDays(t, days) - t) / SECOND <= MAX_INT
    ensures AddDays(t, days) - t == AddedSpan(days)
  {
    var s := t / SECOND;
    var k := WrapQuotient(s + UNIX_TO_INTERNAL + days * 86400);
    assert (AddDays(t, days) - t) / SECOND == days * 86400 + k * 0x1_0000_0000_0000_0000;
    WrapMultiple(days * 86400, k);
  }

  /** A span below 292 years is the duration that is compared with the cap. */
  lemma SpanIsDuration(days: int)
    requires -MAX_INT - 1 <= AddedSpan(days) <= MAX_INT
    ensures DaysDuration(days) == AddedSpan(days)
  {
    var k := WrapQuotient(days * 86400);
    assert AddedSpan(days) == days * DAY + k * SECOND * 0x1_0000_0000_0000_0000;
    WrapMultiple(days * DAY, k * SECOND);
  }

  /** Asking for 2^57 days more asks for the same. */
  lemma DaysRepeat(t: int, days: int)
    ensures AddDays(t, days + 0x200_0000_0000_0000) == AddDays(t, days)
    ensures DaysDuration(days + 0x200_0000_0000_0000) == DaysDuration(days)
  {
    var s := t / SECOND + UNIX_TO_INTERNAL + days * 86400;
    assert s + 0x200_0000_0000_0000 * 86400 == s + 675 * 0x1_0000_0000_0000_0000;
    WrapMultiple(s, 675);
    assert 0x200_0000_0000_0000 * DAY == 675_000_000_000 * 0x1_0000_0000_0000_0000;
    WrapMultiple(days * DAY, 675_000_000_000);
  }
}
