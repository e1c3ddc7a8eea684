/** Types shared by every part of the model: byte strings, results and the sentinel errors. */
module Prelude {

  type Byte = b: int | 0 <= b < 256
  type Bytes = seq<Byte>

  datatype Option<+T> = None | Some(value: T)

  datatype Result<+T> = Ok(value: T) | Err(error: Error)

  /** One constructor for each sentinel error the packages export, and `Other` for
      the errors that wrap no sentinel. `Panic` is no error value: it is the run-time panic of
      a slice expression out of range, which unwinds the call instead of returning. */
  datatype Error =
    | UnknownAlgorithm
    | MalformedDER
    | TrailingData
    | BadSignature
    | UnsupportedCriticalExtension
    | Expired
    | NotYetValid
    | UnknownAuthority
    | NotACA
    | PathLenExceeded
    | KeyUsageNotPermitted
    | Revoked
    | InvalidCSR
    | CSRSignature
    | ConstraintViolation
    | NotFound
    | AlreadyRevoked
    | Conflict
    | WrongPassphrase
    | KeyNotFound
    | KeyExists
    | EmptyPassphrase
    | Other
    | Panic

  /** The largest value of the source's 64-bit `int`. */
  const MAX_INT: int := 0x7FFF_FFFF_FFFF_FFFF

  /** The value a 64-bit two's complement machine integer keeps of `x`. */
  function Wrap64(x: int): (r: int)
    ensures -MAX_INT - 1 <= r <= MAX_INT
    ensures -MAX_INT - 1 <= x <= MAX_INT ==> r == x
  {
    (x + 0x8000_0000_0000_0000) % 0x1_0000_0000_0000_0000 - 0x8000_0000_0000_0000
  }

  ghost predicate NoDuplicates<T>(s: seq<T>) {
    forall i, j :: 0 <= i < j < |s| ==> s[i] != s[j]
  }

  lemma TimesSum(m: nat, a: nat, b: nat)
    ensures m * (a + b) == m * a + m * b
  {
  }

  lemma TimesMonotone(m: nat, a: nat, b: nat)
    requires a <= b
    ensures m * a <= m * b
  {
  }

  /** Whole multiples of 2^64 make no difference. */
  lemma WrapMultiple(x: int, k: int)
    ensures Wrap64(x + k * 0x1_0000_0000_0000_0000) == Wrap64(x)
  {
    var m, y := 0x1_0000_0000_0000_0000, x + 0x8000_0000_0000_0000;
    assert y == (y / m) * m + y % m;
    assert y + k * m == (y / m + k) * m + y % m;
    QuotientUnique(y + k * m, y / m + k, y % m);
  }

  lemma QuotientUnique(y: int, q: int, r: int)
    requires y == q * 0x1_0000_0000_0000_0000 + r && 0 <= r < 0x1_0000_0000_0000_0000
    ensures y % 0x1_0000_0000_0000_0000 == r
  {
  }

  /** What is kept differs from the number by a multiple of 2^64. */
  lemma WrapQuotient(x: int) returns (k: int)
    ensures Wrap64(x) == x + k * 0x1_0000_0000_0000_0000
  {
    k := -((x + 0x8000_0000_0000_0000) / 0x1_0000_0000_0000_0000);
  }
}
