/** The durable records of the ACME subsystem and the errors its operations return.
    Keys, CSRs, chains, URLs and profiles are opaque values with equality. */
module Types {
  datatype Option<+T> = None | Some(value: T)

  datatype Result<+T> = Ok(value: T) | Err(error: StateError) {
    predicate IsFailure() { Err? }

    function PropagateFailure<U>(): Result<U>
      requires Err?
    {
      Err(error)
    }

    function Extract(): T
      requires Ok?
    {
      value
    }
  }

  datatype StateError = InvalidData | CorruptData | Unavailable | StateUncertain | Closed | DeadlineElapsed | Other

  datatype FailureKind =
    | Network | Timeout | RateLimited | Authorization | Protocol | Material
    | Account | State | Deferred | ProfileNotOffered

  const I64_MAX: nat := 0x7FFF_FFFF_FFFF_FFFF
  const U64_MAX: nat := 0xFFFF_FFFF_FFFF_FFFF
  const U32_MAX: nat := 0xFFFF_FFFF
  const NANOS: nat := 1_000_000_000

  type Url = string
  type Key = string
  type Csr = string
  type Chain = seq<string>

  datatype RetryState = RetryState(failures: nat, notBefore: nat)

  /** The retry state of a record that owes no waiting. */
  const Fresh: RetryState := RetryState(0, 0)

  datatype CertificateMaterial = CertificateMaterial(chain: Chain, key: Key)

  datatype CertificateValidity = CertificateValidity(notBefore: nat, notAfter: nat)

  datatype AriWindow = AriWindow(start: nat, end: nat, selected: nat)

  datatype StoredCertificate = StoredCertificate(
    replacing: Option<string>,
    material: CertificateMaterial,
    notBefore: nat,
    notAfter: nat,
    renewAt: nat,
    ariCheckAt: nat,
    fallbackAt: nat,
    ariWindow: Option<AriWindow>,
    ariFailures: nat,
    profile: Option<string>)
  {
    function Lifetime(): (r: nat)
      ensures notBefore <= notAfter ==> notBefore + r == notAfter
      ensures notBefore > notAfter ==> r == 0
    {
      if notAfter >= notBefore then notAfter - notBefore else 0
    }

    function Validity(): CertificateValidity {
      CertificateValidity(notBefore, notAfter)
    }
  }

  datatype PendingOrder = PendingOrder(
    url: Option<Url>,
    replacing: Option<string>,
    key: Key,
    csr: Csr,
    started: nat,
    expires: Option<nat>,
    profile: Option<string>)

  datatype StoredHost = StoredHost(
    dns: string,
    certificate: Option<StoredCertificate>,
    order: Option<PendingOrder>,
    retry: RetryState)

  datatype Credentials = Credentials(directory: Option<string>, key: Key)

  datatype StoredAccount = StoredAccount(key: Key, credentials: Option<Credentials>, retry: RetryState)

  function Max(a: int, b: int): (r: int)
    ensures r >= a && r >= b && (r == a || r == b)
  {
    if a >= b then a else b
  }

  function Min(a: int, b: int): (r: int)
    ensures r <= a && r <= b && (r == a || r == b)
  {
    if a <= b then a else b
  }

  function SaturatingSucc(n: nat, limit: nat): nat {
    if n < limit then n + 1 else limit
  }

  predicate IsTimestamp(seconds: nat) {
    seconds <= I64_MAX
  }

  /** The part of `StoredHost::validate` that concerns the schedule of the certificate. */
  predicate ValidCertificate(c: StoredCertificate) {
    && c.notBefore < c.notAfter
    && IsTimestamp(c.notBefore) && IsTimestamp(c.notAfter) && IsTimestamp(c.renewAt)
    && IsTimestamp(c.ariCheckAt) && IsTimestamp(c.fallbackAt)
    && (c.ariWindow.Some? ==>
          var w := c.ariWindow.value;
          && w.start <= w.selected < w.end <= c.notAfter
          && c.renewAt == w.selected)
  }
}
