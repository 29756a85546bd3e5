/** The Lease record shared by all pods, its expiry test, and what each backend keeps of a duration. */
module LeaseRecords {
  import opened Wrappers

  /** `holder_identity`: the pod name. Electors are told apart by nothing else. */
  type Identity = string

  const DEFAULT_LEASE_DURATION_SEC := 15.0
  const DEFAULT_RENEW_DEADLINE_SEC := 10.0
  const DEFAULT_RETRY_PERIOD_SEC := 2.0

  /** `version` is the optimistic-concurrency token; a record that was never stored has none. */
  datatype LeaseRecord = LeaseRecord(
    holder: Identity,
    duration: real,
    acquireTime: real,
    renewTime: real,
    transitions: nat,
    version: Option<nat>)
  {
    predicate IsExpired(now: real) {
      now - renewTime > duration
    }

    /** The last instant at which the lease cannot be taken over. */
    function Expiry(): real {
      renewTime + duration
    }
  }

  /** The in-memory store keeps a duration as it is; the Kubernetes one keeps whole seconds. */
  datatype Backend = InMemory | Kubernetes

  /** Python's `round` on one argument: nearest integer, ties to the even one. */
  function RoundHalfEven(x: real): (n: int)
    ensures n as real - x <= 0.5 && x - n as real <= 0.5
    ensures (n as real - x == 0.5 || x - n as real == 0.5) ==> n % 2 == 0
  {
    var f := x.Floor;
    var frac := x - f as real;
    if frac < 0.5 then f
    else if frac > 0.5 then f + 1
    else if f % 2 == 0 then f
    else f + 1
  }

  /** Rounding is determined by its contract: no other integer is as near, or even on a tie. */
  lemma {:induction false} RoundHalfEvenUnique(x: real, n: int)
    requires n as real - x <= 0.5 && x - n as real <= 0.5
    requires (n as real - x == 0.5 || x - n as real == 0.5) ==> n % 2 == 0
    ensures n == RoundHalfEven(x)
  {
    assert -1.0 <= (RoundHalfEven(x) - n) as real <= 1.0;
  }

  /** The duration a later `get` returns after `duration` was written. */
  function ReadBack(backend: Backend, duration: real): real {
    match backend
    case InMemory => duration
    case Kubernetes =>
      var seconds := RoundHalfEven(duration);
      if seconds == 0 then DEFAULT_LEASE_DURATION_SEC else seconds as real
  }

  /** `n` is a whole number nearest to `d`, the even one when two are equally near. */
  predicate NearestWhole(d: real, n: int) {
    && n as real - d <= 0.5 && d - n as real <= 0.5
    && (n as real - d == 0.5 || d - n as real == 0.5 ==> n % 2 == 0)
  }

  /** What Kubernetes gives back of any duration is the nearest whole number of seconds, and 15 if that is zero. */
  lemma {:induction false} KubernetesReadsNearestWhole(d: real)
    ensures exists n: int :: NearestWhole(d, n)
    ensures forall n: int :: NearestWhole(d, n) ==> ReadBack(Kubernetes, d) == if n == 0 then 15.0 else n as real
  {
    assert NearestWhole(d, RoundHalfEven(d));
    forall n: int | NearestWhole(d, n)
      ensures ReadBack(Kubernetes, d) == if n == 0 then 15.0 else n as real
    {
      RoundHalfEvenUnique(d, n);
    }
  }

  lemma {:induction false} DefaultIsReadBack(backend: Backend)
    ensures ReadBack(backend, DEFAULT_LEASE_DURATION_SEC) == DEFAULT_LEASE_DURATION_SEC
  {
    RoundHalfEvenUnique(15.0, 15);
  }

  function Distance(x: real, y: real): real {
    if x <= y then y - x else x - y
  }

  /** Kubernetes moves a duration by at most half a second exactly when it does not round to zero;
      a duration that does round to zero comes back as the 15 second default. */
  lemma {:induction false} KubernetesDurationDrift(d: real)
    ensures Distance(ReadBack(Kubernetes, d), d) <= 0.5 <==> !(-0.5 <= d <= 0.5)
    ensures -0.5 <= d <= 0.5 ==> ReadBack(Kubernetes, d) == DEFAULT_LEASE_DURATION_SEC
    ensures ReadBack(Kubernetes, ReadBack(Kubernetes, d)) == ReadBack(Kubernetes, d)
  {
    var n := RoundHalfEven(d);
    if -0.5 <= d <= 0.5 {
      RoundHalfEvenUnique(d, 0);
      RoundHalfEvenUnique(15.0, 15);
    } else {
      RoundHalfEvenUnique(n as real, n);
    }
  }
}
