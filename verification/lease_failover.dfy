/** How long a Lease nobody renews can stay with its holder while one pod keeps ticking. */
module LeaseFailover {
  import opened Wrappers
  import opened LeaseRecords
  import opened LeaseBackends
  import opened LeaseProtocol
  import opened LeaseHistory

  /** Pod `id` keeps ticking over a working backend: ticks start at most `period` apart, each takes at most
      `latency` from start to end, and none of its calls errors. Nothing is asked of the other pods. */
  datatype Ticking = Ticking(id: Identity, period: real, latency: real)

  function Max(x: real, y: real): real {
    if x < y then y else x
  }

  /** It does so from time `from` on; what happened to it before does not matter. */
  predicate KeepsTicking(k: Ticking, from: real, s: State, a: Action)
    requires k.id in s.pods
  {
    var p := s.pods[k.id];
    && a != GetFails(k.id) && a != LoseAnswer(k.id) && a != Stop(k.id) && a != Restart(k.id)
    && (a.Advance? ==>
          && a.to <= Max(p.tickStart, from) + k.period
          && (!p.phase.Idle? ==> a.to <= Max(p.tickStart, from) + k.latency))
  }

  ghost predicate IsTickingRun(c: Config, k: Ticking, from: real, s: State, run: seq<Action>)
    requires k.id in c.pods
    decreases |run|
  {
    run != [] ==>
      && Enabled(c, s, run[0]) && KeepsTicking(k, from, s, run[0])
      && IsTickingRun(c, k, from, After(c, s, run[0]), run[1..])
  }

  /** No time stamp lies ahead. */
  ghost predicate StampsInv(s: State) {
    && s.appliedAt <= s.now
    && forall id :: id in s.pods ==> s.pods[id].tickStart <= s.now && s.pods[id].tickEnd <= s.now
  }

  lemma {:induction false} RunKeepsStamps(c: Config, s: State, run: seq<Action>)
    requires StampsInv(s) && IsRun(c, s, run)
    ensures StampsInv(Final(c, s, run))
    decreases |run|
  {
    if run != [] {
      StepKeepsStamps(c, s, run[0]);
      RunKeepsStamps(c, After(c, s, run[0]), run[1..]);
    }
  }

  lemma {:induction false} StepKeepsStamps(c: Config, s: State, a: Action)
    requires StampsInv(s) && Enabled(c, s, a)
    ensures StampsInv(After(c, s, a))
  {
  }

  lemma {:induction false} ReachableStamps(c: Config, s: State)
    requires Reachable(c, s)
    ensures StampsInv(s)
  {
    var start, run :| IsRun(c, Init(c, start), run) && s == Final(c, Init(c, start), run);
    RunKeepsStamps(c, Init(c, start), run);
  }

  /** The current record lapses now at the latest, or was stored later than that, or that was before `from`. */
  function Lapse(s: State, from: real): real {
    Max(from, if s.log == [] then s.appliedAt else Max(s.log[|s.log| - 1].Expiry(), s.appliedAt))
  }

  /** A tick that ended left behind a record that was not stale when it began; one under way began within a
      period of that, and if the store moved since it looked, it moved after the tick began. A tick that began
      before `from` needs no such account. */
  ghost predicate TickingPod(
      k: Ticking, from: real, now: real, appliedAt: real, lapse: real, stored: nat, p: Pod)
  {
    && p.tickStart <= now && (p.tickStart <= p.readAt || p.tickStart <= from)
    && from <= now && from <= lapse && appliedAt <= now && appliedAt <= lapse
    && now <= Max(p.tickStart, from) + k.period
    && (!p.phase.Idle? ==> now <= Max(p.tickStart, from) + k.latency)
    && p.tickStart <= lapse + (if p.phase.Idle? then 0.0 else k.period)
    && (p.phase.Deciding? && p.phase.base != stored ==> p.tickStart <= Max(appliedAt, from))
    && (p.phase.Waiting? && p.phase.request.base != stored ==> p.tickStart <= Max(appliedAt, from))
    && (p.phase.Answered? || p.phase.FailedTick? ==> p.tickStart <= Max(appliedAt, from))
  }

  ghost predicate TickingInv(k: Ticking, from: real, s: State) {
    k.id in s.pods && TickingPod(k, from, s.now, s.appliedAt, Lapse(s, from), |s.log|, s.pods[k.id])
  }

  /** A request that is applied moves the store now; another one leaves it. */
  lemma {:induction false} DeliverMovesStore(c: Config, s: State, r: Request)
    requires Inv(c, s) && r in s.net
    ensures var t := Delivered(c, s, r);
      if r.base == |s.log| then t.appliedAt == s.now && |t.log| == |s.log| + 1
      else t.log == s.log && t.appliedAt == s.appliedAt
  {
    AppliedIsLinked(c, s.log, r, s.pods[r.owner].readAt);
  }

  lemma {:induction false} DeliverKeepsTicking(c: Config, k: Ticking, from: real, s: State, r: Request)
    requires k.period >= 0.0 && Inv(c, s) && TickingInv(k, from, s) && r in s.net
    ensures TickingInv(k, from, Delivered(c, s, r))
  {
    DeliverMovesStore(c, s, r);
    var t, p := Delivered(c, s, r), s.pods[k.id];
    assert t.pods[k.id] == p || (p.phase == Waiting(r) && exists ok :: t.pods[k.id] == p.(phase := Answered(r, ok)));
    assert s.now <= Lapse(t, from) || t.appliedAt == s.appliedAt;
  }

  lemma {:induction false} ResolveKeepsTicking(c: Config, k: Ticking, from: real, s: State)
    requires k.period >= 0.0 && Inv(c, s) && TickingInv(k, from, s) && Enabled(c, s, Resolve(k.id))
    ensures TickingInv(k, from, Resolved(c, s, k.id))
  {
    var base := s.pods[k.id].phase.base;
    assert base == |s.log| ==> s.log[..base] == s.log;
  }

  lemma {:induction false} OwnStepKeepsTicking(c: Config, k: Ticking, from: real, s: State, a: Action)
    requires k.period >= 0.0 && k.latency >= 0.0 && TickingInv(k, from, s)
    requires !a.Advance? && !a.Deliver? && !a.Resolve? && Enabled(c, s, a) && KeepsTicking(k, from, s, a)
    requires a.id == k.id
    ensures TickingPod(k, from, s.now, s.appliedAt, Lapse(s, from), |s.log|, After(c, s, a).pods[k.id])
  {
  }

  lemma {:induction false} StepKeepsTicking(c: Config, k: Ticking, from: real, s: State, a: Action)
    requires c.skew >= 0.0 && k.period >= 0.0 && k.latency >= 0.0
    requires Inv(c, s) && TickingInv(k, from, s) && Enabled(c, s, a) && KeepsTicking(k, from, s, a)
    ensures Inv(c, After(c, s, a)) && TickingInv(k, from, After(c, s, a))
  {
    StepKeepsInv(c, s, a);
    if a.Deliver? {
      DeliverKeepsTicking(c, k, from, s, a.request);
    } else if a.Advance? {
      assert Lapse(After(c, s, a), from) == Lapse(s, from);
    } else {
      StepFrame(c, s, a);
      assert After(c, s, a).appliedAt == s.appliedAt;
      if a == Resolve(k.id) {
        ResolveKeepsTicking(c, k, from, s);
      } else if a.id == k.id {
        OwnStepKeepsTicking(c, k, from, s, a);
      }
    }
  }

  lemma {:induction false} RunKeepsTicking(c: Config, k: Ticking, from: real, s: State, run: seq<Action>)
    requires c.skew >= 0.0 && k.period >= 0.0 && k.latency >= 0.0 && k.id in c.pods
    requires Inv(c, s) && TickingInv(k, from, s) && IsTickingRun(c, k, from, s, run)
    ensures IsRun(c, s, run)
    ensures Inv(c, Final(c, s, run)) && TickingInv(k, from, Final(c, s, run))
    decreases |run|
  {
    if run != [] {
      StepKeepsTicking(c, k, from, s, run[0]);
      RunKeepsTicking(c, k, from, After(c, s, run[0]), run[1..]);
    }
  }

  /** From any reachable state, while one pod keeps ticking from then on, no record outlives its lapse by more than
      one period and one tick. Whatever that pod went through before, restarts and failed calls included. */
  lemma {:induction false} NoStaleLease(c: Config, k: Ticking, s: State, run: seq<Action>)
    requires c.skew >= 0.0 && k.period >= 0.0 && k.latency >= 0.0 && k.id in c.pods
    requires Reachable(c, s) && IsTickingRun(c, k, s.now, s, run)
    ensures IsRun(c, s, run) && LogInv(c, Final(c, s, run).log)
    ensures Final(c, s, run).now <= Lapse(Final(c, s, run), s.now) + k.period + k.latency
  {
    ReachableInv(c, s);
    ReachableStamps(c, s);
    RunKeepsTicking(c, k, s.now, s, run);
  }

  lemma {:induction false} StoredWhenApplied(c: Config, s: State, run: seq<Action>)
    requires IsRun(c, s, run)
    ensures s.log <= Final(c, s, run).log
    ensures Final(c, s, run).log == s.log ==> Final(c, s, run).appliedAt == s.appliedAt
    decreases |run|
  {
    if run != [] {
      StoredWhenApplied(c, After(c, s, run[0]), run[1..]);
    }
  }

  lemma {:induction false} SameLogSameLapse(s: State, t: State, from: real)
    requires s.log <= t.log && (t.log == s.log ==> t.appliedAt == s.appliedAt)
    ensures |s.log| < |t.log| || Lapse(t, from) == Lapse(s, from)
  {
    if |s.log| == |t.log| {
      assert t.log == s.log;
    }
  }

  lemma {:induction false} ReplacedAfterLapse(c: Config, k: Ticking, s: State, run: seq<Action>)
    requires c.skew >= 0.0 && k.period >= 0.0 && k.latency >= 0.0 && k.id in c.pods
    requires Reachable(c, s) && s.log != [] && IsTickingRun(c, k, s.now, s, run)
    ensures IsRun(c, s, run) && LogInv(c, Final(c, s, run).log) && s.log <= Final(c, s, run).log
    ensures Final(c, s, run).now > Max(s.log[|s.log| - 1].Expiry(), s.now) + k.period + k.latency ==>
              |s.log| < |Final(c, s, run).log|
  {
    NoStaleLease(c, k, s, run);
    ReachableStamps(c, s);
    StoredWhenApplied(c, s, run);
    SameLogSameLapse(s, Final(c, s, run), s.now);
  }

  /** Fail-over. From any reachable state with a current record `r`, go on until a period and a tick have passed
      since `r` lapsed, or since then if it had lapsed already. If its holder stored nothing on the way, another pod
      has taken the Lease from it. */
  lemma {:induction false} FailOver(c: Config, k: Ticking, s: State, run: seq<Action>)
    requires c.skew >= 0.0 && k.period >= 0.0 && k.latency >= 0.0 && k.id in c.pods
    requires Reachable(c, s) && s.log != [] && IsTickingRun(c, k, s.now, s, run)
    ensures IsRun(c, s, run)
    ensures var t, r, n := Final(c, s, run), s.log[|s.log| - 1], |s.log|;
      && s.log <= t.log
      && (t.now > Max(r.Expiry(), s.now) + k.period + k.latency
          && (forall m :: n <= m < |t.log| ==> t.log[m].holder != r.holder) ==>
            && n < |t.log|
            && t.log[n].holder != r.holder
            && t.log[n].transitions == r.transitions + 1
            && t.log[n].renewTime > r.Expiry())
  {
    ReplacedAfterLapse(c, k, s, run);
    if |s.log| < |Final(c, s, run).log| {
      LinkShape(c, Final(c, s, run).log, |s.log|);
    }
  }

  /** With the default 15 second duration, a record that is still valid is replaced within 20 seconds of its renew
      time whenever a period and a tick together take less than the remaining five. */
  lemma {:induction false} DefaultsFailOverWithin20(c: Config, k: Ticking, s: State, run: seq<Action>)
    requires c.skew >= 0.0 && k.period >= 0.0 && k.latency >= 0.0 && k.id in c.pods
    requires forall id :: id in c.pods ==> c.pods[id].leaseDuration == DEFAULT_LEASE_DURATION_SEC
    requires Reachable(c, s) && s.log != [] && IsTickingRun(c, k, s.now, s, run)
    requires k.period + k.latency < 5.0
    ensures IsRun(c, s, run)
    ensures var t, r := Final(c, s, run), s.log[|s.log| - 1];
      s.now <= r.Expiry() && t.now >= r.renewTime + 20.0 ==> |s.log| < |t.log|
  {
    ReplacedAfterLapse(c, k, s, run);
    var t, n := Final(c, s, run), |s.log| - 1;
    LinkShape(c, t.log, n);
    assert t.log[n] == s.log[n];
    DefaultIsReadBack(c.backend);
  }

  // ---------- The drivers ----------

  /** The drivers wait `retry` after a tick has ended, so their ticks start up to `retry + latency` apart. */
  datatype Driver = Driver(id: Identity, retry: real, latency: real) {
    function AsTicking(): Ticking {
      Ticking(id, retry + latency, latency)
    }
  }

  predicate WaitsAfterTick(d: Driver, from: real, s: State, a: Action)
    requires d.id in s.pods
  {
    var p := s.pods[d.id];
    && a != GetFails(d.id) && a != LoseAnswer(d.id) && a != Stop(d.id) && a != Restart(d.id)
    && (a.Advance? ==>
          a.to <= if p.phase.Idle? then Max(p.tickEnd, from) + d.retry else Max(p.tickStart, from) + d.latency)
  }

  ghost predicate IsDriverRun(c: Config, d: Driver, from: real, s: State, run: seq<Action>)
    requires d.id in c.pods
    decreases |run|
  {
    run != [] ==>
      && Enabled(c, s, run[0]) && WaitsAfterTick(d, from, s, run[0])
      && IsDriverRun(c, d, from, After(c, s, run[0]), run[1..])
  }

  ghost predicate DriverPod(d: Driver, from: real, s: State) {
    && d.id in s.pods
    && var p := s.pods[d.id];
      && p.tickEnd <= Max(p.tickStart, from) + d.latency && p.tickEnd <= s.now
      && (!p.phase.Idle? ==> s.now <= Max(p.tickStart, from) + d.latency)
  }

  lemma {:induction false} DriverRunTicks(c: Config, d: Driver, from: real, s: State, run: seq<Action>)
    requires d.retry >= 0.0 && d.latency >= 0.0 && d.id in c.pods && WellFormed(c, s) && DriverPod(d, from, s)
    requires IsDriverRun(c, d, from, s, run)
    ensures IsTickingRun(c, d.AsTicking(), from, s, run)
    decreases |run|
  {
    if run != [] {
      StepFrame(c, s, run[0]);
      DriverRunTicks(c, d, from, After(c, s, run[0]), run[1..]);
    }
  }

  /** From `s` on, whatever happens while the driver runs: a record that is still valid at `s` is gone once `bound` has
      passed since its renew time. */
  ghost predicate ReplacedWithin(c: Config, d: Driver, bound: real, s: State, run: seq<Action>)
    requires d.id in c.pods && IsRun(c, s, run)
  {
    s.log != [] && s.now <= s.log[|s.log| - 1].Expiry()
    && Final(c, s, run).now >= s.log[|s.log| - 1].renewTime + bound ==>
      |s.log| < |Final(c, s, run).log|
  }

  /** Fail-over within `bound` of the renew time: from every reachable state, over all runs in which the driver works
      from then on, whatever befell its pod before. */
  ghost predicate FailsOverWithin(c: Config, d: Driver, bound: real)
    requires d.id in c.pods
  {
    forall s, run :: Reachable(c, s) && IsDriverRun(c, d, s.now, s, run) && IsRun(c, s, run) ==>
      ReplacedWithin(c, d, bound, s, run)
  }

  lemma {:induction false} FailsOverInTime(
      c: Config, d: Driver, duration: real, bound: real, s: State, run: seq<Action>)
    requires c.skew >= 0.0 && d.retry >= 0.0 && d.latency >= 0.0 && d.id in c.pods
    requires forall id :: id in c.pods ==> StoredDuration(c, id) == duration
    requires duration + d.retry + 2.0 * d.latency < bound
    requires Reachable(c, s) && IsDriverRun(c, d, s.now, s, run)
    ensures IsRun(c, s, run) && ReplacedWithin(c, d, bound, s, run)
  {
    ReachableInv(c, s);
    ReachableStamps(c, s);
    DriverRunTicks(c, d, s.now, s, run);
    NoStaleLease(c, d.AsTicking(), s, run);
    if s.log != [] {
      ReplacedAfterLapse(c, d.AsTicking(), s, run);
      var t, n := Final(c, s, run), |s.log| - 1;
      LinkShape(c, t.log, n);
      assert t.log[n] == s.log[n];
      assert s.log[n].Expiry() == s.log[n].renewTime + duration;
    }
  }

  lemma {:induction false} DriverExtended(c: Config, d: Driver, from: real, s: State, run: seq<Action>, a: Action)
    returns (longer: seq<Action>, t: State)
    requires d.id in c.pods && IsDriverRun(c, d, from, s, run) && IsRun(c, s, run)
    requires Enabled(c, Final(c, s, run), a) && WaitsAfterTick(d, from, Final(c, s, run), a)
    ensures longer == run + [a] && IsDriverRun(c, d, from, s, longer) && IsRun(c, s, longer)
    ensures t == Final(c, s, longer) == After(c, Final(c, s, run), a)
    decreases |run|
  {
    longer, t := Extended(c, s, run, a);
    if run == [] {
      assert longer[1..] == [];
    } else {
      assert longer[1..] == run[1..] + [a];
      var _, _ := DriverExtended(c, d, from, After(c, s, run[0]), run[1..], a);
    }
  }

  /** `i` stores the first record at time zero and is silent from then on. */
  lemma {:induction false} FirstRecord(c: Config, i: Identity)
    returns (s: State)
    requires c.skew >= 0.0 && i in c.pods
    ensures Reachable(c, s) && WellFormed(c, s) && s.now == 0.0
    ensures s.log == [LeaseRecord(i, StoredDuration(c, i), 0.0, 0.0, 0, Some(1))]
    ensures forall j :: j in s.pods && j != i ==> s.pods[j] == NewPod(0.0, 0, 0.0)
  {
    var s0 := Init(c, 0.0);
    var run;
    run, s := Extended(c, s0, [], StartTick(i, 0.0));
    run, s := Extended(c, s0, run, GetReturns(i));
    run, s := Extended(c, s0, run, Resolve(i));
    var request := s.pods[i].phase.request;
    assert request.write == Create(LeaseRecord(i, c.pods[i].leaseDuration, 0.0, 0.0, 0, None));
    run, s := Extended(c, s0, run, Deliver(request));
  }

  /** The driver's pod is a standby whose latest tick ended at `tickEnd`, and `record` is the only one stored. */
  predicate AtRest(c: Config, d: Driver, s: State, record: LeaseRecord, tickEnd: real) {
    && WellFormed(c, s) && d.id in s.pods && s.log == [record] && record.holder != d.id
    && s.pods[d.id].phase.Idle? && s.pods[d.id].loop.Acquiring?
    && s.pods[d.id].readAt <= s.now && s.pods[d.id].tickEnd == tickEnd <= s.now
  }

  /** A tick that begins while `record` is valid leaves it where it is, however long it takes. */
  lemma {:induction false} QuietTick(
      c: Config, d: Driver, from: real, s0: State, sofar: seq<Action>, record: LeaseRecord, length: real)
    returns (run: seq<Action>, s: State)
    requires c.skew >= 0.0 && d.retry >= 0.0 && 0.0 <= length <= d.latency && d.id in c.pods
    requires IsDriverRun(c, d, from, s0, sofar) && IsRun(c, s0, sofar)
    requires var s := Final(c, s0, sofar);
      d.id in s.pods && AtRest(c, d, s, record, s.pods[d.id].tickEnd) && s.now <= record.Expiry()
    ensures IsDriverRun(c, d, from, s0, run) && IsRun(c, s0, run) && s == Final(c, s0, run)
    ensures s.now == Final(c, s0, sofar).now + length && AtRest(c, d, s, record, s.now)
  {
    s := Final(c, s0, sofar);
    run, s := DriverExtended(c, d, from, s0, sofar, StartTick(d.id, s.now));
    run, s := DriverExtended(c, d, from, s0, run, GetReturns(d.id));
    run, s := DriverExtended(c, d, from, s0, run, Advance(s.now + length));
    assert s.log[..1] == s.log;
    run, s := DriverExtended(c, d, from, s0, run, Resolve(d.id));
  }

  function Times(n: nat, x: real): real {
    if n == 0 then 0.0 else Times(n - 1, x) + x
  }

  lemma {:induction false} TimesIsProduct(n: nat, x: real)
    ensures Times(n, x) == n as real * x
  {
    if n > 0 {
      TimesIsProduct(n - 1, x);
    }
  }

  lemma {:induction false} EnoughTimes(x: real, y: real) returns (n: nat)
    requires x > 0.0 && y >= 0.0
    ensures y <= Times(n, x)
  {
    n := (y / x).Floor + 1;
    TimesIsProduct(n, x);
    assert y / x <= n as real;
    assert y == (y / x) * x;
  }

  /** The driver can idle away the time up to `until` by ticks of no length, `retry` apart. */
  lemma {:induction false} StandByUntil(
      c: Config, d: Driver, from: real, s0: State, sofar: seq<Action>, record: LeaseRecord, until: real, n: nat)
    returns (run: seq<Action>, s: State, tickEnd: real)
    requires c.skew >= 0.0 && d.retry >= 0.0 && d.latency >= 0.0 && d.id in c.pods
    requires IsDriverRun(c, d, from, s0, sofar) && IsRun(c, s0, sofar)
    requires var s := Final(c, s0, sofar);
      AtRest(c, d, s, record, s.now) && s.now <= until <= record.Expiry() && until - s.now <= Times(n, d.retry)
    ensures IsDriverRun(c, d, from, s0, run) && IsRun(c, s0, run) && s == Final(c, s0, run)
    ensures AtRest(c, d, s, record, tickEnd) && s.now == until
    decreases n
  {
    s := Final(c, s0, sofar);
    if until - s.now <= d.retry {
      tickEnd := s.now;
      run, s := DriverExtended(c, d, from, s0, sofar, Advance(until));
    } else {
      run, s := DriverExtended(c, d, from, s0, sofar, Advance(s.now + d.retry));
      run, s := QuietTick(c, d, from, s0, run, record, 0.0);
      run, s, tickEnd := StandByUntil(c, d, from, s0, run, record, until, n - 1);
    }
  }

  /** The slowest fail-over: a tick that begins as the record lapses, the wait after it, and one more tick, which
      has not written yet when its time is up. The first record is still there. */
  lemma {:induction false} SlowestFailOver(c: Config, d: Driver, i: Identity)
    returns (s: State, run: seq<Action>)
    requires c.skew >= 0.0 && d.retry > 0.0 && d.latency >= 0.0
    requires d.id in c.pods && i in c.pods && i != d.id && StoredDuration(c, i) >= 0.0
    ensures Reachable(c, s) && s.now == 0.0 && IsDriverRun(c, d, 0.0, s, run) && IsRun(c, s, run)
    ensures s.log == [LeaseRecord(i, StoredDuration(c, i), 0.0, 0.0, 0, Some(1))]
    ensures Final(c, s, run).log == s.log
    ensures Final(c, s, run).now == StoredDuration(c, i) + d.retry + 2.0 * d.latency
  {
    s := FirstRecord(c, i);
    var record, t, tickEnd := s.log[0], s, 0.0;
    var n := EnoughTimes(d.retry, StoredDuration(c, i));
    run, t, tickEnd := StandByUntil(c, d, 0.0, s, [], record, StoredDuration(c, i), n);
    run, t := QuietTick(c, d, 0.0, s, run, record, d.latency);
    run, t := DriverExtended(c, d, 0.0, s, run, Advance(t.now + d.retry));
    run, t := DriverExtended(c, d, 0.0, s, run, StartTick(d.id, t.now));
    run, t := DriverExtended(c, d, 0.0, s, run, Advance(t.now + d.latency));
  }

  /** Exactly when the drivers fail over in time: with any retry time and any bound on a tick, every record that is
      still valid is gone within `bound` of its renew time, from every reachable state and on every run from there, if
      and only if the bound exceeds the duration, the retry time and two ticks together. */
  lemma {:induction false} FailOverIff(c: Config, d: Driver, duration: real, bound: real)
    requires c.skew >= 0.0 && d.retry > 0.0 && d.latency >= 0.0 && d.id in c.pods && |c.pods| >= 2
    requires duration >= 0.0 && forall id :: id in c.pods ==> StoredDuration(c, id) == duration
    ensures FailsOverWithin(c, d, bound) <==> duration + d.retry + 2.0 * d.latency < bound
  {
    if duration + d.retry + 2.0 * d.latency < bound {
      forall s, run | Reachable(c, s) && IsDriverRun(c, d, s.now, s, run) && IsRun(c, s, run)
        ensures ReplacedWithin(c, d, bound, s, run)
      {
        FailsOverInTime(c, d, duration, bound, s, run);
      }
    } else {
      assert c.pods.Keys - {d.id} != {} by {
        assert |c.pods.Keys - {d.id}| == |c.pods.Keys| - 1;
      }
      var i :| i in c.pods.Keys - {d.id};
      var s, run := SlowestFailOver(c, d, i);
      assert !ReplacedWithin(c, d, bound, s, run);
    }
  }

  /** With the default duration and retry time, fail-over takes less than 20 seconds if and only if two ticks take
      less than three: a tick must take less than 1.5. */
  lemma {:induction false} FailOverWithin20Iff(c: Config, d: Driver)
    requires c.skew >= 0.0 && d.latency >= 0.0 && d.id in c.pods && |c.pods| >= 2
    requires d.retry == DEFAULT_RETRY_PERIOD_SEC
    requires forall id :: id in c.pods ==> c.pods[id].leaseDuration == DEFAULT_LEASE_DURATION_SEC
    ensures FailsOverWithin(c, d, 20.0) <==> DEFAULT_RETRY_PERIOD_SEC + 2.0 * d.latency < 5.0
    ensures FailsOverWithin(c, d, 20.0) <==> d.latency < 1.5
  {
    DefaultIsReadBack(c.backend);
    FailOverIff(c, d, DEFAULT_LEASE_DURATION_SEC, 20.0);
  }
}
