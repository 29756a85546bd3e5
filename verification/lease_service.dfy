/** When the pods' services can overlap: exactly when the timing bound fails. */
module LeaseService {
  import opened Wrappers
  import opened LeaseRecords
  import opened LeaseBackends
  import opened LeaseProtocol

  /** What the environment grants: ends of consecutive renew ticks at most `gap` apart, and a cancelled
      service gone within `unwind`. A tick may last as long as the pod's renew deadline. */
  datatype Timing = Timing(gap: real, unwind: real)

  predicate MayWaitUntil(c: Config, tm: Timing, id: Identity, p: Pod, to: real)
    requires id in c.pods
  {
    && (p.loop.Renewing? ==> to <= p.tickEnd + tm.gap)
    && (!p.phase.Idle? ==> to <= p.tickStart + c.pods[id].renewDeadline)
    && (p.service.Cancelled? ==> to <= p.service.since + tm.unwind)
  }

  ghost predicate Timely(c: Config, tm: Timing, s: State, a: Action)
    requires WellFormed(c, s)
  {
    a.Advance? ==> forall id :: id in s.pods ==> MayWaitUntil(c, tm, id, s.pods[id], a.to)
  }

  ghost predicate IsTimelyRun(c: Config, tm: Timing, s: State, run: seq<Action>)
    decreases |run|
  {
    run != [] ==>
      && Enabled(c, s, run[0]) && Timely(c, tm, s, run[0])
      && IsTimelyRun(c, tm, After(c, s, run[0]), run[1..])
  }

  lemma {:induction false} TimelyRunIsRun(c: Config, tm: Timing, s: State, run: seq<Action>)
    requires IsTimelyRun(c, tm, s, run)
    ensures IsRun(c, s, run)
    decreases |run|
  {
    if run != [] {
      TimelyRunIsRun(c, tm, After(c, s, run[0]), run[1..]);
    }
  }

  ghost predicate TimelyReachable(c: Config, tm: Timing, s: State) {
    exists start, run ::
      IsTimelyRun(c, tm, Init(c, start), run) && IsRun(c, Init(c, start), run) && s == Final(c, Init(c, start), run)
  }

  /** Durations and bounds that make sense as such; no relation between them is asked for. */
  predicate Sensible(c: Config, tm: Timing) {
    && c.skew >= 0.0 && tm.gap >= 0.0 && tm.unwind >= 0.0
    && forall id :: id in c.pods ==> c.pods[id].renewDeadline >= 0.0
  }

  /** The bound that keeps the services apart. */
  predicate SafeTiming(c: Config, tm: Timing) {
    forall id :: id in c.pods ==>
      c.pods[id].renewDeadline + tm.gap + tm.unwind + c.skew <= StoredDuration(c, id)
  }

  /** At most one pod's service is alive: running, or cancelled but not gone yet. */
  ghost predicate OneService(s: State) {
    forall i, j :: i in s.pods && j in s.pods && s.pods[i].service.Alive() && s.pods[j].service.Alive() ==> i == j
  }

  // ---------- Stepping down, whatever the bound ----------

  /** A tick ends within the deadline of its own clock reading, and a pod leaves the renew loop no later than one
      gap after the last tick that kept it there. */
  ghost predicate PacedPod(c: Config, tm: Timing, now: real, id: Identity, p: Pod)
    requires id in c.pods
  {
    var deadline, last := c.pods[id].renewDeadline, p.elector.lastRenewSuccess;
    && p.tickStart <= now && p.tickEnd <= now
    && (!p.phase.Idle? ==> now <= p.tickStart + deadline && p.tickStart <= p.readAt && !p.loop.Returned?)
    && (p.loop.Renewing? ==> p.tickEnd <= last + deadline && now <= p.tickEnd + tm.gap)
    && (p.service.Running? ==> p.loop.Renewing?)
    && (p.service.Cancelled? ==>
          p.loop.Returned? && p.service.since <= last + deadline + tm.gap && now <= p.service.since + tm.unwind)
  }

  ghost predicate PacedInv(c: Config, tm: Timing, s: State) {
    && Inv(c, s)
    && forall id :: id in s.pods ==> PacedPod(c, tm, s.now, id, s.pods[id])
  }

  lemma {:induction false} TickEndKeepsPace(c: Config, tm: Timing, s: State, a: Action)
    requires Sensible(c, tm) && PacedInv(c, tm, s) && Enabled(c, s, a)
    requires a.Resolve? || a.Receive? || a.FinishFailed?
    ensures PacedPod(c, tm, s.now, a.id, After(c, s, a).pods[a.id])
  {
    var p := s.pods[a.id];
    assert PacedPod(c, tm, s.now, a.id, p) && PodInv(c, s.now, s.log, a.id, p);
  }

  lemma {:induction false} OwnStepKeepsPace(c: Config, tm: Timing, s: State, a: Action)
    requires Sensible(c, tm) && PacedInv(c, tm, s) && !a.Advance? && !a.Deliver? && Enabled(c, s, a)
    ensures PacedPod(c, tm, s.now, a.id, After(c, s, a).pods[a.id])
  {
    if a.Resolve? || a.Receive? || a.FinishFailed? {
      TickEndKeepsPace(c, tm, s, a);
    } else {
      assert PacedPod(c, tm, s.now, a.id, s.pods[a.id]);
    }
  }

  lemma {:induction false} WaitKeepsPace(c: Config, tm: Timing, s: State, to: real, id: Identity)
    requires PacedInv(c, tm, s) && s.now <= to && Timely(c, tm, s, Advance(to)) && id in s.pods
    ensures PacedPod(c, tm, to, id, s.pods[id])
  {
    assert PacedPod(c, tm, s.now, id, s.pods[id]);
    assert MayWaitUntil(c, tm, id, s.pods[id], to);
  }

  lemma {:induction false} DeliverKeepsPace(c: Config, tm: Timing, s: State, r: Request, id: Identity)
    requires PacedInv(c, tm, s) && r in s.net && id in s.pods
    ensures PacedPod(c, tm, s.now, id, Delivered(c, s, r).pods[id])
  {
    assert PacedPod(c, tm, s.now, id, s.pods[id]);
  }

  lemma {:induction false} TimelyStepKeepsPace(c: Config, tm: Timing, s: State, a: Action)
    requires Sensible(c, tm) && PacedInv(c, tm, s) && Enabled(c, s, a) && Timely(c, tm, s, a)
    ensures PacedInv(c, tm, After(c, s, a))
  {
    var t := After(c, s, a);
    StepKeepsInv(c, s, a);
    StepFrame(c, s, a);
    forall id | id in t.pods
      ensures PacedPod(c, tm, t.now, id, t.pods[id])
    {
      if a.Advance? {
        WaitKeepsPace(c, tm, s, a.to, id);
      } else if a.Deliver? {
        DeliverKeepsPace(c, tm, s, a.request, id);
      } else if a.id == id {
        OwnStepKeepsPace(c, tm, s, a);
      } else {
        assert t.pods[id] == s.pods[id] && PacedPod(c, tm, s.now, id, s.pods[id]);
      }
    }
  }

  lemma {:induction false} TimelyRunKeepsPace(c: Config, tm: Timing, s: State, run: seq<Action>)
    requires Sensible(c, tm) && PacedInv(c, tm, s) && IsTimelyRun(c, tm, s, run)
    ensures IsRun(c, s, run) && PacedInv(c, tm, Final(c, s, run))
    decreases |run|
  {
    if run != [] {
      TimelyStepKeepsPace(c, tm, s, run[0]);
      TimelyRunKeepsPace(c, tm, After(c, s, run[0]), run[1..]);
    }
  }

  /** A leader that cannot renew has left the renew loop by last success + renew deadline + gap, and its service is
      gone one unwind time later, whether or not these fit into the lease duration. */
  lemma {:induction false} StepsDownInTime(c: Config, tm: Timing, s: State, id: Identity)
    requires Sensible(c, tm) && TimelyReachable(c, tm, s) && id in s.pods
    ensures id in c.pods
    ensures s.pods[id].loop.Renewing? ==>
              s.now <= s.pods[id].elector.lastRenewSuccess + c.pods[id].renewDeadline + tm.gap
    ensures s.pods[id].service.Alive() ==>
              s.now <= s.pods[id].elector.lastRenewSuccess + c.pods[id].renewDeadline + tm.gap + tm.unwind
  {
    var start, run :|
      IsTimelyRun(c, tm, Init(c, start), run) && IsRun(c, Init(c, start), run) && s == Final(c, Init(c, start), run);
    TimelyRunKeepsPace(c, tm, Init(c, start), run);
    assert PacedPod(c, tm, s.now, id, s.pods[id]);
  }

  // ---------- The bound is enough ----------

  /** A renewing pod that has read the store has read its own record. */
  ghost predicate ReadsItself(log: seq<LeaseRecord>, id: Identity, p: Pod) {
    p.loop.Renewing? && p.phase.Deciding? ==> 0 < p.phase.base <= |log| && log[p.phase.base - 1].holder == id
  }

  ghost predicate TimedInv(c: Config, tm: Timing, s: State) {
    && PacedInv(c, tm, s)
    && forall id :: id in s.pods ==> ReadsItself(s.log, id, s.pods[id])
  }

  /** A pod whose last success still counts under the bound is the holder. */
  lemma {:induction false} RecentSuccessHolds(c: Config, tm: Timing, s: State, id: Identity)
    requires Sensible(c, tm) && SafeTiming(c, tm) && PacedInv(c, tm, s) && id in s.pods
    requires s.pods[id].loop.Renewing? || s.pods[id].service.Alive()
    ensures s.log != [] && s.log[|s.log| - 1].holder == id
  {
    assert PodInv(c, s.now, s.log, id, s.pods[id]);
    assert PacedPod(c, tm, s.now, id, s.pods[id]);
  }

  lemma {:induction false} OwnStepReadsItself(c: Config, tm: Timing, s: State, a: Action)
    requires Sensible(c, tm) && SafeTiming(c, tm) && TimedInv(c, tm, s)
    requires !a.Advance? && !a.Deliver? && Enabled(c, s, a)
    ensures ReadsItself(s.log, a.id, After(c, s, a).pods[a.id])
  {
    assert ReadsItself(s.log, a.id, s.pods[a.id]);
    if a.GetReturns? && s.pods[a.id].loop.Renewing? {
      RecentSuccessHolds(c, tm, s, a.id);
    }
  }

  lemma {:induction false} ReadsItselfStays(log: seq<LeaseRecord>, more: seq<LeaseRecord>, id: Identity, p: Pod)
    requires ReadsItself(log, id, p) && log <= more
    ensures ReadsItself(more, id, p)
  {
  }

  lemma {:induction false} DeliverReadsItself(c: Config, s: State, r: Request, id: Identity)
    requires r in s.net && id in s.pods && ReadsItself(s.log, id, s.pods[id])
    ensures ReadsItself(Delivered(c, s, r).log, id, Delivered(c, s, r).pods[id])
  {
    ReadsItselfStays(s.log, Delivered(c, s, r).log, id, s.pods[id]);
  }

  /** Every timely step keeps each pod's timing facts, and that renewing pods read themselves. */
  lemma {:induction false} TimelyStepKeepsInv(c: Config, tm: Timing, s: State, a: Action)
    requires Sensible(c, tm) && SafeTiming(c, tm)
    requires TimedInv(c, tm, s) && Enabled(c, s, a) && Timely(c, tm, s, a)
    ensures TimedInv(c, tm, After(c, s, a))
  {
    var t := After(c, s, a);
    TimelyStepKeepsPace(c, tm, s, a);
    forall id | id in t.pods
      ensures ReadsItself(t.log, id, t.pods[id])
    {
      StepFrame(c, s, a);
      assert ReadsItself(s.log, id, s.pods[id]);
      if a.Deliver? {
        DeliverReadsItself(c, s, a.request, id);
      } else if !a.Advance? && a.id == id {
        OwnStepReadsItself(c, tm, s, a);
      } else {
        assert t.pods[id] == s.pods[id];
      }
    }
  }

  lemma {:induction false} TimelyRunKeepsInv(c: Config, tm: Timing, s: State, run: seq<Action>)
    requires Sensible(c, tm) && SafeTiming(c, tm) && TimedInv(c, tm, s) && IsTimelyRun(c, tm, s, run)
    ensures IsRun(c, s, run) && TimedInv(c, tm, Final(c, s, run))
    decreases |run|
  {
    if run != [] {
      TimelyStepKeepsInv(c, tm, s, run[0]);
      TimelyRunKeepsInv(c, tm, After(c, s, run[0]), run[1..]);
    }
  }

  lemma {:induction false} TimelyReachableInv(c: Config, tm: Timing, s: State)
    requires Sensible(c, tm) && SafeTiming(c, tm) && TimelyReachable(c, tm, s)
    ensures TimedInv(c, tm, s)
  {
    var start, run :|
      IsTimelyRun(c, tm, Init(c, start), run) && IsRun(c, Init(c, start), run) && s == Final(c, Init(c, start), run);
    TimelyRunKeepsInv(c, tm, Init(c, start), run);
  }

  lemma {:induction false} AtMostOneService(c: Config, tm: Timing, s: State)
    requires Sensible(c, tm) && SafeTiming(c, tm) && TimelyReachable(c, tm, s)
    ensures OneService(s)
  {
    TimelyReachableInv(c, tm, s);
    forall i, j | i in s.pods && j in s.pods && s.pods[i].service.Alive() && s.pods[j].service.Alive()
      ensures i == j
    {
      RecentSuccessHolds(c, tm, s, i);
      RecentSuccessHolds(c, tm, s, j);
    }
  }

  /** Under the bound a running leader only ever reads its own record. */
  lemma {:induction false} LeaderReadsItself(c: Config, tm: Timing, s: State, id: Identity)
    requires Sensible(c, tm) && SafeTiming(c, tm) && TimelyReachable(c, tm, s)
    requires id in s.pods && s.pods[id].loop.Renewing? && s.pods[id].phase.Deciding?
    ensures id in c.pods && s.pods[id].phase.base <= |s.log|
    ensures var seen := Observed(s.log, s.pods[id].phase.base);
      seen.Some? && seen.value.holder == id
    ensures Proposal(c, s.log, id, s.pods[id].phase.base, s.pods[id].readAt).Propose?
  {
    TimelyReachableInv(c, tm, s);
    var p := s.pods[id];
    assert ReadsItself(s.log, id, p);
    assert s.log[..p.phase.base][p.phase.base - 1] == s.log[p.phase.base - 1];
  }

  /** So its flag is dropped by the renew deadline or by a crash, and by nothing else. */
  lemma {:induction false} LossGoesThroughTheDeadline(c: Config, tm: Timing, s: State, a: Action, id: Identity)
    requires Sensible(c, tm) && SafeTiming(c, tm) && TimelyReachable(c, tm, s)
    requires Enabled(c, s, a)
    requires id in s.pods && s.pods[id].loop.Renewing? && s.pods[id].elector.isLeader
    ensures id in c.pods && id in After(c, s, a).pods
    ensures !After(c, s, a).pods[id].elector.isLeader <==>
              || a == Restart(id)
              || (a.FinishFailed? && a.id == id
                  && a.check - s.pods[id].elector.lastRenewSuccess > c.pods[id].renewDeadline)
  {
    StepFrame(c, s, a);
    if a == Resolve(id) {
      LeaderReadsItself(c, tm, s, id);
    }
  }

  // ---------- The bound is needed ----------

  /** Nobody was told to stop. */
  predicate NeverStops(run: seq<Action>) {
    forall k :: 0 <= k < |run| ==> !run[k].Stop?
  }

  lemma {:induction false} TimelyExtended(c: Config, tm: Timing, s: State, run: seq<Action>, a: Action)
    returns (longer: seq<Action>, t: State)
    requires IsTimelyRun(c, tm, s, run) && IsRun(c, s, run)
    requires Enabled(c, Final(c, s, run), a) && Timely(c, tm, Final(c, s, run), a)
    ensures longer == run + [a] && IsTimelyRun(c, tm, s, longer) && IsRun(c, s, longer)
    ensures t == Final(c, s, longer) == After(c, Final(c, s, run), a)
    decreases |run|
  {
    longer, t := Extended(c, s, run, a);
    if run == [] {
      assert longer[1..] == [];
    } else {
      assert longer[1..] == run[1..] + [a];
      var _, _ := TimelyExtended(c, tm, After(c, s, run[0]), run[1..], a);
    }
  }

  /** `i` writes the first record at time zero. */
  lemma {:induction false} FirstWrite(c: Config, tm: Timing, i: Identity)
    returns (run: seq<Action>, s: State)
    requires Sensible(c, tm) && i in c.pods
    ensures IsTimelyRun(c, tm, Init(c, 0.0), run) && IsRun(c, Init(c, 0.0), run) && s == Final(c, Init(c, 0.0), run)
    ensures WellFormed(c, s) && s.now == 0.0 && s.log == [] && NeverStops(run)
    ensures var p := s.pods[i];
      && p.phase.Waiting? && p.loop.Acquiring? && !p.elector.isLeader && p.service.NotStarted?
      && p.tickStart == 0.0 && p.phase.request in s.net && p.phase.request.owner == i && p.phase.request.time == 0.0
      && p.phase.request.write == Create(LeaseRecord(i, c.pods[i].leaseDuration, 0.0, 0.0, 0, None))
    ensures forall j :: j in s.pods && j != i ==> s.pods[j] == NewPod(0.0, 0, 0.0)
  {
    var s0 := Init(c, 0.0);
    run, s := TimelyExtended(c, tm, s0, [], StartTick(i, 0.0));
    run, s := TimelyExtended(c, tm, s0, run, GetReturns(i));
    run, s := TimelyExtended(c, tm, s0, run, Resolve(i));
  }

  /** Its tick lasts its whole renew deadline. */
  lemma {:induction false} SlowestAcquire(c: Config, tm: Timing, i: Identity)
    returns (run: seq<Action>, s: State)
    requires Sensible(c, tm) && i in c.pods
    ensures IsTimelyRun(c, tm, Init(c, 0.0), run) && IsRun(c, Init(c, 0.0), run) && s == Final(c, Init(c, 0.0), run)
    ensures WellFormed(c, s) && s.now == c.pods[i].renewDeadline && NeverStops(run)
    ensures s.log == [LeaseRecord(i, StoredDuration(c, i), 0.0, 0.0, 0, Some(1))]
    ensures var p := s.pods[i];
      && p.phase.Answered? && p.phase.ok && p.phase.request.time == 0.0
      && p.loop.Acquiring? && !p.elector.isLeader
    ensures forall j :: j in s.pods && j != i ==> s.pods[j] == NewPod(0.0, 0, 0.0)
  {
    run, s := FirstWrite(c, tm, i);
    run, s := TimelyExtended(c, tm, Init(c, 0.0), run, Deliver(s.pods[i].phase.request));
    run, s := TimelyExtended(c, tm, Init(c, 0.0), run, Advance(c.pods[i].renewDeadline));
  }

  /** Its service runs from then on; it waits out the gap, is told to stop, and the service is cancelled. */
  lemma {:induction false} SlowestRenew(c: Config, tm: Timing, i: Identity)
    returns (run: seq<Action>, s: State)
    requires Sensible(c, tm) && i in c.pods
    ensures IsTimelyRun(c, tm, Init(c, 0.0), run) && IsRun(c, Init(c, 0.0), run) && s == Final(c, Init(c, 0.0), run)
    ensures WellFormed(c, s) && s.now == c.pods[i].renewDeadline + tm.gap
    ensures s.log == [LeaseRecord(i, StoredDuration(c, i), 0.0, 0.0, 0, Some(1))]
    ensures var p := s.pods[i];
      p.service == Cancelled(s.now) && p.elector.isLeader && p.phase.Idle? && p.loop.Returned?
    ensures forall j :: j in s.pods && j != i ==> s.pods[j] == NewPod(0.0, 0, 0.0)
  {
    var s0 := Init(c, 0.0);
    run, s := SlowestAcquire(c, tm, i);
    run, s := TimelyExtended(c, tm, s0, run, Receive(i));
    run, s := TimelyExtended(c, tm, s0, run, Advance(c.pods[i].renewDeadline + tm.gap));
    run, s := TimelyExtended(c, tm, s0, run, Stop(i));
  }

  /** And the service takes all the time it may to end. */
  lemma {:induction false} SlowestLeader(c: Config, tm: Timing, i: Identity)
    returns (run: seq<Action>, s: State)
    requires Sensible(c, tm) && i in c.pods
    ensures IsTimelyRun(c, tm, Init(c, 0.0), run) && IsRun(c, Init(c, 0.0), run) && s == Final(c, Init(c, 0.0), run)
    ensures WellFormed(c, s) && s.now == c.pods[i].renewDeadline + tm.gap + tm.unwind
    ensures s.log == [LeaseRecord(i, StoredDuration(c, i), 0.0, 0.0, 0, Some(1))]
    ensures s.pods[i].service.Cancelled? && s.pods[i].elector.isLeader
    ensures forall j :: j in s.pods && j != i ==> s.pods[j] == NewPod(0.0, 0, 0.0)
  {
    run, s := SlowestRenew(c, tm, i);
    run, s := TimelyExtended(c, tm, Init(c, 0.0), run, Advance(s.now + tm.unwind));
  }

  /** Then another pod, whose clock is `skew` ahead, finds the record expired. */
  lemma {:induction false} EarlyTakeover(c: Config, tm: Timing, i: Identity, j: Identity)
    returns (run: seq<Action>, s: State)
    requires Sensible(c, tm) && i in c.pods && j in c.pods && i != j
    requires c.pods[i].renewDeadline + tm.gap + tm.unwind + c.skew > StoredDuration(c, i)
    ensures IsTimelyRun(c, tm, Init(c, 0.0), run) && IsRun(c, Init(c, 0.0), run) && s == Final(c, Init(c, 0.0), run)
    ensures WellFormed(c, s)
    ensures s.pods[i].service.Alive() && s.pods[i].elector.isLeader
    ensures |s.log| == 1 && s.log[0].version == Some(1)
    ensures s.pods[j].phase.Waiting? && s.pods[j].loop.Acquiring?
    ensures var request := s.pods[j].phase.request;
      request in s.net && request.owner == j && request.write.Update? && request.write.record.version == Some(1)
  {
    var s0 := Init(c, 0.0);
    run, s := SlowestLeader(c, tm, i);
    run, s := TimelyExtended(c, tm, s0, run, StartTick(j, s.now + c.skew));
    run, s := TimelyExtended(c, tm, s0, run, GetReturns(j));
    assert s.log[..1] == s.log;
    run, s := TimelyExtended(c, tm, s0, run, Resolve(j));
  }

  /** Two pods, and a bound missed by however little: some timely run ends with both services alive
      and both `is_leader` flags up. */
  lemma {:induction false} OverlapWithoutTheBound(c: Config, tm: Timing, i: Identity, j: Identity)
    returns (run: seq<Action>, s: State)
    requires Sensible(c, tm) && i in c.pods && j in c.pods && i != j
    requires c.pods[i].renewDeadline + tm.gap + tm.unwind + c.skew > StoredDuration(c, i)
    ensures IsTimelyRun(c, tm, Init(c, 0.0), run) && IsRun(c, Init(c, 0.0), run) && s == Final(c, Init(c, 0.0), run)
    ensures i in s.pods && s.pods[i].service.Alive() && s.pods[i].elector.isLeader
    ensures j in s.pods && s.pods[j].service.Alive() && s.pods[j].elector.isLeader
  {
    var s0 := Init(c, 0.0);
    run, s := EarlyTakeover(c, tm, i, j);
    run, s := TimelyExtended(c, tm, s0, run, Deliver(s.pods[j].phase.request));
    run, s := TimelyExtended(c, tm, s0, run, Receive(j));
  }

  /** With at least two pods, no timely run ever has two services alive if and only if every pod's renew
      deadline, the gap, the unwind time and the clock skew fit together into its stored duration. */
  lemma {:induction false} ExclusionIffTimingFits(c: Config, tm: Timing)
    requires Sensible(c, tm) && |c.pods| >= 2
    ensures (forall s :: TimelyReachable(c, tm, s) ==> OneService(s)) <==> SafeTiming(c, tm)
  {
    if SafeTiming(c, tm) {
      forall s | TimelyReachable(c, tm, s)
        ensures OneService(s)
      {
        AtMostOneService(c, tm, s);
      }
    } else {
      var i :| i in c.pods && c.pods[i].renewDeadline + tm.gap + tm.unwind + c.skew > StoredDuration(c, i);
      assert c.pods.Keys - {i} != {} by {
        assert |c.pods.Keys - {i}| == |c.pods.Keys| - 1;
      }
      var j :| j in c.pods.Keys - {i};
      var run, s := OverlapWithoutTheBound(c, tm, i, j);
      assert TimelyReachable(c, tm, s) && !OneService(s);
    }
  }

  // ---------- At most one leader ----------

  /** The bound that keeps the leaders apart: no unwind time, for it is the service that unwinds. */
  predicate LeadTiming(c: Config, tm: Timing) {
    forall id :: id in c.pods ==> c.pods[id].renewDeadline + tm.gap + c.skew <= StoredDuration(c, id)
  }

  /** At most one pod is in its renew loop. */
  ghost predicate OneRenewing(s: State) {
    forall i, j :: i in s.pods && j in s.pods && s.pods[i].loop.Renewing? && s.pods[j].loop.Renewing? ==> i == j
  }

  /** At most one `is_leader` flag is up. */
  ghost predicate OneFlag(s: State) {
    forall i, j :: i in s.pods && j in s.pods && s.pods[i].elector.isLeader && s.pods[j].elector.isLeader ==> i == j
  }

  lemma {:induction false} TimelyReachablePaced(c: Config, tm: Timing, s: State)
    requires Sensible(c, tm) && TimelyReachable(c, tm, s)
    ensures PacedInv(c, tm, s)
  {
    var start, run :|
      IsTimelyRun(c, tm, Init(c, start), run) && IsRun(c, Init(c, start), run) && s == Final(c, Init(c, start), run);
    TimelyRunKeepsPace(c, tm, Init(c, start), run);
  }

  lemma {:induction false} RenewingHolds(c: Config, tm: Timing, s: State, id: Identity)
    requires Sensible(c, tm) && LeadTiming(c, tm) && PacedInv(c, tm, s) && id in s.pods && s.pods[id].loop.Renewing?
    ensures s.log != [] && s.log[|s.log| - 1].holder == id
  {
    assert PodInv(c, s.now, s.log, id, s.pods[id]);
    assert PacedPod(c, tm, s.now, id, s.pods[id]);
  }

  lemma {:induction false} AtMostOneRenewing(c: Config, tm: Timing, s: State)
    requires Sensible(c, tm) && LeadTiming(c, tm) && TimelyReachable(c, tm, s)
    ensures OneRenewing(s)
  {
    TimelyReachablePaced(c, tm, s);
    forall i, j | i in s.pods && j in s.pods && s.pods[i].loop.Renewing? && s.pods[j].loop.Renewing?
      ensures i == j
    {
      RenewingHolds(c, tm, s, i);
      RenewingHolds(c, tm, s, j);
    }
  }

  ghost predicate FlagsInv(s: State) {
    forall id :: id in s.pods ==> FlagPod(s.pods[id])
  }

  predicate FlagPod(p: Pod) {
    (p.elector.isLeader <==> p.loop.Renewing?) && (p.loop.Returned? ==> p.phase.Idle?)
  }

  lemma {:induction false} StepKeepsFlags(c: Config, s: State, a: Action)
    requires FlagsInv(s) && Enabled(c, s, a) && !a.Stop?
    ensures FlagsInv(After(c, s, a))
  {
    var t := After(c, s, a);
    StepFrame(c, s, a);
    forall id | id in t.pods
      ensures FlagPod(t.pods[id])
    {
      assert FlagPod(s.pods[id]);
    }
  }

  lemma {:induction false} RunKeepsFlags(c: Config, s: State, run: seq<Action>)
    requires FlagsInv(s) && IsRun(c, s, run) && NeverStops(run)
    ensures FlagsInv(Final(c, s, run))
    decreases |run|
  {
    if run != [] {
      StepKeepsFlags(c, s, run[0]);
      RunKeepsFlags(c, After(c, s, run[0]), run[1..]);
    }
  }

  /** `i` is still in its renew loop when its gap is over, and nobody was told to stop. */
  lemma {:induction false} LongestRenewing(c: Config, tm: Timing, i: Identity)
    returns (run: seq<Action>, s: State)
    requires Sensible(c, tm) && i in c.pods
    ensures IsTimelyRun(c, tm, Init(c, 0.0), run) && IsRun(c, Init(c, 0.0), run) && s == Final(c, Init(c, 0.0), run)
    ensures WellFormed(c, s) && s.now == c.pods[i].renewDeadline + tm.gap && NeverStops(run)
    ensures s.log == [LeaseRecord(i, StoredDuration(c, i), 0.0, 0.0, 0, Some(1))]
    ensures s.pods[i].loop.Renewing? && s.pods[i].elector.isLeader
    ensures forall j :: j in s.pods && j != i ==> s.pods[j] == NewPod(0.0, 0, 0.0)
  {
    run, s := SlowestAcquire(c, tm, i);
    run, s := TimelyExtended(c, tm, Init(c, 0.0), run, Receive(i));
    run, s := TimelyExtended(c, tm, Init(c, 0.0), run, Advance(c.pods[i].renewDeadline + tm.gap));
  }

  /** Another pod, whose clock reads past the expiry of the only record, decides to take the Lease over. */
  lemma {:induction false} DecidesToTakeOver(
      c: Config, tm: Timing, sofar: seq<Action>, i: Identity, j: Identity, reading: real)
    returns (run: seq<Action>, s: State)
    requires Sensible(c, tm) && i in c.pods && j in c.pods && i != j
    requires IsTimelyRun(c, tm, Init(c, 0.0), sofar) && IsRun(c, Init(c, 0.0), sofar)
    requires var s := Final(c, Init(c, 0.0), sofar);
      && WellFormed(c, s) && s.pods[j] == NewPod(0.0, 0, 0.0) && 0.0 <= s.now <= reading <= s.now + c.skew
      && s.log == [LeaseRecord(i, StoredDuration(c, i), 0.0, 0.0, 0, Some(1))] && StoredDuration(c, i) < reading
    ensures IsTimelyRun(c, tm, Init(c, 0.0), run) && IsRun(c, Init(c, 0.0), run) && s == Final(c, Init(c, 0.0), run)
    ensures NeverStops(sofar) ==> NeverStops(run)
    ensures WellFormed(c, s) && s.pods[i] == Final(c, Init(c, 0.0), sofar).pods[i]
    ensures s.pods[j].phase.Waiting? && s.pods[j].loop.Acquiring?
    ensures var request := s.pods[j].phase.request;
      request in s.net && request.owner == j && Admits(s.log, Encoded(c.backend, request.write))
  {
    var s0 := Init(c, 0.0);
    s := Final(c, s0, sofar);
    run, s := TimelyExtended(c, tm, s0, sofar, StartTick(j, reading));
    run, s := TimelyExtended(c, tm, s0, run, GetReturns(j));
    assert s.log[..1] == s.log;
    run, s := TimelyExtended(c, tm, s0, run, Resolve(j));
  }

  lemma {:induction false} WriteAndLead(c: Config, tm: Timing, sofar: seq<Action>, j: Identity)
    returns (run: seq<Action>, s: State)
    requires j in c.pods && IsTimelyRun(c, tm, Init(c, 0.0), sofar) && IsRun(c, Init(c, 0.0), sofar)
    requires var s := Final(c, Init(c, 0.0), sofar);
      && WellFormed(c, s) && s.pods[j].phase.Waiting? && s.pods[j].loop.Acquiring?
      && var request := s.pods[j].phase.request;
        request in s.net && request.owner == j && Admits(s.log, Encoded(c.backend, request.write))
    ensures IsTimelyRun(c, tm, Init(c, 0.0), run) && IsRun(c, Init(c, 0.0), run) && s == Final(c, Init(c, 0.0), run)
    ensures NeverStops(sofar) ==> NeverStops(run)
    ensures WellFormed(c, s) && s.pods[j].loop.Renewing? && s.pods[j].elector.isLeader && s.pods[j].service.Alive()
    ensures forall i :: i in s.pods && i != j ==> s.pods[i] == Final(c, Init(c, 0.0), sofar).pods[i]
  {
    s := Final(c, Init(c, 0.0), sofar);
    run, s := TimelyExtended(c, tm, Init(c, 0.0), sofar, Deliver(s.pods[j].phase.request));
    run, s := TimelyExtended(c, tm, Init(c, 0.0), run, Receive(j));
  }

  /** And does, in no time. */
  lemma {:induction false} Takeover(
      c: Config, tm: Timing, sofar: seq<Action>, i: Identity, j: Identity, reading: real)
    returns (run: seq<Action>, s: State)
    requires Sensible(c, tm) && i in c.pods && j in c.pods && i != j
    requires IsTimelyRun(c, tm, Init(c, 0.0), sofar) && IsRun(c, Init(c, 0.0), sofar)
    requires var s := Final(c, Init(c, 0.0), sofar);
      && WellFormed(c, s) && s.pods[j] == NewPod(0.0, 0, 0.0) && 0.0 <= s.now <= reading <= s.now + c.skew
      && s.log == [LeaseRecord(i, StoredDuration(c, i), 0.0, 0.0, 0, Some(1))] && StoredDuration(c, i) < reading
    ensures IsTimelyRun(c, tm, Init(c, 0.0), run) && IsRun(c, Init(c, 0.0), run) && s == Final(c, Init(c, 0.0), run)
    ensures NeverStops(sofar) ==> NeverStops(run)
    ensures WellFormed(c, s) && s.pods[i] == Final(c, Init(c, 0.0), sofar).pods[i]
    ensures s.pods[j].loop.Renewing? && s.pods[j].elector.isLeader && s.pods[j].service.Alive()
  {
    run, s := DecidesToTakeOver(c, tm, sofar, i, j, reading);
    run, s := WriteAndLead(c, tm, run, j);
  }

  /** A bound missed by however little: some timely run, in which nobody is told to stop, ends with two pods in their
      renew loops and both flags up. */
  lemma {:induction false} TwoLeadersWithoutTheBound(c: Config, tm: Timing, i: Identity, j: Identity)
    returns (run: seq<Action>, s: State)
    requires Sensible(c, tm) && i in c.pods && j in c.pods && i != j
    requires c.pods[i].renewDeadline + tm.gap + c.skew > StoredDuration(c, i)
    ensures IsTimelyRun(c, tm, Init(c, 0.0), run) && IsRun(c, Init(c, 0.0), run) && s == Final(c, Init(c, 0.0), run)
    ensures NeverStops(run) && i in s.pods && j in s.pods
    ensures s.pods[i].loop.Renewing? && s.pods[i].elector.isLeader
    ensures s.pods[j].loop.Renewing? && s.pods[j].elector.isLeader
  {
    run, s := LongestRenewing(c, tm, i);
    run, s := Takeover(c, tm, run, i, j, s.now + c.skew);
  }

  lemma {:induction false} SomeMiss(c: Config, tm: Timing) returns (i: Identity, j: Identity)
    requires |c.pods| >= 2 && !LeadTiming(c, tm)
    ensures i in c.pods && j in c.pods && i != j && c.pods[i].renewDeadline + tm.gap + c.skew > StoredDuration(c, i)
  {
    i :| i in c.pods && c.pods[i].renewDeadline + tm.gap + c.skew > StoredDuration(c, i);
    assert c.pods.Keys - {i} != {} by {
      assert |c.pods.Keys - {i}| == |c.pods.Keys| - 1;
    }
    j :| j in c.pods.Keys - {i};
  }

  /** With at least two pods, no timely run ever has two of them in their renew loops if and only if every pod's renew
      deadline, the gap and the clock skew fit together into its stored duration. */
  lemma {:induction false} OneRenewingIff(c: Config, tm: Timing)
    requires Sensible(c, tm) && |c.pods| >= 2
    ensures (forall s :: TimelyReachable(c, tm, s) ==> OneRenewing(s)) <==> LeadTiming(c, tm)
  {
    if LeadTiming(c, tm) {
      forall s | TimelyReachable(c, tm, s)
        ensures OneRenewing(s)
      {
        AtMostOneRenewing(c, tm, s);
      }
    } else {
      var i, j := SomeMiss(c, tm);
      var run, s := TwoLeadersWithoutTheBound(c, tm, i, j);
      assert TimelyReachable(c, tm, s) && !OneRenewing(s);
    }
  }

  /** A state of a timely run in which nobody was told to stop. */
  ghost predicate UnstoppedReachable(c: Config, tm: Timing, s: State) {
    exists start, run ::
      && IsTimelyRun(c, tm, Init(c, start), run) && NeverStops(run)
      && IsRun(c, Init(c, start), run) && s == Final(c, Init(c, start), run)
  }

  /** Without `stop` the flag is up exactly in the renew loop. */
  lemma {:induction false} FlagMeansRenewing(c: Config, tm: Timing, s: State, id: Identity)
    requires UnstoppedReachable(c, tm, s) && id in s.pods
    ensures TimelyReachable(c, tm, s)
    ensures s.pods[id].elector.isLeader <==> s.pods[id].loop.Renewing?
  {
    var start, run :|
      && IsTimelyRun(c, tm, Init(c, start), run) && NeverStops(run)
      && IsRun(c, Init(c, start), run) && s == Final(c, Init(c, start), run);
    RunKeepsFlags(c, Init(c, start), run);
    assert FlagPod(s.pods[id]);
  }

  lemma {:induction false} AtMostOneFlag(c: Config, tm: Timing, s: State)
    requires Sensible(c, tm) && LeadTiming(c, tm) && UnstoppedReachable(c, tm, s)
    ensures OneFlag(s)
  {
    forall i, j | i in s.pods && j in s.pods && s.pods[i].elector.isLeader && s.pods[j].elector.isLeader
      ensures i == j
    {
      FlagMeansRenewing(c, tm, s, i);
      FlagMeansRenewing(c, tm, s, j);
      AtMostOneRenewing(c, tm, s);
    }
  }

  /** The same bound, no more and no less, keeps the `is_leader` flags apart as long as nobody is told to stop. */
  lemma {:induction false} OneFlagIff(c: Config, tm: Timing)
    requires Sensible(c, tm) && |c.pods| >= 2
    ensures (forall s :: UnstoppedReachable(c, tm, s) ==> OneFlag(s)) <==> LeadTiming(c, tm)
  {
    if LeadTiming(c, tm) {
      forall s | UnstoppedReachable(c, tm, s)
        ensures OneFlag(s)
      {
        AtMostOneFlag(c, tm, s);
      }
    } else {
      var i, j := SomeMiss(c, tm);
      var run, s := TwoLeadersWithoutTheBound(c, tm, i, j);
      assert UnstoppedReachable(c, tm, s) && !OneFlag(s);
    }
  }

  /** `stop` ends a leader but leaves its flag up. */
  lemma {:induction false} StoppedLeader(c: Config, tm: Timing, i: Identity)
    returns (run: seq<Action>, s: State)
    requires Sensible(c, tm) && i in c.pods
    ensures IsTimelyRun(c, tm, Init(c, 0.0), run) && IsRun(c, Init(c, 0.0), run) && s == Final(c, Init(c, 0.0), run)
    ensures WellFormed(c, s) && s.now == c.pods[i].renewDeadline
    ensures s.log == [LeaseRecord(i, StoredDuration(c, i), 0.0, 0.0, 0, Some(1))]
    ensures var p := s.pods[i];
      p.elector.isLeader && p.loop.Returned? && p.phase.Idle? && p.service.Ended?
    ensures forall j :: j in s.pods && j != i ==> s.pods[j] == NewPod(0.0, 0, 0.0)
  {
    run, s := SlowestAcquire(c, tm, i);
    run, s := TimelyExtended(c, tm, Init(c, 0.0), run, Receive(i));
    run, s := TimelyExtended(c, tm, Init(c, 0.0), run, Stop(i));
    run, s := TimelyExtended(c, tm, Init(c, 0.0), run, ServiceEnds(i));
  }

  /** With `stop` no timing keeps the flags apart: whatever the durations and bounds, a stopped pod's flag is still up
      when another pod has taken its expired Lease over. */
  lemma {:induction false} StopLeavesTwoFlags(c: Config, tm: Timing, i: Identity, j: Identity)
    returns (run: seq<Action>, s: State)
    requires Sensible(c, tm) && i in c.pods && j in c.pods && i != j
    ensures IsTimelyRun(c, tm, Init(c, 0.0), run) && IsRun(c, Init(c, 0.0), run) && s == Final(c, Init(c, 0.0), run)
    ensures i in s.pods && s.pods[i].elector.isLeader && !s.pods[i].service.Alive()
    ensures j in s.pods && s.pods[j].elector.isLeader && s.pods[j].service.Alive()
  {
    run, s := StoppedLeader(c, tm, i);
    var later := s.now + (if StoredDuration(c, i) < 0.0 then 0.0 else StoredDuration(c, i)) + 1.0;
    run, s := TimelyExtended(c, tm, Init(c, 0.0), run, Advance(later));
    run, s := Takeover(c, tm, run, i, j, later);
  }

  /** The default 15 and 10 seconds leave five for the gap, the unwind time and the skew together; for the leaders
      alone the unwind time does not count. */
  lemma {:induction false} DefaultsAreSafeIff(c: Config, tm: Timing)
    requires c.pods != map[]
    requires forall id :: id in c.pods ==>
               c.pods[id] == PodConfig(DEFAULT_LEASE_DURATION_SEC, DEFAULT_RENEW_DEADLINE_SEC)
    ensures SafeTiming(c, tm) <==> tm.gap + tm.unwind + c.skew <= 5.0
    ensures LeadTiming(c, tm) <==> tm.gap + c.skew <= 5.0
  {
    DefaultIsReadBack(c.backend);
    var id :| id in c.pods;
    assert StoredDuration(c, id) == 15.0;
  }
}
