/** Any number of pods, each running an elector over one store, with every tick split into the steps that can
    interleave: read the clock, send `get`, get its answer, send the write, have it applied, receive its answer.

    Requests travel through `net`. A call that errors or times out leaves its request there, so a write may be
    applied after its sender gave it up, or never. Pods may crash and restart under the same identity at any time.
    `now` is the clock of the slowest pod; a pod's own clock is ahead of it by at most `skew`. */
module LeaseProtocol {
  import opened Wrappers
  import opened LeaseRecords
  import opened LeaseBackends
  import opened LeaderElection

  datatype PodConfig = PodConfig(leaseDuration: real, renewDeadline: real)

  /** Pods are keyed by identity, so identities are distinct. */
  datatype Config = Config(pods: map<Identity, PodConfig>, backend: Backend, skew: real)

  datatype Request = Request(owner: Identity, nonce: nat, time: real, base: nat, write: Write)

  datatype Phase =
    | Idle
    | Reading
    | Deciding(base: nat)
    | Waiting(request: Request)
    | Answered(request: Request, ok: bool)
    | FailedTick

  /** Where `run_with_leadership` stands: in `acquire`, in `renew_until_lost`, or past both. */
  datatype Loop = Acquiring | Renewing | Returned

  datatype Service = NotStarted | Running | Cancelled(since: real) | Ended {
    predicate Alive() { Running? || Cancelled? }
  }

  datatype Pod = Pod(
    elector: Elector,
    loop: Loop,
    phase: Phase,
    service: Service,
    readAt: real,     // latest value this pod read from its own clock
    nonce: nat,       // requests sent so far
    tickStart: real,  // `now` when the current or latest tick began
    tickEnd: real)    // `now` when the latest tick ended

  datatype State = State(now: real, log: Log, appliedAt: real, net: set<Request>, pods: map<Identity, Pod>)

  datatype Action =
    | Advance(to: real)
    | StartTick(id: Identity, reading: real)
    | GetFails(id: Identity)
    | GetReturns(id: Identity)
    | Resolve(id: Identity)
    | Deliver(request: Request)
    | LoseAnswer(id: Identity)
    | Receive(id: Identity)
    | FinishFailed(id: Identity, check: real)
    | Stop(id: Identity)
    | ServiceEnds(id: Identity)
    | Restart(id: Identity)

  function NewPod(readAt: real, nonce: nat, now: real): Pod {
    Pod(STANDBY_ELECTOR, Acquiring, Idle, NotStarted, readAt, nonce, now, now)
  }

  function Init(c: Config, start: real): State {
    State(start, [], start, {}, map id | id in c.pods :: NewPod(start, 0, start))
  }

  /** The record a `get` returned after `base` writes. */
  function Observed(log: Log, base: nat): Option<LeaseRecord>
    requires base <= |log|
  {
    Current(log[..base])
  }

  function Proposal(c: Config, log: Log, id: Identity, base: nat, time: real): Decision
    requires id in c.pods && base <= |log|
  {
    Decide(Observed(log, base), id, c.pods[id].leaseDuration, time)
  }

  /** The duration other pods read in a record written by `id`. */
  function StoredDuration(c: Config, id: Identity): real
    requires id in c.pods
  {
    ReadBack(c.backend, c.pods[id].leaseDuration)
  }

  function Encoded(backend: Backend, write: Write): Write {
    var kept := write.record.(duration := ReadBack(backend, write.record.duration));
    match write
    case Create(_) => Create(kept)
    case Update(_) => Update(kept)
  }

  predicate WellFormed(c: Config, s: State) {
    s.pods.Keys == c.pods.Keys
  }

  predicate Enabled(c: Config, s: State, a: Action) {
    WellFormed(c, s) &&
    match a
    case Advance(to) => s.now <= to
    case StartTick(id, reading) =>
      && id in s.pods && s.pods[id].phase.Idle? && !s.pods[id].loop.Returned?
      && s.now <= reading <= s.now + c.skew && s.pods[id].readAt <= reading
    case GetFails(id) => id in s.pods && s.pods[id].phase.Reading?
    case GetReturns(id) => id in s.pods && s.pods[id].phase.Reading?
    case Resolve(id) => id in s.pods && s.pods[id].phase.Deciding? && s.pods[id].phase.base <= |s.log|
    case Deliver(request) => request in s.net
    case LoseAnswer(id) => id in s.pods && (s.pods[id].phase.Waiting? || s.pods[id].phase.Answered?)
    case Receive(id) => id in s.pods && s.pods[id].phase.Answered?
    case FinishFailed(id, check) =>
      && id in s.pods && s.pods[id].phase.FailedTick?
      && s.now <= check <= s.now + c.skew && s.pods[id].readAt <= check
    case Stop(id) => id in s.pods && s.pods[id].phase.Idle? && !s.pods[id].loop.Returned?
    case ServiceEnds(id) => id in s.pods && s.pods[id].service.Alive()
    case Restart(id) => id in s.pods
  }

  /** Both drivers are done: whatever service runs is cancelled now. */
  function Return(p: Pod, now: real): Pod {
    p.(loop := Returned, service := if p.service.Running? then Cancelled(now) else p.service)
  }

  function Resolved(c: Config, s: State, id: Identity): State
    requires Enabled(c, s, Resolve(id))
  {
    var p := s.pods[id];
    match Proposal(c, s.log, id, p.phase.base, p.readAt)
    case StandBy =>
      var q := p.(elector := StepDown(p.elector), phase := Idle, tickEnd := s.now);
      s.(pods := s.pods[id := if p.loop.Renewing? then Return(q, s.now) else q])
    case Propose(write, _) =>
      var request := Request(id, p.nonce, p.readAt, p.phase.base, write);
      s.(net := s.net + {request},
         pods := s.pods[id := p.(phase := Waiting(request), nonce := p.nonce + 1)])
  }

  function Delivered(c: Config, s: State, request: Request): State {
    var write := Encoded(c.backend, request.write);
    var ok := Admits(s.log, write);
    var t := if ok then s.(log := Applied(s.log, write), appliedAt := s.now) else s;
    var net := s.net - {request};
    if request.owner in s.pods && s.pods[request.owner].phase == Waiting(request) then
      t.(net := net,
         pods := s.pods[request.owner := s.pods[request.owner].(phase := Answered(request, ok))])
    else
      t.(net := net)
  }

  /** A success starts the service when it ends `acquire`; a conflict is a failed tick. */
  function Received(p: Pod, now: real): Pod
    requires p.phase.Answered?
  {
    if !p.phase.ok then p.(phase := FailedTick)
    else
      var q := p.(elector := MarkLeader(p.elector, p.phase.request.time), phase := Idle, tickEnd := now);
      if p.loop.Acquiring? then q.(loop := Renewing, service := Running) else q
  }

  function Finished(p: Pod, deadline: real, check: real, now: real): Pod {
    var q := p.(phase := Idle, readAt := check, tickEnd := now);
    if p.loop.Renewing? && check - p.elector.lastRenewSuccess > deadline then
      Return(q.(elector := StepDown(p.elector)), now)
    else q
  }

  function After(c: Config, s: State, a: Action): State
    requires Enabled(c, s, a)
  {
    match a
    case Advance(to) => s.(now := to)
    case StartTick(id, reading) =>
      s.(pods := s.pods[id := s.pods[id].(phase := Reading, readAt := reading, tickStart := s.now)])
    case GetFails(id) => s.(pods := s.pods[id := s.pods[id].(phase := FailedTick)])
    case GetReturns(id) => s.(pods := s.pods[id := s.pods[id].(phase := Deciding(|s.log|))])
    case Resolve(id) => Resolved(c, s, id)
    case Deliver(request) => Delivered(c, s, request)
    case LoseAnswer(id) => s.(pods := s.pods[id := s.pods[id].(phase := FailedTick)])
    case Receive(id) => s.(pods := s.pods[id := Received(s.pods[id], s.now)])
    case FinishFailed(id, check) =>
      s.(pods := s.pods[id := Finished(s.pods[id], c.pods[id].renewDeadline, check, s.now)])
    case Stop(id) => s.(pods := s.pods[id := Return(s.pods[id], s.now)])
    case ServiceEnds(id) => s.(pods := s.pods[id := s.pods[id].(service := Ended)])
    case Restart(id) => s.(pods := s.pods[id := NewPod(s.pods[id].readAt, s.pods[id].nonce, s.now)])
  }

  /** A run is a sequence of actions, each enabled where it is taken. */
  predicate IsRun(c: Config, s: State, run: seq<Action>)
    decreases |run|
  {
    run != [] ==> Enabled(c, s, run[0]) && IsRun(c, After(c, s, run[0]), run[1..])
  }

  function Final(c: Config, s: State, run: seq<Action>): State
    requires IsRun(c, s, run)
    decreases |run|
  {
    if run == [] then s else Final(c, After(c, s, run[0]), run[1..])
  }

  lemma {:induction false} RunsCompose(c: Config, s: State, run: seq<Action>, more: seq<Action>)
    requires IsRun(c, s, run) && IsRun(c, Final(c, s, run), more)
    ensures IsRun(c, s, run + more) && Final(c, s, run + more) == Final(c, Final(c, s, run), more)
    decreases |run|
  {
    if run == [] {
      assert run + more == more;
    } else {
      assert (run + more)[1..] == run[1..] + more;
      RunsCompose(c, After(c, s, run[0]), run[1..], more);
    }
  }

  /** One more enabled action makes a run longer. */
  lemma {:induction false} Extended(c: Config, s: State, run: seq<Action>, a: Action)
    returns (longer: seq<Action>, t: State)
    requires IsRun(c, s, run) && Enabled(c, Final(c, s, run), a)
    ensures longer == run + [a] && IsRun(c, s, longer)
    ensures t == Final(c, s, longer) == After(c, Final(c, s, run), a)
  {
    longer, t := run + [a], After(c, Final(c, s, run), a);
    assert [a][1..] == [];
    RunsCompose(c, s, run, [a]);
  }

  /** What a step leaves alone: stored records, and every pod but the acting one or the one being answered. */
  lemma {:induction false} StepFrame(c: Config, s: State, a: Action)
    requires Enabled(c, s, a)
    ensures var t := After(c, s, a);
      && WellFormed(c, t) && s.log <= t.log && s.now <= t.now
      && (!a.Advance? ==> t.now == s.now)
      && (a.Advance? ==> t.pods == s.pods)
      && (!a.Deliver? ==> t.log == s.log)
      && (!a.Advance? && !a.Deliver? ==> t.pods == s.pods[a.id := t.pods[a.id]])
      && (a.Deliver? ==> forall id :: id in s.pods ==>
            || t.pods[id] == s.pods[id]
            || exists ok :: s.pods[id].phase == Waiting(a.request)
                            && t.pods[id] == s.pods[id].(phase := Answered(a.request, ok)))
  {
  }

  /** Stopping ends the driver and cancels its service now, but leaves the flag; a restart leaves a standby without
      flag, service or tick, whose earlier requests may still arrive; both keep what the clock showed. */
  lemma {:induction false} ControlEffects(c: Config, s: State, a: Action)
    requires Enabled(c, s, a) && (a.Stop? || a.Restart? || a.ServiceEnds?)
    ensures var t, p := After(c, s, a), s.pods[a.id];
      && WellFormed(c, t) && t.net == s.net && t.log == s.log && t.now == s.now && t.pods.Keys == s.pods.Keys
      && var q := t.pods[a.id];
        && q.readAt == p.readAt
        && (a.Stop? ==> q.elector == p.elector && q.loop.Returned? && q.phase.Idle? && !q.service.Running?
                        && (p.service.Running? ==> q.service == Cancelled(s.now)))
        && (a.ServiceEnds? ==> q == p.(service := Ended))
        && (a.Restart? ==> !q.elector.isLeader && q.elector.callbacks == [] && q.loop.Acquiring? && q.phase.Idle?
                           && q.service.NotStarted?)
  {
  }

  // ---------- Requests are sent once and arrive once ----------

  ghost predicate NonceInv(s: State) {
    forall r :: r in s.net && r.owner in s.pods ==> r.nonce < s.pods[r.owner].nonce
  }

  lemma {:induction false} StepKeepsNonces(c: Config, s: State, a: Action)
    requires NonceInv(s) && Enabled(c, s, a)
    ensures NonceInv(After(c, s, a))
    ensures forall id :: id in s.pods ==> id in After(c, s, a).pods && s.pods[id].nonce <= After(c, s, a).pods[id].nonce
  {
    StepFrame(c, s, a);
  }

  /** A request that is gone never comes back: whatever is sent later is another one. */
  predicate Gone(s: State, r: Request) {
    r !in s.net && r.owner in s.pods && r.nonce < s.pods[r.owner].nonce
  }

  lemma {:induction false} StepKeepsGone(c: Config, s: State, a: Action, r: Request)
    requires NonceInv(s) && Enabled(c, s, a) && Gone(s, r)
    ensures Gone(After(c, s, a), r) && a != Deliver(r)
  {
    StepKeepsNonces(c, s, a);
  }

  lemma {:induction false} RunKeepsGone(c: Config, s: State, run: seq<Action>, r: Request)
    requires NonceInv(s) && IsRun(c, s, run) && Gone(s, r)
    ensures forall k :: 0 <= k < |run| ==> run[k] != Deliver(r)
    decreases |run|
  {
    if run != [] {
      StepKeepsGone(c, s, run[0], r);
      StepKeepsNonces(c, s, run[0]);
      RunKeepsGone(c, After(c, s, run[0]), run[1..], r);
      assert forall k :: 0 < k < |run| ==> run[k] == run[1..][k - 1];
    }
  }

  lemma {:induction false} RunKeepsNonces(c: Config, s: State, run: seq<Action>)
    requires NonceInv(s) && IsRun(c, s, run)
    ensures NonceInv(Final(c, s, run))
    decreases |run|
  {
    if run != [] {
      StepKeepsNonces(c, s, run[0]);
      RunKeepsNonces(c, After(c, s, run[0]), run[1..]);
    }
  }

  /** So a request is applied at most once, however late. */
  lemma {:induction false} DeliveredOnce(c: Config, start: real, before: seq<Action>, r: Request, later: seq<Action>)
    requires IsRun(c, Init(c, start), before)
    requires Enabled(c, Final(c, Init(c, start), before), Deliver(r)) && r.owner in c.pods
    requires IsRun(c, After(c, Final(c, Init(c, start), before), Deliver(r)), later)
    ensures forall k :: 0 <= k < |later| ==> later[k] != Deliver(r)
  {
    var s := Final(c, Init(c, start), before);
    RunKeepsNonces(c, Init(c, start), before);
    StepKeepsNonces(c, s, Deliver(r));
    RunKeepsGone(c, After(c, s, Deliver(r)), later, r);
  }

  // ---------- The invariant ----------

  /** A success at time `t` is still good for `id`: the store shows it or something later of `id`'s,
      or else so much time has passed that it no longer counts. */
  ghost predicate Holds(c: Config, now: real, log: Log, id: Identity, t: real)
    requires id in c.pods
  {
    || (log != [] && log[|log| - 1].holder == id && t <= log[|log| - 1].renewTime)
    || t + StoredDuration(c, id) < now + c.skew
  }

  /** Record `k` is what its holder proposed on seeing record `k - 1` at its renew time. */
  ghost predicate LinkOk(c: Config, log: Log, k: nat)
    requires k < |log|
  {
    var r := log[k];
    && r.holder in c.pods
    && Proposal(c, log, r.holder, k, r.renewTime).Propose?
    && r == Stamped(Encoded(c.backend, Proposal(c, log, r.holder, k, r.renewTime).write).record, k + 1)
    && (k > 0 && log[k - 1].holder == r.holder ==> log[k - 1].renewTime <= r.renewTime)
  }

  ghost predicate LogInv(c: Config, log: Log) {
    forall k :: 0 <= k < |log| ==> LinkOk(c, log, k)
  }

  ghost predicate RequestInv(c: Config, log: Log, r: Request, readAt: real) {
    && r.owner in c.pods
    && r.base <= |log|
    && Proposal(c, log, r.owner, r.base, r.time).Propose?
    && r.write == Proposal(c, log, r.owner, r.base, r.time).write
    && r.time <= readAt
    && (r.base > 0 && log[r.base - 1].holder == r.owner ==> log[r.base - 1].renewTime <= r.time)
  }

  ghost predicate PodInv(c: Config, now: real, log: Log, id: Identity, p: Pod)
    requires id in c.pods
  {
    && p.elector.Valid()
    && p.readAt <= now + c.skew
    && (forall k :: 0 <= k < |log| && log[k].holder == id ==> log[k].renewTime <= p.readAt)
    && (p.elector.EverLed() ==> Holds(c, now, log, id, p.elector.lastRenewSuccess))
    && (p.loop.Renewing? || p.service.Alive() ==> p.elector.EverLed())
    && (p.phase.Deciding? ==> p.phase.base <= |log|)
    && (p.phase.Waiting? || p.phase.Answered? ==> p.phase.request.owner == id && p.phase.request.time == p.readAt)
    && (p.phase.Answered? && p.phase.ok ==> Holds(c, now, log, id, p.phase.request.time))
  }

  ghost predicate Inv(c: Config, s: State) {
    && WellFormed(c, s)
    && LogInv(c, s.log)
    && (forall r :: r in s.net ==> r.owner in s.pods && RequestInv(c, s.log, r, s.pods[r.owner].readAt))
    && (forall id :: id in s.pods ==> PodInv(c, s.now, s.log, id, s.pods[id]))
  }

  lemma {:induction false} ObservedPrefix(log: Log, more: Log, base: nat)
    requires base <= |log| && log <= more
    ensures Observed(log, base) == Observed(more, base)
  {
    assert log[..base] == more[..base];
  }

  lemma {:induction false} LogInvNumbered(c: Config, log: Log)
    requires LogInv(c, log)
    ensures Numbered(log)
  {
    forall k | 0 <= k < |log|
      ensures log[k].version == Some(k + 1)
    {
      assert LinkOk(c, log, k);
    }
  }

  /** A request is admitted exactly when nothing was stored since it was prepared; the log it leaves is good. */
  lemma {:induction false} AppliedIsLinked(c: Config, log: Log, r: Request, readAt: real)
    requires LogInv(c, log) && RequestInv(c, log, r, readAt)
    ensures Admits(log, Encoded(c.backend, r.write)) <==> r.base == |log|
    ensures var more := Applied(log, Encoded(c.backend, r.write));
      && LogInv(c, more)
      && (r.base == |log| ==>
            && |more| == |log| + 1 && log <= more && more[|log|].holder == r.owner && more[|log|].renewTime == r.time
            && (log != [] && log[|log| - 1].holder != r.owner ==> log[|log| - 1].IsExpired(r.time)))
  {
    LogInvNumbered(c, log);
    var more := Applied(log, Encoded(c.backend, r.write));
    if r.base == |log| {
      assert log[..|log|] == log;
      assert Admits(log, Encoded(c.backend, r.write));
      forall k | 0 <= k < |more|
        ensures LinkOk(c, more, k)
      {
        ObservedPrefix(log, more, if k < |log| then k else |log|);
        if k < |log| {
          assert LinkOk(c, log, k);
        }
      }
    }
  }

  lemma {:induction false} RequestSurvives(c: Config, log: Log, more: Log, r: Request, readAt: real, later: real)
    requires RequestInv(c, log, r, readAt) && log <= more && readAt <= later
    ensures RequestInv(c, more, r, later)
  {
    ObservedPrefix(log, more, r.base);
  }

  lemma {:induction false} DeliverKeepsPod(c: Config, s: State, r: Request, id: Identity)
    requires c.skew >= 0.0 && Inv(c, s) && r in s.net && id in s.pods
    ensures PodInv(c, s.now, Delivered(c, s, r).log, id, Delivered(c, s, r).pods[id])
  {
    var t, p := Delivered(c, s, r), s.pods[id];
    AppliedIsLinked(c, s.log, r, s.pods[r.owner].readAt);
    assert PodInv(c, s.now, s.log, id, p);
    if t.log != s.log && s.log != [] {
      assert LinkOk(c, s.log, |s.log| - 1);
    }
    assert forall time :: Holds(c, s.now, s.log, id, time) ==> Holds(c, t.now, t.log, id, time);
  }

  lemma {:induction false} DeliverKeepsRequest(c: Config, s: State, r: Request, q: Request)
    requires Inv(c, s) && r in s.net && q in s.net
    ensures var t := Delivered(c, s, r);
      q.owner in t.pods && RequestInv(c, t.log, q, t.pods[q.owner].readAt)
  {
    var t := Delivered(c, s, r);
    RequestSurvives(c, s.log, t.log, q, s.pods[q.owner].readAt, t.pods[q.owner].readAt);
  }

  /** Applying a request, whenever that happens, keeps the invariant. */
  lemma {:induction false} DeliverKeepsInv(c: Config, s: State, r: Request)
    requires c.skew >= 0.0 && Inv(c, s) && r in s.net
    ensures Inv(c, Delivered(c, s, r))
  {
    var t := Delivered(c, s, r);
    AppliedIsLinked(c, s.log, r, s.pods[r.owner].readAt);
    forall q | q in t.net
      ensures q.owner in t.pods && RequestInv(c, t.log, q, t.pods[q.owner].readAt)
    {
      DeliverKeepsRequest(c, s, r, q);
    }
    forall id | id in t.pods
      ensures PodInv(c, t.now, t.log, id, t.pods[id])
    {
      DeliverKeepsPod(c, s, r, id);
    }
  }

  /** Changing one pod keeps the invariant when that pod keeps its part and its clock does not go back. */
  lemma {:induction false} PodChangeKeepsInv(c: Config, s: State, id: Identity, p: Pod)
    requires Inv(c, s) && id in s.pods
    requires PodInv(c, s.now, s.log, id, p) && s.pods[id].readAt <= p.readAt
    ensures Inv(c, s.(pods := s.pods[id := p]))
  {
  }

  lemma {:induction false} ResolveKeepsPod(c: Config, s: State, id: Identity)
    requires c.skew >= 0.0 && Inv(c, s) && Enabled(c, s, Resolve(id))
    ensures var p := Resolved(c, s, id).pods[id]; PodInv(c, s.now, s.log, id, p) && p.readAt == s.pods[id].readAt
  {
    TransitionsKeepValid(s.pods[id].elector);
    assert PodInv(c, s.now, s.log, id, s.pods[id]);
  }

  lemma {:induction false} ResolveKeepsInv(c: Config, s: State, id: Identity)
    requires c.skew >= 0.0 && Inv(c, s) && Enabled(c, s, Resolve(id))
    ensures Inv(c, Resolved(c, s, id))
  {
    ResolveKeepsPod(c, s, id);
    PodChangeKeepsInv(c, s, id, Resolved(c, s, id).pods[id]);
    assert PodInv(c, s.now, s.log, id, s.pods[id]);
  }

  lemma {:induction false} AdvanceKeepsInv(c: Config, s: State, to: real)
    requires Inv(c, s) && s.now <= to
    ensures Inv(c, s.(now := to))
  {
    var t := s.(now := to);
    forall id | id in t.pods
      ensures PodInv(c, t.now, t.log, id, t.pods[id])
    {
      assert PodInv(c, s.now, s.log, id, s.pods[id]);
    }
  }

  /** Steps of one pod by itself. */
  predicate IsLocal(a: Action) {
    !a.Advance? && !a.Deliver? && !a.Resolve?
  }

  lemma {:induction false} LocalStepKeepsPod(c: Config, s: State, a: Action)
    requires c.skew >= 0.0 && Inv(c, s) && Enabled(c, s, a) && IsLocal(a)
    ensures var p := After(c, s, a).pods[a.id];
      PodInv(c, s.now, s.log, a.id, p) && s.pods[a.id].readAt <= p.readAt
  {
    assert PodInv(c, s.now, s.log, a.id, s.pods[a.id]);
    TransitionsKeepValid(s.pods[a.id].elector);
  }

  /** Every step of the protocol keeps the invariant. */
  lemma {:induction false} StepKeepsInv(c: Config, s: State, a: Action)
    requires c.skew >= 0.0 && Inv(c, s) && Enabled(c, s, a)
    ensures Inv(c, After(c, s, a))
  {
    match a
    case Deliver(r) => DeliverKeepsInv(c, s, r);
    case Resolve(id) => ResolveKeepsInv(c, s, id);
    case Advance(to) => AdvanceKeepsInv(c, s, to);
    case _ =>
      LocalStepKeepsPod(c, s, a);
      PodChangeKeepsInv(c, s, a.id, After(c, s, a).pods[a.id]);
  }

  lemma {:induction false} RunKeepsInv(c: Config, s: State, run: seq<Action>)
    requires c.skew >= 0.0 && Inv(c, s) && IsRun(c, s, run)
    ensures Inv(c, Final(c, s, run))
    decreases |run|
  {
    if run != [] {
      StepKeepsInv(c, s, run[0]);
      RunKeepsInv(c, After(c, s, run[0]), run[1..]);
    }
  }

  /** Every state of a run that starts with no Lease and only standbys. */
  ghost predicate Reachable(c: Config, s: State) {
    exists start, run :: IsRun(c, Init(c, start), run) && s == Final(c, Init(c, start), run)
  }

  lemma {:induction false} ReachableInv(c: Config, s: State)
    requires c.skew >= 0.0 && Reachable(c, s)
    ensures Inv(c, s)
  {
    var start, run :| IsRun(c, Init(c, start), run) && s == Final(c, Init(c, start), run);
    RunKeepsInv(c, Init(c, start), run);
  }
}
