/** The elector's ticks and its two driver loops as runs of the protocol. */
module LeaseDrivers {
  import opened LeaseRecords
  import opened LeaseBackends
  import opened LeaderElection
  import opened LeaseProtocol

  /** Where reading the clock, `get`, and deciding lead. */
  function Decided(c: Config, s: State, id: Identity, reading: real): State
    requires Enabled(c, s, StartTick(id, reading))
  {
    var t := After(c, After(c, s, StartTick(id, reading)), GetReturns(id));
    After(c, t, Resolve(id))
  }

  /** The first half of a tick: read the clock, get, and decide. */
  lemma {:induction false} ObserveAndDecide(c: Config, s: State, id: Identity, reading: real)
    returns (run: seq<Action>, t: State)
    requires WellFormed(c, s) && Enabled(c, s, StartTick(id, reading))
    ensures run == [StartTick(id, reading), GetReturns(id), Resolve(id)]
    ensures IsRun(c, s, run) && t == Final(c, s, run) == Decided(c, s, id, reading)
    ensures WellFormed(c, t) && id in t.pods && t.log == s.log
    ensures match Proposal(c, s.log, id, |s.log|, reading)
            case StandBy =>
              && t.pods[id].phase.Idle? && t.pods[id].elector == StepDown(s.pods[id].elector)
              && t.pods[id].loop == if s.pods[id].loop.Renewing? then Returned else s.pods[id].loop
            case Propose(write, _) =>
              && t.pods[id].elector == s.pods[id].elector && t.pods[id].loop == s.pods[id].loop
              && t.pods[id].phase == Waiting(Request(id, s.pods[id].nonce, reading, |s.log|, write))
              && t.pods[id].phase.request in t.net
  {
    run, t := Extended(c, s, [], StartTick(id, reading));
    run, t := Extended(c, s, run, GetReturns(id));
    run, t := Extended(c, s, run, Resolve(id));
  }

  function WriteSteps(id: Identity, request: Request, fault: WriteFault): seq<Action> {
    match fault
    case NotApplied => [LoseAnswer(id)]
    case AnswerLost => [Deliver(request), LoseAnswer(id)]
    case NoFault => [Deliver(request), Receive(id)]
  }

  /** Pod `id` goes from `p` to `q` by hearing of its write, or not. */
  ghost predicate Heard(p: Pod, q: Pod, won: bool)
    requires p.phase.Waiting?
  {
    if won then
      && q.phase.Idle? && q.elector == MarkLeader(p.elector, p.phase.request.time)
      && q.loop == if p.loop.Acquiring? then Renewing else p.loop
    else q.phase.FailedTick? && q.elector == p.elector && q.loop == p.loop && q.readAt == p.readAt
  }

  /** The second half: the write's fate and the answer's. */
  lemma {:induction false} WriteAndHear(c: Config, s: State, id: Identity, fault: WriteFault)
    returns (run: seq<Action>, t: State)
    requires WellFormed(c, s) && id in s.pods && s.pods[id].phase.Waiting? && s.pods[id].phase.request in s.net
    requires s.pods[id].phase.request.owner == id
    ensures run == WriteSteps(id, s.pods[id].phase.request, fault)
    ensures IsRun(c, s, run) && t == Final(c, s, run)
    ensures WellFormed(c, t) && id in t.pods
    ensures var write := Encoded(c.backend, s.pods[id].phase.request.write);
      && t.log == (if fault == NotApplied then s.log else Applied(s.log, write))
      && Heard(s.pods[id], t.pods[id], fault == NoFault && Admits(s.log, write))
  {
    var request := s.pods[id].phase.request;
    if fault == NotApplied {
      run, t := Extended(c, s, [], LoseAnswer(id));
    } else {
      run, t := Extended(c, s, [], Deliver(request));
      run, t := Extended(c, s, run, if fault == AnswerLost then LoseAnswer(id) else Receive(id));
    }
  }

  /** What may happen while a write of pod `id` is on its way: anything but a step of that pod and the write itself. */
  predicate Rival(id: Identity, request: Request, a: Action) {
    a.Advance? || (if a.Deliver? then a.request != request else a.id != id)
  }

  /** The writes that reach the store in `run`. */
  function RivalWrites(c: Config, run: seq<Action>): seq<Write>
    decreases |run|
  {
    if run == [] then []
    else if run[0].Deliver? then [Encoded(c.backend, run[0].request.write)] + RivalWrites(c, run[1..])
    else RivalWrites(c, run[1..])
  }

  lemma {:induction false} RivalsWrite(c: Config, s: State, run: seq<Action>, id: Identity, request: Request)
    requires IsRun(c, s, run) && WellFormed(c, s) && id in s.pods
    requires s.pods[id].phase == Waiting(request) && request in s.net
    requires forall k :: 0 <= k < |run| ==> Rival(id, request, run[k])
    ensures var t := Final(c, s, run);
      && WellFormed(c, t) && id in t.pods && t.pods[id] == s.pods[id] && request in t.net
      && t.log == AppliedAll(s.log, RivalWrites(c, run))
    decreases |run|
  {
    if run != [] {
      var t := After(c, s, run[0]);
      assert Rival(id, request, run[0]);
      StepFrame(c, s, run[0]);
      assert t.log == AppliedAll(s.log, RivalWrites(c, run[..1])) by {
        assert run[..1][1..] == [];
      }
      RivalsWrite(c, t, run[1..], id, request);
    }
  }

  /** The second half after rivals wrote. */
  lemma {:induction false} WriteAfterRivals(c: Config, s: State, id: Identity, fault: WriteFault, between: seq<Action>)
    returns (run: seq<Action>, t: State)
    requires WellFormed(c, s) && id in s.pods && s.pods[id].phase.Waiting? && s.pods[id].phase.request in s.net
    requires s.pods[id].phase.request.owner == id && IsRun(c, s, between)
    requires forall k :: 0 <= k < |between| ==> Rival(id, s.pods[id].phase.request, between[k])
    ensures run == between + WriteSteps(id, s.pods[id].phase.request, fault)
    ensures IsRun(c, s, run) && t == Final(c, s, run)
    ensures WellFormed(c, t) && id in t.pods
    ensures var write := Encoded(c.backend, s.pods[id].phase.request.write);
      var seen := AppliedAll(s.log, RivalWrites(c, between));
      && t.log == (if fault == NotApplied then seen else Applied(seen, write))
      && Heard(s.pods[id], t.pods[id], fault == NoFault && Admits(seen, write))
  {
    RivalsWrite(c, s, between, id, s.pods[id].phase.request);
    var more;
    more, t := WriteAndHear(c, Final(c, s, between), id, fault);
    run := between + more;
    RunsCompose(c, s, between, more);
  }

  /** The steps of a tick; `between` is what rivals do between its read and its write. */
  function TickSteps(c: Config, s: State, id: Identity, reading: real, env: TickEnv, between: seq<Action>): seq<Action>
    requires Enabled(c, s, StartTick(id, reading))
  {
    if env.getFails then [StartTick(id, reading), GetFails(id)]
    else
      var first, decided := [StartTick(id, reading), GetReturns(id), Resolve(id)], Decided(c, s, id, reading);
      if id in decided.pods && decided.pods[id].phase.Waiting? then
        first + (between + WriteSteps(id, decided.pods[id].phase.request, env.fault))
      else first
  }

  /** The tick can begin, and if it comes to write, `between` is a run of rivals that stores what `env` says. */
  ghost predicate TickFits(c: Config, s: State, id: Identity, reading: real, env: TickEnv, between: seq<Action>) {
    && Enabled(c, s, StartTick(id, reading))
    && var decided := Decided(c, s, id, reading);
      (!env.getFails && id in decided.pods && decided.pods[id].phase.Waiting? ==>
         && IsRun(c, decided, between)
         && (forall k :: 0 <= k < |between| ==> Rival(id, decided.pods[id].phase.request, between[k]))
         && env.rivals == RivalWrites(c, between))
  }

  lemma {:induction false} AnsweredTickRefines(
      c: Config, s: State, id: Identity, reading: real, env: TickEnv, between: seq<Action>)
    returns (t: State)
    requires c.backend.InMemory? && TickFits(c, s, id, reading, env, between) && !env.getFails
    ensures IsRun(c, s, TickSteps(c, s, id, reading, env, between))
    ensures t == Final(c, s, TickSteps(c, s, id, reading, env, between)) && WellFormed(c, t) && id in t.pods
    ensures var p, d := s.pods[id], Proposal(c, s.log, id, |s.log|, reading);
      match d
      case StandBy =>
        && t.log == s.log && t.pods[id].phase.Idle? && t.pods[id].elector == StepDown(p.elector)
        && t.pods[id].loop == if p.loop.Renewing? then Returned else p.loop
      case Propose(write, _) =>
        var seen := AppliedAll(s.log, env.rivals);
        && t.log == (if env.fault == NotApplied then seen else Applied(seen, write))
        && if env.fault == NoFault && Admits(seen, write) then
             && t.pods[id].phase.Idle? && t.pods[id].elector == MarkLeader(p.elector, reading)
             && t.pods[id].loop == if p.loop.Acquiring? then Renewing else p.loop
           else t.pods[id].phase.FailedTick? && t.pods[id].elector == p.elector && t.pods[id].loop == p.loop
  {
    var run;
    run, t := ObserveAndDecide(c, s, id, reading);
    if Proposal(c, s.log, id, |s.log|, reading).Propose? {
      var more, u := WriteAfterRivals(c, t, id, env.fault, between);
      RunsCompose(c, s, run, more);
      t := u;
    }
  }

  /** An elector's tick, with any rivals' steps between its `get` and its write, is a run of the protocol: same store,
      same elector, and a failed attempt is exactly what leaves the driver at its deadline check. */
  lemma {:induction false} TickRefinesProtocol(
      c: Config, s: State, id: Identity, reading: real, env: TickEnv, between: seq<Action>)
    returns (t: State)
    requires c.backend.InMemory? && TickFits(c, s, id, reading, env, between)
    ensures IsRun(c, s, TickSteps(c, s, id, reading, env, between))
    ensures t == Final(c, s, TickSteps(c, s, id, reading, env, between)) && WellFormed(c, t) && id in t.pods
    ensures var r := Tick(s.pods[id].elector, s.log, id, c.pods[id].leaseDuration, reading, env);
      && t.log == r.log && t.pods[id].elector == r.elector
      && t.pods[id].phase == (if r.attempt.Failed? then FailedTick else Idle)
      && t.pods[id].loop == AfterTick(s.pods[id].loop, r.attempt)
  {
    if env.getFails {
      var run;
      run, t := Extended(c, s, [], StartTick(id, reading));
      run, t := Extended(c, s, run, GetFails(id));
    } else {
      assert s.log[..|s.log|] == s.log;
      t := AnsweredTickRefines(c, s, id, reading, env, between);
    }
  }

  /** Where the driver stands after a tick, before any deadline check. */
  function AfterTick(loop: Loop, attempt: Attempt): Loop {
    if attempt.Success() && loop.Acquiring? then Renewing
    else if attempt.HeldByOther? && loop.Renewing? then Returned
    else loop
  }

  // ---------- Rounds ----------

  /** Steps while pod `id` waits for its next tick: none of its own. */
  predicate Elsewhere(id: Identity, a: Action) {
    a.Advance? || a.Deliver? || a.id != id
  }

  lemma {:induction false} WaitingLeaves(c: Config, s: State, run: seq<Action>, id: Identity)
    requires IsRun(c, s, run) && WellFormed(c, s) && id in s.pods && s.pods[id].phase.Idle?
    requires forall k :: 0 <= k < |run| ==> Elsewhere(id, run[k])
    ensures var t := Final(c, s, run);
      && WellFormed(c, t) && id in t.pods && t.pods[id] == s.pods[id]
      && t.log == AppliedAll(s.log, RivalWrites(c, run))
    decreases |run|
  {
    if run != [] {
      var t := After(c, s, run[0]);
      assert Elsewhere(id, run[0]);
      StepFrame(c, s, run[0]);
      assert t.log == AppliedAll(s.log, RivalWrites(c, run[..1])) by {
        assert run[..1][1..] == [];
      }
      WaitingLeaves(c, t, run[1..], id);
    }
  }

  /** What the rest of the system does around one tick: while the driver waits, between the tick's read and write, and
      the time of the deadline check after a failed tick. */
  datatype Segment = Segment(waiting: seq<Action>, between: seq<Action>, checkedAt: real)

  /** Where the steps lead, if they are a run. */
  function Outcome(c: Config, s: State, run: seq<Action>): State {
    if IsRun(c, s, run) then Final(c, s, run) else s
  }

  function CheckSteps(id: Identity, round: Round, seg: Segment): seq<Action> {
    [Advance(seg.checkedAt), FinishFailed(id, round.check)]
  }

  predicate AtCheck(s: State, id: Identity) {
    id in s.pods && s.pods[id].phase.FailedTick?
  }

  /** The tick of a round and, if it failed, the check. */
  function TickAndCheck(c: Config, s: State, id: Identity, round: Round, seg: Segment): seq<Action>
    requires Enabled(c, s, StartTick(id, round.now))
  {
    var tick := TickSteps(c, s, id, round.now, round.env, seg.between);
    if AtCheck(Outcome(c, s, tick), id) then tick + CheckSteps(id, round, seg) else tick
  }

  ghost predicate CheckFits(c: Config, s: State, id: Identity, round: Round, seg: Segment)
    requires Enabled(c, s, StartTick(id, round.now))
  {
    var t := Outcome(c, s, TickSteps(c, s, id, round.now, round.env, seg.between));
    AtCheck(t, id) ==>
      t.now <= seg.checkedAt && Enabled(c, t.(now := seg.checkedAt), FinishFailed(id, round.check))
  }

  /** Where the driver stands after a round. */
  function AfterRound(loop: Loop, r: TickResult, deadline: real, check: real): Loop {
    if DeadlinePassed(loop, r, deadline, check) then Returned else AfterTick(loop, r.attempt)
  }

  predicate DeadlinePassed(loop: Loop, r: TickResult, deadline: real, check: real) {
    loop.Renewing? && r.attempt.Failed? && check - r.elector.lastRenewSuccess > deadline
  }

  lemma {:induction false} TickAndCheckRefine(c: Config, s: State, id: Identity, round: Round, seg: Segment)
    returns (t: State)
    requires c.backend.InMemory? && TickFits(c, s, id, round.now, round.env, seg.between)
    requires CheckFits(c, s, id, round, seg)
    ensures IsRun(c, s, TickAndCheck(c, s, id, round, seg)) && t == Final(c, s, TickAndCheck(c, s, id, round, seg))
    ensures WellFormed(c, t) && id in t.pods && t.pods[id].phase.Idle?
    ensures Tick(s.pods[id].elector, s.log, id, c.pods[id].leaseDuration, round.now, round.env).attempt.Failed? ==>
              t.pods[id].readAt == round.check && t.pods[id].tickEnd == t.now == seg.checkedAt
    ensures var p, deadline := s.pods[id], c.pods[id].renewDeadline;
      var r := Tick(p.elector, s.log, id, c.pods[id].leaseDuration, round.now, round.env);
      && t.log == r.log && t.pods[id].loop == AfterRound(p.loop, r, deadline, round.check)
      && t.pods[id].elector
         == if DeadlinePassed(p.loop, r, deadline, round.check) then StepDown(r.elector) else r.elector
  {
    var tick := TickSteps(c, s, id, round.now, round.env, seg.between);
    t := TickRefinesProtocol(c, s, id, round.now, round.env, seg.between);
    if AtCheck(t, id) {
      var mid := t;
      var run;
      run, t := Extended(c, mid, [], Advance(seg.checkedAt));
      run, t := Extended(c, mid, run, FinishFailed(id, round.check));
      assert run == CheckSteps(id, round, seg);
      RunsCompose(c, s, tick, run);
    }
  }

  function RoundSteps(c: Config, s: State, id: Identity, round: Round, seg: Segment): seq<Action> {
    var t := Outcome(c, s, seg.waiting);
    if Enabled(c, t, StartTick(id, round.now)) then seg.waiting + TickAndCheck(c, t, id, round, seg) else seg.waiting
  }

  /** The segment is what surrounds this round in a run from `s`. */
  ghost predicate Surrounds(c: Config, s: State, id: Identity, round: Round, seg: Segment) {
    && IsRun(c, s, seg.waiting) && (forall k :: 0 <= k < |seg.waiting| ==> Elsewhere(id, seg.waiting[k]))
    && round.before == RivalWrites(c, seg.waiting)
    && var t := Final(c, s, seg.waiting);
      TickFits(c, t, id, round.now, round.env, seg.between) && CheckFits(c, t, id, round, seg)
  }

  lemma {:induction false} RoundRefines(c: Config, s: State, id: Identity, round: Round, seg: Segment)
    returns (t: State)
    requires c.backend.InMemory? && WellFormed(c, s) && id in s.pods && s.pods[id].phase.Idle?
    requires Surrounds(c, s, id, round, seg)
    ensures IsRun(c, s, RoundSteps(c, s, id, round, seg)) && t == Final(c, s, RoundSteps(c, s, id, round, seg))
    ensures WellFormed(c, t) && id in t.pods && t.pods[id].phase.Idle?
    ensures var p, deadline := s.pods[id], c.pods[id].renewDeadline;
      var r := RoundTick(p.elector, s.log, id, c.pods[id].leaseDuration, round);
      && t.log == r.log && t.pods[id].loop == AfterRound(p.loop, r, deadline, round.check)
      && t.pods[id].elector
         == if DeadlinePassed(p.loop, r, deadline, round.check) then StepDown(r.elector) else r.elector
  {
    WaitingLeaves(c, s, seg.waiting, id);
    var mid := Final(c, s, seg.waiting);
    t := TickAndCheckRefine(c, mid, id, round, seg);
    RunsCompose(c, s, seg.waiting, TickAndCheck(c, mid, id, round, seg));
  }

  // ---------- The loops ----------

  /** A driver loop goes on while its pod stays in it. */
  predicate StaysIn(loop: Loop, s: State, id: Identity) {
    id in s.pods && s.pods[id].loop == loop
  }

  function LoopSteps(c: Config, loop: Loop, s: State, id: Identity, rounds: seq<Round>, segs: seq<Segment>): seq<Action>
    requires |segs| == |rounds|
    decreases |rounds|
  {
    if rounds == [] then []
    else
      var first := RoundSteps(c, s, id, rounds[0], segs[0]);
      var t := Outcome(c, s, first);
      if StaysIn(loop, t, id) then first + LoopSteps(c, loop, t, id, rounds[1..], segs[1..]) else first
  }

  ghost predicate SurroundAll(c: Config, loop: Loop, s: State, id: Identity, rounds: seq<Round>, segs: seq<Segment>)
    requires |segs| == |rounds|
    decreases |rounds|
  {
    rounds != [] ==>
      && Surrounds(c, s, id, rounds[0], segs[0])
      && var t := Outcome(c, s, RoundSteps(c, s, id, rounds[0], segs[0]));
        (StaysIn(loop, t, id) ==> SurroundAll(c, loop, t, id, rounds[1..], segs[1..]))
  }

  /** The renew loop is a run of the protocol, whatever surrounds its rounds: same store, same elector, and the pod is
      past its loops exactly on the loss and deadline exits. */
  lemma {:induction false} RenewRefinesProtocol(
      c: Config, s: State, id: Identity, rounds: seq<Round>, segs: seq<Segment>)
    returns (t: State)
    requires c.backend.InMemory? && WellFormed(c, s) && id in s.pods
    requires s.pods[id].phase.Idle? && s.pods[id].loop.Renewing?
    requires |segs| == |rounds| && SurroundAll(c, Renewing, s, id, rounds, segs)
    ensures IsRun(c, s, LoopSteps(c, Renewing, s, id, rounds, segs))
    ensures t == Final(c, s, LoopSteps(c, Renewing, s, id, rounds, segs)) && id in t.pods && id in c.pods
    ensures var r := RenewRun(
        s.pods[id].elector, s.log, id, c.pods[id].leaseDuration, c.pods[id].renewDeadline, rounds);
      && t.log == r.log && t.pods[id].elector == r.elector && t.pods[id].phase.Idle?
      && t.pods[id].loop == if r.exit.StopRequested? then Renewing else Returned
    decreases |rounds|
  {
    if rounds == [] {
      t := s;
    } else {
      var first := RoundSteps(c, s, id, rounds[0], segs[0]);
      t := RoundRefines(c, s, id, rounds[0], segs[0]);
      if t.pods[id].loop.Renewing? {
        var mid := t;
        t := RenewRefinesProtocol(c, mid, id, rounds[1..], segs[1..]);
        RunsCompose(c, s, first, LoopSteps(c, Renewing, mid, id, rounds[1..], segs[1..]));
      }
    }
  }

  /** So is the standby loop: its pod goes on to renew exactly when it led. */
  lemma {:induction false} AcquireRefinesProtocol(
      c: Config, s: State, id: Identity, rounds: seq<Round>, segs: seq<Segment>)
    returns (t: State)
    requires c.backend.InMemory? && WellFormed(c, s) && id in s.pods
    requires s.pods[id].phase.Idle? && s.pods[id].loop.Acquiring?
    requires |segs| == |rounds| && SurroundAll(c, Acquiring, s, id, rounds, segs)
    ensures IsRun(c, s, LoopSteps(c, Acquiring, s, id, rounds, segs))
    ensures t == Final(c, s, LoopSteps(c, Acquiring, s, id, rounds, segs)) && id in t.pods && id in c.pods
    ensures var r := AcquireRun(s.pods[id].elector, s.log, id, c.pods[id].leaseDuration, rounds);
      && t.log == r.log && t.pods[id].elector == r.elector && t.pods[id].phase.Idle?
      && t.pods[id].loop == if r.led then Renewing else Acquiring
    decreases |rounds|
  {
    if rounds == [] {
      t := s;
    } else {
      var first := RoundSteps(c, s, id, rounds[0], segs[0]);
      t := RoundRefines(c, s, id, rounds[0], segs[0]);
      if t.pods[id].loop.Acquiring? {
        var mid := t;
        t := AcquireRefinesProtocol(c, mid, id, rounds[1..], segs[1..]);
        RunsCompose(c, s, first, LoopSteps(c, Acquiring, mid, id, rounds[1..], segs[1..]));
      }
    }
  }
}
