/** The elector: one tick as a function of what it observed, and the class whose drivers tick on a timer. */
module LeaderElection {
  import opened Wrappers
  import opened LeaseRecords
  import opened LeaseBackends

  datatype Attempt = Acquired | Renewed | HeldByOther | Failed {
    predicate Success() { Acquired? || Renewed? }
  }

  datatype Callback = StartedLeading | StoppedLeading

  /** What an elector remembers between ticks; `callbacks` lists the ones it fired, oldest first. */
  datatype Elector = Elector(isLeader: bool, lastRenewSuccess: real, callbacks: seq<Callback>) {
    /** Started and stopped strictly alternate, and the flag tells which one came last. */
    ghost predicate Valid() {
      (forall k :: 0 <= k < |callbacks| ==> (callbacks[k].StartedLeading? <==> k % 2 == 0))
      && (isLeader <==> |callbacks| % 2 == 1)
    }

    predicate EverLed() { callbacks != [] }
  }

  const STANDBY_ELECTOR := Elector(false, 0.0, [])

  /** What a tick does with the record it read. */
  datatype Decision = StandBy | Propose(write: Write, takeover: bool)

  function Decide(observed: Option<LeaseRecord>, me: Identity, duration: real, now: real): Decision {
    match observed
    case None => Propose(Create(LeaseRecord(me, duration, now, now, 0, None)), true)
    case Some(rec) =>
      if rec.holder == me then
        Propose(Update(rec.(duration := duration, renewTime := now)), false)
      else if !rec.IsExpired(now) then
        StandBy
      else
        Propose(Update(LeaseRecord(me, duration, now, now, rec.transitions + 1, rec.version)), true)
  }

  function MarkLeader(e: Elector, now: real): Elector {
    Elector(true, now, if e.isLeader then e.callbacks else e.callbacks + [StartedLeading])
  }

  /** `_mark_not_leader` and `_expire_self` leave the same state behind. */
  function StepDown(e: Elector): Elector {
    if e.isLeader then e.(isLeader := false, callbacks := e.callbacks + [StoppedLeading]) else e
  }

  function LeaderAttempt(e: Elector, takeover: bool): Attempt {
    if takeover || !e.isLeader then Acquired else Renewed
  }

  lemma {:induction false} TransitionsKeepValid(e: Elector)
    requires e.Valid()
    ensures (forall now :: MarkLeader(e, now).Valid()) && StepDown(e).Valid()
  {
    forall now
      ensures MarkLeader(e, now).Valid()
    {
      assert forall k :: 0 <= k < |e.callbacks| ==> MarkLeader(e, now).callbacks[k] == e.callbacks[k];
    }
  }

  function Count(callbacks: seq<Callback>, c: Callback): nat {
    if callbacks == [] then 0
    else Count(callbacks[..|callbacks| - 1], c) + if callbacks[|callbacks| - 1] == c then 1 else 0
  }

  /** Started minus stopped is one exactly while leading, and zero otherwise. */
  lemma {:induction false} StartedMinusStopped(e: Elector)
    requires e.Valid()
    ensures Count(e.callbacks, StartedLeading) - Count(e.callbacks, StoppedLeading) == if e.isLeader then 1 else 0
    ensures Count(e.callbacks, StartedLeading) + Count(e.callbacks, StoppedLeading) == |e.callbacks|
    decreases |e.callbacks|
  {
    if e.callbacks != [] {
      StartedMinusStopped(Elector(!e.isLeader, e.lastRenewSuccess, e.callbacks[..|e.callbacks| - 1]));
    }
  }

  /** What the environment does to the backend calls of one tick. */
  datatype WriteFault = NoFault | NotApplied | AnswerLost
  datatype TickEnv = TickEnv(getFails: bool, rivals: seq<Write>, fault: WriteFault)

  datatype TickResult = TickResult(elector: Elector, log: Log, attempt: Attempt)

  /** One whole tick: read, let rivals write, write, and mark. */
  function Tick(e: Elector, log: Log, me: Identity, duration: real, now: real, env: TickEnv): TickResult {
    if env.getFails then TickResult(e, log, Failed)
    else
      var decision := Decide(Current(log), me, duration, now);
      match decision
      case StandBy => TickResult(StepDown(e), log, HeldByOther)
      case Propose(write, takeover) =>
        var seen := AppliedAll(log, env.rivals);
        if env.fault == NotApplied then TickResult(e, seen, Failed)
        else if env.fault == AnswerLost || !Admits(seen, write) then TickResult(e, Applied(seen, write), Failed)
        else TickResult(MarkLeader(e, now), Applied(seen, write), LeaderAttempt(e, takeover))
  }

  /** Exactly when a tick succeeds, fails, or finds another holder. It fails when a call fails or a rival wrote in
      between; it acquires rather than renews unless it was leading and the record was its own. */
  lemma {:induction false} TickExactly(e: Elector, log: Log, me: Identity, duration: real, now: real, env: TickEnv)
    requires Numbered(log)
    ensures var r := Tick(e, log, me, duration, now, env);
      var heldByOther := log != [] && log[|log| - 1].holder != me
                         && now <= log[|log| - 1].renewTime + log[|log| - 1].duration;
      && (r.attempt.HeldByOther? <==> !env.getFails && heldByOther)
      && (r.attempt.Success() <==>
            !env.getFails && !heldByOther && env.fault == NoFault && AppliedAll(log, env.rivals) == log)
      && (r.attempt.Success() ==>
            (r.attempt.Renewed? <==> e.isLeader && log != [] && log[|log| - 1].holder == me))
      && (r.attempt.HeldByOther? ==>
            && r.elector.lastRenewSuccess == e.lastRenewSuccess
            && r.elector.callbacks == e.callbacks + if e.isLeader then [StoppedLeading] else [])
      && (r.attempt.Success() ==> r.elector.callbacks == e.callbacks + if e.isLeader then [] else [StartedLeading])
  {
    if log != [] {
      var rec := log[|log| - 1];
      CompareAndSwap(log, env.rivals, rec.(duration := duration, renewTime := now));
      CompareAndSwap(log, env.rivals, LeaseRecord(me, duration, now, now, rec.transitions + 1, rec.version));
    }
  }

  /** A success means the store's current record is ours and dated `now`; a failed tick changes nothing
      in the elector; and only seeing another valid holder can drop the flag. */
  lemma {:induction false} TickOutcome(e: Elector, log: Log, me: Identity, duration: real, now: real, env: TickEnv)
    requires e.Valid()
    ensures var r := Tick(e, log, me, duration, now, env);
      && r.elector.Valid()
      && (r.attempt.Success() ==>
            && r.elector.isLeader && r.elector.lastRenewSuccess == now
            && r.log != [] && r.log[|r.log| - 1].holder == me && r.log[|r.log| - 1].renewTime == now
            && (r.attempt.Renewed? ==> e.isLeader && r.elector.callbacks == e.callbacks))
      && (r.attempt.Failed? ==> r.elector == e)
      && (r.attempt.HeldByOther? ==>
            && !r.elector.isLeader && r.log == log && log != []
            && log[|log| - 1].holder != me && !log[|log| - 1].IsExpired(now))
  {
    TransitionsKeepValid(e);
  }

  /** The electors' identities must differ: two that share one both lead after one tick each,
      whatever the durations, because holding is decided by identity alone. */
  lemma {:induction false} SharedIdentityBreaksExclusion(me: Identity, duration: real, now: real)
    ensures var env := TickEnv(false, [], NoFault);
      var first := Tick(STANDBY_ELECTOR, [], me, duration, now, env);
      var second := Tick(STANDBY_ELECTOR, first.log, me, duration, now, env);
      first.elector.isLeader && second.elector.isLeader
  {
    var env := TickEnv(false, [], NoFault);
    var first := Tick(STANDBY_ELECTOR, [], me, duration, now, env);
    assert first.log == [LeaseRecord(me, duration, now, now, 0, Some(1))];
    assert AppliedAll(first.log, []) == first.log;
  }

  /** One turn of a driver loop: what rivals store while it waits, the clock at the tick, the tick's faults, and the
      clock at the deadline check. */
  datatype Round = Round(before: seq<Write>, now: real, env: TickEnv, check: real)

  function RoundTick(e: Elector, log: Log, me: Identity, duration: real, round: Round): TickResult {
    Tick(e, AppliedAll(log, round.before), me, duration, round.now, round.env)
  }

  datatype AcquireResult = AcquireResult(elector: Elector, log: Log, led: bool, used: nat)

  /** The standby loop over the rounds it gets before `stop` is set. */
  function AcquireRun(e: Elector, log: Log, me: Identity, duration: real, rounds: seq<Round>): AcquireResult
    decreases |rounds|
  {
    if rounds == [] then AcquireResult(e, log, false, 0)
    else
      var r := RoundTick(e, log, me, duration, rounds[0]);
      if r.attempt.Success() then AcquireResult(r.elector, r.log, true, 1)
      else
        var rest := AcquireRun(r.elector, r.log, me, duration, rounds[1..]);
        rest.(used := rest.used + 1)
  }

  /** A standby fires no callback until the round that wins, and that round leaves it the holder. */
  lemma {:induction false} AcquireLeadsOnlyByWinning(
      e: Elector, log: Log, me: Identity, duration: real, rounds: seq<Round>)
    requires e.Valid() && !e.isLeader
    ensures var r := AcquireRun(e, log, me, duration, rounds);
      && r.elector.Valid() && r.used <= |rounds|
      && r.elector.callbacks == e.callbacks + (if r.led then [StartedLeading] else [])
      && (!r.led ==> r.used == |rounds| && r.elector == e)
      && (r.led ==> 0 < r.used && r.log != [] && r.log[|r.log| - 1].holder == me
                    && r.elector.lastRenewSuccess == rounds[r.used - 1].now == r.log[|r.log| - 1].renewTime)
    decreases |rounds|
  {
    if rounds != [] {
      TickOutcome(e, AppliedAll(log, rounds[0].before), me, duration, rounds[0].now, rounds[0].env);
      var r := RoundTick(e, log, me, duration, rounds[0]);
      if !r.attempt.Success() {
        assert r.elector == e;
        AcquireLeadsOnlyByWinning(e, r.log, me, duration, rounds[1..]);
      }
    }
  }

  datatype Exit = StopRequested | Lost | DeadlineExceeded

  datatype RenewResult = RenewResult(elector: Elector, log: Log, exit: Exit, used: nat)

  /** The renew loop over the rounds it gets before `stop` is set. */
  function RenewRun(e: Elector, log: Log, me: Identity, duration: real, deadline: real, rounds: seq<Round>): RenewResult
    decreases |rounds|
  {
    if rounds == [] then RenewResult(e, log, StopRequested, 0)
    else
      var r := RoundTick(e, log, me, duration, rounds[0]);
      if r.attempt.HeldByOther? then RenewResult(r.elector, r.log, Lost, 1)
      else if r.attempt.Failed? && rounds[0].check - r.elector.lastRenewSuccess > deadline then
        RenewResult(StepDown(r.elector), r.log, DeadlineExceeded, 1)
      else
        var rest := RenewRun(r.elector, r.log, me, duration, deadline, rounds[1..]);
        rest.(used := rest.used + 1)
  }

  /** The renew loop gives the flag up on every exit but `stop`, and fires "stopped" exactly then. When it
      leaves by the deadline, that round's check lies more than the deadline after the last success. */
  lemma {:induction false} RenewGivesUpTheFlag(
      e: Elector, log: Log, me: Identity, duration: real, deadline: real, rounds: seq<Round>)
    requires e.Valid() && e.isLeader
    ensures var r := RenewRun(e, log, me, duration, deadline, rounds);
      && r.elector.Valid() && r.used <= |rounds|
      && (r.elector.isLeader <==> r.exit.StopRequested?)
      && r.elector.callbacks == e.callbacks + (if r.exit.StopRequested? then [] else [StoppedLeading])
      && (r.exit.StopRequested? ==> r.used == |rounds|)
      && (!r.exit.StopRequested? ==> 0 < r.used)
      && (r.exit.DeadlineExceeded? ==> rounds[r.used - 1].check - r.elector.lastRenewSuccess > deadline)
    decreases |rounds|
  {
    if rounds != [] {
      TickOutcome(e, AppliedAll(log, rounds[0].before), me, duration, rounds[0].now, rounds[0].env);
      var r := RoundTick(e, log, me, duration, rounds[0]);
      TransitionsKeepValid(r.elector);
      if r.elector.isLeader && !(r.attempt.Failed? && rounds[0].check - r.elector.lastRenewSuccess > deadline) {
        RenewGivesUpTheFlag(r.elector, r.log, me, duration, deadline, rounds[1..]);
      }
    }
  }

  class LeaderElector {
    const backend: InMemoryLeaseBackend
    const identity: Identity
    const leaseDurationSec: real
    const renewDeadlineSec: real
    var isLeader: bool
    var lastRenewSuccess: real
    var callbacks: seq<Callback>

    function Snapshot(): Elector
      reads this
    {
      Elector(isLeader, lastRenewSuccess, callbacks)
    }

    ghost predicate Valid()
      reads this, backend
    {
      backend.Valid() && Snapshot().Valid()
    }

    constructor (backend: InMemoryLeaseBackend, identity: Identity, leaseDurationSec: real, renewDeadlineSec: real)
      requires backend.Valid()
      ensures Valid() && Snapshot() == STANDBY_ELECTOR && this.backend == backend
      ensures this.identity == identity && this.leaseDurationSec == leaseDurationSec
      ensures this.renewDeadlineSec == renewDeadlineSec
    {
      this.backend, this.identity := backend, identity;
      this.leaseDurationSec, this.renewDeadlineSec := leaseDurationSec, renewDeadlineSec;
      isLeader, lastRenewSuccess, callbacks := false, 0.0, [];
    }

    /** A single tick: create, take over or renew the Lease. */
    method TryAcquireOrRenew(now: real, env: TickEnv) returns (attempt: Attempt)
      requires Valid()
      modifies this, backend
      ensures Valid()
      ensures TickResult(Snapshot(), backend.log, attempt)
           == old(Tick(Snapshot(), backend.log, identity, leaseDurationSec, now, env))
    {
      if env.getFails {
        return Failed;
      }
      var observed := backend.Get();
      if observed.None? {
        var initial := LeaseRecord(identity, leaseDurationSec, now, now, 0, None);
        attempt := WriteAndMark(Create(initial), true, now, env);
        return;
      }
      var rec := observed.value;
      var heldByUs := rec.holder == identity;
      if !heldByUs && !rec.IsExpired(now) {
        attempt := MarkNotLeader();
        return;
      }
      var candidate := rec.(holder := identity, duration := leaseDurationSec, renewTime := now);
      var takeover := false;
      if !heldByUs {
        candidate := candidate.(acquireTime := now, transitions := rec.transitions + 1);
        takeover := true;
      }
      attempt := WriteAndMark(Update(candidate), takeover, now, env);
    }

    /** The write half of a tick: rivals may write first, and the call may fail or lose its answer. */
    method WriteAndMark(write: Write, takeover: bool, now: real, env: TickEnv) returns (attempt: Attempt)
      requires Valid()
      modifies this, backend
      ensures Valid()
      ensures var seen := AppliedAll(old(backend.log), env.rivals);
        && backend.log == (if env.fault == NotApplied then seen else Applied(seen, write))
        && (if env.fault == NoFault && Admits(seen, write)
            then Snapshot() == MarkLeader(old(Snapshot()), now) && attempt == LeaderAttempt(old(Snapshot()), takeover)
            else Snapshot() == old(Snapshot()) && attempt == Failed)
    {
      backend.Interfere(env.rivals);
      if env.fault == NotApplied {
        return Failed;
      }
      var answer: WriteResult;
      match write {
        case Create(initial) => answer := backend.CreateLease(initial);
        case Update(candidate) => answer := backend.UpdateLease(candidate);
      }
      if answer.Conflict? || env.fault == AnswerLost {
        return Failed;
      }
      TransitionsKeepValid(Snapshot());
      lastRenewSuccess := now;
      var wasLeader := isLeader;
      isLeader := true;
      if !wasLeader {
        callbacks := callbacks + [StartedLeading];
      }
      attempt := if takeover || !wasLeader then Acquired else Renewed;
    }

    method MarkNotLeader() returns (attempt: Attempt)
      requires Valid()
      modifies this
      ensures Valid() && Snapshot() == StepDown(old(Snapshot())) && attempt == HeldByOther
    {
      TransitionsKeepValid(Snapshot());
      if isLeader {
        isLeader, callbacks := false, callbacks + [StoppedLeading];
      }
      attempt := HeldByOther;
    }

    /** Demotes after the renew deadline passed without a successful renewal. */
    method ExpireSelf()
      requires Valid()
      modifies this
      ensures Valid() && Snapshot() == StepDown(old(Snapshot()))
    {
      TransitionsKeepValid(Snapshot());
      if isLeader {
        isLeader, callbacks := false, callbacks + [StoppedLeading];
      }
    }

    /** Waits as a standby; `rounds` are the ticks it gets before `stop` is set. */
    method Acquire(rounds: seq<Round>) returns (led: bool, ghost used: nat)
      requires Valid()
      modifies this, backend
      ensures Valid()
      ensures AcquireResult(Snapshot(), backend.log, led, used)
           == old(AcquireRun(Snapshot(), backend.log, identity, leaseDurationSec, rounds))
    {
      var k := 0;
      while k < |rounds|
        invariant 0 <= k <= |rounds| && Valid()
        invariant var rest := AcquireRun(Snapshot(), backend.log, identity, leaseDurationSec, rounds[k..]);
          rest.(used := rest.used + k)
            == old(AcquireRun(Snapshot(), backend.log, identity, leaseDurationSec, rounds))
      {
        assert rounds[k..][0] == rounds[k] && rounds[k..][1..] == rounds[k + 1..];
        backend.Interfere(rounds[k].before);
        var attempt := TryAcquireOrRenew(rounds[k].now, rounds[k].env);
        k := k + 1;
        if attempt.Acquired? || attempt.Renewed? {
          return true, k;
        }
      }
      return false, k;
    }

    /** Renews on a timer while leading; returns once leadership is lost or `stop` is set. */
    method RenewUntilLost(rounds: seq<Round>) returns (ghost exit: Exit, ghost used: nat)
      requires Valid()
      modifies this, backend
      ensures Valid()
      ensures RenewResult(Snapshot(), backend.log, exit, used)
           == old(RenewRun(Snapshot(), backend.log, identity, leaseDurationSec, renewDeadlineSec, rounds))
    {
      var k := 0;
      while k < |rounds|
        invariant 0 <= k <= |rounds| && Valid()
        invariant
          var rest := RenewRun(Snapshot(), backend.log, identity, leaseDurationSec, renewDeadlineSec, rounds[k..]);
          rest.(used := rest.used + k)
            == old(RenewRun(Snapshot(), backend.log, identity, leaseDurationSec, renewDeadlineSec, rounds))
      {
        assert rounds[k..][0] == rounds[k] && rounds[k..][1..] == rounds[k + 1..];
        backend.Interfere(rounds[k].before);
        var attempt := TryAcquireOrRenew(rounds[k].now, rounds[k].env);
        k := k + 1;
        if attempt.Acquired? || attempt.Renewed? {
          continue;
        }
        if attempt.HeldByOther? {
          return Lost, k;
        }
        if rounds[k - 1].check - lastRenewSuccess > renewDeadlineSec {
          ExpireSelf();
          return DeadlineExceeded, k;
        }
      }
      return StopRequested, k;
    }
  }
}
