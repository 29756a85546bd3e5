/** One turn of the operator's loop as the steps it takes, and what turns without faults achieve together. */
module OperatorTurns {
  import opened Wrappers
  import opened OperatorProtocol
  import opened OperatorStream
  import opened OperatorDelivery
  import opened Text

  datatype ReadFault = NoReadFault | ReplyLost | ReadRaises(regrouped: bool)
  datatype StoreFault = NoStoreFault | StoreRaises(stored: bool)

  /** Where inside a turn `stop` is found set: before new entries are read, or before the entry read is handled.
      Between turns it is the end of the turns. */
  datatype StopAt = NoStop | BeforeNew | BeforeHandling

  /** What one turn of the loop meets: losing the group, faults of its four calls, the clock at the deadline
      check, the outcome of the command should it run, and `stop`. */
  datatype Turn = Turn(
    groupLost: bool,
    pending: ReadFault,
    next: ReadFault,
    now: int,
    outcome: Envelope,
    store: StoreFault,
    ackRemoves: bool,
    stop: StopAt)

  function OwnStep(fault: ReadFault): Action {
    match fault
    case NoReadFault => PendingOk
    case ReplyLost => PendingFails(false)
    case ReadRaises(regrouped) => PendingFails(regrouped)
  }

  function NextStep(fault: ReadFault): Action {
    match fault
    case NoReadFault => NewOk
    case ReplyLost => NewLost
    case ReadRaises(regrouped) => NewFails(regrouped)
  }

  function StoreStep(fault: StoreFault): Action {
    match fault
    case NoStoreFault => OperatorStream.Write
    case StoreRaises(stored) => WriteFails(stored)
  }

  /** A command is executed unless it has expired. */
  function CheckSteps(u: Setup, s: Sys, entry: nat, turn: Turn): seq<Action>
    requires entry < |s.redis.stream|
  {
    match Message(u, s, entry)
    case None => [Check(turn.now)]
    case Some(msg) => if msg.IsExpired(turn.now) then [Check(turn.now)] else [Check(turn.now), Execute(turn.outcome)]
  }

  /** Nothing follows a result that could not be written. */
  function AnswerSteps(turn: Turn): seq<Action> {
    if turn.store.NoStoreFault? then [StoreStep(turn.store), Ack(turn.ackRemoves)] else [StoreStep(turn.store)]
  }

  /** The steps that handle an entry: an unparsable one is only acknowledged. */
  function EntrySteps(u: Setup, s: Sys, entry: nat, turn: Turn): seq<Action>
    requires entry < |s.redis.stream|
  {
    CheckSteps(u, s, entry, turn) + if Message(u, s, entry).None? then [Ack(turn.ackRemoves)] else AnswerSteps(turn)
  }

  /** What is to be written for an entry: nothing if it cannot become a command, else the outcome's body if it is in
      time and the body for late commands if not. */
  ghost function AnswerTo(u: Setup, fields: Fields, turn: Turn): Option<Body> {
    if !Acceptable(u.lit, fields) then None
    else if InTime(u, fields, turn.now) then Some(OutcomeBody(u.sizes, turn.outcome, u.maxBytes))
    else Some(ExpiredBody(u.sizes, u.maxBytes))
  }

  /** The parsed message says the same. */
  lemma {:induction false} AnswerOfMessage(u: Setup, s: Sys, entry: nat, turn: Turn)
    requires entry < |s.redis.stream|
    ensures var fields := s.redis.stream[entry];
      match Message(u, s, entry)
      case None => AnswerTo(u, fields, turn).None? && !InTime(u, fields, turn.now)
      case Some(msg) =>
        && "req_id" in fields && msg.reqId == Strip(fields["req_id"])
        && (msg.IsExpired(turn.now) <==> !InTime(u, fields, turn.now))
        && AnswerTo(u, fields, turn) == Some(
             if msg.IsExpired(turn.now) then ExpiredBody(u.sizes, u.maxBytes)
             else OutcomeBody(u.sizes, turn.outcome, u.maxBytes))
  {
    InTimeIff(u, s, entry, turn.now);
    ParseIsMessageXorError(u.lit, s.redis.stream[entry], entry);
    if Acceptable(u.lit, s.redis.stream[entry]) {
      CommandOf(u.lit, s.redis.stream[entry], entry, turn.now);
    }
  }

  /** The results once an entry was handled: its answer stands under the prefix and its request id, unless storing it
      failed, and every other result is as it was. */
  ghost predicate Answered(
      u: Setup, before: map<string, Body>, fields: Fields, turn: Turn, after: map<string, Body>)
  {
    match AnswerTo(u, fields, turn)
    case None => after == before
    case Some(body) =>
      if turn.store == StoreRaises(false) then after == before
      else "req_id" in fields && after == before[u.prefix + Strip(fields["req_id"]) := body]
  }

  /** The consumer's own pending entries first; new ones only when there is none and `stop` is not set. */
  function ReadSteps(u: Setup, s: Sys, turn: Turn): seq<Action>
    requires s.pc.Top?
  {
    var own := OwnStep(turn.pending);
    if After(u, s, own).pc.NeedNew? && !turn.stop.BeforeNew? then [own, NextStep(turn.next)] else [own]
  }

  /** Where the steps lead, if they are a run. */
  function Outcome(u: Setup, s: Sys, run: seq<Action>): Sys {
    if IsRun(u, s, run) then Final(u, s, run) else s
  }

  /** Handling, if a read left an entry to check; with `stop` set the loop ends here, its entry still pending. */
  function HandlingSteps(u: Setup, s: Sys, turn: Turn): seq<Action> {
    if !turn.stop.NoStop? then [Crash]
    else if s.pc.Checking? && AtEntry(s, s.pc.entry) then EntrySteps(u, s, s.pc.entry, turn) else []
  }

  function ServeSteps(u: Setup, s: Sys, turn: Turn): seq<Action>
    requires s.pc.Top?
  {
    ReadSteps(u, s, turn) + HandlingSteps(u, Outcome(u, s, ReadSteps(u, s, turn)), turn)
  }

  function TurnSteps(u: Setup, s: Sys, turn: Turn): seq<Action>
    requires s.pc.Top?
  {
    if turn.groupLost then [DestroyGroup] + ServeSteps(u, After(u, s, DestroyGroup), turn) else ServeSteps(u, s, turn)
  }

  /** The steps of the whole loop, up to a turn that leaves it. */
  function LoopSteps(u: Setup, s: Sys, turns: seq<Turn>): seq<Action>
    requires s.pc.Top?
    decreases |turns|
  {
    if turns == [] then []
    else
      var first := TurnSteps(u, s, turns[0]);
      var t := Outcome(u, s, first);
      if t.pc.Top? then first + LoopSteps(u, t, turns[1..]) else first
  }

  lemma {:induction false} ConcatAssociates<T>(a: seq<T>, b: seq<T>, c: seq<T>)
    ensures a + b + c == a + (b + c)
  {
  }

  lemma {:induction false} RestOfRun(u: Setup, s: Sys, run: seq<Action>, more: seq<Action>)
    requires IsRun(u, s, run) && IsRun(u, s, run + more)
    ensures IsRun(u, Final(u, s, run), more) && Final(u, Final(u, s, run), more) == Final(u, s, run + more)
    decreases |run|
  {
    if run == [] {
      assert run + more == more;
    } else {
      assert (run + more)[1..] == run[1..] + more;
      RestOfRun(u, After(u, s, run[0]), run[1..], more);
    }
  }

  // ---------- Redelivery ----------

  /** What the running consumer can still get: its own pending entries and those not delivered yet. */
  ghost function Reach(s: Sys): set<nat>
    requires s.redis.group.Some?
  {
    var g := s.redis.group.value;
    set e: nat | 0 <= e < |s.redis.stream| && (g.cursor <= e || Owned(g, s.consumer, e))
  }

  /** Nothing fails and nobody stops the loop. */
  predicate Calm(turn: Turn) {
    && !turn.groupLost && turn.pending.NoReadFault? && turn.next.NoReadFault?
    && turn.store.NoStoreFault? && turn.ackRemoves && turn.stop.NoStop?
  }

  /** Reading takes the oldest pending entry of its own, or else the next new one, or finds nothing. */
  lemma {:induction false} CalmRead(u: Setup, s: Sys, turn: Turn)
    requires Inv(u, s) && s.pc.Top? && s.redis.group.Some? && Calm(turn)
    ensures IsRun(u, s, ReadSteps(u, s, turn))
    ensures var t, g := Final(u, s, ReadSteps(u, s, turn)), s.redis.group.value;
      if Reach(s) == {} then t == s
      else
        && t.pc.Checking? && t.pc.entry in Reach(s) && t.deliveries == s.deliveries + [t.pc.entry]
        && t.redis.stream == s.redis.stream && t.consumer == s.consumer && t.answered == s.answered
        && t.redis.results == s.redis.results
        && t.redis.group == Some(if Owned(g, s.consumer, t.pc.entry) then g
                                 else Group(t.pc.entry + 1, g.pending[t.pc.entry := s.consumer]))
        && (!Owned(g, s.consumer, t.pc.entry) ==> t.pc.entry == g.cursor)
  {
    var g := s.redis.group.value;
    var run, t := Extended(u, s, [], PendingOk);
    if t.pc.NeedNew? {
      run, t := Extended(u, s, run, NewOk);
      assert g.cursor < |s.redis.stream| ==> g.cursor in Reach(s);
    } else {
      assert t.pc.entry in Reach(s);
    }
    assert run == ReadSteps(u, s, turn);
  }

  lemma {:induction false} CalmCheck(u: Setup, s: Sys, turn: Turn)
    requires Inv(u, s) && s.pc.Checking?
    ensures s.pc.entry < |s.redis.stream| && IsRun(u, s, CheckSteps(u, s, s.pc.entry, turn))
    ensures var t, e := Final(u, s, CheckSteps(u, s, s.pc.entry, turn)), s.pc.entry;
      && t.redis == s.redis && t.consumer == s.consumer && t.deliveries == s.deliveries && t.answered == s.answered
      && if Message(u, s, e).None? then t.pc == Acking(e)
         else
           && AnswerTo(u, s.redis.stream[e], turn).Some?
           && t.pc == Writing(e, AnswerTo(u, s.redis.stream[e], turn).value)
  {
    AnswerOfMessage(u, s, s.pc.entry, turn);
    var run, t := Extended(u, s, [], Check(turn.now));
    if t.pc.Executing? {
      run, t := Extended(u, s, run, Execute(turn.outcome));
    }
    assert run == CheckSteps(u, s, s.pc.entry, turn);
  }

  /** Writing the result, unless there is none to write, and acknowledging. */
  lemma {:induction false} CalmAnswer(u: Setup, s: Sys, turn: Turn)
    requires s.redis.group.Some? && Calm(turn) && (s.pc.Acking? || s.pc.Writing?) && AtEntry(s, s.pc.entry)
    requires s.pc.Writing? <==> Message(u, s, s.pc.entry).Some?
    ensures var steps := if s.pc.Acking? then [Ack(turn.ackRemoves)] else AnswerSteps(turn);
      && IsRun(u, s, steps)
      && var t := Final(u, s, steps);
        && t.pc.Top? && t.redis.stream == s.redis.stream && t.consumer == s.consumer
        && t.deliveries == s.deliveries && s.answered <= t.answered
        && t.redis.group == Some(s.redis.group.value.(pending := s.redis.group.value.pending - {s.pc.entry}))
        && s.pc.entry < |t.redis.stream| && Settled(u, t, s.pc.entry)
        && t.redis.results
           == if s.pc.Acking? then s.redis.results
              else s.redis.results[ResultKey(u, Message(u, s, s.pc.entry).value.reqId) := s.pc.body]
  {
    if s.pc.Acking? {
      var run, t := Extended(u, s, [], Ack(true));
    } else {
      var run, t := Extended(u, s, [], OperatorStream.Write);
      run, t := Extended(u, s, run, Ack(true));
      assert run == AnswerSteps(turn);
    }
  }

  /** Handling: check, perhaps execute, write the result, acknowledge. */
  lemma {:induction false} CalmHandling(u: Setup, s: Sys, turn: Turn)
    requires Inv(u, s) && s.pc.Checking? && s.redis.group.Some? && Calm(turn)
    ensures IsRun(u, s, HandlingSteps(u, s, turn))
    ensures var t := Final(u, s, HandlingSteps(u, s, turn));
      && t.pc.Top? && t.redis.stream == s.redis.stream && t.consumer == s.consumer
      && t.deliveries == s.deliveries && s.answered <= t.answered
      && t.redis.group == Some(s.redis.group.value.(pending := s.redis.group.value.pending - {s.pc.entry}))
      && s.pc.entry < |t.redis.stream| && Settled(u, t, s.pc.entry)
      && Answered(u, s.redis.results, s.redis.stream[s.pc.entry], turn, t.redis.results)
  {
    var e := s.pc.entry;
    AnswerOfMessage(u, s, e, turn);
    CalmCheck(u, s, turn);
    var checking := CheckSteps(u, s, e, turn);
    var mid := Final(u, s, checking);
    assert Message(u, mid, e) == Message(u, s, e);
    CalmAnswer(u, mid, turn);
    Compose(u, s, checking, if mid.pc.Acking? then [Ack(turn.ackRemoves)] else AnswerSteps(turn));
  }

  /** Taking `e` and acknowledging it puts it out of reach and changes nothing else. */
  lemma {:induction false} ReachAfter(s: Sys, t: Sys, e: nat)
    requires s.redis.group.Some? && e in Reach(s) && t.redis.stream == s.redis.stream && t.consumer == s.consumer
    requires var g := s.redis.group.value;
      var taken := if Owned(g, s.consumer, e) then g else Group(e + 1, g.pending[e := s.consumer]);
      && (!Owned(g, s.consumer, e) ==> e == g.cursor)
      && t.redis.group == Some(taken.(pending := taken.pending - {e}))
    requires CursorInv(s)
    ensures Reach(t) == Reach(s) - {e}
    ensures forall f: nat, owner :: owner != s.consumer ==>
              (Owned(t.redis.group.value, owner, f) <==> Owned(s.redis.group.value, owner, f))
  {
  }

  /** One calm turn takes exactly one entry out of reach, if there is one, settles it, and touches nobody else's
      pending entries. */
  lemma {:induction false} CalmTurn(u: Setup, s: Sys, turn: Turn)
    returns (t: Sys, e: nat)
    requires Inv(u, s) && s.pc.Top? && s.redis.group.Some? && Calm(turn)
    ensures IsRun(u, s, TurnSteps(u, s, turn)) && t == Final(u, s, TurnSteps(u, s, turn))
    ensures Inv(u, t) && t.pc.Top? && t.redis.group.Some?
    ensures t.redis.stream == s.redis.stream && t.consumer == s.consumer && s.answered <= t.answered
    ensures Reach(s) == {} ==> t == s
    ensures Reach(s) != {} ==>
              && e in Reach(s) && Reach(t) == Reach(s) - {e} && t.deliveries == s.deliveries + [e] && Settled(u, t, e)
              && Answered(u, s.redis.results, s.redis.stream[e], turn, t.redis.results)
    ensures forall f: nat, owner :: owner != s.consumer ==>
              (Owned(t.redis.group.value, owner, f) <==> Owned(s.redis.group.value, owner, f))
  {
    var reading := ReadSteps(u, s, turn);
    CalmRead(u, s, turn);
    var mid := Final(u, s, reading);
    RunKeepsInv(u, s, reading);
    if Reach(s) == {} {
      t, e := s, 0;
      assert TurnSteps(u, s, turn) == reading;
    } else {
      e := mid.pc.entry;
      CalmHandling(u, mid, turn);
      var handling := HandlingSteps(u, mid, turn);
      t := Final(u, mid, handling);
      RunKeepsInv(u, mid, handling);
      Compose(u, s, reading, handling);
      ReachAfter(s, t, e);
    }
  }

  ghost predicate Drained(s: Sys) {
    s.redis.group.Some? && Reach(s) == {}
  }

  /** The entry's result stands in Redis, unless it cannot become a command. */
  predicate HasResult(u: Setup, s: Sys, entry: nat)
    requires entry < |s.redis.stream|
  {
    Acceptable(u.lit, s.redis.stream[entry]) ==>
      u.prefix + Strip(s.redis.stream[entry]["req_id"]) in s.redis.results
  }

  ghost predicate AllSettled(u: Setup, t: Sys, handled: seq<nat>) {
    forall e :: e in handled ==> e < |t.redis.stream| && Settled(u, t, e) && HasResult(u, t, e)
  }

  lemma {:induction false} OneMoreSettled(u: Setup, t: Sys, e: nat, later: seq<nat>)
    requires AllSettled(u, t, later) && e < |t.redis.stream| && Settled(u, t, e) && HasResult(u, t, e)
    ensures AllSettled(u, t, [e] + later)
  {
    forall f | f in [e] + later
      ensures f < |t.redis.stream| && Settled(u, t, f) && HasResult(u, t, f)
    {
      assert f == e || f in later;
    }
  }

  /** `handled` lists the set, each element once. */
  ghost predicate Lists(handled: seq<nat>, reach: set<nat>) {
    |handled| == |reach| && forall e :: e in handled <==> e in reach
  }

  /** From `s` to `t` the loop delivered `handled`: exactly what was within reach, each entry once, and every one
      of them has its result. */
  ghost predicate DrainedBy(u: Setup, s: Sys, t: Sys, handled: seq<nat>)
    requires s.redis.group.Some?
  {
    && t.pc.Top? && Drained(t) && t.redis.stream == s.redis.stream && s.answered <= t.answered
    && s.redis.results.Keys <= t.redis.results.Keys
    && t.deliveries == s.deliveries + handled && Lists(handled, Reach(s))
    && AllSettled(u, t, handled)
  }

  lemma {:induction false} OneMoreListed(reach: set<nat>, rest: set<nat>, e: nat, later: seq<nat>)
    requires e in reach && rest == reach - {e} && Lists(later, rest)
    ensures Lists([e] + later, reach)
  {
    forall f
      ensures f in [e] + later <==> f in reach
    {
      assert f in [e] + later <==> f == e || f in later;
    }
  }

  lemma {:induction false} DrainedOneMore(u: Setup, s: Sys, mid: Sys, t: Sys, e: nat, later: seq<nat>)
    requires s.redis.group.Some? && mid.redis.group.Some? && DrainedBy(u, mid, t, later)
    requires mid.redis.stream == s.redis.stream && s.answered <= mid.answered
    requires s.redis.results.Keys <= mid.redis.results.Keys && e < |mid.redis.stream| && HasResult(u, mid, e)
    requires e in Reach(s) && Reach(mid) == Reach(s) - {e} && mid.deliveries == s.deliveries + [e] && Settled(u, mid, e)
    ensures DrainedBy(u, s, t, [e] + later)
  {
    OneMoreListed(Reach(s), Reach(mid), e, later);
    SettledStays(u, mid, t, e);
    OneMoreSettled(u, t, e, later);
    assert s.deliveries + [e] + later == s.deliveries + ([e] + later);
  }

  /** Left alone with a working Redis, the loop delivers exactly what is within reach, each entry once, and every
      entry it delivers has its result stored: any calm turns do that, if there are at least as many of them. */
  lemma {:induction false} CalmLoop(u: Setup, s: Sys, turns: seq<Turn>)
    returns (t: Sys, handled: seq<nat>)
    requires Inv(u, s) && s.pc.Top? && s.redis.group.Some?
    requires (forall k :: 0 <= k < |turns| ==> Calm(turns[k])) && |Reach(s)| <= |turns|
    ensures IsRun(u, s, LoopSteps(u, s, turns)) && t == Final(u, s, LoopSteps(u, s, turns))
    ensures DrainedBy(u, s, t, handled)
    decreases |turns|
  {
    if turns == [] {
      t, handled := s, [];
    } else {
      var first := TurnSteps(u, s, turns[0]);
      var mid, e := CalmTurn(u, s, turns[0]);
      var later;
      t, later := CalmLoop(u, mid, turns[1..]);
      Compose(u, s, first, LoopSteps(u, mid, turns[1..]));
      if Reach(s) == {} {
        handled := later;
      } else {
        handled := [e] + later;
        DrainedOneMore(u, s, mid, t, e, later);
      }
    }
  }

  lemma {:induction false} SettledStays(u: Setup, s: Sys, t: Sys, e: nat)
    requires t.redis.stream == s.redis.stream && s.answered <= t.answered && e < |s.redis.stream| && Settled(u, s, e)
    ensures Settled(u, t, e)
  {
    assert Message(u, t, e) == Message(u, s, e);
  }

  /** The state with its group in place; the loop's first read puts it there. */
  function WithGroup(s: Sys): Sys {
    s.(redis := Regrouped(s.redis))
  }

  lemma {:induction false} WithGroupKeepsInv(u: Setup, s: Sys)
    requires Inv(u, s)
    ensures Inv(u, WithGroup(s)) && WithGroup(s).redis.group.Some?
  {
    var t := WithGroup(s);
    forall e | 0 <= e < |t.redis.stream|
      ensures EntryInv(u, t, e)
    {
      assert EntryInv(u, s, e);
    }
    forall k | 0 <= k < |t.executed|
      ensures ExecutionOk(u, t, t.executed[k])
    {
      assert ExecutionOk(u, s, s.executed[k]);
    }
  }

  /** So a calm turn takes the same steps to the same state from either. */
  lemma {:induction false} SameTurn(u: Setup, s: Sys, turn: Turn)
    requires s.pc.Top? && Calm(turn)
    ensures TurnSteps(u, s, turn) == TurnSteps(u, WithGroup(s), turn)
    ensures IsRun(u, s, TurnSteps(u, s, turn)) <==> IsRun(u, WithGroup(s), TurnSteps(u, s, turn))
    ensures IsRun(u, s, TurnSteps(u, s, turn)) ==>
              Final(u, s, TurnSteps(u, s, turn)) == Final(u, WithGroup(s), TurnSteps(u, s, turn))
  {
    var t := WithGroup(s);
    assert After(u, s, PendingOk) == After(u, t, PendingOk);
    var reading := ReadSteps(u, s, turn);
    assert reading[0] == PendingOk && reading == ReadSteps(u, t, turn);
    SameAfterRead(u, s, t, reading);
    SameAfterRead(u, s, t, TurnSteps(u, s, turn));
  }

  lemma {:induction false} SameAfterRead(u: Setup, s: Sys, t: Sys, run: seq<Action>)
    requires s.pc.Top? && t.pc.Top? && After(u, s, PendingOk) == After(u, t, PendingOk)
    requires run != [] && run[0] == PendingOk
    ensures IsRun(u, s, run) <==> IsRun(u, t, run)
    ensures IsRun(u, s, run) ==> Final(u, s, run) == Final(u, t, run)
  {
  }

  lemma {:induction false} SameLoop(u: Setup, s: Sys, turns: seq<Turn>)
    requires Inv(u, s) && s.pc.Top? && turns != [] && forall k :: 0 <= k < |turns| ==> Calm(turns[k])
    ensures LoopSteps(u, s, turns) == LoopSteps(u, WithGroup(s), turns)
    ensures IsRun(u, WithGroup(s), LoopSteps(u, s, turns)) ==>
              && IsRun(u, s, LoopSteps(u, s, turns))
              && Final(u, s, LoopSteps(u, s, turns)) == Final(u, WithGroup(s), LoopSteps(u, s, turns))
  {
    var t := WithGroup(s);
    WithGroupKeepsInv(u, s);
    SameTurn(u, s, turns[0]);
    var mid, _ := CalmTurn(u, t, turns[0]);
    var steps := LoopSteps(u, s, turns);
    assert TurnSteps(u, s, turns[0])[0] == PendingOk;
    assert steps == LoopSteps(u, t, turns) && steps[0] == PendingOk;
    SameAfterRead(u, s, t, steps);
  }

  /** What calm turns deliver of an entry that waits, in a group that is there. */
  lemma {:induction false} DeliveredIff(u: Setup, s: Sys, e: nat, turns: seq<Turn>)
    returns (t: Sys)
    requires Inv(u, s) && s.pc.Top? && s.redis.group.Some? && e < |s.redis.stream| && Waiting(s, e)
    requires (forall k :: 0 <= k < |turns| ==> Calm(turns[k])) && |Reach(s)| <= |turns|
    ensures IsRun(u, s, LoopSteps(u, s, turns)) && t == Final(u, s, LoopSteps(u, s, turns))
    ensures t.pc.Top? && Drained(t) && t.redis.stream == s.redis.stream && s.deliveries <= t.deliveries
    ensures e in t.deliveries[|s.deliveries|..] <==> !(e in s.redis.group.value.pending
                                                       && s.redis.group.value.pending[e] != s.consumer)
    ensures e in t.deliveries[|s.deliveries|..] ==> Settled(u, t, e) && HasResult(u, t, e)
  {
    var handled;
    t, handled := CalmLoop(u, s, turns);
    assert t.deliveries[|s.deliveries|..] == handled;
  }

  /** At least once, exactly: of the entries not acknowledged yet, any sufficiently many calm turns deliver those
      that are not pending for another consumer, and no others; and what they deliver gets its result. If the group
      is gone, nothing is pending and every entry comes back. */
  lemma {:induction false} AtLeastOnceIff(u: Setup, s: Sys, e: nat, turns: seq<Turn>)
    requires Reachable(u, s) && s.pc.Top? && e < |s.redis.stream| && Waiting(s, e)
    requires (forall k :: 0 <= k < |turns| ==> Calm(turns[k])) && |Reach(WithGroup(s))| <= |turns|
    ensures IsRun(u, s, LoopSteps(u, s, turns))
    ensures var t, g := Final(u, s, LoopSteps(u, s, turns)), Regrouped(s.redis).group.value;
      && t.pc.Top? && t.redis.stream == s.redis.stream && s.deliveries <= t.deliveries
      && (e in t.deliveries[|s.deliveries|..] <==> !(e in g.pending && g.pending[e] != s.consumer))
      && (e in t.deliveries[|s.deliveries|..] ==> Settled(u, t, e) && HasResult(u, t, e))
      && Drained(t)
  {
    ReachableInv(u, s);
    WithGroupKeepsInv(u, s);
    var t := DeliveredIff(u, WithGroup(s), e, turns);
    if s.redis.group.None? {
      assert e in Reach(WithGroup(s));
      SameLoop(u, s, turns);
    }
  }
}
