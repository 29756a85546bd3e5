/** The command stream, its consumer group, and one consumer, step by step with faults between any two steps. */
module OperatorStream {
  import opened Wrappers
  import opened OperatorProtocol
  import opened Text

  /** `cursor`: entries delivered so far; `pending`: who was given an entry that is not acknowledged yet. */
  datatype Group = Group(cursor: nat, pending: map<nat, string>)

  /** Entries are numbered by their place in the stream. */
  datatype Redis = Redis(stream: seq<Fields>, group: Option<Group>, results: map<string, Body>)

  const NEW_GROUP := Group(0, map[])

  function Regrouped(r: Redis): Redis {
    if r.group.None? then r.(group := Some(NEW_GROUP)) else r
  }

  /** The first entry from `start` on that is pending for `consumer`. */
  function FirstOwned(g: Group, consumer: string, start: nat): (first: Option<nat>)
    ensures first.Some? ==>
              && start <= first.value < g.cursor
              && first.value in g.pending && g.pending[first.value] == consumer
              && forall e :: start <= e < first.value ==> e !in g.pending || g.pending[e] != consumer
    ensures first.None? ==>
              forall e :: start <= e < g.cursor ==> e !in g.pending || g.pending[e] != consumer
    decreases g.cursor - start
  {
    if start >= g.cursor then None
    else if start in g.pending && g.pending[start] == consumer then Some(start)
    else FirstOwned(g, consumer, start + 1)
  }

  /** XREADGROUP with id "0": the consumer's own oldest pending entry. */
  function PendingEntry(r: Redis, consumer: string): Option<nat> {
    if r.group.None? then None else FirstOwned(r.group.value, consumer, 0)
  }

  /** XREADGROUP with id ">": the next undelivered entry, which becomes pending for the consumer. */
  function NewEntry(r: Redis): Option<nat> {
    var q := Regrouped(r);
    if q.group.value.cursor < |r.stream| then Some(q.group.value.cursor) else None
  }

  function AfterNew(r: Redis, consumer: string): Redis {
    var q := Regrouped(r);
    var g := q.group.value;
    if g.cursor < |r.stream| then
      q.(group := Some(Group(g.cursor + 1, g.pending[g.cursor := consumer])))
    else q
  }

  function AfterAck(r: Redis, entry: nat): Redis {
    match r.group
    case None => r
    case Some(g) => r.(group := Some(g.(pending := g.pending - {entry})))
  }

  datatype Pc =
    | Top
    | NeedNew
    | Checking(entry: nat)
    | Executing(entry: nat)
    | Writing(entry: nat, body: Body)
    | Acking(entry: nat)
    | Down

  /** `delivery` numbers the delivery the execution belongs to. */
  datatype Execution = Execution(delivery: nat, entry: nat, checkedAt: int)

  datatype Setup = Setup(lit: Literals, sizes: Sizes, maxBytes: int, prefix: string)

  /** The last components record history: what was handed to the loop, when it was last checked, what was run,
      which result keys were written (their values may expire later) and what was acknowledged. */
  datatype Sys = Sys(
    redis: Redis,
    consumer: string,
    pc: Pc,
    deliveries: seq<nat>,
    checkedAt: int,
    executed: seq<Execution>,
    answered: set<string>,
    acked: set<nat>)

  /** `Crash` is every way the loop ends in the middle of something, `stop` found set there included. */
  datatype Action =
    | Produce(fields: Fields)
    | DestroyGroup
    | PendingOk
    | PendingFails(regrouped: bool)
    | NewOk
    | NewLost
    | NewFails(regrouped: bool)
    | Check(now: int)
    | Execute(outcome: Envelope)
    | Write
    | WriteFails(stored: bool)
    | Ack(removed: bool)
    | Crash
    | Start(consumer: string)
    | Forget(key: string)

  function Init(stream: seq<Fields>): Sys {
    Sys(Redis(stream, None, map[]), "", Down, [], 0, [], {}, {})
  }

  function Message(u: Setup, s: Sys, entry: nat): Option<CommandMessage>
    requires entry < |s.redis.stream|
  {
    ParseStreamFields(u.lit, s.redis.stream[entry], entry).0
  }

  function ResultKey(u: Setup, reqId: string): string {
    u.prefix + reqId
  }

  predicate AtEntry(s: Sys, entry: nat) {
    entry < |s.redis.stream|
  }

  predicate Enabled(u: Setup, s: Sys, a: Action) {
    match a
    case Produce(_) => true
    case DestroyGroup => true
    case PendingOk => s.pc.Top?
    case PendingFails(_) => s.pc.Top?
    case NewOk => s.pc.NeedNew?
    case NewLost => s.pc.NeedNew?
    case NewFails(_) => s.pc.NeedNew?
    case Check(_) => s.pc.Checking? && AtEntry(s, s.pc.entry)
    case Execute(_) => s.pc.Executing? && AtEntry(s, s.pc.entry)
    case Write => s.pc.Writing? && AtEntry(s, s.pc.entry) && Message(u, s, s.pc.entry).Some?
    case WriteFails(_) => s.pc.Writing? && AtEntry(s, s.pc.entry) && Message(u, s, s.pc.entry).Some?
    case Ack(_) => s.pc.Acking?
    case Crash => !s.pc.Down?
    case Start(_) => s.pc.Down?
    case Forget(_) => true
  }

  function Deliver(s: Sys, entry: Option<nat>, otherwise: Pc): Sys {
    match entry
    case None => s.(pc := otherwise)
    case Some(e) => s.(pc := Checking(e), deliveries := s.deliveries + [e])
  }

  function Checked(u: Setup, s: Sys, now: int): Sys
    requires Enabled(u, s, Check(now))
  {
    var e := s.pc.entry;
    var t := s.(checkedAt := now);
    match Message(u, s, e)
    case None => t.(pc := Acking(e))
    case Some(msg) =>
      if msg.IsExpired(now) then t.(pc := Writing(e, ExpiredBody(u.sizes, u.maxBytes)))
      else t.(pc := Executing(e))
  }

  function Stored(u: Setup, s: Sys): Sys
    requires Enabled(u, s, Write)
  {
    var key := ResultKey(u, Message(u, s, s.pc.entry).value.reqId);
    s.(redis := s.redis.(results := s.redis.results[key := s.pc.body]), answered := s.answered + {key})
  }

  function After(u: Setup, s: Sys, a: Action): Sys
    requires Enabled(u, s, a)
  {
    match a
    case Produce(fields) => s.(redis := s.redis.(stream := s.redis.stream + [fields]))
    case DestroyGroup => s.(redis := s.redis.(group := None))
    case PendingOk => Deliver(s.(redis := Regrouped(s.redis)), PendingEntry(s.redis, s.consumer), NeedNew)
    case PendingFails(regrouped) => s.(pc := NeedNew, redis := if regrouped then Regrouped(s.redis) else s.redis)
    case NewOk => Deliver(s.(redis := AfterNew(s.redis, s.consumer)), NewEntry(s.redis), Top)
    case NewLost => s.(redis := AfterNew(s.redis, s.consumer), pc := Top)
    case NewFails(regrouped) => s.(pc := Top, redis := if regrouped then Regrouped(s.redis) else s.redis)
    case Check(now) => Checked(u, s, now)
    case Execute(outcome) =>
      s.(executed := s.executed + [Execution(|s.deliveries|, s.pc.entry, s.checkedAt)],
         pc := Writing(s.pc.entry, OutcomeBody(u.sizes, outcome, u.maxBytes)))
    case Write => Stored(u, s).(pc := Acking(s.pc.entry))
    case WriteFails(stored) => (if stored then Stored(u, s) else s).(pc := Down)
    case Ack(removed) =>
      if removed then s.(redis := AfterAck(s.redis, s.pc.entry), acked := s.acked + {s.pc.entry}, pc := Top)
      else s.(pc := Top)
    case Crash => s.(pc := Down)
    case Start(consumer) => s.(redis := Regrouped(s.redis), consumer := consumer, pc := Top)
    case Forget(key) => s.(redis := s.redis.(results := s.redis.results - {key}))
  }

  predicate IsRun(u: Setup, s: Sys, run: seq<Action>)
    decreases |run|
  {
    run != [] ==> Enabled(u, s, run[0]) && IsRun(u, After(u, s, run[0]), run[1..])
  }

  function Final(u: Setup, s: Sys, run: seq<Action>): Sys
    requires IsRun(u, s, run)
    decreases |run|
  {
    if run == [] then s else Final(u, After(u, s, run[0]), run[1..])
  }

  /** What a failure leaves behind: a read that raises delivers nothing, though the group may have been made; a lost
      reply leaves the entry pending; a write that raises ends the loop, its result stored or not; a failed
      acknowledgement is forgotten. */
  lemma {:induction false} FailureEffects(u: Setup, s: Sys, a: Action)
    requires Enabled(u, s, a)
    ensures var t := After(u, s, a);
      && (a.PendingFails? ==>
            t == s.(pc := NeedNew, redis := s.redis.(group := if a.regrouped && s.redis.group.None?
                                                              then Some(Group(0, map[])) else s.redis.group)))
      && (a.NewFails? ==>
            t == s.(pc := Top, redis := s.redis.(group := if a.regrouped && s.redis.group.None?
                                                          then Some(Group(0, map[])) else s.redis.group)))
      && (a.NewLost? ==>
            && t.deliveries == s.deliveries && t.pc.Top? && t.redis.group.Some?
            && (s.redis.group.Some? && s.redis.group.value.cursor < |s.redis.stream| ==>
                  && t.redis.group.value.cursor == s.redis.group.value.cursor + 1
                  && s.redis.group.value.cursor in t.redis.group.value.pending
                  && t.redis.group.value.pending[s.redis.group.value.cursor] == s.consumer))
      && (a.WriteFails? ==>
            && t.pc.Down? && t.redis.group == s.redis.group
            && (!a.stored ==> t.redis == s.redis && t.answered == s.answered))
      && (a == Ack(false) ==> t == s.(pc := Top))
      && (a.Crash? ==> t == s.(pc := Down))
  {
  }

  /** And what others do: they append entries, lose the group, or let a result expire. */
  lemma {:induction false} OthersEffects(u: Setup, s: Sys, a: Action)
    requires Enabled(u, s, a)
    ensures var t := After(u, s, a);
      && (a.Produce? ==> t == s.(redis := s.redis.(stream := s.redis.stream + [a.fields])))
      && (a.DestroyGroup? ==> t == s.(redis := s.redis.(group := None)))
      && (a.Forget? ==> a.key !in t.redis.results && t.redis.group == s.redis.group && t.pc == s.pc
                        && forall k :: k in s.redis.results && k != a.key ==>
                             k in t.redis.results && t.redis.results[k] == s.redis.results[k])
  {
  }

  // ---------- Result before ack, nothing lost ----------

  /** The entry cannot become a command, or a result was written under its request id. */
  predicate Settled(u: Setup, s: Sys, entry: nat)
    requires entry < |s.redis.stream|
  {
    match Message(u, s, entry)
    case None => true
    case Some(msg) => ResultKey(u, msg.reqId) in s.answered
  }

  /** The entry waits in the group: not delivered yet, or pending for some consumer. */
  predicate Waiting(s: Sys, entry: nat) {
    s.redis.group.None? || s.redis.group.value.cursor <= entry || entry in s.redis.group.value.pending
  }

  ghost predicate PcInv(u: Setup, s: Sys) {
    match s.pc
    case Checking(e) => AtEntry(s, e) && s.deliveries != [] && s.deliveries[|s.deliveries| - 1] == e
    case Executing(e) =>
      && AtEntry(s, e) && s.deliveries != [] && s.deliveries[|s.deliveries| - 1] == e
      && Message(u, s, e).Some? && !Message(u, s, e).value.IsExpired(s.checkedAt)
    case Writing(e, _) => AtEntry(s, e) && Message(u, s, e).Some?
    case Acking(e) => AtEntry(s, e) && Settled(u, s, e)
    case _ => true
  }

  /** An execution belongs to one delivery, of a command that was not expired when that delivery was checked. */
  ghost predicate ExecutionOk(u: Setup, s: Sys, x: Execution) {
    && AtEntry(s, x.entry) && Message(u, s, x.entry).Some? && !Message(u, s, x.entry).value.IsExpired(x.checkedAt)
    && 0 < x.delivery <= |s.deliveries| && s.deliveries[x.delivery - 1] == x.entry
  }

  ghost predicate ExecutionsInv(u: Setup, s: Sys) {
    && (forall k :: 0 <= k < |s.executed| ==> ExecutionOk(u, s, s.executed[k]))
    && (forall j, k :: 0 <= j < k < |s.executed| ==> s.executed[j].delivery < s.executed[k].delivery)
    && (s.pc.Checking? || s.pc.Executing? ==>
          forall k :: 0 <= k < |s.executed| ==> s.executed[k].delivery < |s.deliveries|)
  }

  ghost predicate CursorInv(s: Sys) {
    s.redis.group.Some? ==>
      && s.redis.group.value.cursor <= |s.redis.stream|
      && forall e :: e in s.redis.group.value.pending ==> e < s.redis.group.value.cursor
  }

  ghost predicate EntryInv(u: Setup, s: Sys, entry: nat)
    requires entry < |s.redis.stream|
  {
    (Waiting(s, entry) || entry in s.acked) && (entry in s.acked ==> Settled(u, s, entry))
  }

  ghost predicate GroupInv(u: Setup, s: Sys) {
    && CursorInv(s)
    && (forall e :: 0 <= e < |s.redis.stream| ==> EntryInv(u, s, e))
    && (forall e :: e in s.acked ==> e < |s.redis.stream|)
  }

  ghost predicate Inv(u: Setup, s: Sys) {
    PcInv(u, s) && ExecutionsInv(u, s) && GroupInv(u, s)
  }

  /** Streams, deliveries, executions and answers only grow; so what an entry says stays, and settled stays settled. */
  lemma {:induction false} StepGrows(u: Setup, s: Sys, a: Action)
    requires Enabled(u, s, a)
    ensures var t := After(u, s, a);
      && s.redis.stream <= t.redis.stream && s.deliveries <= t.deliveries && s.executed <= t.executed
      && (forall e :: 0 <= e < |s.redis.stream| ==>
            Message(u, t, e) == Message(u, s, e) && (Settled(u, s, e) ==> Settled(u, t, e)))
  {
    var t := After(u, s, a);
    assert s.answered <= t.answered;
    assert forall e :: 0 <= e < |s.redis.stream| ==> t.redis.stream[e] == s.redis.stream[e];
  }

  lemma {:induction false} StepKeepsPc(u: Setup, s: Sys, a: Action)
    requires PcInv(u, s) && GroupInv(u, s) && Enabled(u, s, a)
    ensures PcInv(u, After(u, s, a))
  {
    StepGrows(u, s, a);
  }

  lemma {:induction false} ExecutionStays(u: Setup, s: Sys, a: Action, x: Execution)
    requires Enabled(u, s, a) && ExecutionOk(u, s, x)
    ensures ExecutionOk(u, After(u, s, a), x)
  {
    StepGrows(u, s, a);
  }

  /** The new execution is of the entry just checked, delivered after every one executed before. */
  lemma {:induction false} NewExecutionOk(u: Setup, s: Sys, outcome: Envelope)
    requires PcInv(u, s) && ExecutionsInv(u, s) && Enabled(u, s, Execute(outcome))
    ensures var t, n := After(u, s, Execute(outcome)), |s.executed|;
      && |t.executed| == n + 1 && s.executed <= t.executed && ExecutionOk(u, t, t.executed[n])
      && forall k :: 0 <= k < n ==> s.executed[k].delivery < t.executed[n].delivery
  {
    StepGrows(u, s, Execute(outcome));
  }

  lemma {:induction false} ExecuteKeepsExecutions(u: Setup, s: Sys, outcome: Envelope)
    requires PcInv(u, s) && ExecutionsInv(u, s) && Enabled(u, s, Execute(outcome))
    ensures ExecutionsInv(u, After(u, s, Execute(outcome)))
  {
    var t := After(u, s, Execute(outcome));
    NewExecutionOk(u, s, outcome);
    forall k | 0 <= k < |t.executed|
      ensures ExecutionOk(u, t, t.executed[k])
    {
      if k < |s.executed| {
        ExecutionStays(u, s, Execute(outcome), s.executed[k]);
      }
    }
  }

  lemma {:induction false} StepKeepsExecutions(u: Setup, s: Sys, a: Action)
    requires PcInv(u, s) && ExecutionsInv(u, s) && Enabled(u, s, a)
    ensures ExecutionsInv(u, After(u, s, a))
  {
    if a.Execute? {
      ExecuteKeepsExecutions(u, s, a.outcome);
    } else {
      var t := After(u, s, a);
      assert t.executed == s.executed;
      forall k | 0 <= k < |s.executed|
        ensures ExecutionOk(u, t, s.executed[k]) && s.executed[k].delivery <= |s.deliveries|
      {
        ExecutionStays(u, s, a, s.executed[k]);
      }
      DeliveryCount(u, s, a);
    }
  }

  /** The loop has an unchecked or unexecuted entry in hand only since its latest delivery. */
  lemma {:induction false} DeliveryCount(u: Setup, s: Sys, a: Action)
    requires Enabled(u, s, a)
    ensures var t := After(u, s, a);
      && |s.deliveries| <= |t.deliveries|
      && (t.pc.Checking? && !s.pc.Checking? ==> |t.deliveries| == |s.deliveries| + 1)
      && (t.pc.Executing? ==> s.pc.Checking? || s.pc.Executing?)
  {
  }

  lemma {:induction false} StepKeepsCursor(u: Setup, s: Sys, a: Action)
    requires CursorInv(s) && Enabled(u, s, a)
    ensures CursorInv(After(u, s, a))
  {
  }

  lemma {:induction false} AckKeepsEntry(u: Setup, s: Sys, removed: bool, e: nat)
    requires PcInv(u, s) && Enabled(u, s, Ack(removed)) && e < |s.redis.stream| && EntryInv(u, s, e)
    ensures EntryInv(u, After(u, s, Ack(removed)), e)
  {
    StepGrows(u, s, Ack(removed));
  }

  lemma {:induction false} StepKeepsEntry(u: Setup, s: Sys, a: Action, e: nat)
    requires CursorInv(s) && Enabled(u, s, a) && !a.Ack? && e < |After(u, s, a).redis.stream|
    requires e < |s.redis.stream| ==> EntryInv(u, s, e)
    requires e in s.acked ==> e < |s.redis.stream|
    ensures EntryInv(u, After(u, s, a), e)
  {
    StepGrows(u, s, a);
    var t := After(u, s, a);
    assert t.acked == s.acked;
    assert e < |s.redis.stream| && Waiting(s, e) ==> Waiting(t, e);
  }

  lemma {:induction false} StepKeepsGroup(u: Setup, s: Sys, a: Action)
    requires PcInv(u, s) && GroupInv(u, s) && Enabled(u, s, a)
    ensures GroupInv(u, After(u, s, a))
  {
    StepKeepsCursor(u, s, a);
    StepGrows(u, s, a);
    forall e | 0 <= e < |After(u, s, a).redis.stream|
      ensures EntryInv(u, After(u, s, a), e)
    {
      if a.Ack? {
        AckKeepsEntry(u, s, a.removed, e);
      } else {
        StepKeepsEntry(u, s, a, e);
      }
    }
  }

  lemma {:induction false} StepKeepsInv(u: Setup, s: Sys, a: Action)
    requires Inv(u, s) && Enabled(u, s, a)
    ensures Inv(u, After(u, s, a))
  {
    StepKeepsPc(u, s, a);
    StepKeepsExecutions(u, s, a);
    StepKeepsGroup(u, s, a);
  }

  lemma {:induction false} RunKeepsInv(u: Setup, s: Sys, run: seq<Action>)
    requires Inv(u, s) && IsRun(u, s, run)
    ensures Inv(u, Final(u, s, run))
    decreases |run|
  {
    if run != [] {
      StepKeepsInv(u, s, run[0]);
      RunKeepsInv(u, After(u, s, run[0]), run[1..]);
    }
  }

  ghost predicate Reachable(u: Setup, s: Sys) {
    exists stream, run :: IsRun(u, Init(stream), run) && s == Final(u, Init(stream), run)
  }

  lemma {:induction false} ReachableInv(u: Setup, s: Sys)
    requires Reachable(u, s)
    ensures Inv(u, s)
  {
    var stream, run :| IsRun(u, Init(stream), run) && s == Final(u, Init(stream), run);
    RunKeepsInv(u, Init(stream), run);
  }

  /** Whatever fails or crashes wherever: an acknowledged entry could not be parsed or has its result. */
  lemma {:induction false} ResultBeforeAck(u: Setup, s: Sys, entry: nat)
    requires Reachable(u, s) && entry in s.acked
    ensures entry < |s.redis.stream| && Settled(u, s, entry)
  {
    ReachableInv(u, s);
    assert EntryInv(u, s, entry);
  }

  /** No entry is ever lost, whether or not its request id was used before: until it is acknowledged it is still to
      be delivered or pending for someone. */
  lemma {:induction false} NothingIsLost(u: Setup, s: Sys, entry: nat)
    requires Reachable(u, s) && entry < |s.redis.stream|
    ensures Waiting(s, entry) || entry in s.acked
  {
    ReachableInv(u, s);
    assert EntryInv(u, s, entry);
  }

  /** The entry can become a command, and its deadline, if it names one, had not passed at `at`. */
  ghost predicate InTime(u: Setup, fields: Fields, at: int) {
    Acceptable(u.lit, fields) && forall ms :: DeadlineIs(u.lit, fields, ms) ==> at <= ms
  }

  /** A message that has not expired is an acceptable entry that is in time. */
  lemma {:induction false} InTimeIff(u: Setup, s: Sys, entry: nat, at: int)
    requires entry < |s.redis.stream|
    ensures InTime(u, s.redis.stream[entry], at)
       <==> Message(u, s, entry).Some? && !Message(u, s, entry).value.IsExpired(at)
  {
    ParseIsMessageXorError(u.lit, s.redis.stream[entry], entry);
    if Acceptable(u.lit, s.redis.stream[entry]) {
      CommandOf(u.lit, s.redis.stream[entry], entry, at);
    }
  }

  /** Every execution is of a command whose deadline had not passed at its own delivery's check, and no delivery
      executes twice. */
  lemma {:induction false} ExpiredIsNeverExecuted(u: Setup, s: Sys, j: nat, k: nat)
    requires Reachable(u, s) && j < |s.executed| && k < |s.executed|
    ensures ExecutionOk(u, s, s.executed[j])
    ensures var x := s.executed[j]; AtEntry(s, x.entry) && InTime(u, s.redis.stream[x.entry], x.checkedAt)
    ensures j != k ==> s.executed[j].delivery != s.executed[k].delivery
  {
    ReachableInv(u, s);
    assert ExecutionOk(u, s, s.executed[j]);
    InTimeIff(u, s, s.executed[j].entry, s.executed[j].checkedAt);
  }

  /** What the loop has in hand after its check: a command was executed on this delivery, or it was late. */
  ghost predicate HandledInv(u: Setup, s: Sys) {
    (s.pc.Writing? || s.pc.Acking?) && AtEntry(s, s.pc.entry) && Message(u, s, s.pc.entry).Some? ==>
      || ExecutedNow(s)
      || Message(u, s, s.pc.entry).value.IsExpired(s.checkedAt)
  }

  /** The latest execution is the latest delivery's, of the entry in hand. */
  predicate ExecutedNow(s: Sys)
    requires s.pc.Writing? || s.pc.Acking?
  {
    s.executed != [] && s.executed[|s.executed| - 1] == Execution(|s.deliveries|, s.pc.entry, s.checkedAt)
  }

  lemma {:induction false} StepKeepsHandled(u: Setup, s: Sys, a: Action)
    requires PcInv(u, s) && HandledInv(u, s) && Enabled(u, s, a)
    ensures HandledInv(u, After(u, s, a))
  {
    StepGrows(u, s, a);
  }

  lemma {:induction false} RunKeepsHandled(u: Setup, s: Sys, run: seq<Action>)
    requires Inv(u, s) && HandledInv(u, s) && IsRun(u, s, run)
    ensures HandledInv(u, Final(u, s, run))
    decreases |run|
  {
    if run != [] {
      StepKeepsInv(u, s, run[0]);
      StepKeepsHandled(u, s, run[0]);
      RunKeepsHandled(u, After(u, s, run[0]), run[1..]);
    }
  }

  /** And conversely: a command about to be answered or acknowledged was executed on this very delivery exactly as the
      check found it, unless a deadline it names had passed at the check. */
  lemma {:induction false} ExecutedUnlessLate(u: Setup, s: Sys)
    requires Reachable(u, s) && (s.pc.Writing? || s.pc.Acking?)
    ensures AtEntry(s, s.pc.entry)
    ensures var fields := s.redis.stream[s.pc.entry];
      Acceptable(u.lit, fields) ==> ExecutedNow(s) || exists ms :: DeadlineIs(u.lit, fields, ms) && ms < s.checkedAt
  {
    var stream, run :| IsRun(u, Init(stream), run) && s == Final(u, Init(stream), run);
    RunKeepsHandled(u, Init(stream), run);
    RunKeepsInv(u, Init(stream), run);
    var e := s.pc.entry;
    if Acceptable(u.lit, s.redis.stream[e]) {
      CommandOf(u.lit, s.redis.stream[e], e, s.checkedAt);
    }
  }

  // ---------- The results themselves ----------

  /** No result expires. */
  predicate ForgetsNothing(run: seq<Action>) {
    forall k :: 0 <= k < |run| ==> !run[k].Forget?
  }

  lemma {:induction false} ResultsStay(u: Setup, s: Sys, run: seq<Action>)
    requires IsRun(u, s, run) && ForgetsNothing(run) && s.answered <= s.redis.results.Keys
    ensures Final(u, s, run).answered <= Final(u, s, run).redis.results.Keys
    decreases |run|
  {
    if run != [] {
      ResultsStay(u, After(u, s, run[0]), run[1..]);
    }
  }

  /** As long as no result expires, the result of every acknowledged command stands in Redis under the prefix and its
      request id, whatever failed or crashed. */
  lemma {:induction false} ResultIsThere(u: Setup, stream: seq<Fields>, run: seq<Action>, entry: nat)
    requires IsRun(u, Init(stream), run) && ForgetsNothing(run) && entry in Final(u, Init(stream), run).acked
    ensures var s := Final(u, Init(stream), run);
      && entry < |s.redis.stream|
      && (Acceptable(u.lit, s.redis.stream[entry]) ==>
            u.prefix + Strip(s.redis.stream[entry]["req_id"]) in s.redis.results)
  {
    var s := Final(u, Init(stream), run);
    ResultBeforeAck(u, s, entry);
    ResultsStay(u, Init(stream), run);
    if Acceptable(u.lit, s.redis.stream[entry]) {
      CommandOf(u.lit, s.redis.stream[entry], entry, 0);
    }
  }
}
