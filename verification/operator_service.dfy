/** The operator's main loop over a Redis server object, shown to take only the steps of `OperatorStream`. */
module OperatorService {
  import opened Wrappers
  import opened OperatorProtocol
  import opened OperatorStream
  import opened OperatorDelivery
  import opened OperatorTurns
  import opened Text

  class RedisServer {
    var stream: seq<Fields>
    var group: Option<Group>
    var results: map<string, Body>

    function Snapshot(): Redis
      reads this
    {
      Redis(stream, group, results)
    }

    constructor (stream: seq<Fields>)
      ensures Snapshot() == Init(stream).redis
    {
      this.stream, group, results := stream, None, map[];
    }

    /** XGROUP CREATE from id 0; an existing group is left as it is. */
    method EnsureGroup()
      modifies this
      ensures Snapshot() == Regrouped(old(Snapshot()))
    {
      if group.None? {
        group := Some(Group(0, map[]));
      }
    }

    /** XREADGROUP of the consumer's pending entries, creating the group and retrying when it is missing. */
    method ReadPending(consumer: string) returns (entry: Option<nat>)
      modifies this
      ensures Snapshot() == Regrouped(old(Snapshot()))
      ensures entry == PendingEntry(old(Snapshot()), consumer)
    {
      if group.None? {
        EnsureGroup();
      }
      entry := None;
      var e := 0;
      while e < group.value.cursor && entry.None?
        invariant 0 <= e <= group.value.cursor
        invariant Snapshot() == Regrouped(old(Snapshot())) && group.Some?
        invariant (if entry.Some? then entry else FirstOwned(group.value, consumer, e))
               == FirstOwned(group.value, consumer, 0)
        decreases group.value.cursor - e, entry.None?
      {
        if e in group.value.pending && group.value.pending[e] == consumer {
          entry := Some(e);
        } else {
          e := e + 1;
        }
      }
    }

    /** XREADGROUP of the next new entry, likewise. */
    method ReadNew(consumer: string) returns (entry: Option<nat>)
      modifies this
      ensures Snapshot() == AfterNew(old(Snapshot()), consumer)
      ensures entry == NewEntry(old(Snapshot()))
    {
      if group.None? {
        EnsureGroup();
      }
      var g := group.value;
      if g.cursor < |stream| {
        entry := Some(g.cursor);
        group := Some(Group(g.cursor + 1, g.pending[g.cursor := consumer]));
      } else {
        entry := None;
      }
    }

    method Set(key: string, body: Body)
      modifies this
      ensures Snapshot() == old(Snapshot()).(results := old(results)[key := body])
    {
      results := results[key := body];
    }

    method XAck(entry: nat)
      modifies this
      ensures Snapshot() == AfterAck(old(Snapshot()), entry)
    {
      if group.Some? {
        group := Some(group.value.(pending := group.value.pending - {entry}));
      }
    }
  }

  lemma {:induction false} LoopOneMore(u: Setup, s: Sys, turns: seq<Turn>, k: nat, before: seq<Action>)
    requires k < |turns| && s.pc.Top?
    ensures var first := TurnSteps(u, s, turns[k]);
      var t := Outcome(u, s, first);
      before + LoopSteps(u, s, turns[k..]) == before + first + if t.pc.Top? then LoopSteps(u, t, turns[k + 1..]) else []
  {
    assert turns[k..][1..] == turns[k + 1..];
  }

  class OperatorLoop {
    const redis: RedisServer
    const consumer: string
    const setup: Setup
    /** The steps taken so far and the state they lead to. */
    ghost var run: seq<Action>
    ghost var origin: Sys
    ghost var now: Sys

    ghost predicate Valid()
      reads this, redis
    {
      && IsRun(setup, origin, run) && now == Final(setup, origin, run)
      && Inv(setup, origin) && Inv(setup, now)
      && now.consumer == consumer && now.redis == redis.Snapshot()
    }

    constructor (u: Setup, redis: RedisServer, consumer: string, ghost s: Sys)
      requires Inv(u, s) && s.pc.Down? && s.redis == redis.Snapshot()
      modifies redis
      ensures Valid() && this.redis == redis && setup == u && this.consumer == consumer
      ensures origin == s && run == [Start(consumer)] && now.pc.Top?
    {
      this.redis, this.consumer, this.setup := redis, consumer, u;
      origin := s;
      run, now := [Start(consumer)], After(u, s, Start(consumer));
      new;
      redis.EnsureGroup();
      assert run[1..] == [];
      StepKeepsInv(u, s, Start(consumer));
    }

    ghost method Take(a: Action)
      requires IsRun(setup, origin, run) && now == Final(setup, origin, run) && Inv(setup, origin) && Inv(setup, now)
      requires Enabled(setup, now, a)
      modifies this`run, this`now
      ensures IsRun(setup, origin, run) && now == Final(setup, origin, run) && Inv(setup, now)
      ensures run == old(run) + [a] && now == After(setup, old(now), a)
    {
      StepKeepsInv(setup, now, a);
      run, now := Extended(setup, origin, run, a);
    }

    /** The consumer's own oldest pending entry; a read error counts as having none. */
    method ReadOwn(fault: ReadFault) returns (entry: Option<nat>)
      requires Valid() && now.pc.Top?
      modifies this`run, this`now, redis
      ensures Valid() && origin == old(origin)
      ensures run == old(run) + [OwnStep(fault)] && now == After(setup, old(now), OwnStep(fault))
      ensures fault.ReplyLost? || fault == ReadRaises(false) ==>
                entry.None? && redis.Snapshot() == old(redis.Snapshot())
      ensures now.pc == (if entry.Some? then Checking(entry.value) else NeedNew)
    {
      entry := None;
      match fault {
        case NoReadFault =>
          entry := redis.ReadPending(consumer);
          Take(PendingOk);
        case ReplyLost =>
          Take(PendingFails(false));
        case ReadRaises(regrouped) =>
          if regrouped {
            redis.EnsureGroup();
          }
          Take(PendingFails(regrouped));
      }
    }

    /** The next new entry; on an error the loop starts its next turn. */
    method ReadNext(fault: ReadFault) returns (entry: Option<nat>)
      requires Valid() && now.pc.NeedNew?
      modifies this`run, this`now, redis
      ensures Valid() && origin == old(origin)
      ensures run == old(run) + [NextStep(fault)] && now == After(setup, old(now), NextStep(fault))
      ensures fault == ReadRaises(false) ==> entry.None? && redis.Snapshot() == old(redis.Snapshot())
      ensures fault.ReplyLost? ==> entry.None? && redis.Snapshot() == AfterNew(old(redis.Snapshot()), consumer)
      ensures now.pc == (if entry.Some? then Checking(entry.value) else Top)
    {
      entry := None;
      match fault {
        case NoReadFault =>
          entry := redis.ReadNew(consumer);
          Take(NewOk);
        case ReplyLost =>
          var _ := redis.ReadNew(consumer);
          Take(NewLost);
        case ReadRaises(regrouped) =>
          if regrouped {
            redis.EnsureGroup();
          }
          Take(NewFails(regrouped));
      }
    }

    /** Stores a result; an error here leaves the loop. */
    method WriteResult(entry: nat, reqId: string, body: Body, fault: StoreFault) returns (alive: bool)
      requires Valid() && now.pc == Writing(entry, body)
      requires entry < |now.redis.stream| && Message(setup, now, entry).Some?
      requires Message(setup, now, entry).value.reqId == reqId
      modifies this`run, this`now, redis
      ensures Valid() && origin == old(origin)
      ensures run == old(run) + [StoreStep(fault)] && alive == fault.NoStoreFault?
      ensures redis.results
           == if fault == StoreRaises(false) then old(redis.results)
              else old(redis.results)[setup.prefix + reqId := body]
      ensures now.pc == if alive then Acking(entry) else Down
    {
      var key := ResultKey(setup, reqId);
      match fault {
        case NoStoreFault =>
          redis.Set(key, body);
          Take(OperatorStream.Write);
          alive := true;
        case StoreRaises(stored) =>
          if stored {
            redis.Set(key, body);
          }
          Take(WriteFails(stored));
          alive := false;
      }
    }

    /** Parse the entry and note when it was checked. */
    method CheckEntry(entry: nat, at: int) returns (msg: Option<CommandMessage>)
      requires Valid() && now.pc == Checking(entry)
      modifies this`run, this`now
      ensures Valid() && origin == old(origin)
      ensures entry < |old(now.redis.stream)| && msg == old(Message(setup, now, entry))
      ensures run == old(run) + [Check(at)]
      ensures now == old(now).(checkedAt := at, pc :=
                if msg.None? then Acking(entry)
                else if msg.value.IsExpired(at) then Writing(entry, ExpiredBody(setup.sizes, setup.maxBytes))
                else Executing(entry))
    {
      var (parsed, err) := ParseStreamFields(setup.lit, redis.stream[entry], entry);
      ParseIsMessageXorError(setup.lit, redis.stream[entry], entry);
      Take(Check(at));
      msg := if err.Some? then None else parsed;
    }

    /** Run the command. */
    method RunCommand(entry: nat, outcome: Envelope) returns (body: Body)
      requires Valid() && now.pc == Executing(entry)
      modifies this`run, this`now
      ensures Valid() && origin == old(origin) && run == old(run) + [Execute(outcome)]
      ensures body == OutcomeBody(setup.sizes, outcome, setup.maxBytes)
      ensures now == old(now).(
                pc := Writing(entry, body),
                executed := old(now.executed) + [Execution(|old(now.deliveries)|, entry, old(now.checkedAt))])
    {
      Take(Execute(outcome));
      body := OutcomeBody(setup.sizes, outcome, setup.maxBytes);
    }

    /** Check and execute; `body` is what to write, or nothing for an entry that is only acknowledged. */
    method CheckAndExecute(entry: nat, turn: Turn) returns (reqId: string, body: Option<Body>)
      requires Valid() && now.pc == Checking(entry)
      modifies this`run, this`now
      ensures Valid() && origin == old(origin)
      ensures entry < |old(now.redis.stream)|
      ensures run == old(run) + old(CheckSteps(setup, now, entry, turn))
      ensures body == AnswerTo(setup, old(now.redis.stream[entry]), turn)
      ensures now.executed
           == old(now.executed)
                + if InTime(setup, old(now.redis.stream[entry]), turn.now)
                  then [Execution(|old(now.deliveries)|, entry, turn.now)] else []
      ensures body.Some? ==>
                && "req_id" in old(now.redis.stream[entry])
                && reqId == Strip(old(now.redis.stream[entry])["req_id"])
      ensures now.pc == if body.Some? then Writing(entry, body.value) else Acking(entry)
      ensures body.Some? ==>
                && entry < |now.redis.stream| && Message(setup, now, entry).Some?
                && Message(setup, now, entry).value.reqId == reqId
    {
      AnswerOfMessage(setup, now, entry, turn);
      var msg := CheckEntry(entry, turn.now);
      if msg.None? {
        return "", None;
      }
      reqId := msg.value.reqId;
      if msg.value.IsExpired(turn.now) {
        body := Some(ExpiredBody(setup.sizes, setup.maxBytes));
      } else {
        var outcome := RunCommand(entry, turn.outcome);
        body := Some(outcome);
      }
    }

    /** A failed XACK is logged and the loop goes on. */
    method Acknowledge(entry: nat, removes: bool)
      requires Valid() && now.pc == Acking(entry)
      modifies this`run, this`now, redis
      ensures Valid() && origin == old(origin)
      ensures run == old(run) + [Ack(removes)] && redis.results == old(redis.results)
      ensures now.pc.Top? && (removes ==> entry in now.acked)
    {
      if removes {
        redis.XAck(entry);
      }
      Take(Ack(removes));
    }

    /** Write the result and acknowledge. `alive` is false when writing raised. */
    method Answer(entry: nat, reqId: string, body: Body, turn: Turn) returns (alive: bool)
      requires Valid() && now.pc == Writing(entry, body)
      requires entry < |now.redis.stream| && Message(setup, now, entry).Some?
      requires Message(setup, now, entry).value.reqId == reqId
      modifies this`run, this`now, redis
      ensures Valid() && origin == old(origin) && run == old(run) + AnswerSteps(turn)
      ensures redis.results == if turn.store == StoreRaises(false) then old(redis.results)
                               else old(redis.results)[setup.prefix + reqId := body]
      ensures now.pc == if alive then Top else Down
      ensures alive && turn.ackRemoves ==> entry in now.acked
    {
      alive := WriteResult(entry, reqId, body, turn.store);
      if alive {
        Acknowledge(entry, turn.ackRemoves);
      }
    }

    /** Check, execute, write the result, acknowledge. */
    method HandleEntry(entry: nat, turn: Turn) returns (alive: bool)
      requires Valid() && now.pc == Checking(entry)
      modifies this`run, this`now, redis
      ensures Valid() && origin == old(origin)
      ensures entry < |old(now.redis.stream)| && run == old(run) + old(EntrySteps(setup, now, entry, turn))
      ensures Answered(setup, old(redis.results), old(now.redis.stream[entry]), turn, redis.results)
      ensures now.pc == if alive then Top else Down
      ensures alive && turn.ackRemoves ==> entry in now.acked
    {
      var reqId, body := CheckAndExecute(entry, turn);
      if body.None? {
        Acknowledge(entry, turn.ackRemoves);
        alive := true;
      } else {
        ConcatAssociates(old(run), old(CheckSteps(setup, now, entry, turn)), AnswerSteps(turn));
        alive := Answer(entry, reqId, body.value, turn);
      }
    }

    /** The reading half of a turn. */
    method ReadEntry(turn: Turn) returns (entry: Option<nat>)
      requires Valid() && now.pc.Top?
      modifies this`run, this`now, redis
      ensures Valid() && origin == old(origin)
      ensures run == old(run) + old(ReadSteps(setup, now, turn))
      ensures now == Outcome(setup, old(now), old(ReadSteps(setup, now, turn)))
      ensures entry.Some? ==> now.pc == Checking(entry.value)
      ensures entry.None? ==> now.pc.Top? || (now.pc.NeedNew? && turn.stop.BeforeNew?)
    {
      entry := ReadOwn(turn.pending);
      if entry.None? && !turn.stop.BeforeNew? {
        entry := ReadNext(turn.next);
      }
      assert run == old(run) + old(ReadSteps(setup, now, turn));
      RestOfRun(setup, origin, old(run), old(ReadSteps(setup, now, turn)));
    }

    /** The handling half. `alive` is false once the loop is left. */
    method HandleRead(entry: Option<nat>, turn: Turn) returns (alive: bool)
      requires Valid()
      requires entry.Some? ==> now.pc == Checking(entry.value)
      requires entry.None? ==> now.pc.Top? || (now.pc.NeedNew? && turn.stop.BeforeNew?)
      modifies this`run, this`now, redis
      ensures Valid() && origin == old(origin)
      ensures run == old(run) + HandlingSteps(setup, old(now), turn)
      ensures now.pc == if alive then Top else Down
    {
      alive := true;
      if !turn.stop.NoStop? {
        Take(Crash);
        alive := false;
      } else if entry.Some? {
        alive := HandleEntry(entry.value, turn);
      }
    }

    method Serve(turn: Turn) returns (alive: bool)
      requires Valid() && now.pc.Top?
      modifies this`run, this`now, redis
      ensures Valid() && origin == old(origin)
      ensures run == old(run) + old(ServeSteps(setup, now, turn))
      ensures now.pc == if alive then Top else Down
    {
      var entry := ReadEntry(turn);
      ConcatAssociates(old(run), old(ReadSteps(setup, now, turn)), HandlingSteps(setup, now, turn));
      alive := HandleRead(entry, turn);
    }

    /** One turn of the loop: read, and handle the entry if one came. */
    method TakeTurn(turn: Turn) returns (alive: bool)
      requires Valid() && now.pc.Top?
      modifies this`run, this`now, redis
      ensures Valid() && origin == old(origin)
      ensures run == old(run) + old(TurnSteps(setup, now, turn))
      ensures now.pc == if alive then Top else Down
    {
      if turn.groupLost {
        redis.group := None;
        Take(DestroyGroup);
        ConcatAssociates(old(run), [DestroyGroup], ServeSteps(setup, now, turn));
      }
      alive := Serve(turn);
    }

    /** The loop over its turns, up to one that leaves it. */
    method TakeTurns(turns: seq<Turn>) returns (alive: bool)
      requires Valid() && now.pc.Top?
      modifies this`run, this`now, redis
      ensures Valid() && origin == old(origin)
      ensures run == old(run) + old(LoopSteps(setup, now, turns))
      ensures now.pc == if alive then Top else Down
    {
      alive := true;
      ghost var all := run + LoopSteps(setup, now, turns);
      assert turns[0..] == turns;
      for k := 0 to |turns|
        invariant Valid() && origin == old(origin)
        invariant alive && now.pc.Top?
        invariant run + LoopSteps(setup, now, turns[k..]) == all
      {
        ghost var before, s := run, now;
        alive := TakeTurn(turns[k]);
        RestOfRun(setup, origin, before, TurnSteps(setup, s, turns[k]));
        LoopOneMore(setup, s, turns, k, before);
        if !alive {
          return;
        }
      }
    }

    /** Whatever its turns bring, the loop takes exactly these steps, they are a run of `OperatorStream`, and it is
        where they lead; so what is proved of every run, and of calm turns, holds of it. */
    method Run(turns: seq<Turn>) returns (alive: bool)
      requires Valid() && now.pc.Top?
      modifies this`run, this`now, redis
      ensures Valid() && origin == old(origin)
      ensures run == old(run) + old(LoopSteps(setup, now, turns))
      ensures now == Outcome(setup, old(now), old(LoopSteps(setup, now, turns)))
      ensures now.pc == if alive then Top else Down
    {
      alive := TakeTurns(turns);
      RestOfRun(setup, origin, old(run), old(LoopSteps(setup, now, turns)));
    }
  }
}
