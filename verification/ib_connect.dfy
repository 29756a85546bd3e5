/** The port x client-id search for a TWS connection, and the client that keeps its id across reconnects. */
module IbConnect {
  import opened Wrappers

  /** How one connect attempt ends. */
  datatype Outcome = Connects | Refused | Fails

  /** The outcome of the first attempt, the second, and so on, whatever is tried. */
  type Script = nat -> Outcome

  /** `step` and `attempt` are the port and client-id offsets last tried. */
  datatype Found = Found(ok: bool, step: nat, attempt: nat, tried: nat)

  /** A refusal moves to the next port, any other failure to the next id; running out of either ends the search. */
  function Seek(outs: Script, steps: nat, limit: nat, step: nat, attempt: nat, tried: nat): Found
    requires step < steps && attempt < limit
    decreases steps - step, limit - attempt
  {
    match outs(tried)
    case Connects => Found(true, step, attempt, tried + 1)
    case Refused =>
      if step + 1 < steps then Seek(outs, steps, limit, step + 1, 0, tried + 1)
      else Found(false, step, attempt, tried + 1)
    case Fails =>
      if attempt + 1 < limit then Seek(outs, steps, limit, step, attempt + 1, tried + 1)
      else Found(false, step, attempt, tried + 1)
  }

  function Search(outs: Script, steps: nat, limit: nat): Found
    requires 0 < steps && 0 < limit
  {
    Seek(outs, steps, limit, 0, 0, 0)
  }

  function Refusals(outs: Script, n: nat): nat {
    if n == 0 then 0 else Refusals(outs, n - 1) + if outs(n - 1).Refused? then 1 else 0
  }

  /** Failures other than a refusal since the last refusal, among the first `n` outcomes. */
  function FailsInARow(outs: Script, n: nat): nat {
    if n == 0 || !outs(n - 1).Fails? then 0 else 1 + FailsInARow(outs, n - 1)
  }

  /** Every search, told by its outcomes alone: it goes on past each outcome but the last, the pair it ends on is
      given by the refusals so far and the failures in a row, and it ends for one of three reasons. */
  lemma {:induction false} SearchMeaning(outs: Script, steps: nat, limit: nat)
    requires 0 < steps && 0 < limit
    ensures var r := Search(outs, steps, limit);
      && 0 < r.tried <= steps * limit
      && r.step == Refusals(outs, r.tried - 1) < steps
      && r.attempt == FailsInARow(outs, r.tried - 1) < limit
      && (forall k :: 0 <= k < r.tried - 1 ==> !outs(k).Connects?)
      && (r.ok <==> outs(r.tried - 1).Connects?)
      && (!r.ok ==> || (outs(r.tried - 1).Refused? && r.step == steps - 1)
                    || (outs(r.tried - 1).Fails? && r.attempt == limit - 1))
  {
    SeekMeaning(outs, steps, limit, 0, 0, 0);
    SeekBound(outs, steps, limit, 0, 0, 0);
    CapacityIsProduct(steps, limit);
  }

  /** A port costs at most `limit` attempts. */
  function Capacity(steps: nat, limit: nat): nat {
    if steps == 0 then 0 else Capacity(steps - 1, limit) + limit
  }

  lemma {:induction false} CapacityIsProduct(steps: nat, limit: nat)
    ensures Capacity(steps, limit) == steps * limit
  {
    if steps > 0 {
      CapacityIsProduct(steps - 1, limit);
      assert steps * limit == (steps - 1) * limit + limit;
    }
  }

  lemma {:induction false} SeekBound(outs: Script, steps: nat, limit: nat, step: nat, attempt: nat, tried: nat)
    requires step < steps && attempt < limit
    ensures Seek(outs, steps, limit, step, attempt, tried).tried <= tried + Capacity(steps - step, limit) - attempt
    decreases steps - step, limit - attempt
  {
    if outs(tried).Refused? && step + 1 < steps {
      SeekBound(outs, steps, limit, step + 1, 0, tried + 1);
    } else if outs(tried).Fails? && attempt + 1 < limit {
      SeekBound(outs, steps, limit, step, attempt + 1, tried + 1);
    }
  }

  lemma {:induction false} SeekMeaning(outs: Script, steps: nat, limit: nat, step: nat, attempt: nat, tried: nat)
    requires step < steps && attempt < limit
    requires step == Refusals(outs, tried) && attempt == FailsInARow(outs, tried)
    requires forall k :: 0 <= k < tried ==> !outs(k).Connects?
    ensures var r := Seek(outs, steps, limit, step, attempt, tried);
      && tried < r.tried
      && r.step == Refusals(outs, r.tried - 1) < steps
      && r.attempt == FailsInARow(outs, r.tried - 1) < limit
      && (forall k :: 0 <= k < r.tried - 1 ==> !outs(k).Connects?)
      && (r.ok <==> outs(r.tried - 1).Connects?)
      && (!r.ok ==> || (outs(r.tried - 1).Refused? && r.step == steps - 1)
                    || (outs(r.tried - 1).Fails? && r.attempt == limit - 1))
    decreases steps - step, limit - attempt
  {
    match outs(tried)
    case Connects =>
    case Refused =>
      if step + 1 < steps {
        SeekMeaning(outs, steps, limit, step + 1, 0, tried + 1);
      }
    case Fails =>
      if attempt + 1 < limit {
        SeekMeaning(outs, steps, limit, step, attempt + 1, tried + 1);
      }
  }

  const DEFAULT_ATTEMPTS := 10

  function Limit(maxAttempts: Option<int>): (limit: int)
    ensures maxAttempts.None? ==> limit == 10
    ensures maxAttempts.Some? ==> limit == maxAttempts.value
  {
    if maxAttempts.None? then DEFAULT_ATTEMPTS else maxAttempts.value
  }

  function PortSteps(maxPortSteps: int): (steps: nat)
    ensures 1 <= steps <= 20
    ensures 1 <= maxPortSteps <= 20 ==> steps == maxPortSteps
    ensures maxPortSteps > 20 ==> steps == 20
  {
    if maxPortSteps < 1 then 1 else if maxPortSteps > 20 then 20 else maxPortSteps
  }

  datatype Connector = Connector(port: int, clientId: int, connected: bool, apiUp: bool) {
    predicate Live() { connected && apiUp }
  }

  /** What `connect` makes of a connector: nothing when it is live, or the pair found, or a failure that leaves
      port and id alone. With no attempts allowed it fails without trying. */
  function Connected(c: Connector, maxAttempts: Option<int>, maxPortSteps: int, outs: Script): Connector {
    if c.Live() then c
    else if Limit(maxAttempts) <= 0 then c.(connected := false)
    else
      var r := Search(outs, PortSteps(maxPortSteps), Limit(maxAttempts));
      if r.ok then Connector(c.port + r.step, c.clientId + r.attempt, true, true)
      else c.(connected := false, apiUp := false)
  }

  function Disconnected(c: Connector): Connector {
    if c.connected then c.(connected := false, apiUp := false) else c
  }

  /** How a search of a connector that was not live ends, told by its outcomes alone: one port further for each refusal,
      one id further for each failure since, up to the first success or the end of the ports or ids. */
  ghost predicate Searched(
      before: Connector, after: Connector, steps: nat, limit: nat, outs: Script, ok: bool, tried: nat)
  {
    && 0 < tried <= steps * limit && ok == outs(tried - 1).Connects?
    && (forall k :: 0 <= k < tried - 1 ==> !outs(k).Connects?)
    && Refusals(outs, tried - 1) < steps && FailsInARow(outs, tried - 1) < limit
    && if ok then
         && after.port == before.port + Refusals(outs, tried - 1)
         && after.clientId == before.clientId + FailsInARow(outs, tried - 1)
         && after.connected && after.apiUp
       else
         && after.port == before.port && after.clientId == before.clientId && !after.connected && !after.apiUp
         && (|| (outs(tried - 1).Refused? && Refusals(outs, tried - 1) == steps - 1)
             || (outs(tried - 1).Fails? && FailsInARow(outs, tried - 1) == limit - 1))
  }

  lemma {:induction false} ConnectedMeaning(c: Connector, maxAttempts: Option<int>, maxPortSteps: int, outs: Script)
    requires !c.Live() && Limit(maxAttempts) > 0
    ensures var r := Search(outs, PortSteps(maxPortSteps), Limit(maxAttempts));
      Searched(c, Connected(c, maxAttempts, maxPortSteps, outs), PortSteps(maxPortSteps), Limit(maxAttempts), outs,
        Connected(c, maxAttempts, maxPortSteps, outs).Live(), r.tried)
  {
    SearchMeaning(outs, PortSteps(maxPortSteps), Limit(maxAttempts));
  }

  class IBConnector {
    var port: int
    var clientId: int
    var connected: bool
    var apiUp: bool

    function Snapshot(): Connector
      reads this
    {
      Connector(port, clientId, connected, apiUp)
    }

    constructor (port: int, clientId: int)
      ensures Snapshot() == Connector(port, clientId, false, false)
    {
      this.port, this.clientId, connected, apiUp := port, clientId, false, false;
    }

    /** `tried` counts the attempts made; `fellThrough` marks the exit after both loops. */
    method Connect(maxAttempts: Option<int>, maxPortSteps: int, outs: Script)
      returns (ok: bool, tried: nat, fellThrough: bool)
      modifies this
      ensures Snapshot() == Connected(old(Snapshot()), maxAttempts, maxPortSteps, outs)
      ensures ok == Snapshot().Live()
      ensures fellThrough <==> !old(Snapshot()).Live() && Limit(maxAttempts) <= 0
      ensures tried == if old(Snapshot()).Live() || Limit(maxAttempts) <= 0 then 0
                       else Search(outs, PortSteps(maxPortSteps), Limit(maxAttempts)).tried
      ensures old(Snapshot()).Live() ==> Snapshot() == old(Snapshot())
      ensures !old(Snapshot()).Live() && Limit(maxAttempts) > 0 ==>
                Searched(old(Snapshot()), Snapshot(), PortSteps(maxPortSteps), Limit(maxAttempts), outs, ok, tried)
      ensures !old(Snapshot()).Live() && Limit(maxAttempts) <= 0 ==>
                !ok && port == old(port) && clientId == old(clientId) && !connected && apiUp == old(apiUp)
    {
      if connected && apiUp {
        return true, 0, false;
      }
      ok, tried, fellThrough := TryPorts(maxAttempts, maxPortSteps, outs);
      if Limit(maxAttempts) > 0 {
        ConnectedMeaning(old(Snapshot()), maxAttempts, maxPortSteps, outs);
      }
    }

    /** The nested loops. */
    method TryPorts(maxAttempts: Option<int>, maxPortSteps: int, outs: Script)
      returns (ok: bool, tried: nat, fellThrough: bool)
      requires !Snapshot().Live()
      modifies this
      ensures Snapshot() == Connected(old(Snapshot()), maxAttempts, maxPortSteps, outs)
      ensures ok == Snapshot().Live()
      ensures fellThrough <==> Limit(maxAttempts) <= 0
      ensures tried == if Limit(maxAttempts) <= 0 then 0
                       else Search(outs, PortSteps(maxPortSteps), Limit(maxAttempts)).tried
    {
      var basePort, baseId := port, clientId;
      var limit := if maxAttempts.Some? then maxAttempts.value else 10;
      var steps := if maxPortSteps < 1 then 1 else if maxPortSteps > 20 then 20 else maxPortSteps;
      tried, fellThrough := 0, false;
      for portStep := 0 to steps
        invariant port == basePort && clientId == baseId && connected == old(connected)
        invariant apiUp == (if tried == 0 then old(apiUp) else false)
        invariant limit <= 0 ==> tried == 0
        invariant limit > 0 ==>
          portStep < steps && Seek(outs, steps, limit, portStep, 0, tried) == Search(outs, steps, limit)
      {
        var attempt := 0;
        while attempt < limit
          invariant port == basePort && clientId == baseId && connected == old(connected)
          invariant apiUp == (if tried == 0 then old(apiUp) else false)
          invariant limit <= 0 ==> tried == 0
          invariant limit > 0 ==>
            0 <= attempt < limit && Seek(outs, steps, limit, portStep, attempt, tried) == Search(outs, steps, limit)
          decreases limit - attempt
        {
          var outcome := outs(tried);
          tried := tried + 1;
          if outcome.Connects? {
            port, clientId, connected, apiUp := basePort + portStep, baseId + attempt, true, true;
            return true, tried, false;
          }
          apiUp := false;
          if outcome.Refused? {
            if portStep < steps - 1 {
              break;
            }
            connected := false;
            return false, tried, false;
          }
          if attempt >= limit - 1 {
            if portStep < steps - 1 && outcome.Refused? {
              assert false; // "all client ids failed, trying port": a refusal never gets here
              break;
            }
            connected := false;
            return false, tried, false;
          }
          attempt := attempt + 1;
        }
      }
      connected := false;
      return false, tried, true;
    }

    /** The socket is closed on purpose; for the ticker tables see `Subscriptions.TickerTable.Disconnect`. */
    method Disconnect()
      modifies this
      ensures Snapshot() == Disconnected(old(Snapshot()))
      ensures old(connected) ==> !connected && !apiUp && port == old(port) && clientId == old(clientId)
      ensures !old(connected) ==> Snapshot() == old(Snapshot())
    {
      if !connected {
        return;
      }
      connected, apiUp := false, false;
    }
  }

  // ---------- The client ----------

  datatype Client = Client(
    port: int,
    clientId: int,
    connector: Option<Connector>,
    connectedState: bool,
    dropped: bool,
    reconnects: nat)
  {
    predicate IsConnected() {
      if connector.Some? then connector.value.Live() else connectedState
    }
  }

  datatype Event =
    | Ensure(maxAttempts: Option<int>, outs: Script)  // `ensure_connected`; `Some(1)` is a heartbeat
    | Dropped(current: bool)                          // a disconnected event, of the current socket or a stale one
    | SocketLost                                      // the socket is gone but no event fired yet
    | SnapshotRead(inGrace: bool)                     // `connected_snapshot` read by another thread
    | SelfReconnect(outs: Script)                     // a request finds its connector down and reconnects it
    | Disconnect                                      // `disconnect`, which may leave the socket's own fields alone

  function EnsureLimit(maxAttempts: Option<int>): (limit: nat)
    ensures 1 <= limit
    ensures maxAttempts.None? ==> limit == 10
    ensures maxAttempts.Some? && maxAttempts.value >= 1 ==> limit == maxAttempts.value
    ensures maxAttempts.Some? && maxAttempts.value < 1 ==> limit == 1
  {
    if maxAttempts.None? then DEFAULT_ATTEMPTS else if maxAttempts.value < 1 then 1 else maxAttempts.value
  }

  function EnsureSteps(maxAttempts: Option<int>): nat {
    if maxAttempts == Some(1) then 1 else 5
  }

  function Ensured(c: Client, maxAttempts: Option<int>, outs: Script): Client {
    if c.IsConnected() then c
    else
      var made := Connected(
        Connector(c.port, c.clientId, false, false), Some(EnsureLimit(maxAttempts)), EnsureSteps(maxAttempts), outs);
      if !made.Live() then c.(connector := None, connectedState := false)
      else
        c.(connector := Some(made), clientId := made.clientId, connectedState := true,
           reconnects := if c.dropped then c.reconnects + 1 else c.reconnects)
  }

  function Next(c: Client, e: Event): Client {
    match e
    case Ensure(maxAttempts, outs) => Ensured(c, maxAttempts, outs)
    case Dropped(current) =>
      c.(connectedState := false, dropped := true,
         connector := if current && c.connector.Some?
                      then Some(c.connector.value.(connected := false, apiUp := false)) else c.connector)
    case SocketLost =>
      c.(connector := if c.connector.Some? then Some(c.connector.value.(apiUp := false)) else None)
    case SnapshotRead(inGrace) =>
      if c.connector.None? || c.connector.value.Live() || (c.connectedState && inGrace) then c
      else c.(connectedState := false)
    case SelfReconnect(outs) =>
      c.(connector := if c.connector.Some?
                      then Some(Connected(c.connector.value, None, 1, outs)) else None)
    case Disconnect =>
      c.(connector := None, connectedState := false, dropped := c.dropped || c.connector.Some?)
  }

  function NextAll(c: Client, events: seq<Event>): Client
    decreases |events|
  {
    if events == [] then c else NextAll(Next(c, events[0]), events[1..])
  }

  /** The state flag needs a connector, and the connector sits at a port the search could have reached with an id
      at least the client's. */
  ghost predicate ClientInv(c: Client) {
    && (c.connectedState ==> c.connector.Some?)
    && (c.connector.Some? ==> c.port <= c.connector.value.port < c.port + 5 && c.clientId <= c.connector.value.clientId)
  }

  /** What an event does to the flag, the memory of a drop, and the count of reconnects. */
  lemma {:induction false} EventEffects(c: Client, e: Event)
    ensures var t := Next(c, e);
      && (e.Dropped? ==>
            && !t.connectedState && t.dropped
            && (e.current && c.connector.Some? ==> !t.connector.value.connected && !t.connector.value.apiUp)
            && (!e.current ==> t.connector == c.connector))
      && (e.Disconnect? ==> !t.connectedState && t.connector.None? && (c.connector.Some? ==> t.dropped))
      && (e.SocketLost? ==> t.connectedState == c.connectedState && !(t.connector.Some? && t.connector.value.Live()))
      && (!e.Dropped? && !e.Disconnect? ==> t.dropped == c.dropped)
      && t.reconnects
         == c.reconnects + (if e.Ensure? && !c.IsConnected() && t.connectedState && c.dropped then 1 else 0)
      && (e.Ensure? && c.IsConnected() ==> t == c)
      && (e.Ensure? && !c.IsConnected() ==> (t.connectedState <==> t.connector.Some?)
                                            && (t.connector.Some? ==> t.connector.value.Live()))
      && (!e.Ensure? ==> t.clientId == c.clientId)
      && (e.SnapshotRead? ==> t.connector == c.connector)
      && (e.SnapshotRead? && c.connector.None? ==> t.connectedState == c.connectedState)
      && (e.SnapshotRead? && c.connector.Some? ==>
            (t.connectedState <==> c.connectedState && (c.connector.value.Live() || e.inGrace)))
  {
  }

  /** A connect that was needed searches from the configured port and the current id: five ports, or one port and one
      attempt for a heartbeat; a failure changes nothing but the connector and the flag. */
  lemma {:induction false} EnsuredMeaning(c: Client, maxAttempts: Option<int>, outs: Script)
    returns (tried: nat)
    requires !c.IsConnected()
    ensures var t, limit := Ensured(c, maxAttempts, outs), EnsureLimit(maxAttempts);
      var steps := if maxAttempts == Some(1) then 1 else 5;
      var made := if t.connector.Some? then t.connector.value else Connector(c.port, c.clientId, false, false);
      && Searched(Connector(c.port, c.clientId, false, false), made, steps, limit, outs, t.connector.Some?, tried)
      && t.port == c.port
      && (t.connector.Some? ==> t.clientId == made.clientId && t.connectedState)
      && (t.connector.None? ==> t.clientId == c.clientId && !t.connectedState)
  {
    ConnectedMeaning(Connector(c.port, c.clientId, false, false), Some(EnsureLimit(maxAttempts)),
      EnsureSteps(maxAttempts), outs);
    tried := Search(outs, EnsureSteps(maxAttempts), EnsureLimit(maxAttempts)).tried;
  }

  /** Bound on how far one event can raise the client id. */
  function MaxRise(e: Event): nat {
    if e.Ensure? then EnsureLimit(e.maxAttempts) - 1 else 0
  }

  lemma {:induction false} NextKeepsInv(c: Client, e: Event)
    requires ClientInv(c)
    ensures ClientInv(Next(c, e)) && Next(c, e).port == c.port
    ensures c.clientId <= Next(c, e).clientId <= c.clientId + MaxRise(e)
    ensures e.Ensure? && e.maxAttempts.None? ==> MaxRise(e) == 9
    ensures e.Ensure? && e.maxAttempts == Some(1) ==> MaxRise(e) == 0
  {
    if e.Ensure? {
      SearchMeaning(e.outs, EnsureSteps(e.maxAttempts), EnsureLimit(e.maxAttempts));
    } else if e.SelfReconnect? {
      SearchMeaning(e.outs, 1, DEFAULT_ATTEMPTS);
    }
  }

  function TotalRise(events: seq<Event>): (rise: nat)
    ensures (forall k :: 0 <= k < |events| && events[k].Ensure? ==> events[k].maxAttempts == Some(1)) ==> rise == 0
    decreases |events|
  {
    if events == [] then 0 else MaxRise(events[0]) + TotalRise(events[1..])
  }

  /** Over any sequence of connects, heartbeats, drops, snapshots and disconnects the client id never goes down,
      rises by at most nine per full connect and not at all by heartbeats, the configured port stays, and the
      connected flag never outlives the connector. */
  lemma {:induction false} ClientIdOverRuns(c: Client, events: seq<Event>)
    requires ClientInv(c)
    ensures ClientInv(NextAll(c, events)) && NextAll(c, events).port == c.port
    ensures c.clientId <= NextAll(c, events).clientId <= c.clientId + TotalRise(events)
    decreases |events|
  {
    if events != [] {
      NextKeepsInv(c, events[0]);
      ClientIdOverRuns(Next(c, events[0]), events[1..]);
    }
  }

  /** How another thread's read of the client's state goes: it is answered, it raises, or it is not answered in time,
      in which case it may still run later as an event of its own. */
  datatype Reading = Answered(inGrace: bool) | Raises | TimesOut

  class BaseIbClient {
    const port: int
    var clientId: int
    var connector: IBConnector?
    var connectedState: bool
    var dropped: bool
    var reconnects: nat

    function Snapshot(): Client
      reads this, connector
    {
      Client(port, clientId, if connector == null then None else Some(connector.Snapshot()),
        connectedState, dropped, reconnects)
    }

    constructor (port: int, clientId: int)
      ensures Snapshot() == Client(port, clientId, None, false, false, 0) && ClientInv(Snapshot())
    {
      this.port, this.clientId := port, clientId;
      connector, connectedState, dropped, reconnects := null, false, false, 0;
    }

    /** A new connector searches from the configured port and the current id. */
    method ConnectAnew(limit: nat, portSteps: nat, outs: Script) returns (made: IBConnector, ok: bool)
      requires limit > 0
      ensures fresh(made)
      ensures made.Snapshot() == Connected(Connector(port, clientId, false, false), Some(limit), portSteps, outs)
      ensures ok == made.Snapshot().Live()
    {
      made := new IBConnector(port, clientId);
      var tried, fellThrough;
      ok, tried, fellThrough := made.Connect(Some(limit), portSteps, outs);
      assert !fellThrough;
    }

    /** Raises (`ok` is false) when the search fails. */
    method EnsureConnected(maxAttempts: Option<int>, outs: Script) returns (ok: bool)
      modifies this, connector
      ensures Snapshot() == Ensured(old(Snapshot()), maxAttempts, outs)
      ensures ok == Snapshot().IsConnected()
      ensures connector == old(connector) || connector == null || fresh(connector)
    {
      var up := if connector != null then connector.connected && connector.apiUp else connectedState;
      if up {
        return true;
      }
      var heartbeat := maxAttempts == Some(1);
      var limit := if maxAttempts.None? then 10 else if maxAttempts.value < 1 then 1 else maxAttempts.value;
      var portSteps := if heartbeat then 1 else 5;
      if connector != null {
        connector.Disconnect();
        connector, connectedState := null, false;
      }
      connector, ok := ConnectAnew(limit, portSteps, outs);
      if !ok {
        connectedState, connector := false, null;
        return;
      }
      clientId := connector.clientId;
      if dropped {
        reconnects := reconnects + 1;
      }
      connectedState := true;
    }

    method OnDisconnected(current: bool)
      modifies this, connector
      ensures Snapshot() == Next(old(Snapshot()), Dropped(current)) && connector == old(connector)
      ensures !connectedState && dropped && clientId == old(clientId) && reconnects == old(reconnects)
    {
      if current && connector != null {
        connector.connected, connector.apiUp := false, false;
      }
      connectedState, dropped := false, true;
    }

    /** Without an answer the flag is all there is to report, and it is left alone. */
    method ConnectedSnapshot(reading: Reading) returns (up: bool)
      modifies this
      ensures connector == old(connector)
      ensures Snapshot() == if reading.Answered? then Next(old(Snapshot()), SnapshotRead(reading.inGrace))
                            else old(Snapshot())
      ensures reading.Answered? ==>
                (up <==> connector != null && (connector.Snapshot().Live() || (old(connectedState) && reading.inGrace)))
      ensures reading.Raises? ==> (up <==> connector != null && connectedState)
      ensures reading.TimesOut? ==> up == connectedState
      ensures up && ClientInv(old(Snapshot())) ==> connector != null
    {
      match reading {
        case TimesOut =>
          up := connectedState;
        case Raises =>
          up := connector != null && connectedState;
        case Answered(inGrace) =>
          if connector == null {
            return false;
          }
          if connector.connected && connector.apiUp {
            return true;
          }
          if connectedState && inGrace {
            return true;
          }
          connectedState := false;
          up := false;
      }
    }

    method DisconnectClient()
      modifies this, connector
      ensures Snapshot() == Next(old(Snapshot()), Event.Disconnect) && connector == null
      ensures !connectedState && clientId == old(clientId) && reconnects == old(reconnects)
    {
      if connector == null {
        connectedState := false;
        return;
      }
      connector.Disconnect();
      dropped := true;
      connector, connectedState := null, false;
    }
  }
}
