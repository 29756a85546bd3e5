/** Operator command envelopes: parsing a stream entry, its deadline, and the body written back. */
module OperatorProtocol {
  import opened Wrappers
  import opened Text

  const PROTOCOL_VERSION := "1"

  const ALL_OPS := {
    "fetch_bars", "fetch_bars_range", "fetch_option_expirations", "fetch_option_snapshot", "refresh_option_cache",
    "fetch_executions", "fetch_accounts_snapshot", "ping", "disconnect_all", "reconnect_all"
  }

  type Fields = map<string, string>

  datatype Payload = Payload(text: string)

  const EMPTY_PAYLOAD := Payload("{}")

  /** What `json.loads` makes of a text: not JSON, an object, or some other value. */
  datatype Json = NotJson | Object(payload: Payload) | Other

  /** JSON and integer literals are read by the language's own libraries. */
  datatype Literals = Literals(json: string -> Json, integer: string -> Option<int>)

  datatype ParseError =
    | MissingReqId
    | UnsupportedVersion(version: string)
    | MissingOp
    | UnknownOp(op: string)
    | InvalidPayloadJson
    | InvalidDeadlineMs

  datatype CommandMessage = CommandMessage(
    reqId: string,
    version: string,
    op: string,
    payload: Payload,
    caller: string,
    deadlineMs: Option<int>,
    streamId: nat)
  {
    predicate IsExpired(nowMs: int) {
      deadlineMs.Some? && nowMs > deadlineMs.value
    }
  }

  function Get(fields: Fields, key: string): string {
    if key in fields then fields[key] else ""
  }

  function Or(s: string, default: string): string {
    if s == "" then default else s
  }

  function VersionOf(fields: Fields): string {
    Or(Strip(Or(Get(fields, "v"), PROTOCOL_VERSION)), PROTOCOL_VERSION)
  }

  function PayloadOf(lit: Literals, fields: Fields): Json {
    lit.json(Or(Get(fields, "payload"), "{}"))
  }

  predicate HasDeadline(fields: Fields) {
    Strip(Get(fields, "deadline_ms")) != ""
  }

  /** A message and no error, or an error and no message. */
  function ParseStreamFields(lit: Literals, fields: Fields, streamId: nat)
    : (r: (Option<CommandMessage>, Option<ParseError>))
  {
    var reqId := Strip(Get(fields, "req_id"));
    if reqId == "" then (None, Some(MissingReqId))
    else
      var version := VersionOf(fields);
      if version != PROTOCOL_VERSION then (None, Some(UnsupportedVersion(version)))
      else
        var op := Strip(Get(fields, "op"));
        if op == "" then (None, Some(MissingOp))
        else if op !in ALL_OPS then (None, Some(UnknownOp(op)))
        else if PayloadOf(lit, fields).NotJson? then (None, Some(InvalidPayloadJson))
        else
          var payload := match PayloadOf(lit, fields) case Object(p) => p case _ => EMPTY_PAYLOAD;
          var caller := Or(Strip(Get(fields, "caller")), "unknown");
          if HasDeadline(fields) then
            match lit.integer(fields["deadline_ms"])
            case None => (None, Some(InvalidDeadlineMs))
            case Some(ms) =>
              (Some(CommandMessage(reqId, version, op, payload, caller, Some(ms), streamId)), None)
          else
            (Some(CommandMessage(reqId, version, op, payload, caller, None, streamId)), None)
  }

  /** What an entry must look like to become a command, field by field: a version may be left out or empty, and so may
      a payload and a deadline. */
  predicate Acceptable(lit: Literals, fields: Fields) {
    && "req_id" in fields && Strip(fields["req_id"]) != ""
    && ("v" in fields ==> Strip(fields["v"]) in {"", "1"})
    && "op" in fields && Strip(fields["op"]) in ALL_OPS
    && (if "payload" in fields && fields["payload"] != "" then !lit.json(fields["payload"]).NotJson?
        else !lit.json("{}").NotJson?)
    && ("deadline_ms" in fields && Strip(fields["deadline_ms"]) != "" ==> lit.integer(fields["deadline_ms"]).Some?)
  }

  /** The entry names a deadline, in milliseconds. */
  predicate DeadlineIs(lit: Literals, fields: Fields, ms: int) {
    "deadline_ms" in fields && Strip(fields["deadline_ms"]) != "" && lit.integer(fields["deadline_ms"]) == Some(ms)
  }

  /** What a command takes from each field of its entry, and when it has expired: strictly after the deadline the entry
      names, and never if it names none. */
  lemma {:induction false} CommandOf(lit: Literals, fields: Fields, streamId: nat, now: int)
    requires Acceptable(lit, fields)
    ensures ParseStreamFields(lit, fields, streamId).0.Some?
    ensures var msg := ParseStreamFields(lit, fields, streamId).0.value;
      && msg.reqId == Strip(fields["req_id"]) && msg.op == Strip(fields["op"]) && msg.version == "1"
      && msg.streamId == streamId
      && (forall p :: "payload" in fields && fields["payload"] != "" && lit.json(fields["payload"]) == Object(p) ==>
            msg.payload == p)
      && ("payload" in fields && fields["payload"] != "" && lit.json(fields["payload"]).Other? ==>
            msg.payload == EMPTY_PAYLOAD)
      && ("caller" in fields && Strip(fields["caller"]) != "" ==> msg.caller == Strip(fields["caller"]))
      && ("caller" in fields && Strip(fields["caller"]) == "" ==> msg.caller == "unknown")
      && ("caller" !in fields ==> msg.caller == "unknown")
      && (forall ms :: msg.deadlineMs == Some(ms) <==> DeadlineIs(lit, fields, ms))
      && (msg.IsExpired(now) <==> exists ms :: DeadlineIs(lit, fields, ms) && ms < now)
  {
    ParseIsMessageXorError(lit, fields, streamId);
    var msg := ParseStreamFields(lit, fields, streamId).0.value;
    if msg.deadlineMs.Some? {
      assert DeadlineIs(lit, fields, msg.deadlineMs.value);
    }
  }

  /** Parsing yields exactly one of message and error, and a message exactly when every field is acceptable;
      so the branch that answers a bad entry under its request id is never taken. */
  lemma {:induction false} ParseIsMessageXorError(lit: Literals, fields: Fields, streamId: nat)
    ensures var (msg, err) := ParseStreamFields(lit, fields, streamId);
      && (msg.Some? <==> err.None?)
      && (msg.Some? <==> Acceptable(lit, fields))
      && (msg.Some? ==> msg.value.reqId != "" && msg.value.op in ALL_OPS
                        && (msg.value.deadlineMs.Some? <==> HasDeadline(fields)))
      && !((err.Some? || msg.None?) && msg.Some? && msg.value.reqId != "")
  {
    assert "" !in ALL_OPS;
  }

  /** The error names the first unacceptable field in the order request id, version, operation, payload, deadline. */
  lemma {:induction false} FirstFaultIsReported(lit: Literals, fields: Fields, streamId: nat)
    requires !Acceptable(lit, fields)
    ensures var error := ParseStreamFields(lit, fields, streamId).1.value;
      var id, op := Strip(Get(fields, "req_id")), Strip(Get(fields, "op"));
      var versionOk := VersionOf(fields) == PROTOCOL_VERSION;
      && (error == MissingReqId <==> id == "")
      && (error == UnsupportedVersion(VersionOf(fields)) <==> id != "" && !versionOk)
      && (error == MissingOp <==> id != "" && versionOk && op == "")
      && (error == UnknownOp(op) <==> id != "" && versionOk && op != "" && op !in ALL_OPS)
      && (error == InvalidPayloadJson <==> id != "" && versionOk && op in ALL_OPS && PayloadOf(lit, fields).NotJson?)
      && (error == InvalidDeadlineMs <==> id != "" && versionOk && op in ALL_OPS && !PayloadOf(lit, fields).NotJson?)
  {
    assert "" !in ALL_OPS;
  }

  // ---------- Result bodies ----------

  datatype Envelope = Reply(content: string) | Failure(reason: string)

  datatype Body = Encoded(envelope: Envelope) | Literal(text: string)

  /** Encoded size of an envelope, or nothing when it cannot be encoded. */
  type Sizes = Envelope -> Option<nat>

  datatype Dumped = Dumped(envelope: Envelope) | DumpError(reason: string)

  function DumpsResult(sizes: Sizes, envelope: Envelope, maxBytes: int): Dumped {
    match sizes(envelope)
    case None => DumpError("json_encode_error")
    case Some(size) => if size > maxBytes then DumpError("result_too_large") else Dumped(envelope)
  }

  /** What is written for an executed command: its outcome, else the reason it could not be dumped, else a literal. */
  function OutcomeBody(sizes: Sizes, outcome: Envelope, maxBytes: int): Body {
    match DumpsResult(sizes, outcome, maxBytes)
    case Dumped(e) => Encoded(e)
    case DumpError(reason) =>
      match DumpsResult(sizes, Failure(reason), maxBytes)
      case Dumped(e) => Encoded(e)
      case DumpError(_) => Literal("{\"ok\":false,\"error\":\"encode\"}")
  }

  function ExpiredBody(sizes: Sizes, maxBytes: int): Body {
    match DumpsResult(sizes, Failure("deadline_expired"), maxBytes)
    case Dumped(e) => Encoded(e)
    case DumpError(_) => Literal("{\"ok\":false,\"error\":\"deadline_expired\"}")
  }

  /** Whatever is dumped respects the cap, the outcome itself whenever it does; only a literal may not. */
  lemma {:induction false} BodyRespectsCap(sizes: Sizes, outcome: Envelope, maxBytes: int)
    ensures forall body ::
              body in {OutcomeBody(sizes, outcome, maxBytes), ExpiredBody(sizes, maxBytes)} && body.Encoded? ==>
              sizes(body.envelope).Some? && sizes(body.envelope).value <= maxBytes
    ensures OutcomeBody(sizes, outcome, maxBytes) == Encoded(outcome)
       <==> (sizes(outcome).Some? && sizes(outcome).value <= maxBytes)
  {
  }

  predicate Fits(sizes: Sizes, envelope: Envelope, maxBytes: int) {
    sizes(envelope).Some? && sizes(envelope).value <= maxBytes
  }

  /** What is written instead when something does not fit: the reason, and a literal if not even that fits. */
  lemma {:induction false} BodiesWhenTooLarge(sizes: Sizes, outcome: Envelope, maxBytes: int)
    ensures !Fits(sizes, outcome, maxBytes) ==>
              var reason := Failure(if sizes(outcome).None? then "json_encode_error" else "result_too_large");
              OutcomeBody(sizes, outcome, maxBytes)
                == if Fits(sizes, reason, maxBytes) then Encoded(reason)
                   else Literal("{\"ok\":false,\"error\":\"encode\"}")
    ensures var expired := Failure("deadline_expired");
      ExpiredBody(sizes, maxBytes)
        == if Fits(sizes, expired, maxBytes) then Encoded(expired)
           else Literal("{\"ok\":false,\"error\":\"deadline_expired\"}")
  {
  }
}
