/**
 The daemon of src/main.rs as a transition system: one step is one round of the outer dispatch
 loop, or one round of the transaction loop while a caBLE transaction is open. The environment
 chooses the instant, the report that is waiting, the state of the phone task and the UI.
 */
module Daemon {
  import opened Bytes
  import opened Folds
  import opened Ctap2
  import opened CtapHid
  import opened CtapHidRuns
  import opened Engine

  const KEEPALIVE_PERIOD: nat := 100

  datatype Task = Running | Answered(response: bytes) | Broken

  /** What one round finds: `report` is None when no report is waiting. */
  datatype Input = Input(now: nat, report: Option<bytes>, random: u32, task: Task, cancelled: bool)

  /** The local state of the transaction loop. */
  datatype Session = Session(channel: u32, reqType: RequestType, rpId: bytes, lastKeepalive: nat)

  datatype DaemonState = DaemonState(stack: Stack, engine: State, session: Option<Session>)

  const START := DaemonState(map[], INITIAL, None)

  /** What an onlooker records. Messages too long to be framed are not written. */
  datatype Observation =
    | Took(channel: u32, request: bytes)
    | Began(request: bytes, payload: bytes)
    | Replayed(request: bytes, cached: CachedAssertion)
    | Sent(message: Message)
    | Unsendable(message: Message)
    | Ended(channel: u32, reqType: RequestType, result: TransactionResult)

  /** What a round does: new state, observations in order, and what the reassembler saw. */
  datatype Round = Round(state: DaemonState, seen: seq<Observation>, hid: seq<Timed>)

  function Emit(m: Message): Observation
  {
    if |m.data| <= MAX_MESSAGE then Sent(m) else Unsendable(m)
  }

  function CborMessage(channel: u32, status: byte, body: bytes): Message
  {
    Message(channel, CMD_CBOR, [status] + body)
  }

  // ---------------------------------------------------------------- reading the device

  datatype Poll = Poll(stack: Stack, message: Option<Message>, seen: seq<Observation>, hid: seq<Timed>)

  function ReadEvent(stack: Stack, input: Input): Poll
  {
    match input.report
    case None => Poll(stack, None, [], [])
    case Some(report) =>
      var (stack', outcome) := Process(stack, report, input.now);
      var hid := [Timed(input.now, Report(report))];
      match outcome
      case Quiet => Poll(stack', None, [], hid)
      case Delivered(m) => Poll(stack', Some(m), [], hid)
      case SequenceError(c) => Poll(stack', None, [Emit(Message(c, CMD_ERROR, [ERR_INVALID_SEQUENCE]))], hid)
  }

  function InitResets(m: Message, now: nat): seq<Timed>
  {
    if ResetsChannel(m.channel, m.data) then [Timed(now, Reset(m.channel))] else []
  }

  // ---------------------------------------------------------------- the outer loop

  function ReplayOf(d: DaemonState, m: Message, now: nat): seq<Observation>
  {
    if AnsweredFromCache(d.engine, m.data, now) then [Replayed(m.data, d.engine.assertionCache.value)] else []
  }

  function DispatchCbor(d: DaemonState, m: Message, now: nat, env: Platform): (DaemonState, seq<Observation>)
  {
    var (engine, action) := HandleCbor(d.engine, m.data, now, env);
    var d' := d.(engine := engine);
    match action
    case Ignore => (d', [])
    case SendStatus(status) => (d', [Took(m.channel, m.data), Emit(CborMessage(m.channel, status, []))])
    case SendResponse(response) =>
      (d', [Took(m.channel, m.data)] + ReplayOf(d, m, now) + [Emit(CborMessage(m.channel, CTAP2_OK, response))])
    case StartCableTransaction(reqType, rpId, payload) =>
      (d'.(session := Some(Session(m.channel, reqType, rpId, now))), [Took(m.channel, m.data), Began(m.data, payload)])
  }

  function Dispatch(d: DaemonState, m: Message, input: Input, env: Platform): Round
  {
    if m.command == CMD_INIT then
      Round(d.(stack := AfterInit(d.stack, m.channel, m.data)),
            [Emit(InitReply(m.channel, m.data, input.random))], InitResets(m, input.now))
    else if m.command == CMD_PING then Round(d, [Emit(m)], [])
    else if m.command == CMD_WINK then Round(d, [Emit(Message(m.channel, CMD_WINK, []))], [])
    else if m.command == CMD_CBOR then
      var (d', seen) := DispatchCbor(d, m, input.now, env);
      Round(d', seen, [])
    else Round(d, [Emit(Message(m.channel, CMD_ERROR, [ERR_INVALID_COMMAND]))], [])
  }

  /** A round that starts with what reading the device did. */
  function Following(poll: Poll, r: Round): Round
  {
    Round(r.state, poll.seen + r.seen, poll.hid + r.hid)
  }

  function OuterRound(d: DaemonState, input: Input, env: Platform): Round
  {
    var poll := ReadEvent(d.stack, input);
    var d' := d.(stack := poll.stack);
    Following(poll, match poll.message
                    case None => Round(d', [], [])
                    case Some(m) => Dispatch(d', m, input, env))
  }

  // ---------------------------------------------------------------- the transaction loop

  function Reply(channel: u32, action: Option<Action>): seq<Observation>
  {
    match action
    case Some(SendResponse(response)) => [Emit(CborMessage(channel, CTAP2_OK, response))]
    case Some(SendStatus(status)) => [Emit(CborMessage(channel, status, []))]
    case _ => []
  }

  /** The end of the transaction: the engine learns the result, the channel gets the reply, if there is one. */
  function Finish(d: DaemonState, s: Session, result: TransactionResult, now: nat): Round
  {
    var (engine, action) := HandleOutcome(d.engine, s.reqType, s.rpId, result, now);
    Round(d.(engine := engine, session := None), [Ended(s.channel, s.reqType, result)] + Reply(s.channel, action), [])
  }

  predicate KeepAliveDue(s: Session, now: nat) { Elapsed(s.lastKeepalive, now) >= KEEPALIVE_PERIOD }

  function KeepAliveMessage(channel: u32): Message { Message(channel, CMD_KEEPALIVE, [0x02]) }

  /** Messages that arrive while the phone is busy; CBOR requests and unknown commands are ignored. */
  function DuringTransaction(d: DaemonState, s: Session, m: Message, input: Input): Round
  {
    if m.command == CMD_CANCEL && m.channel == s.channel then Finish(d, s, HostCancelled, input.now)
    else if m.command == CMD_INIT then
      var d' := d.(stack := AfterInit(d.stack, m.channel, m.data));
      var init := Round(d', [Emit(InitReply(m.channel, m.data, input.random))], InitResets(m, input.now));
      if m.channel == s.channel
      then var r := Finish(d', s, HostReset, input.now); Round(r.state, init.seen + r.seen, init.hid)
      else init
    else if m.command == CMD_PING then Round(d, [Emit(m)], [])
    else if m.command == CMD_WINK then Round(d, [Emit(Message(m.channel, CMD_WINK, []))], [])
    else Round(d, [], [])
  }

  function PollRound(d: DaemonState, s: Session, input: Input): Round
  {
    var poll := ReadEvent(d.stack, input);
    var d' := d.(stack := poll.stack);
    Following(poll, match poll.message
                    case None => Round(d', [], [])
                    case Some(m) => DuringTransaction(d', s, m, input))
  }

  function TransactionRound(d: DaemonState, s: Session, input: Input): Round
  {
    match input.task
    case Answered(response) => Finish(d, s, Success(response), input.now)
    case Broken => Finish(d, s, Failed, input.now)
    case Running =>
      if input.cancelled then Finish(d, s, UserCancelled, input.now)
      else if KeepAliveDue(s, input.now) then
        var s' := s.(lastKeepalive := input.now);
        var r := PollRound(d.(session := Some(s')), s', input);
        Round(r.state, [Emit(KeepAliveMessage(s.channel))] + r.seen, r.hid)
      else PollRound(d, s, input)
  }

  function DaemonRound(d: DaemonState, input: Input, env: Platform): Round
  {
    match d.session
    case None => OuterRound(d, input, env)
    case Some(s) => TransactionRound(d, s, input)
  }

  // ---------------------------------------------------------------- the daemon object

  function Written(o: Observation): seq<bytes> { if o.Sent? then Wire(o.message) else [] }

  /** Writing for two lists of observations in turn. */
  lemma LoggedBoth(log: seq<bytes>, a: seq<Observation>, b: seq<Observation>)
    ensures log + FlatMap(Written, a) + FlatMap(Written, b) == log + FlatMap(Written, a + b)
  {
    FlatMapConcat(Written, a, b);
    Associative(log, FlatMap(Written, a), FlatMap(Written, b));
  }

  lemma NothingMore(poll: Poll)
    ensures poll.seen + [] == poll.seen && poll.hid + [] == poll.hid
  {
  }

  lemma EmitWritten(m: Message)
    ensures FlatMap(Written, [Emit(m)]) == Wire(m)
  {
    FlatMapOne(Written, Emit(m));
  }

  /** The daemon: the token, the engine, and the transaction that is open. */
  class Bridge {
    const token: Device
    const engine: BridgeEngine
    var session: Option<Session>

    function Abstract(): DaemonState
      reads this, token, engine
    {
      DaemonState(token.payloadStack, engine.Abstract(), session)
    }

    constructor ()
      ensures Abstract() == START && token.written == []
      ensures fresh(token) && fresh(engine)
    {
      token := new Device();
      engine := new BridgeEngine();
      session := None;
    }

    /** One message read from the device, with the error report a broken sequence causes. */
    method ReadToken(input: Input) returns (m: Option<Message>)
      modifies token
      ensures var poll := ReadEvent(old(token.payloadStack), input);
              && token.payloadStack == poll.stack && m == poll.message
              && token.written == old(token.written) + FlatMap(Written, poll.seen)
    {
      if input.report.None? { return None; }
      m := token.ProcessReportBytes(input.report.value, input.now);
      ghost var outcome := Process(old(token.payloadStack), input.report.value, input.now).1;
      if outcome.SequenceError? {
        EmitWritten(Message(outcome.channel, CMD_ERROR, [ERR_INVALID_SEQUENCE]));
      }
    }

    /** One round of the outer loop. */
    method OuterLoopRound(input: Input, env: Platform)
      requires session == None
      modifies this, token, engine
      ensures var round := OuterRound(old(Abstract()), input, env);
              && Abstract() == round.state
              && token.written == old(token.written) + FlatMap(Written, round.seen)
    {
      ghost var poll := ReadEvent(token.payloadStack, input);
      var read := ReadToken(input);
      if read.Some? {
        ghost var d' := Abstract();
        DispatchMessage(read.value, input, env);
        LoggedBoth(old(token.written), poll.seen, Dispatch(d', read.value, input, env).seen);
      } else {
        NothingMore(poll);
      }
    }

    method DispatchMessage(m: Message, input: Input, env: Platform)
      requires session == None
      modifies this, token, engine
      ensures var round := Dispatch(old(Abstract()), m, input, env);
              && Abstract() == round.state
              && token.written == old(token.written) + FlatMap(Written, round.seen)
    {
      if m.command == CMD_INIT {
        token.HandleInit(m.channel, m.data, input.random);
        EmitWritten(InitReply(m.channel, m.data, input.random));
      } else if m.command == CMD_PING {
        var _ := token.SendResponse(m);
        EmitWritten(m);
      } else if m.command == CMD_WINK {
        var _ := token.SendSinglePacket(Message(m.channel, CMD_WINK, []));
        EmitWritten(Message(m.channel, CMD_WINK, []));
      } else if m.command == CMD_CBOR {
        HandleCborMessage(m, input.now, env);
      } else {
        var _ := token.SendSinglePacket(Message(m.channel, CMD_ERROR, [ERR_INVALID_COMMAND]));
        EmitWritten(Message(m.channel, CMD_ERROR, [ERR_INVALID_COMMAND]));
      }
    }

    method HandleCborMessage(m: Message, now: nat, env: Platform)
      requires session == None
      modifies this, token`written, engine
      ensures var (d', seen) := DispatchCbor(old(Abstract()), m, now, env);
              && Abstract() == d'
              && token.written == old(token.written) + FlatMap(Written, seen)
    {
      ghost var seen := DispatchCbor(Abstract(), m, now, env).1;
      var action := engine.HandleCborRequest(m.data, now, env);
      match action
      case Ignore =>
      case SendStatus(status) =>
        var _ := token.SendSinglePacket(CborMessage(m.channel, status, []));
        SilentPrefix(seen, CborMessage(m.channel, status, []));
      case SendResponse(response) =>
        var _ := token.SendResponse(CborMessage(m.channel, CTAP2_OK, response));
        SilentPrefix(seen, CborMessage(m.channel, CTAP2_OK, response));
      case StartCableTransaction(reqType, rpId, payload) =>
        session := Some(Session(m.channel, reqType, rpId, now));
        FlatMapTwo(Written, Took(m.channel, m.data), Began(m.data, payload));
    }

    /** One round of the transaction loop. */
    method TransactionLoopRound(input: Input)
      requires session.Some?
      modifies this, token, engine
      ensures var round := TransactionRound(old(Abstract()), old(session).value, input);
              && Abstract() == round.state
              && token.written == old(token.written) + FlatMap(Written, round.seen)
    {
      if input.task.Answered? {
        FinishTransaction(Success(input.task.response), input.now);
        return;
      } else if input.task.Broken? {
        FinishTransaction(Failed, input.now);
        return;
      }
      if input.cancelled {
        FinishTransaction(UserCancelled, input.now);
        return;
      }
      var s := session.value;
      if KeepAliveDue(s, input.now) {
        var _ := token.SendSinglePacket(KeepAliveMessage(s.channel));
        session := Some(s.(lastKeepalive := input.now));
        ghost var before := Abstract();
        PollToken(input);
        ghost var r := PollRound(before, before.session.value, input);
        EmitWritten(KeepAliveMessage(s.channel));
        LoggedBoth(old(token.written), [Emit(KeepAliveMessage(s.channel))], r.seen);
      } else {
        PollToken(input);
      }
    }

    method PollToken(input: Input)
      requires session.Some?
      modifies this, token, engine
      ensures var round := PollRound(old(Abstract()), old(session).value, input);
              && Abstract() == round.state
              && token.written == old(token.written) + FlatMap(Written, round.seen)
    {
      ghost var poll := ReadEvent(token.payloadStack, input);
      var read := ReadToken(input);
      if read.Some? {
        ghost var d' := Abstract();
        HandleDuringTransaction(read.value, input);
        LoggedBoth(old(token.written), poll.seen, DuringTransaction(d', d'.session.value, read.value, input).seen);
      } else {
        NothingMore(poll);
      }
    }

    method HandleDuringTransaction(m: Message, input: Input)
      requires session.Some?
      modifies this, token, engine
      ensures var round := DuringTransaction(old(Abstract()), old(session).value, m, input);
              && Abstract() == round.state
              && token.written == old(token.written) + FlatMap(Written, round.seen)
    {
      var s := session.value;
      if m.command == CMD_CANCEL && m.channel == s.channel {
        FinishTransaction(HostCancelled, input.now);
      } else if m.command == CMD_INIT {
        token.HandleInit(m.channel, m.data, input.random);
        EmitWritten(InitReply(m.channel, m.data, input.random));
        if m.channel == s.channel {
          ghost var d' := Abstract();
          FinishTransaction(HostReset, input.now);
          LoggedBoth(old(token.written), [Emit(InitReply(m.channel, m.data, input.random))],
                     Finish(d', s, HostReset, input.now).seen);
        }
      } else if m.command == CMD_PING {
        var _ := token.SendResponse(m);
        EmitWritten(m);
      } else if m.command == CMD_WINK {
        var _ := token.SendSinglePacket(Message(m.channel, CMD_WINK, []));
        EmitWritten(Message(m.channel, CMD_WINK, []));
      }
    }

    method FinishTransaction(result: TransactionResult, now: nat)
      requires session.Some?
      modifies this, token`written, engine
      ensures var round := Finish(old(Abstract()), old(session).value, result, now);
              && Abstract() == round.state
              && token.written == old(token.written) + FlatMap(Written, round.seen)
    {
      var s := session.value;
      var action := engine.HandleTransactionOutcome(s.reqType, s.rpId, result, now);
      session := None;
      FlatMapOne(Written, Ended(s.channel, s.reqType, result));
      match action
      case Some(SendResponse(response)) =>
        var reply := CborMessage(s.channel, CTAP2_OK, response);
        var _ := token.SendResponse(reply);
        FlatMapTwo(Written, Ended(s.channel, s.reqType, result), Emit(reply));
        EmitWritten(reply);
        FlatMapOne(Written, Emit(reply));
      case Some(SendStatus(status)) =>
        var reply := CborMessage(s.channel, status, []);
        var _ := token.SendSinglePacket(reply);
        FlatMapTwo(Written, Ended(s.channel, s.reqType, result), Emit(reply));
        EmitWritten(reply);
        FlatMapOne(Written, Emit(reply));
      case _ =>
    }
  }

  /** Only the last observation writes. */
  lemma SilentPrefix(seen: seq<Observation>, m: Message)
    requires seen != [] && seen[|seen| - 1] == Emit(m)
    requires forall o | o in seen[..|seen| - 1] :: !o.Sent?
    ensures FlatMap(Written, seen) == Wire(m)
  {
    var init := seen[..|seen| - 1];
    FlatMapConcat(Written, init, [Emit(m)]);
    assert seen == init + [Emit(m)];
    EmitWritten(m);
    Silence(init);
  }

  lemma {:induction false} Silence(seen: seq<Observation>)
    requires forall o | o in seen :: !o.Sent?
    ensures FlatMap(Written, seen) == []
  {
    if seen == [] {
    } else {
      Silence(seen[..|seen| - 1]);
    }
  }
}
