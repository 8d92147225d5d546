/** What one round shows, and what therefore stands next to what in every trace. */
module DaemonRounds {
  import opened Bytes
  import opened Folds
  import opened Ctap2
  import opened CtapHid
  import opened Engine
  import opened Daemon
  import opened DaemonRuns

  lemma DispatchEndsNothing(d: DaemonState, m: Message, input: Input, env: Platform)
    ensures forall o | o in Dispatch(d, m, input, env).seen :: !o.Ended?
  {
  }

  lemma OuterEndsNothing(d: DaemonState, input: Input, env: Platform)
    ensures forall o | o in OuterRound(d, input, env).seen :: !o.Ended?
  {
    var poll := ReadEvent(d.stack, input);
    if poll.message.Some? {
      DispatchEndsNothing(d.(stack := poll.stack), poll.message.value, input, env);
    }
  }

  function ResetOf(s: Session): Observation { Ended(s.channel, s.reqType, HostReset) }

  /** The observations end with the reset of the session, if `reset`; there is no other reset among them. */
  predicate ResetsExactly(seen: seq<Observation>, s: Session, reset: bool)
  {
    && (forall o | o in seen && o.Ended? && o.result == HostReset :: reset && o == ResetOf(s))
    && (reset ==> seen != [] && seen[|seen| - 1] == ResetOf(s))
  }

  predicate InitOn(c: u32, m: Option<Message>) { m.Some? && m.value.command == CMD_INIT && m.value.channel == c }

  lemma FinishResets(d: DaemonState, s: Session, result: TransactionResult, now: nat)
    ensures ResetsExactly(Finish(d, s, result, now).seen, s, result == HostReset)
  {
  }

  lemma DuringResets(d: DaemonState, s: Session, m: Message, input: Input)
    ensures ResetsExactly(DuringTransaction(d, s, m, input).seen, s, InitOn(s.channel, Some(m)))
  {
    if m.command == CMD_CANCEL && m.channel == s.channel {
      FinishResets(d, s, HostCancelled, input.now);
    } else if InitOn(s.channel, Some(m)) {
      FinishResets(d.(stack := AfterInit(d.stack, m.channel, m.data)), s, HostReset, input.now);
    }
  }

  lemma PollResets(d: DaemonState, s: Session, input: Input)
    ensures ResetsExactly(PollRound(d, s, input).seen, s, InitOn(s.channel, ReadEvent(d.stack, input).message))
  {
    var poll := ReadEvent(d.stack, input);
    if poll.message.Some? {
      DuringResets(d.(stack := poll.stack), s, poll.message.value, input);
    }
  }

  /** What the host gets when a transaction ends: the phone's octets behind status 0x00, or 0x2D, or nothing. */
  function ClosingReply(o: Observation): seq<Observation>
    requires o.Ended?
  {
    match o.result
    case Success(response) => [Emit(Message(o.channel, CMD_CBOR, [0x00] + response))]
    case HostReset => []
    case _ => [Emit(Message(o.channel, CMD_CBOR, [0x2D]))]
  }

  predicate EndsReplied(seen: seq<Observation>)
  {
    forall k | 0 <= k < |seen| && seen[k].Ended? :: seen[k + 1..] == ClosingReply(seen[k])
  }

  lemma EndsRepliedAfter(before: seq<Observation>, seen: seq<Observation>)
    requires EndsReplied(seen) && forall o | o in before :: !o.Ended?
    ensures EndsReplied(before + seen)
  {
    var all := before + seen;
    forall k | 0 <= k < |before| ensures !all[k].Ended? { assert all[k] in before; }
    forall k | |before| <= k < |all|
      ensures all[k] == seen[k - |before|] && all[k + 1..] == seen[k - |before| + 1..]
    {
    }
  }

  lemma NoneEnded(seen: seq<Observation>)
    requires forall o | o in seen :: !o.Ended?
    ensures EndsReplied(seen)
  {
    forall k | 0 <= k < |seen| ensures !seen[k].Ended? { assert seen[k] in seen; }
  }

  lemma FinishReplies(d: DaemonState, s: Session, result: TransactionResult, now: nat)
    ensures EndsReplied(Finish(d, s, result, now).seen)
  {
    var seen := Finish(d, s, result, now).seen;
    assert [0x2D as byte] + [] == [0x2D];
    assert seen[1..] == ClosingReply(seen[0]);
    forall k | 1 <= k < |seen| ensures !seen[k].Ended? { }
  }

  lemma ResetReplies(d: DaemonState, s: Session, m: Message, input: Input)
    ensures EndsReplied([Emit(InitReply(m.channel, m.data, input.random))] + Finish(d, s, HostReset, input.now).seen)
    ensures EndsReplied([Emit(InitReply(m.channel, m.data, input.random))])
  {
    var init := [Emit(InitReply(m.channel, m.data, input.random))];
    FinishReplies(d, s, HostReset, input.now);
    EndsRepliedAfter(init, Finish(d, s, HostReset, input.now).seen);
    NoneEnded(init);
  }

  lemma DuringReplies(d: DaemonState, s: Session, m: Message, input: Input)
    ensures EndsReplied(DuringTransaction(d, s, m, input).seen)
  {
    if m.command == CMD_CANCEL && m.channel == s.channel {
      FinishReplies(d, s, HostCancelled, input.now);
    } else if m.command == CMD_INIT {
      ResetReplies(d.(stack := AfterInit(d.stack, m.channel, m.data)), s, m, input);
    } else {
      NoneEnded(DuringTransaction(d, s, m, input).seen);
    }
  }

  lemma PollReplies(d: DaemonState, s: Session, input: Input)
    ensures EndsReplied(PollRound(d, s, input).seen)
  {
    var poll := ReadEvent(d.stack, input);
    NothingMore(poll);
    if poll.message.Some? {
      var d' := d.(stack := poll.stack);
      DuringReplies(d', s, poll.message.value, input);
      EndsRepliedAfter(poll.seen, DuringTransaction(d', s, poll.message.value, input).seen);
    }
  }

  lemma TransactionReplies(d: DaemonState, s: Session, input: Input)
    ensures EndsReplied(TransactionRound(d, s, input).seen)
  {
    if input.task != Running || input.cancelled {
      forall result { FinishReplies(d, s, result, input.now); }
    } else {
      var s' := s.(lastKeepalive := input.now);
      PollReplies(d, s, input);
      PollReplies(d.(session := Some(s')), s', input);
      EndsRepliedAfter([Emit(KeepAliveMessage(s.channel))], PollRound(d.(session := Some(s')), s', input).seen);
    }
  }

  /** Whatever ends a transaction, the reply it calls for follows at once, on its channel, and nothing else. */
  lemma EveryEndReplied(d: DaemonState, input: Input, env: Platform)
    ensures EndsReplied(DaemonRound(d, input, env).seen)
  {
    if d.session.None? {
      OuterEndsNothing(d, input, env);
      NoneEnded(OuterRound(d, input, env).seen);
    } else {
      TransactionReplies(d, d.session.value, input);
    }
  }

  // ---------------------------------------------------------------- which messages are requests

  /** The one request a list of observations takes, first of all. */
  predicate TakesFirst(seen: seq<Observation>, m: Message)
  {
    seen != [] && seen[0] == Took(m.channel, m.data) && forall o | o in seen[1..] :: !o.Took?
  }

  predicate TakesNone(seen: seq<Observation>) { forall o | o in seen :: !o.Took? }

  lemma DispatchTakes(d: DaemonState, m: Message, input: Input, env: Platform)
    ensures var seen := Dispatch(d, m, input, env).seen;
            if m.command == CMD_CBOR && m.data != [] then TakesFirst(seen, m) else TakesNone(seen)
  {
    if m.command == CMD_CBOR {
      RequestTakes(d, m, input.now, env);
    }
  }

  lemma RequestTakes(d: DaemonState, m: Message, now: nat, env: Platform)
    ensures var seen := DispatchCbor(d, m, now, env).1; if m.data != [] then TakesFirst(seen, m) else TakesNone(seen)
  {
  }

  lemma PollTakesNone(d: DaemonState, s: Session, input: Input)
    ensures TakesNone(PollRound(d, s, input).seen)
  {
  }

  lemma TransactionTakesNone(d: DaemonState, s: Session, input: Input)
    ensures TakesNone(TransactionRound(d, s, input).seen)
  {
    if input.task == Running && !input.cancelled {
      PollTakesNone(d, s, input);
      PollTakesNone(d.(session := Some(s.(lastKeepalive := input.now))), s.(lastKeepalive := input.now), input);
    }
  }

  /** A request is taken for each non-empty CBOR message read outside a transaction, and for nothing else. */
  lemma RequestTaken(d: DaemonState, input: Input, env: Platform)
    ensures var m, seen := ReadEvent(d.stack, input).message, DaemonRound(d, input, env).seen;
            if d.session.None? && m.Some? && m.value.command == CMD_CBOR && m.value.data != []
            then TakesFirst(seen, m.value)
            else TakesNone(seen)
  {
    if d.session.Some? {
      TransactionTakesNone(d, d.session.value, input);
    } else {
      var poll := ReadEvent(d.stack, input);
      if poll.message.Some? {
        DispatchTakes(d.(stack := poll.stack), poll.message.value, input, env);
      }
    }
  }

  /**
   A transaction is aborted without a reply exactly when its channel sends INIT while the phone is
   busy and the user has not cancelled. The length of the INIT message does not matter: one that is
   too short, and is answered by an error, aborts the transaction all the same.
   */
  lemma AbortedOnlyByInit(d: DaemonState, input: Input, env: Platform)
    ensures var seen := DaemonRound(d, input, env).seen;
            match d.session
            case None => forall o | o in seen :: !o.Ended?
            case Some(s) =>
              ResetsExactly(seen, s, input.task == Running && !input.cancelled
                                     && InitOn(s.channel, ReadEvent(d.stack, input).message))
  {
    if d.session.None? {
      OuterEndsNothing(d, input, env);
    } else {
      TransactionResets(d, d.session.value, input);
    }
  }

  lemma TransactionResets(d: DaemonState, s: Session, input: Input)
    ensures ResetsExactly(TransactionRound(d, s, input).seen, s,
                          input.task == Running && !input.cancelled
                          && InitOn(s.channel, ReadEvent(d.stack, input).message))
  {
    if input.task != Running || input.cancelled {
      forall result { FinishResets(d, s, result, input.now); }
    } else {
      var s' := s.(lastKeepalive := input.now);
      PollResets(d, s, input);
      PollResets(d.(session := Some(s')), s', input);
    }
  }

  predicate CancelOn(c: u32, m: Option<Message>) { m.Some? && m.value.command == CMD_CANCEL && m.value.channel == c }

  /** The session ends with `result` and nothing else, or, for None, stays open. */
  predicate EndsWith(r: Round, s: Session, result: Option<TransactionResult>)
  {
    && (forall o | o in r.seen && o.Ended? :: result.Some? && o == Ended(s.channel, s.reqType, result.value))
    && (result.Some? ==> Ended(s.channel, s.reqType, result.value) in r.seen && r.state.session == None)
    && (result.None? ==> r.state.session.Some?)
  }

  lemma FinishEndsWith(d: DaemonState, s: Session, result: TransactionResult, now: nat)
    ensures EndsWith(Finish(d, s, result, now), s, Some(result))
  {
    assert Finish(d, s, result, now).seen[0] == Ended(s.channel, s.reqType, result);
  }

  function HostResult(c: u32, m: Option<Message>): Option<TransactionResult>
  {
    if CancelOn(c, m) then Some(HostCancelled) else if InitOn(c, m) then Some(HostReset) else None
  }

  lemma DuringEndsWith(d: DaemonState, s: Session, m: Message, input: Input)
    requires d.session.Some?
    ensures EndsWith(DuringTransaction(d, s, m, input), s, HostResult(s.channel, Some(m)))
  {
    if CancelOn(s.channel, Some(m)) {
      FinishEndsWith(d, s, HostCancelled, input.now);
    } else if InitOn(s.channel, Some(m)) {
      var d' := d.(stack := AfterInit(d.stack, m.channel, m.data));
      FinishEndsWith(d', s, HostReset, input.now);
      assert forall o | o in Finish(d', s, HostReset, input.now).seen :: o in DuringTransaction(d, s, m, input).seen;
    }
  }

  lemma PollEndsWith(d: DaemonState, s: Session, input: Input)
    requires d.session.Some?
    ensures EndsWith(PollRound(d, s, input), s, HostResult(s.channel, ReadEvent(d.stack, input).message))
  {
    var poll := ReadEvent(d.stack, input);
    if poll.message.Some? {
      var d' := d.(stack := poll.stack);
      DuringEndsWith(d', s, poll.message.value, input);
      assert PollRound(d, s, input).seen == poll.seen + DuringTransaction(d', s, poll.message.value, input).seen;
    }
  }

  lemma RunningEndsWith(d: DaemonState, s: Session, input: Input)
    requires d.session.Some? && input.task == Running && !input.cancelled
    ensures EndsWith(TransactionRound(d, s, input), s, HostResult(s.channel, ReadEvent(d.stack, input).message))
  {
    var s' := s.(lastKeepalive := input.now);
    var d' := d.(session := Some(s'));
    PollEndsWith(d, s, input);
    PollEndsWith(d', s', input);
    if KeepAliveDue(s, input.now) {
      assert TransactionRound(d, s, input).seen
          == [Emit(KeepAliveMessage(s.channel))] + PollRound(d', s', input).seen;
    }
  }

  /**
   Why a transaction ends, exactly: the phone has answered, its task is broken, the user cancelled,
   or the host sent CANCEL or INIT on the channel, in this order. Otherwise it stays open.
   */
  lemma EndedExactly(d: DaemonState, input: Input, env: Platform, s: Session)
    requires d.session == Some(s)
    ensures var r, m := DaemonRound(d, input, env), ReadEvent(d.stack, input).message;
            && (input.task.Answered? ==> EndsWith(r, s, Some(Success(input.task.response))))
            && (input.task == Broken ==> EndsWith(r, s, Some(Failed)))
            && (input.task == Running && input.cancelled ==> EndsWith(r, s, Some(UserCancelled)))
            && (input.task == Running && !input.cancelled ==>
                  && (CancelOn(s.channel, m) ==> EndsWith(r, s, Some(HostCancelled)))
                  && (InitOn(s.channel, m) ==> EndsWith(r, s, Some(HostReset)))
                  && (!CancelOn(s.channel, m) && !InitOn(s.channel, m) ==> EndsWith(r, s, None)))
  {
    match input.task
    case Answered(response) => FinishEndsWith(d, s, Success(response), input.now);
    case Broken => FinishEndsWith(d, s, Failed, input.now);
    case Running =>
      if input.cancelled {
        FinishEndsWith(d, s, UserCancelled, input.now);
      } else {
        RunningEndsWith(d, s, input);
      }
  }

  // ---------------------------------------------------------------- messages that are no requests

  /** What a message gets, in either loop, if it is no request and ends nothing. */
  predicate Serves(m: Message, seen: seq<Observation>, random: u32, open: bool)
  {
    && (m.command == 0x01 ==> seen == [Emit(m)])
    && (m.command == 0x08 ==> seen == [Emit(Message(m.channel, 0x08, []))])
    && (m.command == 0x06 ==> seen == [Emit(InitReply(m.channel, m.data, random))])
    && (m.command !in {0x01, 0x06, 0x08, 0x10} ==>
          seen == if open then [] else [Emit(Message(m.channel, 0x3F, [0x01]))])
    && (m.command == 0x10 && open ==> seen == [])
  }

  lemma MessageAlone(stack: Stack, input: Input, seen: seq<Observation>)
    requires ReadEvent(stack, input).message.Some?
    ensures ReadEvent(stack, input).seen + seen == seen
  {
  }

  /**
   PING is echoed, WINK acknowledged and INIT answered in both loops; any other command is an error
   outside a transaction, and ignored during one, as CBOR is. The keepalive comes first if it is due.
   */
  lemma MessageServed(d: DaemonState, input: Input, env: Platform, m: Message)
    requires ReadEvent(d.stack, input).message == Some(m)
    requires d.session.Some? ==>
               && input.task == Running && !input.cancelled
               && !CancelOn(d.session.value.channel, Some(m)) && !InitOn(d.session.value.channel, Some(m))
    ensures var seen := DaemonRound(d, input, env).seen;
            if d.session.Some? && input.now >= d.session.value.lastKeepalive + 100
            then seen != [] && seen[0] == Sent(Message(d.session.value.channel, 0x3B, [0x02]))
                 && Serves(m, seen[1..], input.random, true)
            else Serves(m, seen, input.random, d.session.Some?)
  {
    if d.session.None? {
      var d' := d.(stack := ReadEvent(d.stack, input).stack);
      MessageAlone(d.stack, input, Dispatch(d', m, input, env).seen);
    } else {
      var s := d.session.value;
      var s' := s.(lastKeepalive := input.now);
      DuringServes(d, s, m, input);
      DuringServes(d.(session := Some(s')), s', m, input);
      if KeepAliveDue(s, input.now) {
        var rest := PollRound(d.(session := Some(s')), s', input).seen;
        assert ([Emit(KeepAliveMessage(s.channel))] + rest)[1..] == rest;
      }
    }
  }

  lemma DuringServes(d: DaemonState, s: Session, m: Message, input: Input)
    requires ReadEvent(d.stack, input).message == Some(m)
    requires !CancelOn(s.channel, Some(m)) && !InitOn(s.channel, Some(m))
    ensures Serves(m, PollRound(d, s, input).seen, input.random, true)
  {
    var d' := d.(stack := ReadEvent(d.stack, input).stack);
    MessageAlone(d.stack, input, DuringTransaction(d', s, m, input).seen);
  }

  /** INIT drops what is pending on its channel as said by InitDrops; no other message touches what is pending. */
  lemma PendingAfter(d: DaemonState, input: Input, env: Platform, m: Message)
    requires ReadEvent(d.stack, input).message == Some(m)
    requires d.session.Some? ==> input.task == Running && !input.cancelled
    ensures DaemonRound(d, input, env).state.stack
         == if m.command == 0x06 then AfterInit(ReadEvent(d.stack, input).stack, m.channel, m.data)
            else ReadEvent(d.stack, input).stack
  {
    var d' := d.(stack := ReadEvent(d.stack, input).stack);
    if d.session.None? {
      DispatchPending(d', m, input, env);
    } else {
      var s := d.session.value;
      var s' := s.(lastKeepalive := input.now);
      DuringPending(d', s, m, input);
      DuringPending(d'.(session := Some(s')), s', m, input);
    }
  }

  lemma DispatchPending(d: DaemonState, m: Message, input: Input, env: Platform)
    ensures Dispatch(d, m, input, env).state.stack
         == if m.command == 0x06 then AfterInit(d.stack, m.channel, m.data) else d.stack
  {
  }

  lemma DuringPending(d: DaemonState, s: Session, m: Message, input: Input)
    ensures DuringTransaction(d, s, m, input).state.stack
         == if m.command == 0x06 then AfterInit(d.stack, m.channel, m.data) else d.stack
  {
  }

  /** What the engine begins is taken and begun, on the channel of the request, and nothing else happens. */
  lemma RequestBegins(d: DaemonState, input: Input, env: Platform, m: Message)
    requires d.session == None && ReadEvent(d.stack, input).message == Some(m) && m.command == 0x10
    requires HandleCbor(d.engine, m.data, input.now, env).1.StartCableTransaction?
    ensures var r, action := DaemonRound(d, input, env), HandleCbor(d.engine, m.data, input.now, env).1;
            && r.seen == [Took(m.channel, m.data), Began(m.data, action.cablePayload)]
            && r.state.session == Some(Session(m.channel, action.reqType, action.rpId, input.now))
  {
    var d' := d.(stack := ReadEvent(d.stack, input).stack);
    MessageAlone(d.stack, input, Dispatch(d', m, input, env).seen);
  }

  /**
   Requests that concern neither phone nor cache, in cooldown or not: GetInfo gets the fixed answer,
   an unknown command status 0x2B, an empty message nothing; the engine stays as it is.
   */
  lemma OtherRequestsAnswered(d: DaemonState, input: Input, env: Platform, m: Message)
    requires d.session == None && ReadEvent(d.stack, input).message == Some(m) && m.command == 0x10
    requires m.data != [] ==> m.data[0] != 0x01 && m.data[0] != 0x02
    ensures var r := DaemonRound(d, input, env);
            && r.state.engine == d.engine && r.state.session == None
            && r.seen == if m.data == [] then []
                         else [Took(m.channel, m.data),
                               Emit(Message(m.channel, 0x10,
                                            if m.data[0] == 0x04 then [0x00] + env.getInfo else [0x2B]))]
  {
    var d' := d.(stack := ReadEvent(d.stack, input).stack);
    assert [0x2B as byte] + [] == [0x2B];
    OtherDispatched(d', m, input, env);
    MessageAlone(d.stack, input, Dispatch(d', m, input, env).seen);
  }

  lemma OtherDispatched(d: DaemonState, m: Message, input: Input, env: Platform)
    requires m.command == CMD_CBOR && (m.data != [] ==> m.data[0] != 0x01 && m.data[0] != 0x02)
    ensures var r := Dispatch(d, m, input, env);
            && r.state == d
            && r.seen == if m.data == [] then []
                         else [Took(m.channel, m.data),
                               Emit(if m.data[0] == 0x04 then CborMessage(m.channel, 0x00, env.getInfo)
                                    else CborMessage(m.channel, 0x2B, []))]
  {
  }

  /** A continuation out of order is answered by error 0x04, invalid sequence, on its channel. */
  lemma DisorderAnswered(stack: Stack, input: Input, c: u32)
    requires input.report.Some? && Process(stack, input.report.value, input.now).1 == SequenceError(c)
    ensures ReadEvent(stack, input).message == None
    ensures ReadEvent(stack, input).seen == [Sent(Message(c, 0x3F, [0x04]))]
  {
  }

  /** Whatever arrives while a transaction stays open changes neither the engine nor what the transaction is for. */
  lemma SessionUntouched(d: DaemonState, input: Input, env: Platform)
    requires d.session.Some? && DaemonRound(d, input, env).state.session.Some?
    ensures var after := DaemonRound(d, input, env).state;
            && after.engine == d.engine
            && after.session.value == d.session.value.(lastKeepalive := after.session.value.lastKeepalive)
  {
    var s := d.session.value;
    var s' := s.(lastKeepalive := input.now);
    if input.task == Running && !input.cancelled {
      PollUntouched(d, s, input);
      PollUntouched(d.(session := Some(s')), s', input);
    }
  }

  lemma PollUntouched(d: DaemonState, s: Session, input: Input)
    requires d.session == Some(s)
    ensures var after := PollRound(d, s, input).state;
            after.session == None || (after.session == Some(s) && after.engine == d.engine)
  {
  }

  // ---------------------------------------------------------------- what stands next to what

  predicate IsReply(c: u32, o: Observation)
  {
    (o.Sent? || o.Unsendable?) && o.message.command == CMD_CBOR && o.message.channel == c
  }

  /**
   The neighbours of an observation: a request is begun, replayed or answered at once; what is begun
   or replayed was just taken; a replay and the end of a transaction are followed by their replies.
   */
  predicate Placed(seen: seq<Observation>, k: nat)
    requires k < |seen|
  {
    match seen[k]
    case Took(c, request) =>
      && k + 1 < |seen|
      && (|| (seen[k + 1].Began? && seen[k + 1].request == request)
          || (seen[k + 1].Replayed? && seen[k + 1].request == request)
          || IsReply(c, seen[k + 1]))
    case Began(request, _) => k > 0 && seen[k - 1].Took? && seen[k - 1].request == request
    case Replayed(request, cached) =>
      && k > 0 && seen[k - 1].Took? && seen[k - 1].request == request
      && k + 1 < |seen| && seen[k + 1] == Emit(CborMessage(seen[k - 1].channel, CTAP2_OK, cached.response))
    case Ended(_, _, result) => result == HostReset || (k + 1 < |seen| && [seen[k + 1]] == ClosingReply(seen[k]))
    case Sent(m) => m.command == 0x3B ==> m.data == [0x02]
    case _ => true
  }

  predicate WellPlaced(seen: seq<Observation>) { forall k | 0 <= k < |seen| :: Placed(seen, k) }

  lemma PlacedBoth(a: seq<Observation>, b: seq<Observation>)
    requires WellPlaced(a) && WellPlaced(b)
    ensures WellPlaced(a + b)
  {
    var s := a + b;
    forall k | 0 <= k < |s| ensures Placed(s, k) {
      if k < |a| {
        assert Placed(a, k);
      } else {
        assert Placed(b, k - |a|) && s[k] == b[k - |a|];
      }
    }
  }

  /** A message, which if it is a keepalive says that the phone is being waited for. */
  predicate Plain(o: Observation)
  {
    (o.Sent? || o.Unsendable?) && (o.Sent? && o.message.command == 0x3B ==> o.message.data == [0x02])
  }

  lemma PlainPlaced(seen: seq<Observation>)
    requires forall o | o in seen :: Plain(o)
    ensures WellPlaced(seen)
  {
    forall k | 0 <= k < |seen| ensures Placed(seen, k) { assert seen[k] in seen; }
  }

  lemma PollPlain(stack: Stack, input: Input)
    ensures WellPlaced(ReadEvent(stack, input).seen)
  {
    PlainPlaced(ReadEvent(stack, input).seen);
  }

  lemma AnswerPlaced(c: u32, request: bytes, reply: Message)
    requires reply.command == CMD_CBOR && reply.channel == c
    ensures WellPlaced([Took(c, request), Emit(reply)])
  {
  }

  lemma ReplayPlaced(c: u32, request: bytes, cached: CachedAssertion)
    ensures WellPlaced([Took(c, request), Replayed(request, cached), Emit(CborMessage(c, CTAP2_OK, cached.response))])
  {
  }

  lemma BeginPlaced(c: u32, request: bytes, payload: bytes)
    ensures WellPlaced([Took(c, request), Began(request, payload)])
  {
  }

  lemma RequestPlaced(d: DaemonState, m: Message, now: nat, env: Platform)
    ensures WellPlaced(DispatchCbor(d, m, now, env).1)
  {
    var action := HandleCbor(d.engine, m.data, now, env).1;
    HandleCborEffect(d.engine, m.data, now, env);
    match action
    case Ignore =>
    case SendStatus(status) => AnswerPlaced(m.channel, m.data, CborMessage(m.channel, status, []));
    case SendResponse(response) =>
      var reply := CborMessage(m.channel, CTAP2_OK, response);
      if AnsweredFromCache(d.engine, m.data, now) {
        ReplayPlaced(m.channel, m.data, d.engine.assertionCache.value);
        assert DispatchCbor(d, m, now, env).1
            == [Took(m.channel, m.data), Replayed(m.data, d.engine.assertionCache.value), Emit(reply)];
      } else {
        AnswerPlaced(m.channel, m.data, reply);
        assert DispatchCbor(d, m, now, env).1 == [Took(m.channel, m.data), Emit(reply)];
      }
    case StartCableTransaction(_, _, payload) => BeginPlaced(m.channel, m.data, payload);
  }

  lemma DispatchPlaced(d: DaemonState, m: Message, input: Input, env: Platform)
    ensures WellPlaced(Dispatch(d, m, input, env).seen)
  {
    if m.command == CMD_CBOR {
      RequestPlaced(d, m, input.now, env);
    } else {
      PlainPlaced(Dispatch(d, m, input, env).seen);
    }
  }

  lemma OuterPlaced(d: DaemonState, input: Input, env: Platform)
    ensures WellPlaced(OuterRound(d, input, env).seen)
  {
    var poll := ReadEvent(d.stack, input);
    PollPlain(d.stack, input);
    NothingMore(poll);
    if poll.message.Some? {
      var d' := d.(stack := poll.stack);
      DispatchPlaced(d', poll.message.value, input, env);
      PlacedBoth(poll.seen, Dispatch(d', poll.message.value, input, env).seen);
    }
  }

  /** An end with its reply; everything before it is plain. */
  lemma EndPlaced(seen: seq<Observation>)
    requires EndsReplied(seen) && forall o | o in seen :: Plain(o) || o.Ended?
    ensures WellPlaced(seen)
  {
    forall k | 0 <= k < |seen| ensures Placed(seen, k) {
      assert seen[k] in seen;
      if seen[k].Ended? && seen[k].result != HostReset {
        assert |seen[k + 1..]| == 1 && seen[k + 1..][0] == seen[k + 1];
      }
    }
  }

  lemma FinishPlain(d: DaemonState, s: Session, result: TransactionResult, now: nat)
    ensures forall o | o in Finish(d, s, result, now).seen :: Plain(o) || o.Ended?
  {
  }

  lemma DuringPlain(d: DaemonState, s: Session, m: Message, input: Input)
    ensures forall o | o in DuringTransaction(d, s, m, input).seen :: Plain(o) || o.Ended?
  {
    forall d', result { FinishPlain(d', s, result, input.now); }
  }

  lemma PollRoundPlain(d: DaemonState, s: Session, input: Input)
    ensures forall o | o in PollRound(d, s, input).seen :: Plain(o) || o.Ended?
  {
    var poll := ReadEvent(d.stack, input);
    if poll.message.Some? {
      DuringPlain(d.(stack := poll.stack), s, poll.message.value, input);
    }
  }

  lemma TransactionPlain(d: DaemonState, s: Session, input: Input)
    ensures forall o | o in TransactionRound(d, s, input).seen :: Plain(o) || o.Ended?
  {
    if input.task != Running || input.cancelled {
      forall result { FinishPlain(d, s, result, input.now); }
    } else {
      var s' := s.(lastKeepalive := input.now);
      PollRoundPlain(d, s, input);
      PollRoundPlain(d.(session := Some(s')), s', input);
    }
  }

  lemma RoundPlaced(d: DaemonState, input: Input, env: Platform)
    ensures WellPlaced(DaemonRound(d, input, env).seen)
  {
    if d.session.None? {
      OuterPlaced(d, input, env);
    } else {
      TransactionReplies(d, d.session.value, input);
      TransactionPlain(d, d.session.value, input);
      EndPlaced(TransactionRound(d, d.session.value, input).seen);
    }
  }

  function Whats(trace: seq<Noted>): (seen: seq<Observation>)
    ensures |seen| == |trace| && forall k | 0 <= k < |trace| :: seen[k] == trace[k].what
  {
    seq(|trace|, k requires 0 <= k < |trace| => trace[k].what)
  }

  lemma PlacedStep(trace: seq<Noted>, seen: seq<Observation>, at: nat)
    requires WellPlaced(Whats(trace)) && WellPlaced(seen)
    ensures WellPlaced(Whats(trace + Stamped(seen, at)))
  {
    StampedAt(seen, at);
    PlacedBoth(Whats(trace), seen);
    assert Whats(trace + Stamped(seen, at)) == Whats(trace) + seen;
  }

  /** In every trace, every observation stands where it belongs. */
  lemma {:induction false} TracePlaced(inputs: seq<Input>, env: Platform)
    ensures WellPlaced(Whats(Run(inputs, env).trace))
  {
    if inputs == [] {
    } else {
      var init, input := inputs[..|inputs| - 1], inputs[|inputs| - 1];
      TracePlaced(init, env);
      var h := Run(init, env);
      RoundPlaced(h.state, input, env);
      PlacedStep(h.trace, DaemonRound(h.state, input, env).seen, input.now);
    }
  }

  /** What stands next to observation `k` of a run. */
  lemma PlacedAt(inputs: seq<Input>, env: Platform, k: nat)
    requires k < |Run(inputs, env).trace|
    ensures Placed(Whats(Run(inputs, env).trace), k)
  {
    TracePlaced(inputs, env);
  }
}
