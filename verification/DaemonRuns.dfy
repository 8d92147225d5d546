/**
 The daemon over whole runs. An observer reads the trace of a run and keeps a ledger: where the
 request-reply protocol stands, what the phone answered, what was replayed, when a transaction
 last failed. The theorems say what the ledger of every reachable run looks like.
 */
module DaemonRuns {
  import opened Bytes
  import opened Folds
  import opened Ctap2
  import opened CtapHid
  import opened CtapHidRuns
  import opened Engine
  import opened Daemon

  datatype Noted = Noted(at: nat, what: Observation)

  // ---------------------------------------------------------------- the observer

  /** Between requests, or answering one: since when the last sign of life was given. */
  datatype Protocol = Idle | Busy(channel: u32, since: nat)

  /** A GetAssertion request the phone answered. */
  datatype PhoneAnswer = PhoneAnswer(request: bytes, response: bytes, at: nat)

  /**
   `protocol` is None once the trace broke the protocol; `request` is the one the phone works on.
   `sound` turns false when a replay is not what the last phone answer allows or repeats one, when
   something unsanitised is sent to the phone, or when a transaction ends that never began or is of
   another type.
   */
  datatype Ledger = Ledger(
    protocol: Option<Protocol>,
    request: Option<bytes>,
    answers: seq<PhoneAnswer>,
    replays: seq<int>,
    sound: bool,
    failedAt: Option<nat>)

  const CLEAN := Ledger(Some(Idle), None, [], [], true, None)

  /** The assertion that an answer of the phone leaves in the cache. */
  function CachedFrom(a: PhoneAnswer): CachedAssertion
  {
    CachedAssertion(RequestIn(a.request).rpId, RequestIn(a.request).clientDataHash, AssertionIdIn(a.response),
                    a.response, a.at)
  }

  /** The phone answered, and its last answer was not replayed yet. */
  predicate Unreplayed(l: Ledger)
  {
    l.answers != [] && (l.replays == [] || l.replays[|l.replays| - 1] < |l.answers| - 1)
  }

  predicate Replayable(l: Ledger, request: bytes, cached: CachedAssertion, at: nat)
  {
    Unreplayed(l) && cached == CachedFrom(l.answers[|l.answers| - 1]) && Matches(cached, RequestIn(request), at)
  }

  /** What is sent to the phone for a request: the result of the rewriter for its command. */
  predicate Sanitised(request: bytes, payload: bytes)
  {
    && request != []
    && (|| (request[0] == CMD_GET_ASSERTION && payload == GaPayload(request))
        || (request[0] == CMD_MAKE_CREDENTIAL && payload == McPayload(request)))
  }

  function TypeOf(request: bytes): RequestType
  {
    if request != [] && request[0] == CMD_GET_ASSERTION then GetAssertion else DiscoverableMakeCredential
  }

  /** A CBOR message must answer the open request; a keepalive may come for it every 100 ms. */
  function Speak(p: Protocol, m: Message, at: nat): Option<Protocol>
  {
    if m.command == CMD_CBOR then
      if p.Busy? && p.channel == m.channel then Some(Idle) else None
    else if m.command == CMD_KEEPALIVE then
      if p.Busy? && p.channel == m.channel && at >= p.since + KEEPALIVE_PERIOD then Some(Busy(p.channel, at)) else None
    else Some(p)
  }

  function Advance(p: Protocol, n: Noted): Option<Protocol>
  {
    match n.what
    case Took(c, _) => if p == Idle then Some(Busy(c, n.at)) else None
    case Sent(m) => if |m.data| <= MAX_MESSAGE then Speak(p, m, n.at) else None
    case Unsendable(m) => if |m.data| > MAX_MESSAGE && m.command != CMD_KEEPALIVE then Speak(p, m, n.at) else None
    case Ended(c, _, result) =>
      if p.Busy? && p.channel == c then (if result == HostReset then Some(Idle) else Some(p)) else None
    case _ => Some(p)
  }

  function Note(l: Ledger, n: Noted): Ledger
  {
    var l' := l.(protocol := if l.protocol.None? then None else Advance(l.protocol.value, n));
    match n.what
    case Began(request, payload) => l'.(request := Some(request), sound := l.sound && Sanitised(request, payload))
    case Replayed(request, cached) =>
      l'.(replays := l.replays + [|l.answers| - 1], sound := l.sound && Replayable(l, request, cached, n.at))
    case Ended(_, reqType, result) => NoteEnd(l', reqType, result, n.at)
    case _ => l'
  }

  function NoteEnd(l: Ledger, reqType: RequestType, result: TransactionResult, at: nat): Ledger
  {
    var l' := l.(request := None, sound := l.sound && l.request.Some? && TypeOf(l.request.value) == reqType);
    if !result.Success? then l'.(failedAt := Some(at))
    else if reqType == GetAssertion && l.request.Some? then
      l'.(answers := l.answers + [PhoneAnswer(l.request.value, result.response, at)])
    else l'
  }

  function NoteAll(l: Ledger, seen: seq<Observation>, at: nat): Ledger
  {
    if seen == [] then l else Note(NoteAll(l, seen[..|seen| - 1], at), Noted(at, seen[|seen| - 1]))
  }

  function Observe(trace: seq<Noted>): Ledger
  {
    if trace == [] then CLEAN else Note(Observe(trace[..|trace| - 1]), trace[|trace| - 1])
  }

  // ---------------------------------------------------------------- runs

  function Stamped(seen: seq<Observation>, at: nat): seq<Noted>
  {
    if seen == [] then [] else Stamped(seen[..|seen| - 1], at) + [Noted(at, seen[|seen| - 1])]
  }

  lemma {:induction false} StampedAt(seen: seq<Observation>, at: nat)
    ensures |Stamped(seen, at)| == |seen| && forall k | 0 <= k < |seen| :: Stamped(seen, at)[k] == Noted(at, seen[k])
  {
    if seen == [] {
    } else {
      StampedAt(seen[..|seen| - 1], at);
    }
  }

  datatype History = History(state: DaemonState, trace: seq<Noted>, hid: seq<Timed>)

  function Run(inputs: seq<Input>, env: Platform): History
  {
    if inputs == [] then History(START, [], [])
    else
      var h, input := Run(inputs[..|inputs| - 1], env), inputs[|inputs| - 1];
      var r := DaemonRound(h.state, input, env);
      History(r.state, h.trace + Stamped(r.seen, input.now), h.hid + r.hid)
  }

  lemma RunTrace(inputs: seq<Input>, input: Input, env: Platform)
    ensures Run(inputs + [input], env).trace
         == Run(inputs, env).trace + Stamped(DaemonRound(Run(inputs, env).state, input, env).seen, input.now)
  {
    assert (inputs + [input])[..|inputs|] == inputs;
  }

  lemma RunStep(inputs: seq<Input>, input: Input, env: Platform)
    ensures Run(inputs + [input], env).state == DaemonRound(Run(inputs, env).state, input, env).state
  {
    assert (inputs + [input])[..|inputs|] == inputs;
  }

  lemma {:induction false} ObserveStamped(trace: seq<Noted>, seen: seq<Observation>, at: nat)
    ensures Observe(trace + Stamped(seen, at)) == NoteAll(Observe(trace), seen, at)
  {
    if seen == [] {
      assert trace + Stamped(seen, at) == trace;
    } else {
      var init := seen[..|seen| - 1];
      ObserveStamped(trace, init, at);
      assert (trace + Stamped(seen, at))[..|trace + Stamped(seen, at)| - 1] == trace + Stamped(init, at);
    }
  }

  lemma NoteSnoc(l: Ledger, seen: seq<Observation>, o: Observation, at: nat)
    ensures NoteAll(l, seen + [o], at) == Note(NoteAll(l, seen, at), Noted(at, o))
  {
    assert (seen + [o])[..|seen|] == seen;
  }

  lemma NoteConcatStep(l: Ledger, a: seq<Observation>, t: seq<Observation>, o: Observation, at: nat)
    ensures NoteAll(l, a + (t + [o]), at) == Note(NoteAll(l, a + t, at), Noted(at, o))
  {
    assert a + (t + [o]) == a + t + [o];
    NoteSnoc(l, a + t, o, at);
  }

  lemma NoteConcat(l: Ledger, a: seq<Observation>, b: seq<Observation>, at: nat)
    ensures NoteAll(l, a + b, at) == NoteAll(NoteAll(l, a, at), b, at)
  {
    var l' := NoteAll(l, a, at);
    var f, g := (s: seq<Observation>) => NoteAll(l, a + s, at), (s: seq<Observation>) => NoteAll(l', s, at);
    var step := (k: Ledger, o: Observation) => Note(k, Noted(at, o));
    forall t, o ensures f(t + [o]) == step(f(t), o) { NoteConcatStep(l, a, t, o, at); }
    forall t, o ensures g(t + [o]) == step(g(t), o) { NoteSnoc(l', t, o, at); }
    assert a + [] == a;
    FoldsAgree(f, g, step, b);
  }

  lemma NoteOne(l: Ledger, a: Observation, at: nat)
    ensures NoteAll(l, [a], at) == Note(l, Noted(at, a))
  {
    assert [a][..0] == [];
  }

  lemma NoteTwo(l: Ledger, a: Observation, b: Observation, at: nat)
    ensures NoteAll(l, [a, b], at) == Note(Note(l, Noted(at, a)), Noted(at, b))
  {
    NoteOne(l, a, at);
    assert [a, b][..1] == [a];
  }

  lemma NoteThree(l: Ledger, a: Observation, b: Observation, c: Observation, at: nat)
    ensures NoteAll(l, [a, b, c], at) == Note(Note(Note(l, Noted(at, a)), Noted(at, b)), Noted(at, c))
  {
    NoteTwo(l, a, b, at);
    assert [a, b, c][..2] == [a, b];
  }

  // ---------------------------------------------------------------- the invariant

  function ProtocolOf(d: DaemonState): Protocol
  {
    match d.session
    case None => Idle
    case Some(s) => Busy(s.channel, s.lastKeepalive)
  }

  /** An open transaction is for a request that began one; a GetAssertion one carries that request's data. */
  predicate SessionKnown(d: DaemonState, l: Ledger)
  {
    d.session.Some? ==>
      && l.request.Some?
      && d.session.value.reqType == TypeOf(l.request.value)
      && (d.session.value.reqType == GetAssertion ==>
            && d.session.value.rpId == RequestIn(l.request.value).rpId
            && d.engine.pendingClientDataHash == RequestIn(l.request.value).clientDataHash)
  }

  /** The cache holds the last answer of the phone exactly until that is replayed. */
  predicate CacheKnown(d: DaemonState, l: Ledger)
  {
    && (d.engine.assertionCache.Some? <==> Unreplayed(l))
    && (d.engine.assertionCache.Some? ==> d.engine.assertionCache.value == CachedFrom(l.answers[|l.answers| - 1]))
  }

  predicate StrictlyIncreasing(s: seq<int>)
  {
    forall i, j | 0 <= i < j < |s| :: s[i] < s[j]
  }

  /** Each answer is replayed at most once. */
  predicate ReplaysDistinct(l: Ledger)
  {
    StrictlyIncreasing(l.replays) && forall k | 0 <= k < |l.replays| :: 0 <= l.replays[k] < |l.answers|
  }

  predicate BooksKept(d: DaemonState, l: Ledger)
  {
    CacheKnown(d, l) && ReplaysDistinct(l) && l.sound && l.failedAt == d.engine.lastCancelled
  }

  predicate Consistent(d: DaemonState, l: Ledger)
  {
    l.protocol == Some(ProtocolOf(d)) && SessionKnown(d, l) && BooksKept(d, l)
  }

  /** The cache and the cooldown did not change, and of the ledger only the protocol and the open request did. */
  lemma BooksUntouched(d: DaemonState, l: Ledger, d': DaemonState, l': Ledger)
    requires BooksKept(d, l) && l' == l.(protocol := l'.protocol, request := l'.request)
    requires d'.engine.assertionCache == d.engine.assertionCache && d'.engine.lastCancelled == d.engine.lastCancelled
    ensures BooksKept(d', l')
  {
  }

  /** Messages that are no part of a request or its answer. */
  predicate Neutral(m: Message) { m.command != CMD_CBOR && m.command != CMD_KEEPALIVE }

  lemma NeutralNote(l: Ledger, m: Message, at: nat)
    requires Neutral(m)
    ensures NoteAll(l, [Emit(m)], at) == l
  {
    NoteOne(l, Emit(m), at);
  }

  lemma ReadEventNeutral(l: Ledger, stack: Stack, input: Input)
    ensures NoteAll(l, ReadEvent(stack, input).seen, input.now) == l
  {
    if input.report.Some? {
      var outcome := Process(stack, input.report.value, input.now).1;
      if outcome.SequenceError? {
        NeutralNote(l, Message(outcome.channel, CMD_ERROR, [ERR_INVALID_SEQUENCE]), input.now);
      }
    }
  }

  /** What reading the device did before is no part of the protocol. */
  lemma FollowingNotes(l: Ledger, stack: Stack, input: Input, r: Round)
    ensures NoteAll(l, Following(ReadEvent(stack, input), r).seen, input.now) == NoteAll(l, r.seen, input.now)
  {
    NoteConcat(l, ReadEvent(stack, input).seen, r.seen, input.now);
    ReadEventNeutral(l, stack, input);
  }

  // ---------------------------------------------------------------- the outer loop keeps it

  lemma TakenAndAnswered(l: Ledger, c: u32, request: bytes, reply: Message, at: nat)
    requires l.protocol == Some(Idle) && reply.command == CMD_CBOR && reply.channel == c
    ensures NoteAll(l, [Took(c, request), Emit(reply)], at) == l
  {
    NoteTwo(l, Took(c, request), Emit(reply), at);
  }

  lemma NoteTook(l: Ledger, c: u32, request: bytes, at: nat)
    requires l.protocol == Some(Idle)
    ensures Note(l, Noted(at, Took(c, request))) == l.(protocol := Some(Busy(c, at)))
  {
  }

  lemma NoteReplay(l: Ledger, request: bytes, cached: CachedAssertion, at: nat)
    requires l.protocol.Some? && Replayable(l, request, cached, at)
    ensures Note(l, Noted(at, Replayed(request, cached))) == l.(replays := l.replays + [|l.answers| - 1])
  {
  }

  lemma NoteReply(l: Ledger, c: u32, reply: Message, since: nat, at: nat)
    requires l.protocol == Some(Busy(c, since)) && reply.command == CMD_CBOR && reply.channel == c
    ensures Note(l, Noted(at, Emit(reply))) == l.(protocol := Some(Idle))
  {
  }

  lemma TakenAndReplayed(l: Ledger, c: u32, request: bytes, cached: CachedAssertion, reply: Message, at: nat)
    requires l.protocol == Some(Idle) && reply.command == CMD_CBOR && reply.channel == c
    requires Replayable(l, request, cached, at)
    ensures NoteAll(l, [Took(c, request), Replayed(request, cached), Emit(reply)], at)
         == l.(replays := l.replays + [|l.answers| - 1])
  {
    NoteThree(l, Took(c, request), Replayed(request, cached), Emit(reply), at);
    NoteTook(l, c, request, at);
    BusyReplays(l, Busy(c, at), request, cached, at);
    NoteReply(l.(protocol := Some(Busy(c, at)), replays := l.replays + [|l.answers| - 1]), c, reply, at, at);
  }

  lemma BusyReplays(l: Ledger, p: Protocol, request: bytes, cached: CachedAssertion, at: nat)
    requires p.Busy? && Replayable(l, request, cached, at)
    ensures Note(l.(protocol := Some(p)), Noted(at, Replayed(request, cached)))
         == l.(protocol := Some(p), replays := l.replays + [|l.answers| - 1])
  {
    NoteReplay(l.(protocol := Some(p)), request, cached, at);
  }

  lemma TakenAndBegun(l: Ledger, c: u32, request: bytes, payload: bytes, at: nat)
    requires l.protocol == Some(Idle) && Sanitised(request, payload)
    ensures NoteAll(l, [Took(c, request), Began(request, payload)], at)
         == l.(protocol := Some(Busy(c, at)), request := Some(request))
  {
    NoteTwo(l, Took(c, request), Began(request, payload), at);
  }

  lemma StatusKeeps(d: DaemonState, l: Ledger, engine: State, m: Message, reply: Message, at: nat)
    requires Consistent(d, l) && d.session == None && reply.command == CMD_CBOR && reply.channel == m.channel
    requires engine.assertionCache == d.engine.assertionCache && engine.lastCancelled == d.engine.lastCancelled
    ensures Consistent(d.(engine := engine), NoteAll(l, [Took(m.channel, m.data), Emit(reply)], at))
  {
    TakenAndAnswered(l, m.channel, m.data, reply, at);
    BooksUntouched(d, l, d.(engine := engine), l);
  }

  /** The last answer leaves the cache as it is replayed. */
  lemma CacheEmptied(d: DaemonState, l: Ledger, d': DaemonState, l': Ledger)
    requires BooksKept(d, l) && Unreplayed(l) && l' == l.(replays := l.replays + [|l.answers| - 1])
    requires d'.engine.assertionCache == None && d'.engine.lastCancelled == d.engine.lastCancelled
    ensures BooksKept(d', l')
  {
  }

  lemma ReplayKeeps(d: DaemonState, l: Ledger, engine: State, m: Message, reply: Message, at: nat)
    requires Consistent(d, l) && d.session == None && reply.command == CMD_CBOR && reply.channel == m.channel
    requires d.engine.assertionCache.Some? && Matches(d.engine.assertionCache.value, RequestIn(m.data), at)
    requires engine.assertionCache == None && engine.lastCancelled == d.engine.lastCancelled
    ensures Consistent(d.(engine := engine),
                       NoteAll(l, [Took(m.channel, m.data), Replayed(m.data, d.engine.assertionCache.value),
                                   Emit(reply)], at))
  {
    TakenAndReplayed(l, m.channel, m.data, d.engine.assertionCache.value, reply, at);
    CacheEmptied(d, l, d.(engine := engine), l.(replays := l.replays + [|l.answers| - 1]));
  }

  lemma BeginKeeps(d: DaemonState, l: Ledger, engine: State, m: Message, payload: bytes, s: Session, at: nat)
    requires Consistent(d, l) && d.session == None && Sanitised(m.data, payload)
    requires engine.assertionCache == d.engine.assertionCache && engine.lastCancelled == d.engine.lastCancelled
    requires s.channel == m.channel && s.lastKeepalive == at && s.reqType == TypeOf(m.data)
    requires s.reqType == GetAssertion ==>
               s.rpId == RequestIn(m.data).rpId && engine.pendingClientDataHash == RequestIn(m.data).clientDataHash
    ensures Consistent(d.(engine := engine, session := Some(s)),
                       NoteAll(l, [Took(m.channel, m.data), Began(m.data, payload)], at))
  {
    TakenAndBegun(l, m.channel, m.data, payload, at);
    BooksUntouched(d, l, d.(engine := engine, session := Some(s)),
                   l.(protocol := Some(Busy(m.channel, at)), request := Some(m.data)));
  }

  lemma AnswerEffect(s: State, data: bytes, now: nat, env: Platform)
    requires data != [] && data[0] == CMD_GET_ASSERTION && !InCooldown(s, now)
    ensures var (s', action) := AnswerAssertion(s, data, now, env);
            && s'.lastCancelled == s.lastCancelled && s'.pendingClientDataHash == RequestIn(data).clientDataHash
            && (if AnsweredFromCache(s, data, now)
                then s'.assertionCache == None && action == SendResponse(s.assertionCache.value.response)
                else s'.assertionCache == s.assertionCache)
            && (action.StartCableTransaction? ==>
                  action.reqType == GetAssertion && action.rpId == RequestIn(data).rpId
                  && action.cablePayload == GaPayload(data))
            && action != Ignore
  {
  }

  /** What HandleCbor does to the engine, as far as the books are concerned. */
  lemma HandleCborEffect(s: State, data: bytes, now: nat, env: Platform)
    ensures var (s', action) := HandleCbor(s, data, now, env);
            && s'.lastCancelled == s.lastCancelled
            && (if AnsweredFromCache(s, data, now)
                then s'.assertionCache == None && action == SendResponse(s.assertionCache.value.response)
                else s'.assertionCache == s.assertionCache)
            && (action.StartCableTransaction? ==>
                  Sanitised(data, action.cablePayload) && action.reqType == TypeOf(data))
            && (action.StartCableTransaction? && action.reqType == GetAssertion ==>
                  action.rpId == RequestIn(data).rpId && s'.pendingClientDataHash == RequestIn(data).clientDataHash)
            && (action == Ignore ==> s' == s)
  {
    if data != [] && data[0] == CMD_GET_ASSERTION && !InCooldown(s, now) {
      AnswerEffect(s, data, now, env);
    }
  }

  lemma ResponseKeeps(d: DaemonState, l: Ledger, engine: State, m: Message, reply: Message, at: nat)
    requires Consistent(d, l) && d.session == None && reply.command == CMD_CBOR && reply.channel == m.channel
    requires engine.lastCancelled == d.engine.lastCancelled
    requires engine.assertionCache == if AnsweredFromCache(d.engine, m.data, at) then None else d.engine.assertionCache
    ensures Consistent(d.(engine := engine),
                       NoteAll(l, [Took(m.channel, m.data)] + ReplayOf(d, m, at) + [Emit(reply)], at))
  {
    if AnsweredFromCache(d.engine, m.data, at) {
      ReplayKeeps(d, l, engine, m, reply, at);
      assert [Took(m.channel, m.data)] + ReplayOf(d, m, at) + [Emit(reply)]
          == [Took(m.channel, m.data), Replayed(m.data, d.engine.assertionCache.value), Emit(reply)];
    } else {
      StatusKeeps(d, l, engine, m, reply, at);
      assert [Took(m.channel, m.data)] + ReplayOf(d, m, at) + [Emit(reply)] == [Took(m.channel, m.data), Emit(reply)];
    }
  }

  /** A replay is the reply: the cached response goes out on the channel, and the cache is empty. */
  lemma ReplayIsReply(d: DaemonState, m: Message, at: nat, env: Platform)
    requires AnsweredFromCache(d.engine, m.data, at)
    ensures var (d', seen) := DispatchCbor(d, m, at, env);
            && d' == d.(engine := d'.engine) && d'.engine.assertionCache == None
            && seen == [Took(m.channel, m.data), Replayed(m.data, d.engine.assertionCache.value),
                        Emit(CborMessage(m.channel, CTAP2_OK, d.engine.assertionCache.value.response))]
  {
    HandleCborEffect(d.engine, m.data, at, env);
  }

  lemma CborKeeps(d: DaemonState, l: Ledger, m: Message, at: nat, env: Platform)
    requires Consistent(d, l) && d.session == None
    ensures var (d', seen) := DispatchCbor(d, m, at, env); Consistent(d', NoteAll(l, seen, at))
  {
    var (engine, action) := HandleCbor(d.engine, m.data, at, env);
    HandleCborEffect(d.engine, m.data, at, env);
    match action
    case Ignore =>
    case SendStatus(status) => StatusKeeps(d, l, engine, m, CborMessage(m.channel, status, []), at);
    case SendResponse(response) => ResponseKeeps(d, l, engine, m, CborMessage(m.channel, CTAP2_OK, response), at);
    case StartCableTransaction(reqType, rpId, payload) =>
      BeginKeeps(d, l, engine, m, payload, Session(m.channel, reqType, rpId, at), at);
  }

  lemma DispatchKeeps(d: DaemonState, l: Ledger, m: Message, input: Input, env: Platform)
    requires Consistent(d, l) && d.session == None
    ensures var r := Dispatch(d, m, input, env); Consistent(r.state, NoteAll(l, r.seen, input.now))
  {
    if m.command == CMD_INIT {
      NeutralNote(l, InitReply(m.channel, m.data, input.random), input.now);
    } else if m.command == CMD_PING {
      NeutralNote(l, m, input.now);
    } else if m.command == CMD_WINK {
      NeutralNote(l, Message(m.channel, CMD_WINK, []), input.now);
    } else if m.command == CMD_CBOR {
      CborKeeps(d, l, m, input.now, env);
    } else {
      NeutralNote(l, Message(m.channel, CMD_ERROR, [ERR_INVALID_COMMAND]), input.now);
    }
  }

  lemma OuterKeeps(d: DaemonState, l: Ledger, input: Input, env: Platform)
    requires Consistent(d, l) && d.session == None
    ensures var r := OuterRound(d, input, env); Consistent(r.state, NoteAll(l, r.seen, input.now))
  {
    var poll := ReadEvent(d.stack, input);
    var d' := d.(stack := poll.stack);
    if poll.message.Some? {
      DispatchKeeps(d', l, poll.message.value, input, env);
      FollowingNotes(l, d.stack, input, Dispatch(d', poll.message.value, input, env));
    } else {
      FollowingNotes(l, d.stack, input, Round(d', [], []));
    }
  }

  // ---------------------------------------------------------------- the transaction loop keeps it

  lemma EndedAndAnswered(l: Ledger, c: u32, reqType: RequestType, result: TransactionResult, reply: Message, at: nat)
    requires l.protocol.Some? && l.protocol.value.Busy? && l.protocol.value.channel == c && result != HostReset
    requires reply.command == CMD_CBOR && reply.channel == c
    ensures NoteAll(l, [Ended(c, reqType, result)] + [Emit(reply)], at)
         == NoteEnd(l, reqType, result, at).(protocol := Some(Idle))
  {
    NoteTwo(l, Ended(c, reqType, result), Emit(reply), at);
    assert [Ended(c, reqType, result)] + [Emit(reply)] == [Ended(c, reqType, result), Emit(reply)];
  }

  lemma FailureKeeps(d: DaemonState, l: Ledger, l': Ledger, at: nat)
    requires Consistent(d, l) && l' == l.(protocol := Some(Idle), request := None, failedAt := Some(at))
    ensures Consistent(d.(engine := d.engine.(lastCancelled := Some(at)), session := None), l')
  {
  }

  lemma SuccessKeeps(d: DaemonState, l: Ledger, l': Ledger, s: Session, response: bytes, at: nat)
    requires Consistent(d, l) && d.session == Some(s)
    requires l' == NoteEnd(l, s.reqType, Success(response), at).(protocol := Some(Idle))
    ensures Consistent(d.(engine := HandleOutcome(d.engine, s.reqType, s.rpId, Success(response), at).0,
                          session := None), l')
  {
    var d' := d.(engine := HandleOutcome(d.engine, s.reqType, s.rpId, Success(response), at).0, session := None);
    if s.reqType == GetAssertion {
    } else {
      BooksUntouched(d, l, d', l');
    }
  }

  lemma SuccessFinishes(d: DaemonState, l: Ledger, s: Session, response: bytes, now: nat)
    requires Consistent(d, l) && d.session == Some(s)
    ensures var r := Finish(d, s, Success(response), now); Consistent(r.state, NoteAll(l, r.seen, now))
  {
    var reply := CborMessage(s.channel, CTAP2_OK, response);
    EndedAndAnswered(l, s.channel, s.reqType, Success(response), reply, now);
    SuccessKeeps(d, l, NoteEnd(l, s.reqType, Success(response), now).(protocol := Some(Idle)), s, response, now);
  }

  lemma ResetFinishes(d: DaemonState, l: Ledger, s: Session, now: nat)
    requires Consistent(d, l) && d.session == Some(s)
    ensures var r := Finish(d, s, HostReset, now); Consistent(r.state, NoteAll(l, r.seen, now))
  {
    var ended := Ended(s.channel, s.reqType, HostReset);
    assert [ended] + [] == [ended];
    NoteOne(l, ended, now);
    FailureKeeps(d, l, NoteAll(l, [ended], now), now);
  }

  lemma FailureFinishes(d: DaemonState, l: Ledger, s: Session, result: TransactionResult, now: nat)
    requires Consistent(d, l) && d.session == Some(s) && !result.Success? && !result.HostReset?
    ensures var r := Finish(d, s, result, now); Consistent(r.state, NoteAll(l, r.seen, now))
  {
    var reply := CborMessage(s.channel, ERR_KEEPALIVE_CANCEL, []);
    EndedAndAnswered(l, s.channel, s.reqType, result, reply, now);
    FailureKeeps(d, l, NoteEnd(l, s.reqType, result, now).(protocol := Some(Idle)), now);
  }

  lemma FinishKeeps(d: DaemonState, l: Ledger, s: Session, result: TransactionResult, now: nat)
    requires Consistent(d, l) && d.session == Some(s)
    ensures var r := Finish(d, s, result, now); Consistent(r.state, NoteAll(l, r.seen, now))
  {
    match result
    case Success(response) => SuccessFinishes(d, l, s, response, now);
    case HostReset => ResetFinishes(d, l, s, now);
    case _ => FailureFinishes(d, l, s, result, now);
  }

  lemma DuringKeeps(d: DaemonState, l: Ledger, s: Session, m: Message, input: Input)
    requires Consistent(d, l) && d.session == Some(s)
    ensures var r := DuringTransaction(d, s, m, input); Consistent(r.state, NoteAll(l, r.seen, input.now))
  {
    if m.command == CMD_CANCEL && m.channel == s.channel {
      FinishKeeps(d, l, s, HostCancelled, input.now);
    } else if m.command == CMD_INIT {
      var d', reply := d.(stack := AfterInit(d.stack, m.channel, m.data)), InitReply(m.channel, m.data, input.random);
      NeutralNote(l, reply, input.now);
      if m.channel == s.channel {
        FinishKeeps(d', l, s, HostReset, input.now);
        NoteConcat(l, [Emit(reply)], Finish(d', s, HostReset, input.now).seen, input.now);
      }
    } else if m.command == CMD_PING {
      NeutralNote(l, m, input.now);
    } else if m.command == CMD_WINK {
      NeutralNote(l, Message(m.channel, CMD_WINK, []), input.now);
    }
  }

  lemma PollKeeps(d: DaemonState, l: Ledger, s: Session, input: Input)
    requires Consistent(d, l) && d.session == Some(s)
    ensures var r := PollRound(d, s, input); Consistent(r.state, NoteAll(l, r.seen, input.now))
  {
    var poll := ReadEvent(d.stack, input);
    var d' := d.(stack := poll.stack);
    if poll.message.Some? {
      DuringKeeps(d', l, s, poll.message.value, input);
      FollowingNotes(l, d.stack, input, DuringTransaction(d', s, poll.message.value, input));
    } else {
      FollowingNotes(l, d.stack, input, Round(d', [], []));
    }
  }

  lemma KeepAliveNoted(l: Ledger, c: u32, since: nat, now: nat)
    requires l.protocol == Some(Busy(c, since)) && since + KEEPALIVE_PERIOD <= now
    ensures NoteAll(l, [Emit(KeepAliveMessage(c))], now) == l.(protocol := Some(Busy(c, now)))
  {
    NoteOne(l, Emit(KeepAliveMessage(c)), now);
  }

  lemma KeepAliveKeeps(d: DaemonState, l: Ledger, s: Session, now: nat)
    requires Consistent(d, l) && d.session == Some(s) && KeepAliveDue(s, now)
    ensures Consistent(d.(session := Some(s.(lastKeepalive := now))),
                       NoteAll(l, [Emit(KeepAliveMessage(s.channel))], now))
  {
    KeepAliveNoted(l, s.channel, s.lastKeepalive, now);
    BooksUntouched(d, l, d.(session := Some(s.(lastKeepalive := now))), l.(protocol := Some(Busy(s.channel, now))));
  }

  lemma TransactionKeeps(d: DaemonState, l: Ledger, s: Session, input: Input)
    requires Consistent(d, l) && d.session == Some(s)
    ensures var r := TransactionRound(d, s, input); Consistent(r.state, NoteAll(l, r.seen, input.now))
  {
    match input.task
    case Answered(response) => FinishKeeps(d, l, s, Success(response), input.now);
    case Broken => FinishKeeps(d, l, s, Failed, input.now);
    case Running =>
      if input.cancelled {
        FinishKeeps(d, l, s, UserCancelled, input.now);
      } else if KeepAliveDue(s, input.now) {
        var s', beat := s.(lastKeepalive := input.now), [Emit(KeepAliveMessage(s.channel))];
        var d', l' := d.(session := Some(s')), NoteAll(l, beat, input.now);
        KeepAliveKeeps(d, l, s, input.now);
        PollKeeps(d', l', s', input);
        NoteConcat(l, beat, PollRound(d', s', input).seen, input.now);
      } else {
        PollKeeps(d, l, s, input);
      }
  }

  /** Every run of the daemon, whatever the environment does, keeps a consistent ledger. */
  lemma {:induction false} RunConsistent(inputs: seq<Input>, env: Platform)
    ensures Consistent(Run(inputs, env).state, Observe(Run(inputs, env).trace))
  {
    if inputs == [] {
    } else {
      var init, input := inputs[..|inputs| - 1], inputs[|inputs| - 1];
      RunConsistent(init, env);
      var h := Run(init, env);
      var l := Observe(h.trace);
      if h.state.session.None? {
        OuterKeeps(h.state, l, input, env);
      } else {
        TransactionKeeps(h.state, l, h.state.session.value, input);
      }
      ObserveStamped(h.trace, DaemonRound(h.state, input, env).seen, input.now);
    }
  }
}
