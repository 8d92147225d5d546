/** What the host gets: one reply per request, and signs of life until then. */
module DaemonReplies {
  import opened Bytes
  import opened Folds
  import opened Ctap2
  import opened CtapHid
  import opened CtapHidRuns
  import opened Engine
  import opened Daemon
  import opened DaemonRuns
  import opened DaemonTraces
  import opened DaemonRounds
  import opened CtapHidRoundTrip

  /** Requests taken on a channel, and what became of them. */
  datatype Tally = Tally(taken: nat, replied: nat, unsendable: nat, reset: nat)

  function TallyOn(c: u32, trace: seq<Noted>): Tally
  {
    if trace == [] then Tally(0, 0, 0, 0)
    else CountOne(c, TallyOn(c, trace[..|trace| - 1]), trace[|trace| - 1].what)
  }

  function CountOne(c: u32, t: Tally, o: Observation): Tally
  {
    match o
    case Took(c', _) => if c' == c then t.(taken := t.taken + 1) else t
    case Sent(m) => if m.channel == c && m.command == CMD_CBOR then t.(replied := t.replied + 1) else t
    case Unsendable(m) => if m.channel == c && m.command == CMD_CBOR then t.(unsendable := t.unsendable + 1) else t
    case Ended(c', _, result) => if c' == c && result == HostReset then t.(reset := t.reset + 1) else t
    case _ => t
  }

  predicate BusyOn(c: u32, p: Protocol) { p.Busy? && p.channel == c }

  predicate Balances(t: Tally, open: bool)
  {
    t.taken == t.replied + t.unsendable + t.reset + (if open then 1 else 0)
  }

  lemma {:induction false} Balanced(c: u32, ps: seq<Protocol>, trace: seq<Noted>, k: nat)
    requires Follows(ps, trace) && k <= |trace|
    ensures Balances(TallyOn(c, trace[..k]), BusyOn(c, ps[k]))
  {
    if k == 0 {
    } else {
      Balanced(c, ps, trace, k - 1);
      FollowsAt(ps, trace, k - 1);
      Snoc(trace, k - 1);
    }
  }

  /**
   In every run, on every channel: each CBOR request the outer loop took has been answered by one
   CBOR message, or its answer was too long to be framed, or INIT aborted it, or it is the one open
   transaction.
   */
  lemma OneReplyPerRequest(inputs: seq<Input>, env: Platform, c: u32)
    ensures var h, t := Run(inputs, env), TallyOn(c, Run(inputs, env).trace);
            t.taken == t.replied + t.unsendable + t.reset
                       + (if h.state.session.Some? && h.state.session.value.channel == c then 1 else 0)
  {
    var trace := Run(inputs, env).trace;
    var ps := RunFollowsProtocol(inputs, env);
    Balanced(c, ps, trace, |trace|);
    assert trace[..|trace|] == trace;
  }

  /** The messages that are not written are exactly those of more than 7609 octets. */
  lemma UnsendableIsTooLong(inputs: seq<Input>, env: Platform, k: nat)
    requires k < |Run(inputs, env).trace|
    requires Run(inputs, env).trace[k].what.Sent? || Run(inputs, env).trace[k].what.Unsendable?
    ensures var o := Run(inputs, env).trace[k].what; o.Sent? <==> |o.message.data| <= MAX_MESSAGE
  {
    var trace := Run(inputs, env).trace;
    var ps := RunFollowsProtocol(inputs, env);
    FollowsAt(ps, trace, k);
  }

  /**
   When the phone has answered, the next thing in every run is its response behind status 0x00, on
   the channel of the request; it is written exactly if it fits one message.
   */
  lemma AnswerPassedOn(inputs: seq<Input>, env: Platform, k: nat, response: bytes)
    requires var trace := Run(inputs, env).trace;
             k < |trace| && trace[k].what.Ended? && trace[k].what.result == Success(response)
    ensures var trace := Run(inputs, env).trace;
            && k + 1 < |trace|
            && (trace[k + 1].what.Sent? || trace[k + 1].what.Unsendable?)
            && trace[k + 1].what.message == Message(trace[k].what.channel, CMD_CBOR, [0x00] + response)
            && (trace[k + 1].what.Sent? <==> |response| + 1 <= MAX_MESSAGE)
  {
    var seen := Whats(Run(inputs, env).trace);
    PlacedAt(inputs, env, k);
  }

  /**
   A replay in a run stands between the request it is for and the reply on its channel, which is
   the cached response, written exactly if it fits one message.
   */
  lemma ReplayPassedOn(inputs: seq<Input>, env: Platform, k: nat)
    requires k < |Run(inputs, env).trace| && Run(inputs, env).trace[k].what.Replayed?
    ensures var trace := Run(inputs, env).trace;
            && 0 < k && k + 1 < |trace|
            && trace[k - 1].what.Took? && trace[k - 1].what.request == trace[k].what.request
            && (trace[k + 1].what.Sent? || trace[k + 1].what.Unsendable?)
            && trace[k + 1].what.message
            == Message(trace[k - 1].what.channel, CMD_CBOR, [0x00] + trace[k].what.cached.response)
            && (trace[k + 1].what.Sent? <==> |trace[k].what.cached.response| + 1 <= MAX_MESSAGE)
  {
    PlacedAt(inputs, env, k);
  }

  // ---------------------------------------------------------------- a reply that is lost

  /** A GetAssertion request without parameters, in one report on channel 1. */
  const ASKING := Message(1, CMD_CBOR, [CMD_GET_ASSERTION])

  function Asking(): Input
  {
    AskingIsOneReport();
    Input(0, Some(Wire(ASKING)[0]), 0, Running, false)
  }

  function Answering(response: bytes): Input { Input(1, None, 0, Answered(response), false) }

  lemma AskingIsOneReport()
    ensures |Wire(ASKING)| == 1 && |Fragments(ASKING)| == 1
  {
    var packets := Fragments(ASKING);
    assert ASKING.data[1..] == [];
    FragmentsWritable(ASKING);
    ReportsCarry(packets, ZeroReport(), 0);
  }

  lemma AskingIsRead()
    ensures ReadEvent(map[], Asking()).message == Some(ASKING) && ReadEvent(map[], Asking()).seen == []
  {
    AskingIsOneReport();
    var e := Timed(0, Report(Wire(ASKING)[0]));
    WireTransmits(ASKING, [0]);
    assert seq(1, k requires 0 <= k < 1 => Timed([0][k], Report(Wire(ASKING)[k]))) == [e];
    OneMessage(map[], ASKING, [e], 0);
    assert [e][..0] == [];
  }

  lemma AskingBegins(env: Platform)
    ensures HandleCbor(INITIAL, ASKING.data, 0, env).1
         == StartCableTransaction(GetAssertion, NO_ASSERTION_RP, ASKING.data)
  {
    assert RequestMap(ASKING.data).None?;
  }

  lemma AskingDispatch(stack: Stack, env: Platform)
    ensures var r := Dispatch(START.(stack := stack), ASKING, Asking(), env);
            && r.seen == [Took(1, ASKING.data), Began(ASKING.data, ASKING.data)]
            && r.state.session == Some(Session(1, GetAssertion, NO_ASSERTION_RP, 0))
  {
    AskingBegins(env);
  }

  lemma AskingRound(env: Platform)
    ensures var r := DaemonRound(START, Asking(), env);
            && r.seen == [Took(1, ASKING.data), Began(ASKING.data, ASKING.data)]
            && r.state.session == Some(Session(1, GetAssertion, NO_ASSERTION_RP, 0))
  {
    AskingIsRead();
    AskingDispatch(ReadEvent(map[], Asking()).stack, env);
  }

  lemma TallySnoc(c: u32, trace: seq<Noted>, n: Noted)
    ensures TallyOn(c, trace + [n]) == CountOne(c, TallyOn(c, trace), n.what)
  {
    assert (trace + [n])[..|trace|] == trace;
  }

  lemma TallyFour(c: u32, a: Noted, b: Noted, x: Noted, y: Noted)
    ensures TallyOn(c, [a, b, x, y])
         == CountOne(c, CountOne(c, CountOne(c, CountOne(c, Tally(0, 0, 0, 0), a.what), b.what), x.what), y.what)
  {
    TallySnoc(c, [], a);
    TallySnoc(c, [a], b);
    TallySnoc(c, [a, b], x);
    TallySnoc(c, [a, b, x], y);
    assert [] + [a] == [a] && [a] + [b] == [a, b] && [a, b] + [x] == [a, b, x] && [a, b, x] + [y] == [a, b, x, y];
  }

  lemma RunTwo(first: Input, second: Input, env: Platform)
    ensures Run([first, second], env).trace
         == Stamped(DaemonRound(START, first, env).seen, first.now)
            + Stamped(DaemonRound(DaemonRound(START, first, env).state, second, env).seen, second.now)
  {
    RunOne(first, env);
    assert [first, second][..1] == [first];
  }

  lemma RunOne(first: Input, env: Platform)
    ensures var one := DaemonRound(START, first, env);
            Run([first], env).state == one.state && Run([first], env).trace == Stamped(one.seen, first.now)
  {
    assert [first][..0] == [];
  }

  lemma StampedPair(a: Observation, b: Observation, at: nat)
    ensures Stamped([a, b], at) == [Noted(at, a), Noted(at, b)]
  {
    StampedAt([a, b], at);
  }

  lemma LongAnswerTrace(response: bytes, env: Platform)
    ensures Run([Asking(), Answering(response)], env).trace
         == [Noted(0, Took(1, ASKING.data)), Noted(0, Began(ASKING.data, ASKING.data)),
             Noted(1, Ended(1, GetAssertion, Success(response))), Noted(1, Emit(CborMessage(1, CTAP2_OK, response)))]
  {
    var s := Session(1, GetAssertion, NO_ASSERTION_RP, 0);
    AskingRound(env);
    RunTwo(Asking(), Answering(response), env);
    StampedPair(Took(1, ASKING.data), Began(ASKING.data, ASKING.data), 0);
    StampedPair(Ended(1, GetAssertion, Success(response)), Emit(CborMessage(1, CTAP2_OK, response)), 1);
  }

  /** A phone that answers with 7609 octets leaves the host without a reply; one octet less and it gets one. */
  lemma LongAnswerIsLost(response: bytes, env: Platform)
    ensures var tally := TallyOn(1, Run([Asking(), Answering(response)], env).trace);
            if |response| < MAX_MESSAGE then tally == Tally(1, 1, 0, 0) else tally == Tally(1, 0, 1, 0)
  {
    LongAnswerTrace(response, env);
    TallyFour(1, Noted(0, Took(1, ASKING.data)), Noted(0, Began(ASKING.data, ASKING.data)),
              Noted(1, Ended(1, GetAssertion, Success(response))), Noted(1, Emit(CborMessage(1, CTAP2_OK, response))));
  }

  // ---------------------------------------------------------------- silent probes

  /** The longest credential id whose synthetic answer fits one message. */
  const MAX_PROBED_ID: nat := 7476

  lemma ProbeFits(n: nat)
    ensures 1 + (130 + Cbor.ArgWidth(n) + n) <= MAX_MESSAGE <==> n <= MAX_PROBED_ID
  {
  }

  /**
   A silent probe that the outer loop reads outside cooldown, and that lists credentials: with an
   empty last list it is told that there are none; else the reply names the first one it lists, and
   is written exactly if the id has at most 7476 octets.
   */
  lemma SilentProbeReplied(d: DaemonState, m: Message, input: Input, env: Platform)
    requires IsSha256(env.sha) && d.session == None && ReadEvent(d.stack, input).message == Some(m)
    requires m.command == CMD_CBOR && m.data != [] && m.data[0] == CMD_GET_ASSERTION && IsSlice(m.data)
    requires !InCooldown(d.engine, input.now) && !RequestIn(m.data).userPresence && RequestIn(m.data).allowList != []
    ensures var seen, id := DaemonRound(d, input, env).seen, RequestIn(m.data).allowList[0];
            && |seen| == 2 && seen[0] == Took(m.channel, m.data) && IsReply(m.channel, seen[1])
            && (if RequestIn(m.data).allowListLen == 0
                then seen[1] == Sent(Message(m.channel, CMD_CBOR, [0x2E]))
                else && AssertionIdIn(seen[1].message.data) == Some(id)
                     && (seen[1].Sent? <==> |id| <= MAX_PROBED_ID))
  {
    SilentProbe(d.engine, m.data, input.now, env);
    ProbeFits(|RequestIn(m.data).allowList[0]|);
    ProbeDispatch(d.(stack := ReadEvent(d.stack, input).stack), m, input, env);
  }

  lemma ProbeDispatch(d: DaemonState, m: Message, input: Input, env: Platform)
    requires m.command == CMD_CBOR && SettledSilently(m.data) && m.data != [] && m.data[0] == CMD_GET_ASSERTION
    requires !InCooldown(d.engine, input.now)
    ensures var action := HandleCbor(d.engine, m.data, input.now, env).1;
            && (action.SendStatus? || action.SendResponse?)
            && Dispatch(d, m, input, env).seen
            == [Took(m.channel, m.data),
                Emit(if action.SendStatus? then CborMessage(m.channel, action.status, [])
                     else CborMessage(m.channel, CTAP2_OK, action.response))]
  {
  }

  /**
   A probe with one id of 7477 to 7592 octets fits one message, yet its answer does not: the host
   gets no reply. With a shorter id it gets one.
   */
  lemma LongProbeIsLost(d: DaemonState, m: Message, input: Input, env: Platform, id: bytes)
    requires IsSha256(env.sha) && d.session == None && ReadEvent(d.stack, input).message == Some(m)
    requires m.command == CMD_CBOR && m.data == ProbeFor(id) && |id| <= 7592 && !InCooldown(d.engine, input.now)
    ensures var seen := DaemonRound(d, input, env).seen;
            && |m.data| <= MAX_MESSAGE && |seen| == 2 && IsReply(m.channel, seen[1])
            && (if |id| <= MAX_PROBED_ID then seen[1].Sent? else seen[1].Unsendable?)
  {
    ProbeRequest(id);
    SilentProbeReplied(d, m, input, env);
  }

  // ---------------------------------------------------------------- closing and keeping alive

  /** What closes a request taken on channel `c`. */
  predicate Closes(c: u32, o: Observation)
  {
    || (o.Sent? && o.message.command == CMD_CBOR && o.message.channel == c)
    || (o.Unsendable? && o.message.command == CMD_CBOR && o.message.channel == c)
    || (o.Ended? && o.channel == c && o.result == HostReset)
  }

  /** A request stays open, and its signs of life move forward, until something closes it. */
  lemma {:induction false} StillOpen(ps: seq<Protocol>, trace: seq<Noted>, i: nat, j: nat)
    requires Follows(ps, trace) && i <= j <= |trace| && ps[i].Busy?
    requires forall k | i <= k < j :: !Closes(ps[i].channel, trace[k].what)
    ensures BusyOn(ps[i].channel, ps[j]) && ps[i].since <= ps[j].since
  {
    if i == j {
    } else {
      StillOpen(ps, trace, i, j - 1);
      FollowsAt(ps, trace, j - 1);
    }
  }

  lemma ClosedBetween(ps: seq<Protocol>, trace: seq<Noted>, i: nat, j: nat)
    requires Follows(ps, trace) && i < j < |trace| && trace[i].what.Took? && trace[j].what.Took?
    ensures exists k | i < k < j :: Closes(trace[i].what.channel, trace[k].what)
  {
    FollowsAt(ps, trace, i);
    FollowsAt(ps, trace, j);
    if forall k | i < k < j :: !Closes(trace[i].what.channel, trace[k].what) {
      StillOpen(ps, trace, i + 1, j);
    }
  }

  /** Every request is closed before the next one is taken, on any channel: one transaction at a time. */
  lemma ClosedBeforeNext(inputs: seq<Input>, env: Platform, i: nat, j: nat)
    requires i < j < |Run(inputs, env).trace|
    requires Run(inputs, env).trace[i].what.Took? && Run(inputs, env).trace[j].what.Took?
    ensures exists k | i < k < j :: Closes(Run(inputs, env).trace[i].what.channel, Run(inputs, env).trace[k].what)
  {
    var ps := RunFollowsProtocol(inputs, env);
    ClosedBetween(ps, Run(inputs, env).trace, i, j);
  }

  predicate IsKeepAlive(o: Observation) { o.Sent? && o.message.command == CMD_KEEPALIVE }

  /** The channel a request or a keepalive concerns. */
  function SignOfLife(o: Observation): Option<u32>
  {
    if o.Took? then Some(o.channel) else if IsKeepAlive(o) then Some(o.message.channel) else None
  }

  lemma KeepAliveGap(ps: seq<Protocol>, trace: seq<Noted>, i: nat, j: nat, c: u32)
    requires Follows(ps, trace) && i < j < |trace| && IsKeepAlive(trace[j].what) && SignOfLife(trace[i].what) == Some(c)
    requires forall k | i < k < j :: !Closes(c, trace[k].what)
    ensures trace[j].at >= trace[i].at + KEEPALIVE_PERIOD && trace[j].what.message.channel == c
  {
    FollowsAt(ps, trace, i);
    FollowsAt(ps, trace, j);
    StillOpen(ps, trace, i + 1, j);
  }

  /** An open request was taken, and not closed since. */
  lemma {:induction false} OpenedBy(ps: seq<Protocol>, trace: seq<Noted>, n: nat) returns (i: nat)
    requires Follows(ps, trace) && n <= |trace| && ps[n].Busy?
    ensures i < n && trace[i].what.Took? && trace[i].what.channel == ps[n].channel
    ensures forall k | i < k < n :: !Closes(ps[n].channel, trace[k].what)
  {
    FollowsAt(ps, trace, n - 1);
    if trace[n - 1].what.Took? {
      i := n - 1;
    } else {
      i := OpenedBy(ps, trace, n - 1);
    }
  }

  /** Its last sign of life was given when the protocol says. */
  lemma {:induction false} LastSign(ps: seq<Protocol>, trace: seq<Noted>, n: nat) returns (i: nat)
    requires Follows(ps, trace) && n <= |trace| && ps[n].Busy?
    ensures i < n && SignOfLife(trace[i].what) == Some(ps[n].channel) && trace[i].at == ps[n].since
    ensures forall k | i < k < n :: !Closes(ps[n].channel, trace[k].what)
  {
    FollowsAt(ps, trace, n - 1);
    if SignOfLife(trace[n - 1].what) == Some(ps[n].channel) {
      i := n - 1;
    } else {
      i := LastSign(ps, trace, n - 1);
    }
  }

  lemma KeepAliveIsFor(ps: seq<Protocol>, trace: seq<Noted>, j: nat)
    requires Follows(ps, trace) && j < |trace| && IsKeepAlive(trace[j].what)
    ensures ps[j].Busy? && ps[j].channel == trace[j].what.message.channel
  {
    FollowsAt(ps, trace, j);
  }

  lemma KeepAliveOpened(ps: seq<Protocol>, trace: seq<Noted>, j: nat) returns (i: nat)
    requires Follows(ps, trace) && j < |trace| && IsKeepAlive(trace[j].what)
    ensures var c := trace[j].what.message.channel;
            && i < j && trace[i].what.Took? && trace[i].what.channel == c
            && (forall k | i < k < j :: !Closes(c, trace[k].what))
            && forall k | i <= k < j && SignOfLife(trace[k].what) == Some(c) ::
                 trace[j].at >= trace[k].at + KEEPALIVE_PERIOD
  {
    KeepAliveIsFor(ps, trace, j);
    i := OpenedBy(ps, trace, j);
    var c := trace[j].what.message.channel;
    forall k | i <= k < j && SignOfLife(trace[k].what) == Some(c)
      ensures trace[j].at >= trace[k].at + KEEPALIVE_PERIOD
    {
      KeepAliveGap(ps, trace, k, j, c);
    }
  }

  /**
   Every keepalive of a run is for a request taken before on its channel and not closed since, and
   comes at least 100 ms after the request and after every earlier keepalive for it.
   */
  lemma KeepAlivesSpaced(inputs: seq<Input>, env: Platform, j: nat) returns (i: nat)
    requires j < |Run(inputs, env).trace| && IsKeepAlive(Run(inputs, env).trace[j].what)
    ensures var trace := Run(inputs, env).trace;
            var c := trace[j].what.message.channel;
            && i < j && trace[i].what.Took? && trace[i].what.channel == c
            && trace[j].what.message.data == [0x02]
            && (forall k | i < k < j :: !Closes(c, trace[k].what))
            && forall k | i <= k < j && SignOfLife(trace[k].what) == Some(c) :: trace[j].at >= trace[k].at + 100
  {
    var ps := RunFollowsProtocol(inputs, env);
    i := KeepAliveOpened(ps, Run(inputs, env).trace, j);
    PlacedAt(inputs, env, j);
    assert Whats(Run(inputs, env).trace)[j].Sent?;
  }

  lemma TransactionKeepsAlive(d: DaemonState, s: Session, input: Input)
    requires d.session == Some(s)
    ensures var after := TransactionRound(d, s, input).state.session;
            after.Some? ==> Elapsed(after.value.lastKeepalive, input.now) < KEEPALIVE_PERIOD
  {
    if input.task == Running && !input.cancelled {
      PollUntouched(d, s, input);
      PollUntouched(d.(session := Some(s.(lastKeepalive := input.now))), s.(lastKeepalive := input.now), input);
    }
  }

  lemma RoundKeepsAlive(d: DaemonState, input: Input, env: Platform)
    ensures var s := DaemonRound(d, input, env).state.session;
            s.Some? ==> Elapsed(s.value.lastKeepalive, input.now) < KEEPALIVE_PERIOD
  {
    if d.session.Some? {
      TransactionKeepsAlive(d, d.session.value, input);
    }
  }

  /**
   After every round that leaves a transaction open, the last sign of life on its channel is less
   than 100 ms old.
   */
  lemma KeepAlivesInTime(inputs: seq<Input>, input: Input, env: Platform) returns (i: nat)
    requires Run(inputs + [input], env).state.session.Some?
    ensures var h := Run(inputs + [input], env);
            var c := h.state.session.value.channel;
            && i < |h.trace| && SignOfLife(h.trace[i].what) == Some(c)
            && input.now < h.trace[i].at + 100
            && forall k | i < k < |h.trace| :: !Closes(c, h.trace[k].what)
  {
    RunStep(inputs, input, env);
    RoundKeepsAlive(Run(inputs, env).state, input, env);
    var ps := RunFollowsProtocol(inputs + [input], env);
    var trace := Run(inputs + [input], env).trace;
    i := LastSign(ps, trace, |trace|);
  }
}
