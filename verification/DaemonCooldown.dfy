/** The five seconds after a transaction that failed. */
module DaemonCooldown {
  import opened Bytes
  import opened Folds
  import opened Ctap2
  import opened CtapHid
  import opened Engine
  import opened Daemon
  import opened DaemonRuns
  import opened DaemonTraces

  ghost predicate ClockMonotone(inputs: seq<Input>)
  {
    forall i, j | 0 <= i < j < |inputs| :: inputs[i].now <= inputs[j].now
  }

  ghost predicate TimesMonotone(trace: seq<Noted>)
  {
    forall i, j | 0 <= i < j < |trace| :: trace[i].at <= trace[j].at
  }

  lemma {:induction false} TraceTimes(inputs: seq<Input>, env: Platform, now: nat)
    requires ClockMonotone(inputs) && forall k | 0 <= k < |inputs| :: inputs[k].now <= now
    ensures TimesMonotone(Run(inputs, env).trace)
    ensures forall n | n in Run(inputs, env).trace :: n.at <= now
  {
    if inputs == [] {
    } else {
      var init, input := inputs[..|inputs| - 1], inputs[|inputs| - 1];
      TraceTimes(init, env, input.now);
      var h := Run(init, env);
      var seen := DaemonRound(h.state, input, env).seen;
      StampedAt(seen, input.now);
      TimesConcat(h.trace, Stamped(seen, input.now), input.now);
    }
  }

  lemma TimesConcat(a: seq<Noted>, b: seq<Noted>, at: nat)
    requires TimesMonotone(a) && (forall n | n in a :: n.at <= at) && forall n | n in b :: n.at == at
    ensures TimesMonotone(a + b) && forall n | n in a + b :: n.at <= at
  {
    var s := a + b;
    forall i, j | 0 <= i < j < |s| ensures s[i].at <= s[j].at {
      if j >= |a| {
        assert s[j] in b;
        assert i < |a| ==> s[i] in a;
        assert i >= |a| ==> s[i] in b;
      }
    }
  }

  predicate IsFailure(o: Observation) { o.Ended? && !o.result.Success? }

  lemma {:induction false} LastFailure(ls: seq<Ledger>, trace: seq<Noted>, k: nat, n: nat)
    requires Kept(ls, trace) && TimesMonotone(trace) && k < n <= |trace| && IsFailure(trace[k].what)
    ensures var f := ls[n].failedAt; f.Some? && trace[k].at <= f.value <= trace[n - 1].at
  {
    KeptAt(ls, trace, n - 1);
    if k < n - 1 {
      LastFailure(ls, trace, k, n - 1);
    }
  }

  /** A transaction that failed less than 5 s ago keeps the engine in cooldown. */
  lemma FailureCools(inputs: seq<Input>, env: Platform, k: nat, now: nat)
    requires ClockMonotone(inputs) && forall i | 0 <= i < |inputs| :: inputs[i].now <= now
    requires var trace := Run(inputs, env).trace; k < |trace| && IsFailure(trace[k].what)
    ensures var last := Run(inputs, env).state.engine.lastCancelled;
            last.Some? && Run(inputs, env).trace[k].at <= last.value <= now
  {
    TraceTimes(inputs, env, now);
    var trace := Run(inputs, env).trace;
    var ls := RunLedgers(inputs, env);
    LastFailure(ls, trace, k, |trace|);
    assert trace[|trace| - 1] in trace;
  }

  /** The ledger's last failure is one of the trace. */
  lemma {:induction false} FailureNoted(ls: seq<Ledger>, trace: seq<Noted>, n: nat) returns (k: nat)
    requires Kept(ls, trace) && n <= |trace| && ls[n].failedAt.Some?
    ensures k < n && IsFailure(trace[k].what) && trace[k].at == ls[n].failedAt.value
  {
    assert n > 0;
    KeptAt(ls, trace, n - 1);
    if IsFailure(trace[n - 1].what) {
      k := n - 1;
    } else {
      FailureKept(ls[n - 1], trace[n - 1]);
      k := FailureNoted(ls, trace, n - 1);
    }
  }

  lemma FailureKept(l: Ledger, n: Noted)
    ensures Note(l, n).failedAt == if IsFailure(n.what) then Some(n.at) else l.failedAt
  {
  }

  lemma CancelledAt(inputs: seq<Input>, env: Platform) returns (k: nat)
    requires Run(inputs, env).state.engine.lastCancelled.Some?
    ensures var h := Run(inputs, env);
            k < |h.trace| && IsFailure(h.trace[k].what) && h.trace[k].at == h.state.engine.lastCancelled.value
  {
    var h := Run(inputs, env);
    var ls := RunLedgers(inputs, env);
    FailureKnown(h.state, ls[|h.trace|]);
    k := FailureNoted(ls, h.trace, |h.trace|);
  }

  lemma FailureKnown(d: DaemonState, l: Ledger)
    requires Consistent(d, l)
    ensures l.failedAt == d.engine.lastCancelled
  {
  }

  /** Some transaction failed less than 5 s before `now`. */
  ghost predicate FailedLately(trace: seq<Noted>, now: nat)
  {
    exists k | 0 <= k < |trace| :: IsFailure(trace[k].what) && now < trace[k].at + 5000
  }

  /** The cooldown, exactly: it lasts while some transaction failed less than 5 s ago, and no longer. */
  lemma CoolsExactly(inputs: seq<Input>, env: Platform, now: nat)
    requires ClockMonotone(inputs) && forall i | 0 <= i < |inputs| :: inputs[i].now <= now
    ensures InCooldown(Run(inputs, env).state.engine, now) <==> FailedLately(Run(inputs, env).trace, now)
  {
    var trace, engine := Run(inputs, env).trace, Run(inputs, env).state.engine;
    if InCooldown(engine, now) {
      var k := CancelledAt(inputs, env);
      assert now < trace[k].at + 5000;
    }
    if FailedLately(trace, now) {
      var k :| 0 <= k < |trace| && IsFailure(trace[k].what) && now < trace[k].at + 5000;
      FailureCools(inputs, env, k, now);
    }
  }

  /** The engine answers 0x2D to a request exactly if it is for the phone and the engine is in cooldown. */
  lemma CancelStatus(s: State, data: bytes, now: nat, env: Platform)
    ensures HandleCbor(s, data, now, env).1 == SendStatus(0x2D) <==>
            data != [] && (data[0] == 0x01 || data[0] == 0x02) && InCooldown(s, now)
  {
  }

  lemma CancelReply(d: DaemonState, m: Message, input: Input, env: Platform)
    requires d.session == None && ReadEvent(d.stack, input).message == Some(m) && m.command == CMD_CBOR
    ensures Sent(Message(m.channel, CMD_CBOR, [0x2D])) in DaemonRound(d, input, env).seen <==>
            HandleCbor(d.engine, m.data, input.now, env).1 == SendStatus(0x2D)
  {
    CancelDispatch(d.(stack := ReadEvent(d.stack, input).stack), m, input.now, env);
  }

  lemma StatusFirst(c: u32, status: byte, body: bytes)
    ensures CborMessage(c, status, body).data[0] == status
    ensures body == [] ==> CborMessage(c, status, body).data == [status]
  {
  }

  lemma CancelDispatch(d: DaemonState, m: Message, now: nat, env: Platform)
    ensures Sent(Message(m.channel, CMD_CBOR, [0x2D])) in DispatchCbor(d, m, now, env).1 <==>
            HandleCbor(d.engine, m.data, now, env).1 == SendStatus(0x2D)
  {
    var seen := DispatchCbor(d, m, now, env).1;
    match HandleCbor(d.engine, m.data, now, env).1
    case Ignore =>
    case SendStatus(status) =>
      StatusFirst(m.channel, status, []);
      assert seen[1] == Sent(Message(m.channel, CMD_CBOR, [status]));
    case SendResponse(response) =>
      StatusFirst(m.channel, CTAP2_OK, response);
    case StartCableTransaction(_, _, _) =>
  }

  /**
   In every run with a monotone clock, a message read outside a transaction is answered 0x2D exactly
   if it is a GetAssertion or MakeCredential request and some transaction failed less than 5 s ago.
   */
  lemma CancelAnsweredExactly(inputs: seq<Input>, input: Input, env: Platform, m: Message)
    requires ClockMonotone(inputs + [input]) && m.command == CMD_CBOR
    requires var d := Run(inputs, env).state; d.session == None && ReadEvent(d.stack, input).message == Some(m)
    ensures Sent(Message(m.channel, CMD_CBOR, [0x2D])) in DaemonRound(Run(inputs, env).state, input, env).seen <==>
            && m.data != [] && (m.data[0] == 0x01 || m.data[0] == 0x02)
            && FailedLately(Run(inputs, env).trace, input.now)
  {
    var d := Run(inputs, env).state;
    MonotonePrefix(inputs, input);
    CoolsExactly(inputs, env, input.now);
    CancelStatus(d.engine, m.data, input.now, env);
    CancelReply(d, m, input, env);
  }

  lemma MonotonePrefix(inputs: seq<Input>, input: Input)
    requires ClockMonotone(inputs + [input])
    ensures ClockMonotone(inputs) && forall i | 0 <= i < |inputs| :: inputs[i].now <= input.now
  {
    var all := inputs + [input];
    assert all[|inputs|] == input && forall i | 0 <= i < |inputs| :: all[i] == inputs[i];
  }

  /**
   Cooldown: in every run with a monotone clock, a GetAssertion or MakeCredential request taken
   within 5 s of any cancelled, reset or failed transaction is answered 0x2D at once, and leaves the
   engine as it was: no transaction, no replay, no longer cooldown.
   */
  lemma CooldownHolds(inputs: seq<Input>, input: Input, env: Platform, k: nat, m: Message)
    requires ClockMonotone(inputs + [input])
    requires var h := Run(inputs, env);
             && k < |h.trace| && IsFailure(h.trace[k].what) && input.now < h.trace[k].at + 5000
             && h.state.session == None && ReadEvent(h.state.stack, input).message == Some(m)
    requires m.command == CMD_CBOR && m.data != []
             && (m.data[0] == CMD_GET_ASSERTION || m.data[0] == CMD_MAKE_CREDENTIAL)
    ensures var h, r := Run(inputs, env), DaemonRound(Run(inputs, env).state, input, env);
            && r.state.engine == h.state.engine && r.state.session == None
            && r.seen == [Took(m.channel, m.data), Sent(Message(m.channel, CMD_CBOR, [0x2D]))]
  {
    MonotonePrefix(inputs, input);
    FailureCools(inputs, env, k, input.now);
    CooldownRound(Run(inputs, env).state, m, input, env);
  }

  lemma CooldownRound(d: DaemonState, m: Message, input: Input, env: Platform)
    requires InCooldown(d.engine, input.now) && d.session == None && ReadEvent(d.stack, input).message == Some(m)
    requires m.command == CMD_CBOR && m.data != []
             && (m.data[0] == CMD_GET_ASSERTION || m.data[0] == CMD_MAKE_CREDENTIAL)
    ensures var r := DaemonRound(d, input, env);
            && r.state.engine == d.engine && r.state.session == None
            && r.seen == [Took(m.channel, m.data), Sent(Message(m.channel, CMD_CBOR, [ERR_KEEPALIVE_CANCEL]))]
  {
    CooldownDispatch(d.(stack := ReadEvent(d.stack, input).stack), m, input, env);
  }

  /** Whatever arrives during cooldown, nothing is started and the engine stays as it is. */
  lemma CooldownQuiet(d: DaemonState, input: Input, env: Platform)
    requires InCooldown(d.engine, input.now) && d.session == None
    ensures var r := DaemonRound(d, input, env); r.state.engine == d.engine && r.state.session == None
    ensures forall o | o in DaemonRound(d, input, env).seen :: !o.Began? && !o.Replayed?
  {
    var poll := ReadEvent(d.stack, input);
    NothingMore(poll);
    if poll.message.Some? {
      QuietDispatch(d.(stack := poll.stack), poll.message.value, input, env);
    }
  }

  lemma QuietDispatch(d: DaemonState, m: Message, input: Input, env: Platform)
    requires InCooldown(d.engine, input.now)
    ensures var r := Dispatch(d, m, input, env); r.state.engine == d.engine && r.state.session == d.session
    ensures forall o | o in Dispatch(d, m, input, env).seen :: !o.Began? && !o.Replayed?
  {
  }

  predicate Starts(o: Observation) { o.Began? || o.Replayed? }

  /** From one point of a run to a later one nothing was started or replayed, and the engine did not change. */
  predicate QuietBetween(before: History, after: History)
  {
    && after.state.engine == before.state.engine && after.state.session == None
    && before.trace <= after.trace
    && forall k | |before.trace| <= k < |after.trace| :: !Starts(after.trace[k].what)
  }

  lemma QuietTrace(trace: seq<Noted>, seen: seq<Observation>, at: nat)
    requires forall o | o in seen :: !Starts(o)
    ensures forall k | |trace| <= k < |trace + Stamped(seen, at)| :: !Starts((trace + Stamped(seen, at))[k].what)
  {
    StampedAt(seen, at);
    forall k | 0 <= k < |seen| ensures !Starts(Stamped(seen, at)[k].what) { assert seen[k] in seen; }
  }

  lemma QuietStep(inputs: seq<Input>, input: Input, env: Platform)
    requires var d := Run(inputs, env).state; d.session == None && InCooldown(d.engine, input.now)
    ensures QuietBetween(Run(inputs, env), Run(inputs + [input], env))
  {
    RunStep(inputs, input, env);
    RunTrace(inputs, input, env);
    CooldownQuiet(Run(inputs, env).state, input, env);
    QuietTrace(Run(inputs, env).trace, DaemonRound(Run(inputs, env).state, input, env).seen, input.now);
  }

  lemma QuietThrough(a: History, b: History, c: History)
    requires QuietBetween(a, b) && QuietBetween(b, c)
    ensures QuietBetween(a, c)
  {
    forall k | |a.trace| <= k < |c.trace| ensures !Starts(c.trace[k].what) {
      assert k < |b.trace| ==> c.trace[k] == b.trace[k];
    }
  }

  lemma QuietLonger(inputs: seq<Input>, s: seq<Input>, input: Input, env: Platform)
    requires QuietBetween(Run(inputs, env), Run(s, env)) && InCooldown(Run(inputs, env).state.engine, input.now)
    ensures QuietBetween(Run(inputs, env), Run(s + [input], env))
  {
    QuietStep(s, input, env);
    QuietThrough(Run(inputs, env), Run(s, env), Run(s + [input], env));
  }

  /**
   A burst of any messages within 5 s of the failure starts no transaction, replays nothing, and
   leaves the engine, and so the window, as it was.
   */
  lemma CooldownBurst(inputs: seq<Input>, more: seq<Input>, env: Platform, k: nat)
    requires ClockMonotone(inputs + more) && Run(inputs, env).state.session == None
    requires var trace := Run(inputs, env).trace;
             && k < |trace| && IsFailure(trace[k].what)
             && forall i | 0 <= i < |more| :: more[i].now < trace[k].at + 5000
    ensures QuietBetween(Run(inputs, env), Run(inputs + more, env))
  {
    var holds := (s: seq<Input>) => QuietBetween(Run(inputs, env), Run(s, env));
    var cool := (input: Input) => InCooldown(Run(inputs, env).state.engine, input.now);
    forall s, input | holds(s) && cool(input) ensures holds(s + [input]) { QuietLonger(inputs, s, input, env); }
    BurstIsCool(inputs, more, env, k);
    HoldsAlong(holds, cool, inputs, more);
  }

  lemma BurstIsCool(inputs: seq<Input>, more: seq<Input>, env: Platform, k: nat)
    requires ClockMonotone(inputs + more)
    requires var trace := Run(inputs, env).trace;
             && k < |trace| && IsFailure(trace[k].what)
             && forall i | 0 <= i < |more| :: more[i].now < trace[k].at + 5000
    ensures forall i | 0 <= i < |more| :: InCooldown(Run(inputs, env).state.engine, more[i].now)
  {
    var all := inputs + more;
    assert forall i | 0 <= i < |inputs| :: all[i] == inputs[i];
    if more != [] {
      assert all[|inputs|] == more[0];
      FailureCools(inputs, env, k, more[0].now);
    }
  }

  lemma CooldownDispatch(d: DaemonState, m: Message, input: Input, env: Platform)
    requires InCooldown(d.engine, input.now) && d.session == None && m.command == CMD_CBOR && m.data != []
    requires m.data[0] == CMD_GET_ASSERTION || m.data[0] == CMD_MAKE_CREDENTIAL
    ensures Dispatch(d, m, input, env)
         == Round(d, [Took(m.channel, m.data), Sent(Message(m.channel, CMD_CBOR, [ERR_KEEPALIVE_CANCEL]))], [])
  {
    assert [ERR_KEEPALIVE_CANCEL] + [] == [ERR_KEEPALIVE_CANCEL];
  }
}
