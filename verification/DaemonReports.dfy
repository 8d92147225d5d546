/** The reports a run reads and writes. */
module DaemonReports {
  import opened Bytes
  import opened Folds
  import opened Ctap2
  import opened CtapHid
  import opened CtapHidRuns
  import opened Engine
  import opened Daemon
  import opened DaemonRuns
  import opened DaemonRounds
  import opened DaemonReplies
  import opened CtapHidRoundTrip

  lemma AfterOne(stack: Stack, e: Timed)
    ensures After(stack, [e]) == Step(stack, e).0
  {
    assert [e][..0] == [];
  }

  lemma ReadEventHistory(stack: Stack, input: Input)
    ensures ReadEvent(stack, input).stack == After(stack, ReadEvent(stack, input).hid)
  {
    if input.report.Some? {
      AfterOne(stack, Timed(input.now, Report(input.report.value)));
    }
  }

  lemma InitHistory(stack: Stack, m: Message, now: nat)
    ensures AfterInit(stack, m.channel, m.data) == After(stack, InitResets(m, now))
  {
    if ResetsChannel(m.channel, m.data) {
      AfterOne(stack, Timed(now, Reset(m.channel)));
    }
  }

  lemma OuterHistory(d: DaemonState, input: Input, env: Platform)
    ensures OuterRound(d, input, env).state.stack == After(d.stack, OuterRound(d, input, env).hid)
  {
    var poll := ReadEvent(d.stack, input);
    ReadEventHistory(d.stack, input);
    NothingMore(poll);
    if poll.message.Some? {
      DispatchHistory(d.(stack := poll.stack), poll.message.value, input, env);
      AfterConcat(d.stack, poll.hid, Dispatch(d.(stack := poll.stack), poll.message.value, input, env).hid);
    }
  }

  lemma DispatchHistory(d: DaemonState, m: Message, input: Input, env: Platform)
    ensures Dispatch(d, m, input, env).state.stack == After(d.stack, Dispatch(d, m, input, env).hid)
  {
    InitHistory(d.stack, m, input.now);
  }

  lemma PollHistory(d: DaemonState, s: Session, input: Input)
    ensures PollRound(d, s, input).state.stack == After(d.stack, PollRound(d, s, input).hid)
  {
    var poll := ReadEvent(d.stack, input);
    ReadEventHistory(d.stack, input);
    NothingMore(poll);
    if poll.message.Some? {
      DuringHistory(d.(stack := poll.stack), s, poll.message.value, input);
      AfterConcat(d.stack, poll.hid, DuringTransaction(d.(stack := poll.stack), s, poll.message.value, input).hid);
    }
  }

  lemma DuringHistory(d: DaemonState, s: Session, m: Message, input: Input)
    ensures DuringTransaction(d, s, m, input).state.stack == After(d.stack, DuringTransaction(d, s, m, input).hid)
  {
    InitHistory(d.stack, m, input.now);
  }

  lemma FinishHistory(d: DaemonState, s: Session, result: TransactionResult, now: nat)
    ensures Finish(d, s, result, now).state.stack == d.stack && Finish(d, s, result, now).hid == []
  {
  }

  lemma TransactionHistory(d: DaemonState, s: Session, input: Input)
    ensures TransactionRound(d, s, input).state.stack == After(d.stack, TransactionRound(d, s, input).hid)
  {
    if input.task != Running || input.cancelled {
      forall result { FinishHistory(d, s, result, input.now); }
    } else {
      PollHistory(d, s, input);
      PollHistory(d.(session := Some(s.(lastKeepalive := input.now))), s.(lastKeepalive := input.now), input);
    }
  }

  lemma RoundHistory(d: DaemonState, input: Input, env: Platform)
    ensures DaemonRound(d, input, env).state.stack == After(d.stack, DaemonRound(d, input, env).hid)
  {
    if d.session.None? {
      OuterHistory(d, input, env);
    } else {
      TransactionHistory(d, d.session.value, input);
    }
  }

  /** The pending payloads of the daemon are those of the reassembler on the reports it read. */
  lemma {:induction false} StackHistory(inputs: seq<Input>, env: Platform)
    ensures Run(inputs, env).state.stack == After(map[], Run(inputs, env).hid)
  {
    if inputs == [] {
    } else {
      var init, input := inputs[..|inputs| - 1], inputs[|inputs| - 1];
      StackHistory(init, env);
      var h := Run(init, env);
      RoundHistory(h.state, input, env);
      AfterConcat(map[], h.hid, DaemonRound(h.state, input, env).hid);
    }
  }

  /** Every message a run of the daemon acts on arrived whole: in one packet, or as one uninterrupted assembly. */
  lemma MessagesUnspliced(inputs: seq<Input>, input: Input, env: Platform, m: Message) returns (i: nat)
    requires ReadEvent(Run(inputs, env).state.stack, input).message == Some(m)
    ensures var before := Run(inputs, env).hid;
            var hid := before + [Timed(input.now, Report(input.report.value))];
            SinglePacket(hid[|before|], m) || Unspliced(hid, i, |before|, m)
  {
    var before := Run(inputs, env).hid;
    var hid := before + [Timed(input.now, Report(input.report.value))];
    StackHistory(inputs, env);
    assert hid[..|before|] == before;
    assert OutcomeAt(map[], hid, |before|) == Delivered(m);
    i := NoSplicing(hid, |before|, m);
  }

  /** The events of a run with the report of the next round. */
  function HidNext(inputs: seq<Input>, input: Input, env: Platform): seq<Timed>
    requires input.report.Some?
  {
    Run(inputs, env).hid + [Timed(input.now, Report(input.report.value))]
  }

  lemma OutcomeFrom(hid: seq<Timed>, from: nat)
    requires from < |hid|
    ensures OutcomeAt(map[], hid, |hid| - 1) == OutcomeAt(After(map[], hid[..from]), hid[from..], |hid| - from - 1)
  {
    OutcomeSuffix(map[], hid[..from], hid[from..], |hid| - from - 1);
    assert hid == hid[..from] + hid[from..];
  }

  lemma ReadDelivers(before: seq<Timed>, stack: Stack, input: Input, m: Message)
    requires input.report.Some? && stack == After(map[], before)
    requires OutcomeAt(map[], before + [Timed(input.now, Report(input.report.value))], |before|) == Delivered(m)
    ensures ReadEvent(stack, input).message == Some(m)
  {
    assert (before + [Timed(input.now, Report(input.report.value))])[..|before|] == before;
  }

  lemma ReadIsOutcome(inputs: seq<Input>, input: Input, env: Platform, from: nat, m: Message)
    requires input.report.Some? && from < |HidNext(inputs, input, env)|
    requires var hid := HidNext(inputs, input, env);
             OutcomeAt(After(map[], hid[..from]), hid[from..], |hid| - from - 1) == Delivered(m)
    ensures ReadEvent(Run(inputs, env).state.stack, input).message == Some(m)
  {
    StackHistory(inputs, env);
    OutcomeFrom(HidNext(inputs, input, env), from);
    ReadDelivers(Run(inputs, env).hid, Run(inputs, env).state.stack, input, m);
  }

  lemma LastReportDelivers(stack: Stack, run: seq<Timed>, m: Message)
    requires |m.data| <= MAX_MESSAGE && Monotone(run) && run != [] && EventChannel(run[|run| - 1]) == Some(m.channel)
    requires var own := OnChannel(m.channel, run);
             Transmits(own, m) && forall e | e in own :: Elapsed(own[0].at, e.at) < TIMEOUT
    ensures OutcomeAt(stack, run, |run| - 1) == Delivered(m)
  {
    LastOnChannel(m.channel, run);
    InterleavedRoundTrip(stack, run, m, |run| - 1);
  }

  /**
   What the host sends arrives: if the reports on a channel since event `from` are those of message
   `m`, all within 3 s, whatever other channels send in between and whatever is pending, then with
   the last of them the daemon reads `m`; a request it takes, unless a transaction is open.
   */
  lemma RequestArrives(inputs: seq<Input>, input: Input, env: Platform, from: nat, m: Message)
    requires input.report.Some? && from < |HidNext(inputs, input, env)| && |m.data| <= MAX_MESSAGE
    requires var run := HidNext(inputs, input, env)[from..];
             var own := OnChannel(m.channel, run);
             && Monotone(run) && EventChannel(run[|run| - 1]) == Some(m.channel)
             && Transmits(own, m) && forall e | e in own :: Elapsed(own[0].at, e.at) < TIMEOUT
    ensures ReadEvent(Run(inputs, env).state.stack, input).message == Some(m)
    ensures Run(inputs, env).state.session == None && m.command == CMD_CBOR && m.data != [] ==>
              TakesFirst(DaemonRound(Run(inputs, env).state, input, env).seen, m)
  {
    var hid := HidNext(inputs, input, env);
    LastReportDelivers(After(map[], hid[..from]), hid[from..], m);
    ReadIsOutcome(inputs, input, env, from, m);
    RequestTaken(Run(inputs, env).state, input, env);
  }

  lemma LastOnChannel(c: u32, run: seq<Timed>)
    requires run != [] && EventChannel(run[|run| - 1]) == Some(c)
    ensures |OnChannel(c, run)| == |OnChannel(c, run[..|run| - 1])| + 1
  {
  }

  /** With reports of the declared size, no message the daemon acts on is longer than 7609 octets. */
  lemma MessagesFit(inputs: seq<Input>, input: Input, env: Platform, m: Message)
    requires ReadEvent(Run(inputs, env).state.stack, input).message == Some(m)
    requires forall e | e in Run(inputs, env).hid + [Timed(input.now, Report(input.report.value))] :: Regular(e)
    ensures |m.data| <= MAX_MESSAGE && IsSlice(m.data)
  {
    var before := Run(inputs, env).hid;
    var hid := before + [Timed(input.now, Report(input.report.value))];
    StackHistory(inputs, env);
    assert hid[..|before|] == before;
    DeliveredFits(hid, |before|);
  }

  // ---------------------------------------------------------------- what the host reads

  function WrittenFor(n: Noted): seq<bytes> { Written(n.what) }

  /** Everything written for the observations of a trace. */
  function LogOf(trace: seq<Noted>): seq<bytes> { FlatMap(WrittenFor, trace) }

  function SentIn(n: Noted): seq<Message> { if n.what.Sent? then [n.what.message] else [] }

  /** The host reads the reports in order, each less than 3 s after the first. */
  ghost predicate ReadBriskly(run: seq<Timed>, reports: seq<bytes>)
  {
    && |run| == |reports|
    && (forall k | 0 <= k < |run| :: run[k].event == Report(reports[k]))
    && forall k | 0 <= k < |run| :: Elapsed(run[0].at, run[k].at) < TIMEOUT
  }

  /** The host reads what was written for a trace, each message briskly; between messages it may pause as it likes. */
  ghost predicate ReadsLog(run: seq<Timed>, trace: seq<Noted>)
    decreases |trace|
  {
    if trace == [] then run == []
    else
      var init, n := trace[..|trace| - 1], trace[|trace| - 1];
      var before := |LogOf(init)|;
      before <= |run| && ReadsLog(run[..before], init) && ReadBriskly(run[before..], WrittenFor(n))
  }

  lemma MessageRead(stack: Stack, run: seq<Timed>, m: Message)
    requires |m.data| <= MAX_MESSAGE && ReadBriskly(run, Wire(m))
    ensures Deliveries(stack, run) == [m]
  {
    var times := seq(|run|, k requires 0 <= k < |run| => run[k].at);
    WireTransmits(m, times);
    assert seq(|times|, k requires 0 <= k < |times| => Timed(times[k], Report(Wire(m)[k]))) == run;
    OneDelivery(stack, m, run);
  }

  lemma NotedRead(stack: Stack, run: seq<Timed>, n: Noted)
    requires (n.what.Sent? ==> |n.what.message.data| <= MAX_MESSAGE) && ReadBriskly(run, WrittenFor(n))
    ensures Deliveries(stack, run) == SentIn(n)
  {
    if n.what.Sent? {
      MessageRead(stack, run, n.what.message);
    }
  }

  lemma DeliveriesSplit(stack: Stack, run: seq<Timed>, k: nat)
    requires k <= |run|
    ensures Deliveries(stack, run) == Deliveries(stack, run[..k]) + Deliveries(After(stack, run[..k]), run[k..])
  {
    DeliveriesConcat(stack, run[..k], run[k..]);
    assert run == run[..k] + run[k..];
  }

  lemma {:induction false} LogRead(stack: Stack, run: seq<Timed>, trace: seq<Noted>)
    requires forall k | 0 <= k < |trace| && trace[k].what.Sent? :: |trace[k].what.message.data| <= MAX_MESSAGE
    requires ReadsLog(run, trace)
    ensures Deliveries(stack, run) == FlatMap(SentIn, trace)
    decreases |trace|
  {
    if trace == [] {
    } else {
      var init, n := trace[..|trace| - 1], trace[|trace| - 1];
      var before := |LogOf(init)|;
      LogRead(stack, run[..before], init);
      NotedRead(After(stack, run[..before]), run[before..], n);
      DeliveriesSplit(stack, run, before);
    }
  }

  /**
   End to end: a host that reads what a run wrote, from whatever state its reassembler is in, gets
   exactly the messages the run sent, in order, if it takes less than 3 s over each of them.
   */
  lemma HostGetsWhatWasSent(inputs: seq<Input>, env: Platform, stack: Stack, run: seq<Timed>)
    requires ReadsLog(run, Run(inputs, env).trace)
    ensures Deliveries(stack, run) == FlatMap(SentIn, Run(inputs, env).trace)
  {
    var trace := Run(inputs, env).trace;
    forall k | 0 <= k < |trace| && trace[k].what.Sent? ensures |trace[k].what.message.data| <= MAX_MESSAGE {
      UnsendableIsTooLong(inputs, env, k);
    }
    LogRead(stack, run, trace);
  }

  /** The reports for one observation, read at the instant they were written. */
  function AsWritten(n: Noted): seq<Timed>
  {
    seq(|WrittenFor(n)|, k requires 0 <= k < |WrittenFor(n)| => Timed(n.at, Report(WrittenFor(n)[k])))
  }

  /** A host that reads along as the daemon writes, whatever the clock does, is such a host. */
  lemma {:induction false} ReadingAlong(trace: seq<Noted>)
    ensures |FlatMap(AsWritten, trace)| == |LogOf(trace)| && ReadsLog(FlatMap(AsWritten, trace), trace)
  {
    if trace == [] {
    } else {
      var init, n := trace[..|trace| - 1], trace[|trace| - 1];
      var first := FlatMap(AsWritten, init);
      ReadingAlong(init);
      assert (first + AsWritten(n))[..|first|] == first && (first + AsWritten(n))[|first|..] == AsWritten(n);
    }
  }

  // ---------------------------------------------------------------- the daemon object over a whole run

  lemma {:induction false} LogStamped(seen: seq<Observation>, at: nat)
    ensures LogOf(Stamped(seen, at)) == FlatMap(Written, seen)
  {
    if seen == [] {
    } else {
      LogStamped(seen[..|seen| - 1], at);
    }
  }

  lemma LogStep(inputs: seq<Input>, input: Input, env: Platform)
    ensures LogOf(Run(inputs + [input], env).trace)
         == LogOf(Run(inputs, env).trace) + FlatMap(Written, DaemonRound(Run(inputs, env).state, input, env).seen)
  {
    var trace, seen := Run(inputs, env).trace, DaemonRound(Run(inputs, env).state, input, env).seen;
    RunTrace(inputs, input, env);
    FlatMapConcat(WrittenFor, trace, Stamped(seen, input.now));
    LogStamped(seen, input.now);
  }

  /** One turn of whichever loop the daemon is in. */
  method DaemonTurn(bridge: Bridge, input: Input, env: Platform)
    modifies bridge, bridge.token, bridge.engine
    ensures var round := DaemonRound(old(bridge.Abstract()), input, env);
            && bridge.Abstract() == round.state
            && bridge.token.written == old(bridge.token.written) + FlatMap(Written, round.seen)
  {
    if bridge.session == None {
      bridge.OuterLoopRound(input, env);
    } else {
      bridge.TransactionLoopRound(input);
    }
  }

  lemma TurnAfter(before: seq<Input>, input: Input, env: Platform, all: seq<Input>)
    requires all == before + [input]
    ensures var round := DaemonRound(Run(before, env).state, input, env);
            && Run(all, env).state == round.state
            && LogOf(Run(all, env).trace) == LogOf(Run(before, env).trace) + FlatMap(Written, round.seen)
  {
    RunStep(before, input, env);
    LogStep(before, input, env);
  }

  lemma NextTurn(inputs: seq<Input>, i: nat, env: Platform)
    requires i < |inputs|
    ensures var round := DaemonRound(Run(inputs[..i], env).state, inputs[i], env);
            && Run(inputs[..i + 1], env).state == round.state
            && LogOf(Run(inputs[..i + 1], env).trace)
            == LogOf(Run(inputs[..i], env).trace) + FlatMap(Written, round.seen)
  {
    TurnAfter(inputs[..i], inputs[i], env, inputs[..i + 1]);
  }

  /** The daemon over any finite stretch of its endless loop: its state and its log are those of the run. */
  method RunDaemon(inputs: seq<Input>, env: Platform) returns (bridge: Bridge)
    ensures fresh(bridge) && bridge.Abstract() == Run(inputs, env).state
    ensures bridge.token.written == LogOf(Run(inputs, env).trace)
  {
    bridge := new Bridge();
    for i := 0 to |inputs|
      invariant fresh(bridge) && fresh(bridge.token) && fresh(bridge.engine)
      invariant bridge.Abstract() == Run(inputs[..i], env).state
      invariant bridge.token.written == LogOf(Run(inputs[..i], env).trace)
    {
      NextTurn(inputs, i, env);
      DaemonTurn(bridge, inputs[i], env);
    }
    assert inputs[..|inputs|] == inputs;
  }
}
