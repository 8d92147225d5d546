/**
 The reassembler over whole runs: timed reports of any content on any channels, and INIT resets.
 */
module CtapHidRuns {
  import opened Bytes
  import opened Folds
  import opened CtapHid

  datatype Event = Report(report: bytes) | Reset(channel: u32)

  datatype Timed = Timed(at: nat, event: Event)

  function Step(stack: Stack, e: Timed): (Stack, Outcome)
  {
    match e.event
    case Report(r) => Process(stack, r, e.at)
    case Reset(c) => (stack - {c}, Quiet)
  }

  function After(stack: Stack, run: seq<Timed>): Stack
  {
    if run == [] then stack else Step(After(stack, run[..|run| - 1]), run[|run| - 1]).0
  }

  function OutcomeAt(stack: Stack, run: seq<Timed>, i: nat): Outcome
    requires i < |run|
  {
    Step(After(stack, run[..i]), run[i]).1
  }

  ghost predicate Monotone(run: seq<Timed>)
  {
    forall i, j | 0 <= i < j < |run| :: run[i].at <= run[j].at
  }

  lemma {:induction false} AfterConcat(stack: Stack, a: seq<Timed>, b: seq<Timed>)
    ensures After(stack, a + b) == After(After(stack, a), b)
  {
    if b == [] {
      assert a + b == a;
    } else {
      AfterConcat(stack, a, b[..|b| - 1]);
      assert (a + b)[..|a + b| - 1] == a + b[..|b| - 1];
    }
  }

  function PacketOf(e: Timed): Option<Packet>
  {
    if e.event.Report? then PacketIn(e.event.report) else None
  }

  // ---------------------------------------------------------------- lengths and sequence numbers

  /** A report of the size the descriptor declares, with or without a report id. */
  predicate Regular(e: Timed)
  {
    e.event.Report? ==> |e.event.report| == REPORT || |e.event.report| == REPORT + 1
  }

  predicate Counted(p: Payload)
  {
    |p.data| < p.totalLen < 0x1_0000 && p.nextExpectedSequence <= 0x80
  }

  predicate FullPackets(p: Payload)
  {
    |p.data| == INIT_DATA + CONT_DATA * p.nextExpectedSequence
  }

  lemma StepFullPackets(stack: Stack, e: Timed)
    requires Regular(e) && forall c | c in stack :: Counted(stack[c]) && FullPackets(stack[c])
    ensures forall c | c in Step(stack, e).0 :: FullPackets(Step(stack, e).0[c])
    ensures Step(stack, e).1.Delivered? ==> |Step(stack, e).1.message.data| <= MAX_MESSAGE
  {
  }

  /** Whatever reports arrive, the expected sequence number stays below 129: its octet never overflows. */
  lemma {:induction false} PendingCounted(run: seq<Timed>)
    ensures forall c | c in After(map[], run) :: Counted(After(map[], run)[c])
  {
    if run == [] {
    } else {
      PendingCounted(run[..|run| - 1]);
    }
  }

  /** With regular reports a pending message holds exactly its full packets, and stays below 7609 octets. */
  lemma {:induction false} PendingArithmetic(run: seq<Timed>)
    requires forall e | e in run :: Regular(e)
    ensures forall c | c in After(map[], run) :: Counted(After(map[], run)[c]) && FullPackets(After(map[], run)[c])
  {
    PendingCounted(run);
    if run == [] {
    } else {
      var init := run[..|run| - 1];
      PendingArithmetic(init);
      StepFullPackets(After(map[], init), run[|run| - 1]);
    }
  }

  /** No run of regular reports delivers more than 7609 octets, whatever length was declared. */
  lemma DeliveredFits(run: seq<Timed>, i: nat)
    requires (forall e | e in run :: Regular(e)) && i < |run| && OutcomeAt(map[], run, i).Delivered?
    ensures |OutcomeAt(map[], run, i).message.data| <= MAX_MESSAGE
  {
    PendingArithmetic(run[..i]);
    StepFullPackets(After(map[], run[..i]), run[i]);
  }

  // ---------------------------------------------------------------- no splicing

  predicate IsContinuation(c: u32, e: Timed)
  {
    PacketOf(e).Some? && PacketOf(e).value.Continuation? && PacketOf(e).value.channel == c
  }

  /** An initialization packet on `c` whose message needs more packets. */
  predicate IsStart(c: u32, e: Timed)
  {
    && PacketOf(e).Some? && PacketOf(e).value.Initialization? && PacketOf(e).value.channel == c
    && |PacketOf(e).value.data| < PacketOf(e).value.length
  }

  predicate Interrupts(c: u32, e: Timed) { IsStart(c, e) || e.event == Reset(c) }

  /** The continuation packets on channel `c`, in order. */
  function Continuations(c: u32, run: seq<Timed>): seq<Packet>
  {
    if run == [] then []
    else Continuations(c, run[..|run| - 1])
         + (if IsContinuation(c, run[|run| - 1]) then [PacketOf(run[|run| - 1]).value] else [])
  }

  function Glue(first: bytes, packets: seq<Packet>): bytes
  {
    if packets == [] then first else Glue(first, packets[..|packets| - 1]) + packets[|packets| - 1].data
  }

  predicate InOrder(packets: seq<Packet>)
  {
    forall k | 0 <= k < |packets| :: packets[k].Continuation? && packets[k].sequence == k
  }

  /** `p` is what packet `start` began at `at` and the packets `rest` continued. */
  ghost predicate Assembled(start: Packet, rest: seq<Packet>, at: nat, p: Payload)
  {
    && start.Initialization? && InOrder(rest)
    && p == Payload(start.command, start.length, Glue(start.data, rest), |rest|, at)
    && |p.data| < p.totalLen
  }

  /** `p` is what event `i` started and the later events on its channel brought, nothing else. */
  ghost predicate Assembles(run: seq<Timed>, i: nat, c: u32, p: Payload)
  {
    && i < |run| && IsStart(c, run[i])
    && (forall j | i < j < |run| :: !Interrupts(c, run[j]))
    && Assembled(PacketOf(run[i]).value, Continuations(c, run[i + 1..]), run[i].at, p)
  }

  lemma ContinuationsSnoc(c: u32, run: seq<Timed>, i: nat, e: Timed)
    requires i < |run|
    ensures (run + [e])[i + 1..] == run[i + 1..] + [e]
    ensures Continuations(c, (run + [e])[i + 1..])
         == if IsContinuation(c, e) then Continuations(c, run[i + 1..]) + [PacketOf(e).value]
            else Continuations(c, run[i + 1..])
  {
    assert (run + [e])[i + 1..] == run[i + 1..] + [e];
  }

  lemma GlueSnoc(first: bytes, rest: seq<Packet>, p: Packet)
    ensures Glue(first, rest + [p]) == Glue(first, rest) + p.data
    ensures InOrder(rest) && p.Continuation? && p.sequence == |rest| ==> InOrder(rest + [p])
  {
    assert (rest + [p])[..|rest|] == rest;
  }

  /** `q` is `p` extended by a continuation packet. */
  ghost predicate ExtendedBy(p: Payload, packet: Packet, q: Payload)
  {
    && packet.Continuation? && packet.sequence == p.nextExpectedSequence
    && q == Payload(p.command, p.totalLen, p.data + packet.data, p.nextExpectedSequence + 1, p.startedAt)
    && |q.data| < q.totalLen
  }

  /** `q` is `p` after event `e`: extended by a continuation, or untouched. */
  ghost predicate Extends(c: u32, p: Payload, e: Timed, q: Payload)
  {
    if IsContinuation(c, e) then ExtendedBy(p, PacketOf(e).value, q) else q == p
  }

  lemma AssembledStep(start: Packet, rest: seq<Packet>, at: nat, p: Payload, packet: Packet, q: Payload)
    requires Assembled(start, rest, at, p) && ExtendedBy(p, packet, q)
    ensures Assembled(start, rest + [packet], at, q)
  {
    GlueSnoc(start.data, rest, packet);
  }

  /** What a payload pending after an event was before it. */
  lemma StepPending(stack: Stack, e: Timed, c: u32)
    requires c in Step(stack, e).0 && !IsStart(c, e)
    ensures c in stack && e.event != Reset(c)
    ensures |stack[c].data| < stack[c].totalLen ==> Extends(c, stack[c], e, Step(stack, e).0[c])
  {
    if IsContinuation(c, e) {
      var data := PacketOf(e).value.data;
      assert data[..|data|] == data;
    }
  }

  lemma AssemblesStep(run: seq<Timed>, i: nat, c: u32, p: Payload, e: Timed, q: Payload)
    requires Assembles(run, i, c, p) && !Interrupts(c, e) && Extends(c, p, e, q)
    ensures Assembles(run + [e], i, c, q)
  {
    var start, rest := PacketOf(run[i]).value, Continuations(c, run[i + 1..]);
    ContinuationsSnoc(c, run, i, e);
    if IsContinuation(c, e) {
      AssembledStep(start, rest, run[i].at, p, PacketOf(e).value, q);
    }
  }

  /** Every pending payload has such a history. */
  lemma {:induction false} PendingHistory(run: seq<Timed>, c: u32) returns (i: nat)
    requires c in After(map[], run)
    ensures Assembles(run, i, c, After(map[], run)[c])
  {
    var init, e := run[..|run| - 1], run[|run| - 1];
    assert run == init + [e];
    if IsStart(c, e) {
      i := |run| - 1;
      assert run[i + 1..] == [];
    } else {
      StepPending(After(map[], init), e, c);
      i := PendingHistory(init, c);
      AssemblesStep(init, i, c, After(map[], init)[c], e, After(map[], run)[c]);
    }
  }

  /** A message that fits its initialization packet. */
  predicate SinglePacket(e: Timed, m: Message)
  {
    && PacketOf(e).Some? && PacketOf(e).value.Initialization?
    && var p := PacketOf(e).value;
       p.length <= |p.data| && m == Message(p.channel, p.command, p.data[..p.length])
  }

  /** `m` is the declared length of `start` and the continuations 0, 1, .. that follow, all of them needed. */
  ghost predicate Completes(start: Packet, rest: seq<Packet>, m: Message)
  {
    && start.Initialization? && InOrder(rest) && rest != [] && m.command == start.command
    && |m.data| == start.length && m.data <= Glue(start.data, rest)
    && |Glue(start.data, rest[..|rest| - 1])| < start.length
  }

  lemma CompletesStep(start: Packet, rest: seq<Packet>, at: nat, p: Payload, packet: Packet, m: Message)
    requires Assembled(start, rest, at, p) && packet.Continuation? && packet.sequence == p.nextExpectedSequence
    requires m.command == p.command && |m.data| == p.totalLen && m.data <= p.data + packet.data
    ensures Completes(start, rest + [packet], m)
  {
    GlueSnoc(start.data, rest, packet);
    assert (rest + [packet])[..|rest|] == rest;
  }

  /**
   The message delivered at event `n` is what event `i` started and the continuations on the same
   channel completed, uninterrupted, the last of them less than 3 s after the first.
   */
  ghost predicate Unspliced(run: seq<Timed>, i: nat, n: nat, m: Message)
  {
    && i < n < |run| && IsStart(m.channel, run[i]) && IsContinuation(m.channel, run[n])
    && (forall j | i < j <= n :: !Interrupts(m.channel, run[j]))
    && Elapsed(run[i].at, run[n].at) < TIMEOUT
    && Completes(PacketOf(run[i]).value, Continuations(m.channel, run[i + 1..n + 1]), m)
  }

  lemma NoneInterrupts(c: u32, run: seq<Timed>, i: nat, n: nat)
    requires i < n < |run| && !Interrupts(c, run[n])
    requires forall j | i < j < n :: !Interrupts(c, run[..n][j])
    ensures forall j | i < j <= n :: !Interrupts(c, run[j])
  {
    forall j | i < j < n ensures !Interrupts(c, run[j]) { assert run[..n][j] == run[j]; }
  }

  lemma SliceSnoc(run: seq<Timed>, i: nat, n: nat)
    requires i < n < |run|
    ensures run[i + 1..n + 1] == (run[..n] + [run[n]])[i + 1..]
  {
  }

  lemma CompletingEvent(c: u32, run: seq<Timed>, i: nat, n: nat)
    requires i < n < |run| && IsContinuation(c, run[n])
    requires forall j | i < j < n :: !Interrupts(c, run[..n][j])
    ensures forall j | i < j <= n :: !Interrupts(c, run[j])
    ensures Continuations(c, run[i + 1..n + 1]) == Continuations(c, run[..n][i + 1..]) + [PacketOf(run[n]).value]
  {
    NoneInterrupts(c, run, i, n);
    ContinuationsSnoc(c, run[..n], i, run[n]);
    SliceSnoc(run, i, n);
  }

  /** No delivered message is spliced together: one packet, or one uninterrupted assembly. */
  lemma NoSplicing(run: seq<Timed>, n: nat, m: Message) returns (i: nat)
    requires n < |run| && OutcomeAt(map[], run, n) == Delivered(m)
    ensures SinglePacket(run[n], m) || Unspliced(run, i, n, m)
  {
    i := 0;
    if !SinglePacket(run[n], m) {
      var before, c := run[..n], m.channel;
      var p := After(map[], before)[c];
      i := PendingHistory(before, c);
      assert before[i] == run[i];
      CompletingEvent(c, run, i, n);
      CompletesStep(PacketOf(run[i]).value, Continuations(c, before[i + 1..]), run[i].at, p, PacketOf(run[n]).value, m);
    }
  }

  // ---------------------------------------------------------------- independence of channels

  function EventChannel(e: Timed): Option<u32>
  {
    match e.event
    case Report(r) => if PacketIn(r).Some? then Some(PacketIn(r).value.channel) else None
    case Reset(c) => Some(c)
  }

  function OnChannel(c: u32, run: seq<Timed>): seq<Timed>
  {
    if run == [] then []
    else OnChannel(c, run[..|run| - 1]) + (if EventChannel(run[|run| - 1]) == Some(c) then [run[|run| - 1]] else [])
  }

  /** The payload of channel `c` as the next report at instant `now` would find it. */
  function Live(stack: Stack, c: u32, now: nat): Option<Payload>
  {
    if c in stack && Fresh(stack[c], now) then Some(stack[c]) else None
  }

  lemma LiveLater(s: Stack, t: Stack, c: u32, now: nat, later: nat)
    requires now <= later && Live(s, c, now) == Live(t, c, now)
    ensures Live(s, c, later) == Live(t, c, later)
  {
  }

  lemma StepElsewhere(stack: Stack, e: Timed, c: u32)
    requires EventChannel(e) != Some(c)
    ensures Live(Step(stack, e).0, c, e.at) == Live(stack, c, e.at)
  {
  }

  lemma StepAlike(s: Stack, t: Stack, e: Timed, c: u32)
    requires EventChannel(e) == Some(c) && Live(s, c, e.at) == Live(t, c, e.at)
    ensures Step(s, e).1 == Step(t, e).1
    ensures Live(Step(s, e).0, c, e.at) == Live(Step(t, e).0, c, e.at)
  {
  }

  /** What a channel has pending after a run depends on its own events only. */
  lemma {:induction false} LiveAfter(s: Stack, t: Stack, c: u32, run: seq<Timed>, since: nat, now: nat)
    requires Monotone(run) && Live(s, c, since) == Live(t, c, since) && since <= now
    requires forall e | e in run :: since <= e.at <= now
    ensures Live(After(s, run), c, now) == Live(After(t, OnChannel(c, run)), c, now)
  {
    if run == [] {
      LiveLater(s, t, c, since, now);
    } else {
      var init, e := run[..|run| - 1], run[|run| - 1];
      assert e in run;
      forall x | x in init ensures x in run && x.at <= e.at {
        var k :| 0 <= k < |init| && init[k] == x;
        assert run[k] == x;
      }
      LiveAfter(s, t, c, init, since, e.at);
      var s', t' := After(s, init), After(t, OnChannel(c, init));
      if EventChannel(e) == Some(c) {
        StepAlike(s', t', e, c);
        assert (OnChannel(c, init) + [e])[..|OnChannel(c, init)|] == OnChannel(c, init);
      } else {
        StepElsewhere(s', e, c);
        assert OnChannel(c, run) == OnChannel(c, init);
      }
      LiveLater(After(s, run), After(t, OnChannel(c, run)), c, e.at, now);
    }
  }

  lemma {:induction false} OnChannelPrefix(c: u32, run: seq<Timed>, i: nat)
    requires i <= |run|
    ensures OnChannel(c, run[..i]) <= OnChannel(c, run)
    ensures i < |run| && EventChannel(run[i]) == Some(c) ==>
              |OnChannel(c, run[..i])| < |OnChannel(c, run)| && OnChannel(c, run)[|OnChannel(c, run[..i])|] == run[i]
  {
    if i < |run| {
      var init := run[..|run| - 1];
      OnChannelPrefix(c, init, i);
      assert init[..i] == run[..i];
      assert OnChannel(c, init) <= OnChannel(c, run);
      if i < |init| {
        assert init[i] == run[i];
      } else {
        assert run[..i] == init;
      }
    } else {
      assert run[..i] == run;
    }
  }

  /** An event never delivers on a channel other than its own. */
  lemma OutcomeChannel(stack: Stack, e: Timed)
    ensures Step(stack, e).1.Delivered? ==> EventChannel(e) == Some(Step(stack, e).1.message.channel)
    ensures Step(stack, e).1.SequenceError? ==> EventChannel(e) == Some(Step(stack, e).1.channel)
  {
  }

  /**
   Channel independence: from stacks that agree on channel `c`, every event on `c` has the outcome
   it would have if only the events on `c` had ever arrived, although the others evict as well.
   */
  lemma Independence(s: Stack, t: Stack, c: u32, run: seq<Timed>, i: nat)
    requires Monotone(run) && i < |run| && EventChannel(run[i]) == Some(c)
    requires Live(s, c, run[0].at) == Live(t, c, run[0].at)
    ensures var k, own := |OnChannel(c, run[..i])|, OnChannel(c, run);
            k < |own| && own[k] == run[i] && OutcomeAt(s, run, i) == OutcomeAt(t, own, k)
    ensures OutcomeAt(s, run, i).Delivered? ==> OutcomeAt(s, run, i).message.channel == c
    ensures OutcomeAt(s, run, i).SequenceError? ==> OutcomeAt(s, run, i).channel == c
  {
    OutcomeChannel(After(s, run[..i]), run[i]);
    OnChannelPrefix(c, run, i);
    var before := run[..i];
    forall x | x in before ensures run[0].at <= x.at <= run[i].at {
      var k :| 0 <= k < |before| && before[k] == x;
      assert run[k] == x;
    }
    LiveAfter(s, t, c, before, run[0].at, run[i].at);
    var own, k := OnChannel(c, run), |OnChannel(c, before)|;
    assert own[..k] == OnChannel(c, before);
    StepAlike(After(s, before), After(t, own[..k]), run[i], c);
  }
}
