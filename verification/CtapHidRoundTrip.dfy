/**
 Fragmenting and reassembling: the reports written for a message, whatever fills their tails and
 whatever other channels do in between, are delivered as that message at its last report.
 */
module CtapHidRoundTrip {
  import opened Bytes
  import opened Folds
  import opened CtapHid
  import opened CtapHidRuns

  // ---------------------------------------------------------------- one report

  /**
   `report` carries packet `p` in its first octets, or behind one octet of report id; what comes
   after them is arbitrary.
   */
  predicate Carries(report: bytes, p: Packet)
    requires Writable(p)
  {
    || (|report| == 64 && Serialize(p) <= report)
    || (|report| == 65 && Serialize(p) <= report[1..])
  }

  /** The 64 octets of a packet, without the report id. */
  function Octets(report: bytes): bytes { if |report| == 65 then report[1..] else report }

  lemma ChannelRead(channel: u32, raw: bytes)
    requires ChannelOctets(channel) <= raw
    ensures FromBigEndian(raw[..4]) == channel
  {
    Pow256Values();
    BigEndianRoundTrip(channel, 4);
    assert raw[..4] == ChannelOctets(channel);
  }

  lemma InitializationRead(report: bytes, p: Packet)
    requires Writable(p) && p.Initialization? && Carries(report, p)
    ensures |Octets(report)[7..]| == INIT_DATA && p.data <= Octets(report)[7..]
    ensures PacketIn(report) == Some(Initialization(p.channel, p.command, p.length, Octets(report)[7..]))
  {
    Pow256Values();
    var raw := Octets(report);
    var head := ChannelOctets(p.channel) + [0x80 + p.command] + BigEndian(p.length, 2);
    assert Serialize(p) == head + p.data;
    assert raw[..7] == head;
    ChannelRead(p.channel, raw);
    BigEndianRoundTrip(p.length, 2);
    assert raw[5..7] == head[5..7] == BigEndian(p.length, 2);
    assert raw[4] == head[4];
    assert raw[7..][..|p.data|] == Serialize(p)[7..] == p.data;
  }

  lemma ContinuationRead(report: bytes, p: Packet)
    requires Writable(p) && p.Continuation? && Carries(report, p)
    ensures |Octets(report)[5..]| == CONT_DATA && p.data <= Octets(report)[5..]
    ensures PacketIn(report) == Some(Continuation(p.channel, p.sequence, Octets(report)[5..]))
  {
    var raw := Octets(report);
    var head := ChannelOctets(p.channel) + [p.sequence];
    assert Serialize(p) == head + p.data;
    assert raw[..5] == head;
    ChannelRead(p.channel, raw);
    assert raw[4] == head[4];
    assert raw[5..][..|p.data|] == Serialize(p)[5..] == p.data;
  }

  // ---------------------------------------------------------------- the packets of a message

  /** The octets carried by the first `k` packets of a message of `n` octets. */
  function Carried(n: nat, k: nat): nat
  {
    if k == 0 then 0 else Min(n, INIT_DATA + CONT_DATA * (k - 1))
  }

  lemma SliceOfSlice(s: bytes, n: nat, i: nat, j: nat)
    requires n <= |s| && i <= j && n + j <= |s|
    ensures s[n..][i..j] == s[n + i..n + j]
  {
  }

  lemma ContinuationEdges(len: nat, k: nat)
    requires 0 < k && CONT_DATA < len && CONT_DATA * (k - 1) < len - CONT_DATA
    ensures CONT_DATA + CONT_DATA * (k - 1) == CONT_DATA * k < len
    ensures CONT_DATA + Min(len - CONT_DATA, CONT_DATA * k) == Min(len, CONT_DATA * (k + 1))
  {
  }

  lemma LaterContinuation(channel: u32, rest: bytes, sequence: nat, k: nat)
    requires sequence <= 0x80 && |rest| <= CONT_DATA * (0x80 - sequence)
    requires 0 < k < |ContinuationsOf(channel, rest, sequence)|
    ensures CONT_DATA < |rest|
    ensures var others := ContinuationsOf(channel, rest[CONT_DATA..], sequence + 1);
            k - 1 < |others| && ContinuationsOf(channel, rest, sequence)[k] == others[k - 1]
  {
  }

  lemma {:induction false} ContinuationAt(channel: u32, rest: bytes, sequence: nat, k: nat)
    requires sequence <= 0x80 && |rest| <= CONT_DATA * (0x80 - sequence)
    requires k < |ContinuationsOf(channel, rest, sequence)|
    ensures CONT_DATA * k < |rest| && sequence + k < 0x80
    ensures ContinuationsOf(channel, rest, sequence)[k]
         == Continuation(channel, sequence + k, rest[CONT_DATA * k..Min(|rest|, CONT_DATA * (k + 1))])
    decreases |rest|
  {
    if k == 0 {
    } else {
      LaterContinuation(channel, rest, sequence, k);
      ContinuationAt(channel, rest[CONT_DATA..], sequence + 1, k - 1);
      ContinuationEdges(|rest|, k);
      SliceOfSlice(rest, CONT_DATA, CONT_DATA * (k - 1), Min(|rest| - CONT_DATA, CONT_DATA * k));
    }
  }

  lemma {:induction false} ContinuationCount(channel: u32, rest: bytes, sequence: nat)
    requires sequence <= 0x80 && |rest| <= CONT_DATA * (0x80 - sequence)
    ensures var n := |ContinuationsOf(channel, rest, sequence)|;
            |rest| <= CONT_DATA * n && (n > 0 ==> CONT_DATA * (n - 1) < |rest|)
    decreases |rest|
  {
    if rest == [] {
    } else {
      ContinuationCount(channel, rest[Min(|rest|, CONT_DATA)..], sequence + 1);
    }
  }

  /** There are just enough packets. */
  lemma FragmentCount(m: Message)
    requires |m.data| <= MAX_MESSAGE
    ensures var n := |Fragments(m)|;
            |m.data| <= INIT_DATA + CONT_DATA * (n - 1) && (n > 1 ==> INIT_DATA + CONT_DATA * (n - 2) < |m.data|)
  {
    ContinuationCount(m.channel, m.data[Min(|m.data|, INIT_DATA)..], 0);
  }

  lemma FragmentBody(m: Message, k: nat)
    requires |m.data| <= MAX_MESSAGE && 0 < k < |Fragments(m)|
    ensures INIT_DATA < |m.data|
    ensures Fragments(m)[k]
         == Continuation(m.channel, k - 1, m.data[Carried(|m.data|, k)..Carried(|m.data|, k + 1)])
  {
    var rest := m.data[Min(|m.data|, INIT_DATA)..];
    assert Fragments(m)[k] == ContinuationsOf(m.channel, rest, 0)[k - 1];
    ContinuationAt(m.channel, rest, 0, k - 1);
    assert |rest| == |m.data| - INIT_DATA;
    SliceOfSlice(m.data, INIT_DATA, CONT_DATA * (k - 1), Min(|rest|, CONT_DATA * k));
    assert INIT_DATA + CONT_DATA * (k - 1) == Carried(|m.data|, k);
    assert INIT_DATA + Min(|rest|, CONT_DATA * k) == Carried(|m.data|, k + 1);
  }

  /** Packet `k` holds the next octets of the message; only the last packet completes it. */
  lemma FragmentAt(m: Message, k: nat)
    requires |m.data| <= MAX_MESSAGE && k < |Fragments(m)|
    ensures Carried(|m.data|, k) <= Carried(|m.data|, k + 1)
    ensures Fragments(m)[k].channel == m.channel && Writable(Fragments(m)[k])
    ensures Fragments(m)[k].data == m.data[Carried(|m.data|, k)..Carried(|m.data|, k + 1)]
    ensures k == 0 ==> Fragments(m)[k] == Initialization(m.channel, m.command, |m.data|, m.data[..Carried(|m.data|, 1)])
    ensures k > 0 ==> Fragments(m)[k].Continuation? && Fragments(m)[k].sequence == k - 1
    ensures Carried(|m.data|, k + 1) == |m.data| <==> k == |Fragments(m)| - 1
    ensures 0 < k ==> Carried(|m.data|, k) == INIT_DATA + CONT_DATA * (k - 1) < |m.data|
  {
    FragmentsWritable(m);
    FragmentCount(m);
    if k > 0 {
      FragmentBody(m, k);
    }
  }

  // ---------------------------------------------------------------- one channel

  /** The events are the reports of message `m`, one per packet, with any octets in their tails and any report ids. */
  ghost predicate Transmits(run: seq<Timed>, m: Message)
    requires |m.data| <= MAX_MESSAGE
  {
    && |run| == |Fragments(m)|
    && forall k | 0 <= k < |run| ::
         run[k].event.Report? && Writable(Fragments(m)[k]) && Carries(run[k].event.report, Fragments(m)[k])
  }

  /** The octets arrived so far, with the sequence number and the instant that go with them. */
  function Partial(m: Message, k: nat, at: nat): Payload
    requires 0 < k
  {
    Payload(m.command, |m.data|, m.data[..Carried(|m.data|, k)], k - 1, at)
  }

  lemma FirstReport(stack: Stack, m: Message, e: Timed)
    requires |m.data| <= MAX_MESSAGE && e.event.Report? && Writable(Fragments(m)[0])
    requires Carries(e.event.report, Fragments(m)[0])
    ensures if |Fragments(m)| == 1 then Step(stack, e).1 == Delivered(m)
            else && Step(stack, e).1 == Quiet && m.channel in Step(stack, e).0
                 && Step(stack, e).0[m.channel] == Partial(m, 1, e.at)
  {
    FragmentAt(m, 0);
    InitializationRead(e.event.report, Fragments(m)[0]);
    var data := Octets(e.event.report)[7..];
    assert m.data[..Carried(|m.data|, 1)] <= data;
    if |m.data| <= |data| {
      assert data[..|m.data|] == m.data;
    } else {
      assert data == m.data[..INIT_DATA];
    }
  }

  lemma Extension(m: Message, k: nat, data: bytes)
    requires |m.data| <= MAX_MESSAGE && 0 < k < |Fragments(m)| && |data| == CONT_DATA && Fragments(m)[k].data <= data
    ensures var from, to := Carried(|m.data|, k), Carried(|m.data|, k + 1);
            m.data[..from] + data[..Min(|data|, |m.data| - from)] == m.data[..to]
  {
    FragmentAt(m, k);
    var from, to := Carried(|m.data|, k), Carried(|m.data|, k + 1);
    assert data[..to - from] == m.data[from..to];
  }

  lemma NextReport(stack: Stack, m: Message, k: nat, e: Timed, at: nat)
    requires |m.data| <= MAX_MESSAGE && 0 < k < |Fragments(m)| && e.event.Report?
    requires Writable(Fragments(m)[k]) && Carries(e.event.report, Fragments(m)[k])
    requires m.channel in stack && stack[m.channel] == Partial(m, k, at) && Elapsed(at, e.at) < TIMEOUT
    ensures if k == |Fragments(m)| - 1 then Step(stack, e).1 == Delivered(m)
            else && Step(stack, e).1 == Quiet && m.channel in Step(stack, e).0
                 && Step(stack, e).0[m.channel] == Partial(m, k + 1, at)
  {
    FragmentAt(m, k);
    ContinuationRead(e.event.report, Fragments(m)[k]);
    var data := Octets(e.event.report)[5..];
    Extension(m, k, data);
    assert Extend(Partial(m, k, at), data) == Partial(m, k + 1, at);
    assert m.data[..|m.data|] == m.data;
  }

  lemma AfterSnoc(stack: Stack, run: seq<Timed>, k: nat)
    requires k < |run|
    ensures After(stack, run[..k + 1]) == Step(After(stack, run[..k]), run[k]).0
  {
    Snoc(run, k);
  }

  predicate Holds(s: Stack, m: Message, k: nat, at: nat)
    requires 0 < k
  {
    m.channel in s && s[m.channel] == Partial(m, k, at)
  }

  lemma PartialStep(s: Stack, m: Message, run: seq<Timed>, k: nat)
    requires |m.data| <= MAX_MESSAGE && Transmits(run, m) && k + 1 < |run|
    requires k > 0 ==> Holds(s, m, k, run[0].at) && Elapsed(run[0].at, run[k].at) < TIMEOUT
    ensures Holds(Step(s, run[k]).0, m, k + 1, run[0].at)
  {
    if k == 0 {
      FirstReport(s, m, run[0]);
    } else {
      NextReport(s, m, k, run[k], run[0].at);
    }
  }

  /** What every event of a run keeps up holds after the run. */
  lemma {:induction false} AfterBy(stack: Stack, run: seq<Timed>, k: nat, inv: (Stack, nat) -> bool)
    requires k <= |run| && inv(stack, 0)
    requires forall s: Stack, j: nat | j < k && inv(s, j) :: inv(Step(s, run[j]).0, j + 1)
    ensures inv(After(stack, run[..k]), k)
  {
    if k == 0 {
    } else {
      AfterBy(stack, run, k - 1, inv);
      AfterSnoc(stack, run, k - 1);
    }
  }

  lemma PartialAfter(stack: Stack, m: Message, run: seq<Timed>, k: nat)
    requires |m.data| <= MAX_MESSAGE && Transmits(run, m) && 0 < k < |run|
    requires forall j | 0 <= j < k :: Elapsed(run[0].at, run[j].at) < TIMEOUT
    ensures Holds(After(stack, run[..k]), m, k, run[0].at)
  {
    var inv := (s: Stack, j: nat) => j > 0 ==> Holds(s, m, j, run[0].at);
    forall s: Stack, j: nat | j < k && inv(s, j) ensures inv(Step(s, run[j]).0, j + 1) {
      PartialStep(s, m, run, j);
    }
    AfterBy(stack, run, k, inv);
  }

  /** A channel on which one message arrives, and nothing else, from any state of the reassembler. */
  lemma OneMessage(stack: Stack, m: Message, run: seq<Timed>, k: nat)
    requires |m.data| <= MAX_MESSAGE && Transmits(run, m) && k < |run|
    requires forall j | 0 <= j <= k :: Elapsed(run[0].at, run[j].at) < TIMEOUT
    ensures OutcomeAt(stack, run, k) == if k == |run| - 1 then Delivered(m) else Quiet
  {
    if k == 0 {
      FirstReport(After(stack, run[..0]), m, run[0]);
    } else {
      PartialAfter(stack, m, run, k);
      NextReport(After(stack, run[..k]), m, k, run[k], run[0].at);
    }
  }

  // ---------------------------------------------------------------- interleaving

  /**
   Interleaved round trip: whatever the reassembler holds and whatever the other channels send,
   a message of at most 7609 octets whose reports are all that its channel sees, within the
   timeout, is delivered once, at its last report, octet for octet.
   */
  lemma InterleavedRoundTrip(stack: Stack, run: seq<Timed>, m: Message, i: nat)
    requires |m.data| <= MAX_MESSAGE && Monotone(run)
    requires Transmits(OnChannel(m.channel, run), m)
    requires forall e | e in OnChannel(m.channel, run) :: Elapsed(OnChannel(m.channel, run)[0].at, e.at) < TIMEOUT
    requires i < |run| && EventChannel(run[i]) == Some(m.channel)
    ensures OutcomeAt(stack, run, i)
         == if |OnChannel(m.channel, run[..i])| == |Fragments(m)| - 1 then Delivered(m) else Quiet
  {
    var own, k := OnChannel(m.channel, run), |OnChannel(m.channel, run[..i])|;
    Independence(stack, stack, m.channel, run, i);
    OneMessage(stack, m, own, k);
  }

  /** The reports the device writes for a message are such a transmission. */
  lemma {:induction false} ReportsCarry(packets: seq<Packet>, buffer: bytes, k: nat)
    requires |buffer| == REPORT && (forall p | p in packets :: Writable(p)) && k < |packets|
    ensures |ReportsOf(packets, buffer)| == |packets|
    ensures Writable(packets[k]) && Carries(ReportsOf(packets, buffer)[k], packets[k])
  {
    assert packets[k] in packets;
    if |packets| > 1 {
      var report := Overwritten(packets[0], buffer);
      ReportsCarry(packets[1..], report, if k > 0 then k - 1 else 0);
    }
  }

  lemma WireTransmits(m: Message, times: seq<nat>)
    requires |m.data| <= MAX_MESSAGE && |times| == |Wire(m)|
    ensures Transmits(seq(|times|, k requires 0 <= k < |times| => Timed(times[k], Report(Wire(m)[k]))), m)
  {
    FragmentsWritable(m);
    ReportsCarry(Fragments(m), ZeroReport(), 0);
    forall k | 0 <= k < |Fragments(m)|
      ensures Writable(Fragments(m)[k]) && Carries(Wire(m)[k], Fragments(m)[k])
    {
      ReportsCarry(Fragments(m), ZeroReport(), k);
    }
  }

  // ---------------------------------------------------------------- message after message

  function DeliveredBy(o: Outcome): seq<Message>
  {
    match o
    case Delivered(m) => [m]
    case _ => []
  }

  function Outcomes(stack: Stack, run: seq<Timed>): (r: seq<Outcome>)
    ensures |r| == |run| && forall i | 0 <= i < |run| :: r[i] == OutcomeAt(stack, run, i)
  {
    seq(|run|, i requires 0 <= i < |run| => OutcomeAt(stack, run, i))
  }

  /** Everything a reassembler delivers on the way, in order. */
  function Deliveries(stack: Stack, run: seq<Timed>): seq<Message> { FlatMap(DeliveredBy, Outcomes(stack, run)) }

  lemma OutcomeSuffix(stack: Stack, a: seq<Timed>, b: seq<Timed>, i: nat)
    requires i < |b|
    ensures OutcomeAt(stack, a + b, |a| + i) == OutcomeAt(After(stack, a), b, i)
  {
    AfterConcat(stack, a, b[..i]);
    assert (a + b)[..|a| + i] == a + b[..i];
  }

  lemma OutcomePrefix(stack: Stack, a: seq<Timed>, b: seq<Timed>, i: nat)
    requires i < |a|
    ensures OutcomeAt(stack, a + b, i) == OutcomeAt(stack, a, i)
  {
    assert (a + b)[..i] == a[..i];
  }

  lemma OutcomesConcat(stack: Stack, a: seq<Timed>, b: seq<Timed>)
    ensures Outcomes(stack, a + b) == Outcomes(stack, a) + Outcomes(After(stack, a), b)
  {
    var all, first, rest := Outcomes(stack, a + b), Outcomes(stack, a), Outcomes(After(stack, a), b);
    forall i | 0 <= i < |a| ensures all[i] == first[i] { OutcomePrefix(stack, a, b, i); }
    forall i | 0 <= i < |b| ensures all[|a| + i] == rest[i] { OutcomeSuffix(stack, a, b, i); }
    Joined(all, first, rest);
  }

  lemma Joined<A>(all: seq<A>, first: seq<A>, rest: seq<A>)
    requires |all| == |first| + |rest|
    requires (forall i | 0 <= i < |first| :: all[i] == first[i])
             && forall i | 0 <= i < |rest| :: all[|first| + i] == rest[i]
    ensures all == first + rest
  {
    forall i | 0 <= i < |all| ensures all[i] == (first + rest)[i] {
      assert i >= |first| ==> all[|first| + (i - |first|)] == rest[i - |first|];
    }
  }

  lemma DeliveriesConcat(stack: Stack, a: seq<Timed>, b: seq<Timed>)
    ensures Deliveries(stack, a + b) == Deliveries(stack, a) + Deliveries(After(stack, a), b)
  {
    OutcomesConcat(stack, a, b);
    FlatMapConcat(DeliveredBy, Outcomes(stack, a), Outcomes(After(stack, a), b));
  }

  /** A message sent alone is delivered once, and nothing else is. */
  lemma OneDelivery(stack: Stack, m: Message, run: seq<Timed>)
    requires |m.data| <= MAX_MESSAGE && Transmits(run, m)
    requires forall j | 0 <= j < |run| :: Elapsed(run[0].at, run[j].at) < TIMEOUT
    ensures Deliveries(stack, run) == [m]
  {
    var outcomes, n := Outcomes(stack, run), |run| - 1;
    forall k | 0 <= k < |run| ensures outcomes[k] == if k == n then Delivered(m) else Quiet
    {
      OneMessage(stack, m, run, k);
    }
    FlatMapNothing(DeliveredBy, outcomes[..n]);
    FlatMapConcat(DeliveredBy, outcomes[..n], [Delivered(m)]);
    FlatMapOne(DeliveredBy, Delivered(m));
    assert outcomes == outcomes[..n] + [Delivered(m)];
  }
}
