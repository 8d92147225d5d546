/**
 CTAPHID framing, section 11.2.4 of FIDO CTAP 2.1, as src/ctaphid.rs uses it: 64-octet reports,
 57 data octets in an initialization packet and 59 in each continuation, and the reassembler
 that takes reports of many interleaved channels. Instants are natural numbers of milliseconds.
 */
module CtapHid {
  import opened Bytes
  import opened Folds

  type u32 = x: int | 0 <= x < 0x1_0000_0000

  type Command = x: int | 0 <= x < 0x80

  const CMD_PING: Command := 0x01
  const CMD_INIT: Command := 0x06
  const CMD_WINK: Command := 0x08
  const CMD_CBOR: Command := 0x10
  const CMD_CANCEL: Command := 0x11
  const CMD_KEEPALIVE: Command := 0x3B
  const CMD_ERROR: Command := 0x3F

  const ERR_INVALID_COMMAND: byte := 0x01
  const ERR_INVALID_LENGTH: byte := 0x03
  const ERR_INVALID_SEQUENCE: byte := 0x04

  const BROADCAST: u32 := 0xFFFF_FFFF

  const REPORT: nat := 64
  const INIT_DATA: nat := 57
  const CONT_DATA: nat := 59
  const MAX_MESSAGE: nat := 7609
  const TIMEOUT: nat := 3000

  /** The codes and sizes of FIDO CTAP 2.1, sections 11.2.4, 11.2.5 and 11.2.9. */
  lemma Figures()
    ensures CMD_PING == 0x01 && CMD_INIT == 0x06 && CMD_WINK == 0x08 && CMD_CBOR == 0x10 && CMD_CANCEL == 0x11
    ensures CMD_KEEPALIVE == 0x3B && CMD_ERROR == 0x3F && BROADCAST == 0xFFFF_FFFF
    ensures ERR_INVALID_COMMAND == 0x01 && ERR_INVALID_LENGTH == 0x03 && ERR_INVALID_SEQUENCE == 0x04
    ensures REPORT == 64 && INIT_DATA == 64 - 7 && CONT_DATA == 64 - 5
    ensures MAX_MESSAGE == 7609 == INIT_DATA + 128 * CONT_DATA && TIMEOUT == 3000
  {
  }

  // ---------------------------------------------------------------- packets

  datatype Packet =
    | Initialization(channel: u32, command: Command, length: nat, data: bytes)
    | Continuation(channel: u32, sequence: nat, data: bytes)

  function ChannelOctets(channel: u32): bytes { BigEndian(channel, 4) }

  function Serialize(p: Packet): bytes
    requires p.Initialization? ==> p.length < 0x1_0000
    requires p.Continuation? ==> p.sequence < 0x80
  {
    match p
    case Initialization(c, command, length, data) => ChannelOctets(c) + [0x80 + command] + BigEndian(length, 2) + data
    case Continuation(c, sequence, data) => ChannelOctets(c) + [sequence] + data
  }

  function ParsePacket(raw: bytes): (r: Option<Packet>)
    ensures r.Some? && r.value.Initialization? ==> r.value.length < 0x1_0000
    ensures r.Some? && r.value.Continuation? ==> r.value.sequence < 0x80
  {
    if |raw| < 5 then None else
    Pow256Values();
    FromBigEndianBound(raw[..4]);
    var channel := FromBigEndian(raw[..4]);
    if raw[4] < 0x80 then Some(Continuation(channel, raw[4], raw[5..]))
    else if |raw| < 7 then None
    else
      FromBigEndianBound(raw[5..7]);
      Some(Initialization(channel, raw[4] - 0x80, FromBigEndian(raw[5..7]), raw[7..]))
  }

  /** Channel and length have their high octets first; the top bit of the fifth octet tells the two kinds apart. */
  lemma PacketLayout(p: Packet)
    requires Writable(p)
    ensures var raw, c := Serialize(p), p.channel;
            && |raw| >= 5
            && raw[..4] == [c / 0x100_0000, c / 0x1_0000 % 0x100, c / 0x100 % 0x100, c % 0x100]
            && match p
               case Initialization(_, command, length, data) =>
                 raw[4..] == [0x80 + command, length / 0x100, length % 0x100] + data
               case Continuation(_, sequence, data) => raw[4..] == [sequence] + data
  {
    ChannelLayout(p.channel);
    if p.Initialization? {
      assert BigEndian(p.length, 2) == [p.length / 0x100, p.length % 0x100] by { TwoOctets(p.length); }
    }
  }

  lemma TwoOctets(n: nat)
    requires n < 0x1_0000
    ensures BigEndian(n, 2) == [n / 0x100, n % 0x100]
  {
    assert BigEndian(n, 2) == BigEndian(n / 0x100, 1) + [n % 0x100];
    assert BigEndian(n / 0x100, 1) == BigEndian(n / 0x100 / 0x100, 0) + [n / 0x100 % 0x100];
  }

  lemma ChannelLayout(c: u32)
    ensures ChannelOctets(c) == [c / 0x100_0000, c / 0x1_0000 % 0x100, c / 0x100 % 0x100, c % 0x100]
  {
    var high := c / 0x1_0000;
    assert c / 0x100 / 0x100 == high && high / 0x100 == c / 0x100_0000;
    TwoOctets(high);
    assert BigEndian(c, 4) == BigEndian(c / 0x100, 3) + [c % 0x100];
    assert BigEndian(c / 0x100, 3) == BigEndian(high, 2) + [c / 0x100 % 0x100];
  }

  /** What is read as a packet is that packet, octet for octet; only what is cut short is none. */
  lemma ParsedIsSerialized(raw: bytes)
    ensures ParsePacket(raw) == None <==> |raw| < 5 || (raw[4] >= 0x80 && |raw| < 7)
    ensures ParsePacket(raw).Some? ==> Serialize(ParsePacket(raw).value) == raw
  {
    if ParsePacket(raw).Some? {
      BigEndianOf(raw[..4]);
      if raw[4] >= 0x80 {
        BigEndianOf(raw[5..7]);
        assert raw == raw[..4] + [raw[4]] + raw[5..7] + raw[7..];
      } else {
        assert raw == raw[..4] + [raw[4]] + raw[5..];
      }
    }
  }

  /** A report may carry a leading report id; an empty one is no report. */
  function PacketIn(report: bytes): Option<Packet>
  {
    if report == [] then None else ParsePacket(if |report| == 65 then report[1..] else report)
  }

  // ---------------------------------------------------------------- reassembly

  datatype Payload = Payload(command: Command, totalLen: nat, data: bytes, nextExpectedSequence: nat, startedAt: nat)

  datatype Message = Message(channel: u32, command: Command, data: bytes)

  datatype Outcome = Quiet | Delivered(message: Message) | SequenceError(channel: u32)

  type Stack = map<u32, Payload>

  /** Instant::elapsed saturates at zero. */
  function Elapsed(since: nat, now: nat): nat { if since <= now then now - since else 0 }

  /** Less than `n` after `since`: before `since + n`, whatever the clock did. */
  lemma ElapsedMeans(since: nat, now: nat, n: nat)
    requires n > 0
    ensures Elapsed(since, now) < n <==> now < since + n
  {
  }

  predicate Fresh(p: Payload, now: nat) { Elapsed(p.startedAt, now) < TIMEOUT }

  function Evict(stack: Stack, now: nat): Stack
  {
    map c | c in stack && Fresh(stack[c], now) :: stack[c]
  }

  function Min(a: nat, b: nat): nat { if a <= b then a else b }

  /** A pending payload extended by the octets of a continuation it still needs. */
  function Extend(p: Payload, data: bytes): Payload
  {
    var remaining := if |p.data| <= p.totalLen then p.totalLen - |p.data| else 0;
    p.(data := p.data + data[..Min(|data|, remaining)], nextExpectedSequence := p.nextExpectedSequence + 1)
  }

  function Accept(live: Stack, packet: Packet, now: nat): (Stack, Outcome)
  {
    match packet
    case Initialization(c, command, length, data) =>
      if length <= |data| then (live, Delivered(Message(c, command, data[..length])))
      else (live[c := Payload(command, length, data, 0, now)], Quiet)
    case Continuation(c, sequence, data) =>
      if c !in live then (live, Quiet)
      else if sequence != live[c].nextExpectedSequence then (live - {c}, SequenceError(c))
      else
        var p := Extend(live[c], data);
        if p.totalLen <= |p.data| then (live - {c}, Delivered(Message(c, p.command, p.data)))
        else (live[c := p], Quiet)
  }

  function Process(stack: Stack, report: bytes, now: nat): (Stack, Outcome)
  {
    if report == [] then (stack, Quiet)
    else match PacketIn(report)
         case None => (Evict(stack, now), Quiet)
         case Some(packet) => Accept(Evict(stack, now), packet, now)
  }

  // ---------------------------------------------------------------- fragmentation

  function ContinuationsOf(channel: u32, rest: bytes, sequence: nat): seq<Packet>
    requires sequence <= 0x80 && |rest| <= CONT_DATA * (0x80 - sequence)
    decreases |rest|
  {
    if rest == [] then []
    else
      var n := Min(|rest|, CONT_DATA);
      [Continuation(channel, sequence, rest[..n])] + ContinuationsOf(channel, rest[n..], sequence + 1)
  }

  /** The packets of a message; a message of more than 7609 octets cannot be sent. */
  function Fragments(m: Message): (r: seq<Packet>)
    requires |m.data| <= MAX_MESSAGE
    ensures r != []
  {
    var n := Min(|m.data|, INIT_DATA);
    [Initialization(m.channel, m.command, |m.data|, m.data[..n])] + ContinuationsOf(m.channel, m.data[n..], 0)
  }

  predicate Writable(p: Packet)
  {
    match p
    case Initialization(_, _, length, data) => length < 0x1_0000 && |data| <= INIT_DATA
    case Continuation(_, sequence, data) => sequence < 0x80 && |data| <= CONT_DATA
  }

  lemma {:induction false} ContinuationsWritable(channel: u32, rest: bytes, sequence: nat)
    requires sequence <= 0x80 && |rest| <= CONT_DATA * (0x80 - sequence)
    ensures forall p | p in ContinuationsOf(channel, rest, sequence) :: Writable(p)
    decreases |rest|
  {
    if rest == [] {
    } else {
      ContinuationsWritable(channel, rest[Min(|rest|, CONT_DATA)..], sequence + 1);
    }
  }

  lemma FragmentsWritable(m: Message)
    requires |m.data| <= MAX_MESSAGE
    ensures forall p | p in Fragments(m) :: Writable(p)
  {
    ContinuationsWritable(m.channel, m.data[Min(|m.data|, INIT_DATA)..], 0);
  }

  /**
   The reports written for `packets` through one buffer: each packet overwrites the front of the
   buffer and leaves the rest of it as the previous packet left it.
   */
  function ReportsOf(packets: seq<Packet>, buffer: bytes): seq<bytes>
    requires |buffer| == REPORT && forall p | p in packets :: Writable(p)
  {
    if packets == [] then []
    else [Overwritten(packets[0], buffer)] + ReportsOf(packets[1..], Overwritten(packets[0], buffer))
  }

  function Overwritten(p: Packet, buffer: bytes): (report: bytes)
    requires |buffer| == REPORT && Writable(p)
    ensures |report| == REPORT && Serialize(p) <= report
  {
    Serialize(p) + buffer[|Serialize(p)|..]
  }

  lemma ReportsStep(packets: seq<Packet>, k: nat, buffer: bytes)
    requires |buffer| == REPORT && (forall p | p in packets :: Writable(p)) && k < |packets|
    ensures ReportsOf(packets[k..], buffer)
         == [Overwritten(packets[k], buffer)] + ReportsOf(packets[k + 1..], Overwritten(packets[k], buffer))
  {
    assert packets[k..][1..] == packets[k + 1..];
  }

  function ZeroReport(): (r: bytes)
    ensures |r| == REPORT
  {
    seq(REPORT, _ => 0)
  }

  /** Everything the device writes for a message; nothing if it is too long to be framed. */
  function Wire(m: Message): seq<bytes>
  {
    if |m.data| <= MAX_MESSAGE then
      FragmentsWritable(m);
      ReportsOf(Fragments(m), ZeroReport())
    else []
  }

  // ---------------------------------------------------------------- INIT

  /** Reserved channel ids are replaced by a fixed one. */
  function AssignedChannel(random: u32): u32
  {
    if random == 0 || random == BROADCAST then 0x0102_0304 else random
  }

  /** Nonce, channel, protocol version 2, device version 1.0.0, capabilities CBOR and NMSG. */
  function InitResponse(nonce: bytes, channel: u32): bytes
  {
    nonce + ChannelOctets(channel) + [0x02, 0x01, 0x00, 0x00, 0x0C]
  }

  /** INIT resets its own channel, unless it is malformed or asks on the broadcast channel. */
  predicate ResetsChannel(channel: u32, data: bytes) { 8 <= |data| && channel != BROADCAST }

  function InitReply(channel: u32, data: bytes, random: u32): Message
  {
    if |data| < 8 then Message(channel, CMD_ERROR, [ERR_INVALID_LENGTH])
    else
      Message(channel, CMD_INIT,
              InitResponse(data[..8], if channel == BROADCAST then AssignedChannel(random) else channel))
  }

  /** INIT negotiates a channel: the reply echoes the nonce and names a channel that can be used. */
  lemma InitNegotiates(channel: u32, data: bytes, random: u32)
    requires 8 <= |data|
    ensures var reply := InitReply(channel, data, random);
            && reply.channel == channel && reply.command == 0x06
            && |reply.data| == 17 && reply.data[..8] == data[..8]
            && reply.data[12..] == [0x02, 0x01, 0x00, 0x00, 0x0C]
            && var granted := FromBigEndian(reply.data[8..12]);
               if channel != 0xFFFF_FFFF then granted == channel
               else if random != 0 && random != 0xFFFF_FFFF then granted == random
               else granted == 0x0102_0304
  {
    var granted := if channel == BROADCAST then AssignedChannel(random) else channel;
    Pow256Values();
    BigEndianRoundTrip(granted, 4);
    assert InitReply(channel, data, random).data[8..12] == ChannelOctets(granted);
  }

  /** INIT with less than a nonce is refused on its channel: error 0x03, invalid length. */
  lemma InitRefused(channel: u32, data: bytes, random: u32)
    requires |data| < 8
    ensures InitReply(channel, data, random) == Message(channel, 0x3F, [0x03])
  {
  }

  /** INIT with a nonce, other than on the broadcast channel, drops what is pending on its channel and nothing else. */
  lemma InitDrops(stack: Stack, channel: u32, data: bytes, c: u32)
    ensures c in AfterInit(stack, channel, data) <==>
            c in stack && !(c == channel && 8 <= |data| && channel != 0xFFFF_FFFF)
    ensures c in AfterInit(stack, channel, data) ==> AfterInit(stack, channel, data)[c] == stack[c]
  {
  }

  function AfterInit(stack: Stack, channel: u32, data: bytes): Stack
  {
    if ResetsChannel(channel, data) then stack - {channel} else stack
  }

  // ---------------------------------------------------------------- the device

  /** The virtual token: pending payloads and the log of reports written to the host. */
  class Device {
    var payloadStack: Stack
    var written: seq<bytes>

    constructor ()
      ensures payloadStack == map[] && written == []
    {
      payloadStack := map[];
      written := [];
    }

    method ProcessReportBytes(report: bytes, now: nat) returns (r: Option<Message>)
      modifies this
      ensures payloadStack == Process(old(payloadStack), report, now).0
      ensures var outcome := Process(old(payloadStack), report, now).1;
              && r == (if outcome.Delivered? then Some(outcome.message) else None)
              && written == old(written) + (if outcome.SequenceError?
                                            then Wire(Message(outcome.channel, CMD_ERROR, [ERR_INVALID_SEQUENCE]))
                                            else [])
    {
      if report == [] { return None; }
      payloadStack := Evict(payloadStack, now);
      var packet := PacketIn(report);
      if packet.None? { return None; }
      match packet.value
      case Initialization(c, command, length, data) =>
        if |data| >= length {
          return Some(Message(c, command, data[..length]));
        }
        payloadStack := payloadStack[c := Payload(command, length, data, 0, now)];
        return None;
      case Continuation(c, sequence, data) =>
        if c in payloadStack {
          var payload := payloadStack[c];
          if sequence != payload.nextExpectedSequence {
            payloadStack := payloadStack - {c};
            var _ := SendSinglePacket(Message(c, CMD_ERROR, [ERR_INVALID_SEQUENCE]));
            return None;
          }
          payload := Extend(payload, data);
          if |payload.data| >= payload.totalLen {
            payloadStack := payloadStack - {c};
            return Some(Message(c, payload.command, payload.data));
          }
          payloadStack := payloadStack[c := payload];
        }
        return None;
    }

    /** One packet in a zeroed report; the answer says whether it fitted. */
    method SendSinglePacket(m: Message) returns (ok: bool)
      modifies this`written
      ensures ok == (|m.data| <= INIT_DATA)
      ensures written == old(written) + (if ok then Wire(m) else [])
    {
      if |m.data| > INIT_DATA { return false; }
      var packet := Initialization(m.channel, m.command, |m.data|, m.data);
      var octets := Serialize(packet);
      written := written + [octets + ZeroReport()[|octets|..]];
      ghost var frags := Fragments(m);
      assert m.data[..|m.data|] == m.data && m.data[|m.data|..] == [];
      assert frags == [packet];
      FragmentsWritable(m);
      assert ReportsOf(frags[1..], octets + ZeroReport()[|octets|..]) == [];
      return true;
    }

    /** Fragments the message and writes its packets through one report buffer. */
    method SendResponse(m: Message) returns (ok: bool)
      modifies this`written
      ensures ok == (|m.data| <= MAX_MESSAGE)
      ensures written == old(written) + Wire(m)
    {
      if |m.data| > MAX_MESSAGE { return false; }
      FragmentsWritable(m);
      var report := new byte[REPORT](_ => 0);
      assert report[..] == ZeroReport();
      WriteFragments(Fragments(m), report);
      return true;
    }

    /** Writes one report per packet, reusing the report buffer. */
    method WriteFragments(fragments: seq<Packet>, report: array<byte>)
      requires report.Length == REPORT && forall p | p in fragments :: Writable(p)
      modifies this`written, report
      ensures written == old(written) + ReportsOf(fragments, old(report[..]))
    {
      var k := 0;
      assert fragments[0..] == fragments;
      while k < |fragments|
        invariant 0 <= k <= |fragments|
        invariant old(written) + ReportsOf(fragments, old(report[..]))
               == written + ReportsOf(fragments[k..], report[..])
      {
        ReportsStep(fragments, k, report[..]);
        Associative(written, [Overwritten(fragments[k], report[..])],
                    ReportsOf(fragments[k + 1..], Overwritten(fragments[k], report[..])));
        WriteFragment(fragments[k], report);
        k := k + 1;
      }
    }

    method WriteFragment(packet: Packet, report: array<byte>)
      requires report.Length == REPORT && Writable(packet)
      modifies this`written, report
      ensures report[..] == Overwritten(packet, old(report[..]))
      ensures written == old(written) + [report[..]]
    {
      SerializeInto(Serialize(packet), report);
      written := written + [report[..]];
    }

    /** Copies the octets over the front of the buffer. */
    method SerializeInto(octets: bytes, report: array<byte>)
      requires |octets| <= report.Length
      modifies report
      ensures report[..] == octets + old(report[..])[|octets|..]
    {
      ghost var was := report[..];
      for i := 0 to |octets|
        invariant forall k | 0 <= k < i :: report[k] == octets[k]
        invariant forall k | i <= k < report.Length :: report[k] == was[k]
      {
        report[i] := octets[i];
      }
    }

    method HandleInit(channel: u32, data: bytes, random: u32)
      modifies this
      ensures payloadStack == AfterInit(old(payloadStack), channel, data)
      ensures written == old(written) + Wire(InitReply(channel, data, random))
    {
      if |data| < 8 {
        var _ := SendSinglePacket(Message(channel, CMD_ERROR, [ERR_INVALID_LENGTH]));
        return;
      }
      var nonce := data[..8];
      var newChannel := channel;
      if channel == BROADCAST {
        newChannel := AssignedChannel(random);
      } else {
        payloadStack := payloadStack - {channel};
      }
      var _ := SendSinglePacket(Message(channel, CMD_INIT, InitResponse(nonce, newChannel)));
    }
  }
}
