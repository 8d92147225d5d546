/**
 The reassembler, exactly: with a monotone clock a message is delivered, and a sequence error is
 reported, if and only if the history of the channel says so.
 */
module CtapHidExact {
  import opened CtapHid
  import opened CtapHidRuns

  /** Event `i` started a message on `c` and the events since then kept it going, in time and in order. */
  ghost predicate Going(run: seq<Timed>, i: nat, c: u32)
  {
    && i < |run| && IsStart(c, run[i])
    && (forall j | i < j < |run| :: !Interrupts(c, run[j]))
    && (forall j | i <= j < |run| :: Elapsed(run[i].at, run[j].at) < TIMEOUT)
    && var start, rest := PacketOf(run[i]).value, Continuations(c, run[i + 1..]);
       InOrder(rest) && |Glue(start.data, rest)| < start.length
  }

  lemma GoingBefore(run: seq<Timed>, e: Timed, i: nat, c: u32)
    requires Going(run + [e], i, c) && i < |run|
    ensures Going(run, i, c)
    ensures IsContinuation(c, e) ==>
              var start, rest, packet := PacketOf(run[i]).value, Continuations(c, run[i + 1..]), PacketOf(e).value;
              packet.sequence == |rest| && |Glue(start.data, rest)| + |packet.data| < start.length
  {
    var all := run + [e];
    ContinuationsSnoc(c, run, i, e);
    assert all[i] == run[i];
    forall j | i < j < |run| ensures !Interrupts(c, run[j]) { assert all[j] == run[j]; }
    forall j | i <= j < |run| ensures Elapsed(run[i].at, run[j].at) < TIMEOUT { assert all[j] == run[j]; }
    var rest := Continuations(c, run[i + 1..]);
    if IsContinuation(c, e) {
      var packet := PacketOf(e).value;
      GlueSnoc(PacketOf(run[i]).value.data, rest, packet);
      assert (rest + [packet])[|rest|] == packet;
      forall k | 0 <= k < |rest| ensures rest[k].Continuation? && rest[k].sequence == k {
        assert (rest + [packet])[k] == rest[k];
      }
    }
  }

  /** One event on the way. */
  lemma StepOn(stack: Stack, e: Timed, c: u32, p: Payload)
    requires c in stack && stack[c] == p && Fresh(p, e.at) && |p.data| < p.totalLen && !Interrupts(c, e)
    requires IsContinuation(c, e) ==>
               PacketOf(e).value.sequence == p.nextExpectedSequence && |p.data| + |PacketOf(e).value.data| < p.totalLen
    ensures c in Step(stack, e).0 && Extends(c, p, e, Step(stack, e).0[c])
  {
    if IsContinuation(c, e) {
      var data := PacketOf(e).value.data;
      assert data[..|data|] == data;
    }
  }

  /** What is going is pending, from any state of the reassembler. */
  lemma {:induction false} GoingIsPending(stack: Stack, run: seq<Timed>, i: nat, c: u32)
    requires Going(run, i, c)
    ensures c in After(stack, run) && Assembles(run, i, c, After(stack, run)[c])
  {
    var init, e := run[..|run| - 1], run[|run| - 1];
    assert run == init + [e];
    if i == |run| - 1 {
      assert run[i + 1..] == [];
    } else {
      GoingBefore(init, e, i, c);
      GoingIsPending(stack, init, i, c);
      var s := After(stack, init);
      StepOn(s, e, c, s[c]);
      AssemblesStep(init, i, c, s[c], e, Step(s, e).0[c]);
    }
  }

  /** A pending payload that is still fresh is going. */
  lemma PendingIsGoing(run: seq<Timed>, i: nat, c: u32, p: Payload, now: nat)
    requires Assembles(run, i, c, p) && Monotone(run) && Elapsed(p.startedAt, now) < TIMEOUT
    requires forall e | e in run :: e.at <= now
    ensures Going(run, i, c)
  {
    forall j | i <= j < |run| ensures Elapsed(run[i].at, run[j].at) < TIMEOUT {
      assert run[j] in run;
    }
  }

  lemma PrefixTimes(run: seq<Timed>, n: nat)
    requires n < |run| && Monotone(run)
    ensures Monotone(run[..n]) && forall e | e in run[..n] :: e.at <= run[n].at
  {
    forall e | e in run[..n] ensures e.at <= run[n].at {
      var k :| 0 <= k < n && run[..n][k] == e;
      assert run[k] == e;
    }
  }

  /** `m` is what completing the message going since event `i` with event `n` gives. */
  ghost predicate CompletedBy(run: seq<Timed>, i: nat, n: nat, m: Message)
  {
    && i < n < |run| && Going(run[..n], i, m.channel) && IsContinuation(m.channel, run[n])
    && Elapsed(run[i].at, run[n].at) < TIMEOUT
    && var start, rest, packet := PacketOf(run[i]).value,
               Continuations(m.channel, run[..n][i + 1..]), PacketOf(run[n]).value;
       && packet.sequence == |rest| && m.command == start.command
       && |m.data| == start.length && m.data <= Glue(start.data, rest) + packet.data
  }

  lemma StepCompletes(stack: Stack, e: Timed, m: Message, p: Payload)
    requires IsContinuation(m.channel, e) && m.channel in stack && stack[m.channel] == p && Fresh(p, e.at)
    requires PacketOf(e).value.sequence == p.nextExpectedSequence && |p.data| < p.totalLen
    requires m.command == p.command && |m.data| == p.totalLen && m.data <= p.data + PacketOf(e).value.data
    ensures Step(stack, e).1 == Delivered(m)
  {
    var data := PacketOf(e).value.data;
    assert m.data == p.data + data[..p.totalLen - |p.data|];
  }

  lemma CompletedIsDelivered(stack: Stack, run: seq<Timed>, i: nat, n: nat, m: Message)
    requires CompletedBy(run, i, n, m)
    ensures OutcomeAt(stack, run, n) == Delivered(m)
  {
    GoingIsPending(stack, run[..n], i, m.channel);
    assert run[..n][i] == run[i];
    StepCompletes(After(stack, run[..n]), run[n], m, After(stack, run[..n])[m.channel]);
  }

  lemma DeliveredIsCompleted(run: seq<Timed>, n: nat, m: Message) returns (i: nat)
    requires Monotone(run) && n < |run| && OutcomeAt(map[], run, n) == Delivered(m) && !SinglePacket(run[n], m)
    ensures CompletedBy(run, i, n, m)
  {
    var before, c := run[..n], m.channel;
    var p := After(map[], before)[c];
    i := PendingHistory(before, c);
    assert before[i] == run[i];
    PrefixTimes(run, n);
    PendingIsGoing(before, i, c, p, run[n].at);
  }

  /** Exactly the single-packet messages and the completed assemblies are delivered. */
  lemma DeliveredExactly(run: seq<Timed>, n: nat, m: Message)
    requires Monotone(run) && n < |run|
    ensures OutcomeAt(map[], run, n) == Delivered(m)
       <==> SinglePacket(run[n], m) || exists i: nat :: CompletedBy(run, i, n, m)
  {
    if SinglePacket(run[n], m) {
    } else if exists i: nat :: CompletedBy(run, i, n, m) {
      var i: nat :| CompletedBy(run, i, n, m);
      CompletedIsDelivered(map[], run, i, n, m);
    } else if OutcomeAt(map[], run, n) == Delivered(m) {
      var i := DeliveredIsCompleted(run, n, m);
    }
  }

  /** A continuation out of order for the message going since event `i`. */
  ghost predicate BrokenBy(run: seq<Timed>, i: nat, n: nat, c: u32)
  {
    && i < n < |run| && Going(run[..n], i, c) && IsContinuation(c, run[n])
    && Elapsed(run[i].at, run[n].at) < TIMEOUT
    && PacketOf(run[n]).value.sequence != |Continuations(c, run[..n][i + 1..])|
  }

  lemma StepBreaks(stack: Stack, e: Timed, c: u32)
    ensures Step(stack, e).1 == SequenceError(c) <==>
            && IsContinuation(c, e) && c in stack && Fresh(stack[c], e.at)
            && PacketOf(e).value.sequence != stack[c].nextExpectedSequence
    ensures Step(stack, e).1 == SequenceError(c) ==> c !in Step(stack, e).0
  {
  }

  /** Exactly the continuations out of order are reported, and the message they broke is dropped. */
  lemma SequenceErrorExactly(run: seq<Timed>, n: nat, c: u32)
    requires Monotone(run) && n < |run|
    ensures OutcomeAt(map[], run, n) == SequenceError(c) <==> exists i: nat :: BrokenBy(run, i, n, c)
    ensures OutcomeAt(map[], run, n) == SequenceError(c) ==> c !in Step(After(map[], run[..n]), run[n]).0
  {
    var before := run[..n];
    StepBreaks(After(map[], before), run[n], c);
    if OutcomeAt(map[], run, n) == SequenceError(c) {
      var i := PendingHistory(before, c);
      assert before[i] == run[i];
      PrefixTimes(run, n);
      PendingIsGoing(before, i, c, After(map[], before)[c], run[n].at);
      assert BrokenBy(run, i, n, c);
    }
    if exists i: nat :: BrokenBy(run, i, n, c) {
      var i: nat :| BrokenBy(run, i, n, c);
      GoingIsPending(map[], before, i, c);
      assert before[i] == run[i];
    }
  }
}
