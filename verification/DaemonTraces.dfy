/** The ledger and the protocol at each point of a run. */
module DaemonTraces {
  import opened Folds
  import opened Engine
  import opened Daemon
  import opened DaemonRuns

  /** `ls[k]` is the ledger before event `k` of the trace. */
  ghost predicate Kept(ls: seq<Ledger>, trace: seq<Noted>)
  {
    |ls| == |trace| + 1 && ls[0] == CLEAN && forall k | 0 <= k < |trace| :: ls[k + 1] == Note(ls[k], trace[k])
  }

  lemma ObserveSnoc(trace: seq<Noted>, n: Noted)
    ensures Observe(trace + [n]) == Note(Observe(trace), n)
  {
    assert (trace + [n])[..|trace|] == trace;
  }

  lemma KeptSnoc(ls: seq<Ledger>, trace: seq<Noted>, n: Noted, l: Ledger)
    requires Kept(ls, trace) && l == Note(ls[|trace|], n)
    ensures Kept(ls + [l], trace + [n])
  {
    var all, ext := ls + [l], trace + [n];
    forall k | 0 <= k < |ext| ensures all[k + 1] == Note(all[k], ext[k]) {
      if k < |trace| { KeptAt(ls, trace, k); }
    }
  }

  lemma {:induction false} LedgerPath(trace: seq<Noted>) returns (ls: seq<Ledger>)
    ensures Kept(ls, trace) && ls[|trace|] == Observe(trace)
  {
    if trace == [] {
      ls := [CLEAN];
    } else {
      var init, last := trace[..|trace| - 1], trace[|trace| - 1];
      ls := LedgerPath(init);
      ObserveSnoc(init, last);
      KeptSnoc(ls, init, last, Observe(init + [last]));
      assert trace == init + [last];
      ls := ls + [Observe(trace)];
    }
  }

  lemma NoteProtocol(l: Ledger, n: Noted)
    ensures Note(l, n).protocol == if l.protocol.None? then None else Advance(l.protocol.value, n)
    ensures Note(l, n).sound ==> l.sound
  {
  }

  /** What was right at the end of a trace was right all along. */
  lemma {:induction false} RightBefore(ls: seq<Ledger>, trace: seq<Noted>, k: nat)
    requires Kept(ls, trace) && k <= |trace| && ls[|trace|].protocol.Some? && ls[|trace|].sound
    ensures ls[k].protocol.Some? && ls[k].sound
    decreases |trace| - k
  {
    if k == |trace| {
    } else {
      RightBefore(ls, trace, k + 1);
      NoteProtocol(ls[k], trace[k]);
    }
  }

  lemma KeptAt(ls: seq<Ledger>, trace: seq<Noted>, k: nat)
    requires Kept(ls, trace) && k < |trace|
    ensures ls[k + 1] == Note(ls[k], trace[k])
  {
  }

  /** The ledgers of a run, right at every point. */
  lemma RunSound(inputs: seq<Input>, env: Platform) returns (ls: seq<Ledger>)
    ensures Kept(ls, Run(inputs, env).trace) && forall k | 0 <= k < |ls| :: ls[k].sound
  {
    ls := RunLedgers(inputs, env);
  }

  /** The ledgers of a run: right at every point, and at the end consistent with the state. */
  lemma RunLedgers(inputs: seq<Input>, env: Platform) returns (ls: seq<Ledger>)
    ensures var trace := Run(inputs, env).trace;
            && Kept(ls, trace) && ls[|trace|] == Observe(trace)
            && Consistent(Run(inputs, env).state, ls[|trace|])
            && forall k | 0 <= k <= |trace| :: ls[k].protocol.Some? && ls[k].sound
  {
    var trace := Run(inputs, env).trace;
    ls := LedgerPath(trace);
    RunConsistent(inputs, env);
    forall k | 0 <= k <= |trace| ensures ls[k].protocol.Some? && ls[k].sound { RightBefore(ls, trace, k); }
  }

  /** `ps[k]` is where the protocol stands before event `k`. */
  ghost predicate Follows(ps: seq<Protocol>, trace: seq<Noted>)
  {
    && |ps| == |trace| + 1 && ps[0] == Idle
    && forall k | 0 <= k < |trace| :: Advance(ps[k], trace[k]) == Some(ps[k + 1])
  }

  lemma FollowsAt(ps: seq<Protocol>, trace: seq<Noted>, k: nat)
    requires Follows(ps, trace) && k < |trace|
    ensures Advance(ps[k], trace[k]) == Some(ps[k + 1])
  {
  }

  /** Every run of the daemon is a run of the request-reply protocol. */
  lemma RunFollowsProtocol(inputs: seq<Input>, env: Platform) returns (ps: seq<Protocol>)
    ensures Follows(ps, Run(inputs, env).trace)
    ensures ps[|Run(inputs, env).trace|] == ProtocolOf(Run(inputs, env).state)
  {
    var trace := Run(inputs, env).trace;
    var ls := RunLedgers(inputs, env);
    ps := seq(|ls|, k requires 0 <= k < |ls| && ls[k].protocol.Some? => ls[k].protocol.value);
    forall k | 0 <= k < |trace| ensures Advance(ps[k], trace[k]) == Some(ps[k + 1]) {
      NoteProtocol(ls[k], trace[k]);
    }
  }
}
