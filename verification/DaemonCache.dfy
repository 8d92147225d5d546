/** What the phone sees, what it answers, and what is replayed from the cache. */
module DaemonCache {
  import opened Bytes
  import opened Folds
  import opened Ctap2
  import opened CtapHid
  import opened Ctap2Meaning
  import opened Engine
  import opened Daemon
  import opened DaemonRuns
  import opened DaemonTraces
  import opened DaemonRounds

  predicate IsAnswer(o: Observation) { o.Ended? && o.reqType == GetAssertion && o.result.Success? }

  predicate BeginsOrEnds(o: Observation) { o.Began? || o.Ended? }

  lemma RequestStep(l: Ledger, n: Noted)
    ensures Note(l, n).request
         == if n.what.Began? then Some(n.what.request) else if n.what.Ended? then None else l.request
  {
  }

  lemma {:induction false} RequestOrigin(ls: seq<Ledger>, trace: seq<Noted>, n: nat) returns (i: nat)
    requires Kept(ls, trace) && n <= |trace| && ls[n].request.Some?
    ensures i < n && trace[i].what.Began? && trace[i].what.request == ls[n].request.value
    ensures forall k | i < k < n :: !BeginsOrEnds(trace[k].what)
  {
    KeptAt(ls, trace, n - 1);
    RequestStep(ls[n - 1], trace[n - 1]);
    i := n - 1;
    if !trace[i].what.Began? {
      i := RequestOrigin(ls, trace, n - 1);
    }
  }

  /** The phone answered `a`: a transaction began for its request, and ended in success with its response. */
  ghost predicate AnswerSeen(trace: seq<Noted>, i: nat, j: nat, a: PhoneAnswer)
  {
    && i < j < |trace| && trace[i].what.Began? && trace[i].what.request == a.request
    && IsAnswer(trace[j].what) && trace[j].what.result == Success(a.response) && trace[j].at == a.at
    && forall k | i < k < j :: !BeginsOrEnds(trace[k].what)
  }

  lemma AnswersAt(ls: seq<Ledger>, trace: seq<Noted>, k: nat)
    requires Kept(ls, trace) && k < |trace| && ls[k + 1].sound
    ensures IsAnswer(trace[k].what) ==>
              && ls[k].request.Some?
              && ls[k + 1].answers
              == ls[k].answers + [PhoneAnswer(ls[k].request.value, trace[k].what.result.response, trace[k].at)]
    ensures !IsAnswer(trace[k].what) ==> ls[k + 1].answers == ls[k].answers
  {
    KeptAt(ls, trace, k);
  }

  /** An answer in the trace is the last one in the ledger, and it was asked for. */
  lemma AnswerAt(ls: seq<Ledger>, trace: seq<Noted>, k: nat) returns (i: nat)
    requires Kept(ls, trace) && k < |trace| && ls[k + 1].sound && IsAnswer(trace[k].what)
    ensures ls[k + 1].answers != [] && AnswerSeen(trace, i, k, ls[k + 1].answers[|ls[k + 1].answers| - 1])
  {
    AnswersAt(ls, trace, k);
    i := RequestOrigin(ls, trace, k);
  }

  /** A list that changes at hits only was left as it is by the last hit. */
  lemma {:induction false} LastHit<A>(f: nat -> seq<A>, hit: nat -> bool, n: nat) returns (j: nat)
    requires f(0) == [] && f(n) != [] && forall k: nat | k < n :: !hit(k) ==> f(k + 1) == f(k)
    ensures j < n && hit(j) && f(j + 1) == f(n) && forall k: nat | j < k < n :: !hit(k)
  {
    j := n - 1;
    if !hit(j) {
      j := LastHit(f, hit, n - 1);
    }
  }

  /** The last answer in the ledger is the last one in the trace. */
  lemma LastAnswer(ls: seq<Ledger>, trace: seq<Noted>, n: nat) returns (i: nat, j: nat)
    requires Kept(ls, trace) && n <= |trace| && (forall k | 0 <= k <= n :: ls[k].sound) && ls[n].answers != []
    ensures j < n && AnswerSeen(trace, i, j, ls[n].answers[|ls[n].answers| - 1])
    ensures forall k | j < k < n :: !IsAnswer(trace[k].what)
  {
    var f := (k: nat) => if k < |ls| then ls[k].answers else [];
    var hit := (k: nat) => k < |trace| && IsAnswer(trace[k].what);
    forall k: nat | k < n && !hit(k) ensures f(k + 1) == f(k) { AnswersAt(ls, trace, k); }
    j := LastHit(f, hit, n);
    forall k | j < k < n ensures !IsAnswer(trace[k].what) { assert !hit(k); }
    i := AnswerAt(ls, trace, j);
  }

  /** `c` is what the transaction for `a` left in the cache. */
  predicate CachedBy(c: CachedAssertion, a: PhoneAnswer)
  {
    && c.rpId == RequestIn(a.request).rpId && c.clientDataHash == RequestIn(a.request).clientDataHash
    && c.response == a.response && c.credentialId == AssertionIdIn(a.response) && c.createdAt == a.at
  }

  lemma CachedAnswer(d: DaemonState, ls: seq<Ledger>, trace: seq<Noted>) returns (i: nat, j: nat, a: PhoneAnswer)
    requires Kept(ls, trace) && (forall k | 0 <= k < |ls| :: ls[k].sound)
    requires Consistent(d, ls[|trace|]) && d.engine.assertionCache.Some?
    ensures AnswerSeen(trace, i, j, a) && CachedBy(d.engine.assertionCache.value, a)
    ensures forall k | j < k < |trace| :: !IsAnswer(trace[k].what)
  {
    var l := ls[|trace|];
    a := l.answers[|l.answers| - 1];
    i, j := LastAnswer(ls, trace, |trace|);
  }

  /**
   In every run the cached assertion carries the relying party and the client data hash of the
   request whose transaction the phone answered last.
   */
  lemma CacheProvenance(inputs: seq<Input>, env: Platform) returns (i: nat, j: nat, a: PhoneAnswer)
    requires Run(inputs, env).state.engine.assertionCache.Some?
    ensures AnswerSeen(Run(inputs, env).trace, i, j, a)
    ensures CachedBy(Run(inputs, env).state.engine.assertionCache.value, a)
    ensures forall k | j < k < |Run(inputs, env).trace| :: !IsAnswer(Run(inputs, env).trace[k].what)
  {
    var ls := RunLedgers(inputs, env);
    i, j, a := CachedAnswer(Run(inputs, env).state, ls, Run(inputs, env).trace);
  }

  // ---------------------------------------------------------------- replays

  /** What a replay may be, once the phone gave answer `a`: asked for by the same party, soon, and listed. */
  ghost predicate AllowedReplay(a: PhoneAnswer, request: bytes, at: nat)
  {
    var was, now, id := RequestIn(a.request), RequestIn(request), AssertionIdIn(a.response);
    && was.rpId == now.rpId
    && (was.clientDataHash != [] && now.clientDataHash != [] ==> was.clientDataHash == now.clientDataHash)
    && at <= a.at + 10_000
    && (now.allowList != [] && id.Some? ==> id.value in now.allowList)
  }

  lemma ReplayFrom(ls: seq<Ledger>, trace: seq<Noted>, k: nat) returns (i: nat, j: nat, a: PhoneAnswer)
    requires Kept(ls, trace) && (forall n | 0 <= n < |ls| :: ls[n].sound) && k < |trace| && trace[k].what.Replayed?
    ensures j < k && AnswerSeen(trace, i, j, a) && (forall n | j < n < k :: !IsAnswer(trace[n].what))
    ensures trace[k].what.cached.response == a.response && AllowedReplay(a, trace[k].what.request, trace[k].at)
  {
    KeptAt(ls, trace, k);
    a := ls[k].answers[|ls[k].answers| - 1];
    i, j := LastAnswer(ls, trace, k);
  }

  /**
   Provenance of every replay in every run: it is the phone's last answer `a`, given to a request
   for the same relying party and, where both name one, the same client data hash; it is at most
   10 s old; and if the request lists credentials and the answer names one, that one is listed.
   */
  lemma ReplayProvenance(inputs: seq<Input>, env: Platform, k: nat) returns (i: nat, j: nat, a: PhoneAnswer)
    requires k < |Run(inputs, env).trace| && Run(inputs, env).trace[k].what.Replayed?
    ensures var trace := Run(inputs, env).trace;
            && j < k && AnswerSeen(trace, i, j, a) && (forall n | j < n < k :: !IsAnswer(trace[n].what))
            && trace[k].what.cached.response == a.response
            && AllowedReplay(a, trace[k].what.request, trace[k].at)
  {
    var ls := RunSound(inputs, env);
    i, j, a := ReplayFrom(ls, Run(inputs, env).trace, k);
  }

  function CountReplays(trace: seq<Noted>): nat
  {
    if trace == [] then 0
    else CountReplays(trace[..|trace| - 1]) + (if trace[|trace| - 1].what.Replayed? then 1 else 0)
  }

  function CountAnswers(trace: seq<Noted>): nat
  {
    if trace == [] then 0
    else CountAnswers(trace[..|trace| - 1]) + (if IsAnswer(trace[|trace| - 1].what) then 1 else 0)
  }

  lemma CountStep(l: Ledger, n: Noted)
    requires Note(l, n).sound
    ensures |Note(l, n).replays| == |l.replays| + (if n.what.Replayed? then 1 else 0)
    ensures |Note(l, n).answers| == |l.answers| + (if IsAnswer(n.what) then 1 else 0)
  {
  }

  lemma {:induction false} LedgerCounts(ls: seq<Ledger>, trace: seq<Noted>, k: nat)
    requires Kept(ls, trace) && k <= |trace| && forall n | 0 <= n <= k :: ls[n].sound
    ensures |ls[k].replays| == CountReplays(trace[..k]) && |ls[k].answers| == CountAnswers(trace[..k])
  {
    if k == 0 {
    } else {
      LedgerCounts(ls, trace, k - 1);
      KeptAt(ls, trace, k - 1);
      CountStep(ls[k - 1], trace[k - 1]);
      Snoc(trace, k - 1);
    }
  }

  lemma {:induction false} IncreasingBound(s: seq<int>, n: int)
    requires StrictlyIncreasing(s) && 0 <= n && forall k | 0 <= k < |s| :: 0 <= s[k] < n
    ensures |s| <= n
    decreases |s|
  {
    if s == [] {
    } else {
      IncreasingBound(s[..|s| - 1], s[|s| - 1]);
    }
  }

  lemma ReplaysBelow(d: DaemonState, l: Ledger)
    requires Consistent(d, l)
    ensures |l.replays| + (if d.engine.assertionCache.Some? then 1 else 0) <= |l.answers|
  {
    IncreasingBound(l.replays, |l.answers| - (if d.engine.assertionCache.Some? then 1 else 0));
  }

  /**
   Conservation: in every run the replays so far, and the assertion still in the cache, are no more
   than the GetAssertion transactions that succeeded; each answer is replayed at most once.
   */
  lemma ReplayConservation(inputs: seq<Input>, env: Platform)
    ensures var h := Run(inputs, env);
            && CountReplays(h.trace) + (if h.state.engine.assertionCache.Some? then 1 else 0) <= CountAnswers(h.trace)
            && StrictlyIncreasing(Observe(h.trace).replays)
  {
    var h := Run(inputs, env);
    var ls := RunLedgers(inputs, env);
    LedgerCounts(ls, h.trace, |h.trace|);
    assert h.trace[..|h.trace|] == h.trace;
    ReplaysBelow(h.state, ls[|h.trace|]);
  }

  // ---------------------------------------------------------------- what the phone sees

  lemma SanitisedAt(ls: seq<Ledger>, trace: seq<Noted>, k: nat)
    requires Kept(ls, trace) && (forall n | 0 <= n < |ls| :: ls[n].sound) && k < |trace| && trace[k].what.Began?
    ensures Sanitised(trace[k].what.request, trace[k].what.payload)
  {
    KeptAt(ls, trace, k);
  }

  /**
   The phone is only ever sent the request just taken, put through the rewriter for its command: no
   other command starts a transaction.
   */
  lemma PhoneSeesSanitised(inputs: seq<Input>, env: Platform, k: nat)
    requires k < |Run(inputs, env).trace| && Run(inputs, env).trace[k].what.Began?
    ensures var trace := Run(inputs, env).trace;
            var request, payload := trace[k].what.request, trace[k].what.payload;
            && 0 < k && trace[k - 1].what.Took? && trace[k - 1].what.request == request
            && request != [] && (request[0] == CMD_GET_ASSERTION || request[0] == CMD_MAKE_CREDENTIAL)
            && (request[0] == CMD_GET_ASSERTION ==> payload == GaPayload(request))
            && (request[0] == CMD_MAKE_CREDENTIAL ==> payload == McPayload(request))
  {
    var ls := RunSound(inputs, env);
    SanitisedAt(ls, Run(inputs, env).trace, k);
    PlacedAt(inputs, env, k);
    assert Whats(Run(inputs, env).trace)[k].Began?;
  }

  lemma EndedAt(ls: seq<Ledger>, trace: seq<Noted>, j: nat) returns (i: nat)
    requires Kept(ls, trace) && (forall n | 0 <= n < |ls| :: ls[n].sound) && j < |trace| && trace[j].what.Ended?
    ensures i < j && trace[i].what.Began? && TypeOf(trace[i].what.request) == trace[j].what.reqType
    ensures forall k | i < k < j :: !BeginsOrEnds(trace[k].what)
  {
    KeptAt(ls, trace, j);
    i := RequestOrigin(ls, trace, j);
  }

  /** What ends in a run began before, and is of the type of the request it began for. */
  lemma EndsWhatBegan(inputs: seq<Input>, env: Platform, j: nat) returns (i: nat)
    requires j < |Run(inputs, env).trace| && Run(inputs, env).trace[j].what.Ended?
    ensures var trace := Run(inputs, env).trace;
            && i < j && trace[i].what.Began? && TypeOf(trace[i].what.request) == trace[j].what.reqType
            && forall k | i < k < j :: !BeginsOrEnds(trace[k].what)
  {
    var ls := RunSound(inputs, env);
    i := EndedAt(ls, Run(inputs, env).trace, j);
  }

  // ---------------------------------------------------------------- what the cache holds, exactly

  predicate AnswersOrReplays(o: Observation) { IsAnswer(o) || o.Replayed? }

  /** At point `n` the answer at `j` is the last one and was not replayed. */
  predicate FreshAnswer(trace: seq<Noted>, n: nat, j: nat)
    requires n <= |trace|
  {
    j < n && IsAnswer(trace[j].what) && forall k | j < k < n :: !AnswersOrReplays(trace[k].what)
  }

  predicate ReplayBelow(l: Ledger) { l.replays != [] ==> l.replays[|l.replays| - 1] < |l.answers| }

  lemma UnreplayedStep(l: Ledger, n: Noted)
    requires Note(l, n).sound && ReplayBelow(l)
    ensures ReplayBelow(Note(l, n))
    ensures Unreplayed(Note(l, n)) <==> IsAnswer(n.what) || (Unreplayed(l) && !n.what.Replayed?)
  {
  }

  lemma BelowAt(ls: seq<Ledger>, trace: seq<Noted>, k: nat)
    requires Kept(ls, trace) && k < |trace| && ls[k + 1].sound && ReplayBelow(ls[k])
    ensures ReplayBelow(ls[k + 1])
    ensures Unreplayed(ls[k + 1]) <==> IsAnswer(trace[k].what) || (Unreplayed(ls[k]) && !trace[k].what.Replayed?)
  {
    KeptAt(ls, trace, k);
    UnreplayedStep(ls[k], trace[k]);
  }

  lemma {:induction false} LastReplayBelow(ls: seq<Ledger>, trace: seq<Noted>, n: nat)
    requires Kept(ls, trace) && n <= |trace| && forall k | 0 <= k <= n :: ls[k].sound
    ensures ReplayBelow(ls[n])
  {
    if n == 0 {
    } else {
      LastReplayBelow(ls, trace, n - 1);
      BelowAt(ls, trace, n - 1);
    }
  }

  lemma UnreplayedAt(ls: seq<Ledger>, trace: seq<Noted>, k: nat)
    requires Kept(ls, trace) && k < |trace| && forall n | 0 <= n <= k + 1 :: ls[n].sound
    ensures Unreplayed(ls[k + 1]) <==> IsAnswer(trace[k].what) || (Unreplayed(ls[k]) && !trace[k].what.Replayed?)
  {
    LastReplayBelow(ls, trace, k);
    BelowAt(ls, trace, k);
  }

  /** An answer that is fresh stays so until an answer or a replay. */
  lemma {:induction false} UnreplayedIsFresh(ls: seq<Ledger>, trace: seq<Noted>, n: nat) returns (j: nat)
    requires Kept(ls, trace) && n <= |trace| && (forall k | 0 <= k <= n :: ls[k].sound) && Unreplayed(ls[n])
    ensures FreshAnswer(trace, n, j)
  {
    assert n > 0;
    UnreplayedAt(ls, trace, n - 1);
    if IsAnswer(trace[n - 1].what) {
      j := n - 1;
    } else {
      j := UnreplayedIsFresh(ls, trace, n - 1);
    }
  }

  lemma {:induction false} FreshIsUnreplayed(ls: seq<Ledger>, trace: seq<Noted>, n: nat, j: nat)
    requires Kept(ls, trace) && n <= |trace| && (forall k | 0 <= k <= n :: ls[k].sound) && FreshAnswer(trace, n, j)
    ensures Unreplayed(ls[n])
  {
    UnreplayedAt(ls, trace, n - 1);
    if j == n - 1 {
    } else {
      FreshIsUnreplayed(ls, trace, n - 1, j);
    }
  }

  /**
   The cache, exactly: in every run it is full if and only if the phone's last answer was not
   replayed yet. No request that it does not match, and nothing else that happens, empties it.
   */
  lemma CacheExactly(inputs: seq<Input>, env: Platform)
    ensures var h := Run(inputs, env);
            h.state.engine.assertionCache.Some? <==> exists j: nat :: FreshAnswer(h.trace, |h.trace|, j)
  {
    var h := Run(inputs, env);
    var ls := RunLedgers(inputs, env);
    if h.state.engine.assertionCache.Some? {
      var j := UnreplayedIsFresh(ls, h.trace, |h.trace|);
    }
    if exists j: nat :: FreshAnswer(h.trace, |h.trace|, j) {
      var j: nat :| FreshAnswer(h.trace, |h.trace|, j);
      FreshIsUnreplayed(ls, h.trace, |h.trace|, j);
    }
  }

  lemma ReplayedFresh(ls: seq<Ledger>, trace: seq<Noted>, k: nat) returns (j: nat)
    requires Kept(ls, trace) && (forall n | 0 <= n < |ls| :: ls[n].sound) && k < |trace| && trace[k].what.Replayed?
    ensures FreshAnswer(trace, k, j)
  {
    KeptAt(ls, trace, k);
    j := UnreplayedIsFresh(ls, trace, k);
  }

  lemma AnsweredBetween(ls: seq<Ledger>, trace: seq<Noted>, i: nat, k: nat) returns (j: nat)
    requires Kept(ls, trace) && (forall n | 0 <= n < |ls| :: ls[n].sound)
    requires i < k < |trace| && trace[i].what.Replayed? && trace[k].what.Replayed?
    ensures i < j < k && IsAnswer(trace[j].what)
  {
    j := ReplayedFresh(ls, trace, k);
    assert AnswersOrReplays(trace[i].what);
  }

  /** Between any two replays of a run the phone answered: no answer is replayed twice. */
  lemma AnsweredBetweenReplays(inputs: seq<Input>, env: Platform, i: nat, k: nat) returns (j: nat)
    requires i < k < |Run(inputs, env).trace|
    requires Run(inputs, env).trace[i].what.Replayed? && Run(inputs, env).trace[k].what.Replayed?
    ensures i < j < k && IsAnswer(Run(inputs, env).trace[j].what)
  {
    var ls := RunSound(inputs, env);
    j := AnsweredBetween(ls, Run(inputs, env).trace, i, k);
  }

  // ---------------------------------------------------------------- a second stage is answered at once

  lemma OneAnswer(trace: seq<Noted>, i: nat, i': nat, j: nat, a: PhoneAnswer, b: PhoneAnswer)
    requires AnswerSeen(trace, i, j, a) && AnswerSeen(trace, i', j, b)
    ensures a == b
  {
    assert i == i' by {
      assert BeginsOrEnds(trace[i].what) && BeginsOrEnds(trace[i'].what);
    }
  }

  lemma FreshIsCached(inputs: seq<Input>, env: Platform, i: nat, j: nat, a: PhoneAnswer)
    requires var trace := Run(inputs, env).trace; AnswerSeen(trace, i, j, a) && FreshAnswer(trace, |trace|, j)
    ensures Run(inputs, env).state.engine.assertionCache == Some(CachedFrom(a))
  {
    CacheExactly(inputs, env);
    var trace := Run(inputs, env).trace;
    var i', j', b := CacheProvenance(inputs, env);
    assert j == j' by {
      assert AnswersOrReplays(trace[j].what) && AnswersOrReplays(trace[j'].what);
    }
    OneAnswer(trace, i, i', j, a, b);
  }

  lemma ReplayDispatch(d: DaemonState, m: Message, input: Input, env: Platform)
    requires m.command == CMD_CBOR && AnsweredFromCache(d.engine, m.data, input.now)
    ensures var r, cached := Dispatch(d, m, input, env), d.engine.assertionCache.value;
            && r.state.session == d.session && r.state.engine.assertionCache.None?
            && r.seen == [Took(m.channel, m.data), Replayed(m.data, cached),
                          Emit(CborMessage(m.channel, CTAP2_OK, cached.response))]
  {
    ReplayIsReply(d, m, input.now, env);
  }

  lemma ReplayRound(d: DaemonState, m: Message, input: Input, env: Platform)
    requires d.session.None? && ReadEvent(d.stack, input).message == Some(m) && m.command == CMD_CBOR
    requires AnsweredFromCache(d.engine, m.data, input.now)
    ensures var r, cached := DaemonRound(d, input, env), d.engine.assertionCache.value;
            && r.state.session.None? && r.state.engine.assertionCache.None?
            && r.seen == [Took(m.channel, m.data), Replayed(m.data, cached),
                          Emit(CborMessage(m.channel, CTAP2_OK, cached.response))]
  {
    ReplayDispatch(d.(stack := ReadEvent(d.stack, input).stack), m, input, env);
  }

  /** What may be replayed is what matches. */
  lemma AllowedMatches(a: PhoneAnswer, request: bytes, at: nat)
    ensures AllowedReplay(a, request, at) <==> Matches(CachedFrom(a), RequestIn(request), at)
  {
  }

  /**
   The second stage: while the last answer of the phone is fresh, a GetAssertion request that it
   may answer, outside cooldown and no silent probe that is settled otherwise, is answered with it at
   once, whatever other requests came in between. No transaction is started.
   */
  lemma FreshAnswerReplayed(inputs: seq<Input>, input: Input, env: Platform, m: Message, i: nat, j: nat, a: PhoneAnswer)
    requires var h := Run(inputs, env);
             && AnswerSeen(h.trace, i, j, a) && FreshAnswer(h.trace, |h.trace|, j)
             && h.state.session.None? && !InCooldown(h.state.engine, input.now)
             && ReadEvent(h.state.stack, input).message == Some(m)
    requires m.command == 0x10 && m.data != [] && m.data[0] == 0x02 && AllowedReplay(a, m.data, input.now)
    requires var req := RequestIn(m.data); req.userPresence || (req.allowListLen != 0 && req.allowList == [])
    ensures var r := DaemonRound(Run(inputs, env).state, input, env);
            && r.state.session.None? && r.state.engine.assertionCache.None?
            && r.seen == [Took(m.channel, m.data), Replayed(m.data, CachedFrom(a)),
                          Emit(CborMessage(m.channel, CTAP2_OK, a.response))]
  {
    FreshIsCached(inputs, env, i, j, a);
    AllowedMatches(a, m.data, input.now);
    FirstAllowListIdIsHead(m.data);
    ReplayRound(Run(inputs, env).state, m, input, env);
  }

  /** No answer of the phone is fresh that may be replayed for the request. */
  ghost predicate NothingToReplay(trace: seq<Noted>, request: bytes, at: nat)
  {
    forall i, j, a | AnswerSeen(trace, i, j, a) && FreshAnswer(trace, |trace|, j) :: !AllowedReplay(a, request, at)
  }

  lemma NoneMatches(inputs: seq<Input>, env: Platform, request: bytes, at: nat)
    requires NothingToReplay(Run(inputs, env).trace, request, at)
    ensures var cache := Run(inputs, env).state.engine.assertionCache;
            cache.None? || !Matches(cache.value, RequestIn(request), at)
  {
    if Run(inputs, env).state.engine.assertionCache.Some? {
      var i, j, a := FreshOrigin(inputs, env);
      FreshIsCached(inputs, env, i, j, a);
      AllowedMatches(a, request, at);
    }
  }

  lemma FreshOrigin(inputs: seq<Input>, env: Platform) returns (i: nat, j: nat, a: PhoneAnswer)
    requires Run(inputs, env).state.engine.assertionCache.Some?
    ensures var trace := Run(inputs, env).trace; AnswerSeen(trace, i, j, a) && FreshAnswer(trace, |trace|, j)
  {
    var trace := Run(inputs, env).trace;
    CacheExactly(inputs, env);
    var k: nat :| FreshAnswer(trace, |trace|, k);
    i, j, a := CacheProvenance(inputs, env);
    assert j == k by { assert AnswersOrReplays(trace[j].what) && IsAnswer(trace[k].what); }
  }

  /**
   Otherwise the phone is asked: a GetAssertion request outside cooldown, no silent probe that is
   settled, for which nothing can be replayed, starts a transaction with the sanitised request.
   */
  lemma PhoneAsked(inputs: seq<Input>, input: Input, env: Platform, m: Message)
    requires var d := Run(inputs, env).state;
             d.session.None? && !InCooldown(d.engine, input.now) && ReadEvent(d.stack, input).message == Some(m)
    requires m.command == 0x10 && m.data != [] && m.data[0] == 0x02
    requires var req := RequestIn(m.data); req.userPresence || (req.allowListLen != 0 && req.allowList == [])
    requires NothingToReplay(Run(inputs, env).trace, m.data, input.now)
    ensures var r := DaemonRound(Run(inputs, env).state, input, env);
            && r.seen == [Took(m.channel, m.data), Began(m.data, GaPayload(m.data))]
            && r.state.session == Some(Session(m.channel, GetAssertion, RequestIn(m.data).rpId, input.now))
  {
    NoneMatches(inputs, env, m.data, input.now);
    AssertionAsked(Run(inputs, env).state.engine, m.data, input.now, env);
    RequestBegins(Run(inputs, env).state, input, env, m);
  }
}
