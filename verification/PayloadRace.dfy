/** Fetching the payload of a bid from all relays that delivered it: one goroutine per relay, each
    retrying its request, and a critical section in which the first verified payload is kept. */
module PayloadRace {

  import opened Wrappers

  datatype Block = Block(blockHash: string, txRoot: string, withdrawalsRoot: string)

  datatype Payload = Payload(
    blockHash: string,
    transactions: seq<string>,
    withdrawals: seq<string>,
    commitments: seq<string>,
    proofs: seq<string>,
    blobs: seq<string>)

  /** The hash-tree roots are parameters; computing one may fail. */
  datatype Roots = Roots(ofTransactions: seq<string> -> Option<string>, ofWithdrawals: seq<string> -> Option<string>)

  /** The checks on a payload, in the order the source makes them. */
  predicate Verified(roots: Roots, block: Block, p: Payload) {
    if block.blockHash != p.blockHash then false
    else if roots.ofTransactions(p.transactions).None? then false
    else if roots.ofTransactions(p.transactions).value != block.txRoot then false
    else if roots.ofWithdrawals(p.withdrawals).None? then false
    else if roots.ofWithdrawals(p.withdrawals).value != block.withdrawalsRoot then false
    else |p.commitments| == |p.blobs| && |p.commitments| == |p.proofs|
  }

  /** The payload belongs to the block: its hash, the roots of its transactions and withdrawals, and as many
      commitments as proofs and blobs. */
  predicate IsPayloadOf(roots: Roots, block: Block, p: Payload) {
    && p.blockHash == block.blockHash
    && roots.ofTransactions(p.transactions) == Some(block.txRoot)
    && roots.ofWithdrawals(p.withdrawals) == Some(block.withdrawalsRoot)
    && |p.commitments| == |p.proofs| == |p.blobs|
  }

  /** The checks accept exactly the payloads of the block. */
  lemma VerifiedIff(roots: Roots, block: Block, p: Payload)
    ensures Verified(roots, block, p) <==> IsPayloadOf(roots, block, p)
  {
  }

  // ---- the goroutines ----

  datatype Setting = Setting(roots: Roots, block: Block, maxRetries: int)

  /** About to check the context before an attempt, after so many failed ones; waiting for an answer;
      holding a verified payload; returned. */
  datatype Phase = Checking(failed: nat) | InFlight(failed: nat) | Holding(payload: Payload) | Returned

  datatype Won = Won(relay: nat, payload: Payload)

  /** `expired[i]`: the client timeout of goroutine i has passed. */
  datatype State = State(phases: seq<Phase>, expired: seq<bool>, result: Option<Won>, canceled: bool)

  /** What happens next. Try: goroutine i sends a request. Fail, Receive: how it is answered. GiveUp: the
      context has ended, or no attempt is left. Commit: the critical section. Expire: the timeout. */
  datatype Action =
    | Try(i: nat) | Fail(i: nat) | Receive(i: nat, payload: Payload) | GiveUp(i: nat) | Commit(i: nat) | Expire(i: nat)

  /** The context of goroutine i has ended: by its own timeout, or because a payload has been found. */
  predicate Ended(s: State, i: nat)
    requires i < |s.expired|
  {
    s.canceled || s.expired[i]
  }

  predicate Enabled(c: Setting, s: State, a: Action) {
    && a.i < |s.phases| == |s.expired|
    && var phase := s.phases[a.i];
       match a
       case Try(i) => phase.Checking? && phase.failed < c.maxRetries && !Ended(s, i)
       case Fail(_) => phase.InFlight?
       case Receive(_, _) => phase.InFlight?
       case GiveUp(i) => phase.Checking? && (phase.failed >= c.maxRetries || Ended(s, i))
       case Commit(_) => phase.Holding?
       case Expire(i) => (phase.Checking? || phase.InFlight?) && !s.expired[i]
  }

  function Next(c: Setting, s: State, a: Action): State
    requires Enabled(c, s, a)
  {
    match a
    case Try(i) => s.(phases := s.phases[i := InFlight(s.phases[i].failed)])
    case Fail(i) => s.(phases := s.phases[i := Checking(s.phases[i].failed + 1)])
    case Receive(i, p) => s.(phases := s.phases[i := if Verified(c.roots, c.block, p) then Holding(p) else Returned])
    case GiveUp(i) => s.(phases := s.phases[i := Returned])
    case Commit(i) =>
      var done := s.(phases := s.phases[i := Returned]);
      if s.canceled then done
      else if s.result.Some? then done.(canceled := true)
      else done.(canceled := true, result := Some(Won(i, s.phases[i].payload)))
    case Expire(i) => s.(expired := s.expired[i := true])
  }

  function Init(n: nat): State {
    State(seq(n, _ => Checking(0)), seq(n, _ => false), None, false)
  }

  /** The run is taken apart at its end: what holds after `run` is what held before its last action. */
  ghost predicate Legal(c: Setting, n: nat, run: seq<Action>)
    decreases |run|, 0
  {
    run == [] || (Legal(c, n, run[..|run| - 1]) && Enabled(c, After(c, n, run[..|run| - 1]), run[|run| - 1]))
  }

  ghost function After(c: Setting, n: nat, run: seq<Action>): State
    requires Legal(c, n, run)
    decreases |run|, 1
  {
    if run == [] then Init(n) else Next(c, After(c, n, run[..|run| - 1]), run[|run| - 1])
  }

  predicate AllReturned(s: State) {
    forall i :: 0 <= i < |s.phases| ==> s.phases[i].Returned?
  }

  // ---- reading the outcome off the run ----

  /** The first goroutine to enter the critical section. */
  function FirstCommit(run: seq<Action>): Option<nat> {
    if run == [] then None
    else
      var before, last := FirstCommit(run[..|run| - 1]), run[|run| - 1];
      if before.None? && last.Commit? then Some(last.i) else before
  }

  /** The payload relay i sent. */
  function Sent(run: seq<Action>, i: nat): Option<Payload> {
    if run == [] then None
    else
      var last := run[|run| - 1];
      if last.Receive? && last.i == i then Some(last.payload) else Sent(run[..|run| - 1], i)
  }

  /** The requests made to relay i so far. */
  function Attempts(run: seq<Action>, i: nat): nat {
    if run == [] then 0
    else
      var last := run[|run| - 1];
      Attempts(run[..|run| - 1], i) + if last == Try(i) then 1 else 0
  }

  /** What each phase says about the past of its goroutine. */
  ghost predicate PhaseOk(c: Setting, run: seq<Action>, i: nat, phase: Phase) {
    match phase
    case Checking(failed) => Sent(run, i).None? && Attempts(run, i) == failed && (failed == 0 || failed <= c.maxRetries)
    case InFlight(failed) => Sent(run, i).None? && Attempts(run, i) == failed + 1 && failed < c.maxRetries
    case Holding(p) => Sent(run, i) == Some(p) && Verified(c.roots, c.block, p) && Attempts(run, i) <= c.maxRetries
    case Returned =>
      && (Attempts(run, i) == 0 || Attempts(run, i) <= c.maxRetries)
      && (FirstCommit(run).None? && Sent(run, i).Some? ==> !Verified(c.roots, c.block, Sent(run, i).value))
  }

  ghost predicate ResultOk(c: Setting, run: seq<Action>, s: State) {
    && (s.canceled <==> s.result.Some?)
    && (s.result.Some? <==> FirstCommit(run).Some?)
    && (s.result.Some? ==>
          && s.result.value.relay == FirstCommit(run).value < |s.phases|
          && Sent(run, s.result.value.relay) == Some(s.result.value.payload)
          && s.phases[s.result.value.relay].Returned?
          && Verified(c.roots, c.block, s.result.value.payload))
  }

  ghost predicate Inv(c: Setting, n: nat, run: seq<Action>, s: State) {
    && |s.phases| == |s.expired| == n
    && ResultOk(c, run, s)
    && forall i :: 0 <= i < n ==> PhaseOk(c, run, i, s.phases[i])
  }

  lemma StepKeepsPhase(c: Setting, run: seq<Action>, s: State, a: Action, i: nat)
    requires Enabled(c, s, a) && i < |s.phases| && PhaseOk(c, run, i, s.phases[i])
    requires ResultOk(c, run, s)
    ensures PhaseOk(c, run + [a], i, Next(c, s, a).phases[i])
  {
    assert (run + [a])[..|run|] == run;
  }

  lemma StepKeepsResult(c: Setting, run: seq<Action>, s: State, a: Action)
    requires Enabled(c, s, a) && PhaseOk(c, run, a.i, s.phases[a.i])
    requires ResultOk(c, run, s)
    ensures ResultOk(c, run + [a], Next(c, s, a))
  {
    assert (run + [a])[..|run|] == run;
  }

  lemma {:induction false} RunKeepsInv(c: Setting, n: nat, run: seq<Action>)
    requires Legal(c, n, run)
    ensures Inv(c, n, run, After(c, n, run))
  {
    if run != [] {
      var init, a := run[..|run| - 1], run[|run| - 1];
      RunKeepsInv(c, n, init);
      var s := After(c, n, init);
      assert run == init + [a];
      hide PhaseOk, ResultOk, Verified;
      StepKeepsResult(c, init, s, a);
      forall i | 0 <= i < n
        ensures PhaseOk(c, run, i, Next(c, s, a).phases[i])
      {
        StepKeepsPhase(c, init, s, a, i);
      }
    }
  }

  // ---- results ----

  /** In every run the result is what the first goroutine in the critical section brought: the payload
      its relay sent, which passed every check. No relay is asked more often than allowed. */
  lemma FirstVerifiedPayloadWins(c: Setting, n: nat, run: seq<Action>)
    requires Legal(c, n, run)
    ensures var s := After(c, n, run);
      && (s.result.Some? <==> FirstCommit(run).Some?)
      && (s.result.Some? ==>
            var w := s.result.value;
            && w.relay == FirstCommit(run).value < n
            && Sent(run, w.relay) == Some(w.payload)
            && IsPayloadOf(c.roots, c.block, w.payload))
    ensures forall i :: 0 <= i < n ==> Attempts(run, i) == 0 || Attempts(run, i) <= c.maxRetries
  {
    RunKeepsInv(c, n, run);
    forall i | 0 <= i < n
      ensures Attempts(run, i) == 0 || Attempts(run, i) <= c.maxRetries
    {
      assert PhaseOk(c, run, i, After(c, n, run).phases[i]);
    }
  }

  /** Once written, the result is never overwritten. */
  lemma {:induction false} ResultIsWrittenOnce(c: Setting, n: nat, run: seq<Action>, k: nat)
    requires Legal(c, n, run) && k <= |run|
    ensures Legal(c, n, run[..k])
    ensures After(c, n, run[..k]).result.Some? ==> After(c, n, run).result == After(c, n, run[..k]).result
  {
    if k == |run| {
      assert run[..k] == run;
    } else {
      var init := run[..|run| - 1];
      ResultIsWrittenOnce(c, n, init, k);
      assert init[..k] == run[..k];
    }
  }

  /** When all goroutines have returned there is a result if and only if some relay sent a payload of the
      block. */
  lemma PayloadIsFoundIff(c: Setting, n: nat, run: seq<Action>)
    requires Legal(c, n, run) && AllReturned(After(c, n, run))
    ensures After(c, n, run).result.Some? <==>
      exists i :: 0 <= i < n && Sent(run, i).Some? && IsPayloadOf(c.roots, c.block, Sent(run, i).value)
  {
    hide IsPayloadOf, Verified;
    var s := After(c, n, run);
    RunKeepsInv(c, n, run);
    if s.result.None? {
      forall i | 0 <= i < n && Sent(run, i).Some?
        ensures !IsPayloadOf(c.roots, c.block, Sent(run, i).value)
      {
        assert PhaseOk(c, run, i, s.phases[i]);
        VerifiedIff(c.roots, c.block, Sent(run, i).value);
      }
    } else {
      VerifiedIff(c.roots, c.block, s.result.value.payload);
      assert Sent(run, s.result.value.relay) == Some(s.result.value.payload);
    }
  }

  /** The work a goroutine can still do. */
  function Work(c: Setting, phase: Phase): nat {
    match phase
    case Checking(failed) => 3 + if failed < c.maxRetries then 2 * (c.maxRetries - failed) else 0
    case InFlight(failed) => 2 + if failed < c.maxRetries then 2 * (c.maxRetries - failed) else 0
    case Holding(_) => 1
    case Returned => 0
  }

  function TotalWork(c: Setting, phases: seq<Phase>): nat {
    if phases == [] then 0 else TotalWork(c, phases[..|phases| - 1]) + Work(c, phases[|phases| - 1])
  }

  lemma {:induction false} TotalWorkUpdate(c: Setting, phases: seq<Phase>, i: nat, phase: Phase)
    requires i < |phases|
    ensures TotalWork(c, phases[i := phase]) + Work(c, phases[i]) == TotalWork(c, phases) + Work(c, phase)
  {
    var n, updated := |phases| - 1, phases[i := phase];
    if i == n {
      assert updated[..n] == phases[..n];
    } else {
      assert updated[..n] == phases[..n][i := phase];
      TotalWorkUpdate(c, phases[..n], i, phase);
    }
  }

  function Pending(expired: seq<bool>): nat {
    if expired == [] then 0 else Pending(expired[..|expired| - 1]) + if expired[|expired| - 1] then 0 else 1
  }

  lemma {:induction false} PendingFalls(expired: seq<bool>, i: nat)
    requires i < |expired| && !expired[i]
    ensures Pending(expired[i := true]) < Pending(expired)
  {
    var n, updated := |expired| - 1, expired[i := true];
    if i == n {
      assert updated[..n] == expired[..n];
    } else {
      assert updated[..n] == expired[..n][i := true];
      PendingFalls(expired[..n], i);
    }
  }

  /** The wait group is always released. A goroutine about to try sends its next request or, when its
      context has ended or its attempts are used up, and only then, gives up; one that waits for an
      answer goes on whatever the answer is; and every step of anybody uses up work. */
  lemma EveryGoroutineReturns(c: Setting, s: State)
    requires |s.expired| == |s.phases|
    ensures forall i: nat :: i < |s.phases| && s.phases[i].Checking? ==> (Enabled(c, s, Try(i)) <==> !Enabled(c, s, GiveUp(i)))
    ensures forall i: nat, p :: i < |s.phases| && s.phases[i].InFlight? ==> Enabled(c, s, Fail(i)) && Enabled(c, s, Receive(i, p))
    ensures forall i: nat :: i < |s.phases| && s.phases[i].Holding? ==> Enabled(c, s, Commit(i))
    ensures forall a :: Enabled(c, s, a) && (a.Fail? ==> s.phases[a.i].failed < c.maxRetries) ==>
      TotalWork(c, Next(c, s, a).phases) + Pending(Next(c, s, a).expired) < TotalWork(c, s.phases) + Pending(s.expired)
  {
    forall a | Enabled(c, s, a) && (a.Fail? ==> s.phases[a.i].failed < c.maxRetries)
      ensures TotalWork(c, Next(c, s, a).phases) + Pending(Next(c, s, a).expired) < TotalWork(c, s.phases) + Pending(s.expired)
    {
      if a.Expire? {
        PendingFalls(s.expired, a.i);
      } else {
        TotalWorkUpdate(c, s.phases, a.i, Next(c, s, a).phases[a.i]);
      }
    }
  }

  /** In every run a request is only in flight within the allowed attempts, so the work falls at each step. */
  lemma RunsUseUpWork(c: Setting, n: nat, run: seq<Action>, a: Action)
    requires Legal(c, n, run) && Enabled(c, After(c, n, run), a)
    ensures var s := After(c, n, run);
      TotalWork(c, Next(c, s, a).phases) + Pending(Next(c, s, a).expired) < TotalWork(c, s.phases) + Pending(s.expired)
  {
    RunKeepsInv(c, n, run);
    assert PhaseOk(c, run, a.i, After(c, n, run).phases[a.i]);
    EveryGoroutineReturns(c, After(c, n, run));
  }

  /** No run is longer than the work there is at the start: all goroutines return. */
  lemma {:induction false} RunsAreBounded(c: Setting, n: nat, run: seq<Action>)
    requires Legal(c, n, run)
    ensures var s := After(c, n, run);
      |run| + TotalWork(c, s.phases) + Pending(s.expired) <= TotalWork(c, Init(n).phases) + Pending(Init(n).expired)
  {
    hide Enabled, Next, Init;
    if run != [] {
      RunsAreBounded(c, n, run[..|run| - 1]);
      RunsUseUpWork(c, n, run[..|run| - 1], run[|run| - 1]);
    }
  }
}
