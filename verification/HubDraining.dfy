/** Left to itself, does the hub come to rest? It does exactly when it holds no stray: a call to a
    name nobody serves (a `core_` call) bounces between its caller's own queues for ever. */
module HubDraining {

  import opened Wrappers
  import opened Words
  import opened JsonRpc
  import opened Hub
  import opened HubLedger
  import opened HubInvariant
  import opened HubRelay
  import opened HubSteps
  import opened HubTraffic
  import opened HubReading
  import opened HubRuns

  // ---- strays ----

  /** No internal step adds or removes a stray. */
  lemma StraysAreConserved(cfg: Config, s: State, act: Action)
    requires Inv(cfg, s) && Enabled(cfg, s, act) && IsInternal(act)
    ensures SameNames(cfg, Next(cfg, s, act))
    ensures TotalOf(cfg, Next(cfg, s, act), Stray) == TotalOf(cfg, s, Stray)
  {
    hide Inv, Next, Total;
    assert ConservedProbe(cfg.names, s.written, Stray);
    match act
    case RelayTake(m) => TakeStep(cfg, s, m);
    case Deliver(m) => DeliverStep(cfg, s, m);
    case Read(m) =>
      if s.clients[m].incoming[0].IsResponse() {
        ReplyReadStep(cfg, s, m);
      } else {
        RequestReadStep(cfg, s, m);
      }
      InvGivesNames(cfg, Next(cfg, s, act));
    case Finish(m, i, outcome) => FinishStep(cfg, s, m, i, outcome);
  }

  // ---- work ----

  lemma TakeWorks(cfg: Config, s: State, m: string)
    requires Inv(cfg, s) && Enabled(cfg, s, RelayTake(m))
    ensures SameNames(cfg, Next(cfg, s, RelayTake(m)))
    ensures TotalOf(cfg, Next(cfg, s, RelayTake(m)), Work) < TotalOf(cfg, s, Work)
  {
    hide OpsOk, PlacesOk, LedgerOk, ClientSum, Total, Deliveries, OutOk, Weight, Weigh;
    var c := s.clients[m];
    NoEmptyName(cfg);
    TakenPlaces(cfg.names, s.written, m, c);
    UpdateTotal(cfg, s, Work, m, Taken(cfg.names, m, c));
    TakenSum(cfg.names, Work, m, c);
    RelayWorks(cfg.names, s.written, m, c.outgoing[0]);
    assert Next(cfg, s, RelayTake(m)) == WithClient(s, m, Taken(cfg.names, m, c));
  }

  lemma DeliveryWork(names: seq<string>, m: string, to: string, msg: Message)
    ensures Weight(names, Work, Incoming, to)(msg) < Weight(names, Work, Relaying, m)(msg)
  {
  }

  lemma DeliverWorks(cfg: Config, s: State, m: string)
    requires Inv(cfg, s) && Enabled(cfg, s, Deliver(m))
    ensures SameNames(cfg, Next(cfg, s, Deliver(m)))
    ensures TotalOf(cfg, Next(cfg, s, Deliver(m)), Work) < TotalOf(cfg, s, Work)
  {
    hide OpsOk, PlacesOk, LedgerOk, ClientSum, Total, Weight, Weigh;
    DeliverTotal(cfg, s, m, Work);
    DeliveryWork(cfg.names, m, s.clients[m].relaying[0].to, s.clients[m].relaying[0].msg);
    assert Next(cfg, s, Deliver(m)) == Delivered(s, m);
  }

  lemma AnswerWork(names: seq<string>, book: Book, m: string, msg: Message, answer: Message)
    requires RunOk(names, book, m, msg) && msg.id.Some? && !IsBounced(msg)
    requires answer.IsResponse() && answer.origin == msg.origin
    ensures Weight(names, Work, Outgoing, m)(answer) < Weight(names, Work, Running, m)(msg)
  {
  }

  lemma RunningWork(names: seq<string>, m: string, msg: Message)
    requires !IsBounced(msg)
    ensures Weight(names, Work, Running, m)(msg) > 0
  {
  }

  lemma FinishWorks(cfg: Config, s: State, m: string, i: nat, outcome: Outcome)
    requires m in s.clients && i < |s.clients[m].running| && !IsBounced(s.clients[m].running[i])
    requires Inv(cfg, s) && Enabled(cfg, s, Finish(m, i, outcome))
    ensures SameNames(cfg, Next(cfg, s, Finish(m, i, outcome)))
    ensures TotalOf(cfg, Next(cfg, s, Finish(m, i, outcome)), Work) < TotalOf(cfg, s, Work)
  {
    hide OpsOk, PlacesOk, LedgerOk, ClientSum, Total, Weight, Weigh, Answer, RunOk;
    var c := s.clients[m];
    NoEmptyName(cfg);
    FinishedPlaces(cfg.names, s.written, cfg.callbacks[m], m, c, i, outcome);
    FinishKeepsPlaces(cfg.names, s.written, cfg.callbacks[m], m, c.running[i], outcome);
    UpdateTotal(cfg, s, Work, m, Finished(cfg.callbacks[m], c, i, outcome));
    FinishedSum(cfg.names, cfg.callbacks[m], Work, m, c, i, outcome);
    RunningWork(cfg.names, m, c.running[i]);
    var answer := Answer(cfg.callbacks[m], c.running[i], outcome);
    if answer.Some? {
      AnswerWork(cfg.names, s.written, m, c.running[i], answer.value);
    }
    assert Next(cfg, s, Finish(m, i, outcome)) == WithClient(s, m, Finished(cfg.callbacks[m], c, i, outcome));
  }

  /** The one step that can leave more work than it found: answering the error reply of a call nobody
      serves, which sends it around once more. */
  predicate AnswersBounced(s: State, act: Action) {
    && act.Finish? && act.m in s.clients && act.i < |s.clients[act.m].running|
    && IsBounced(s.clients[act.m].running[act.i])
  }

  /** Every other internal step leaves less work to do. */
  lemma InternalStepsWork(cfg: Config, s: State, act: Action)
    requires Inv(cfg, s) && Enabled(cfg, s, act) && IsInternal(act) && !AnswersBounced(s, act)
    ensures SameNames(cfg, Next(cfg, s, act))
    ensures TotalOf(cfg, Next(cfg, s, act), Work) < TotalOf(cfg, s, Work)
  {
    hide Inv, Next, Total;
    match act
    case RelayTake(m) => TakeWorks(cfg, s, m);
    case Deliver(m) => DeliverWorks(cfg, s, m);
    case Read(m) =>
      if s.clients[m].incoming[0].IsResponse() {
        ReplyReadStep(cfg, s, m);
      } else {
        RequestReadStep(cfg, s, m);
      }
      InvGivesNames(cfg, Next(cfg, s, act));
    case Finish(m, i, outcome) => FinishWorks(cfg, s, m, i, outcome);
  }

  lemma NothingBounced(cfg: Config, s: State, act: Action)
    requires SameNames(cfg, s) && TotalOf(cfg, s, Stray) == 0
    ensures !AnswersBounced(s, act)
  {
    if AnswersBounced(s, act) {
      var q := s.clients[act.m].running;
      TotalMember(cfg.names, Stray, cfg.names, s.clients, act.m);
      SumMember(Weight(cfg.names, Stray, Running, act.m), q, q[act.i]);
    }
  }

  // ---- progress ----

  lemma RelayTargetExists(cfg: Config, s: State, m: string)
    requires Inv(cfg, s) && m in s.clients && s.clients[m].relaying != []
    ensures s.clients[m].relaying[0].to in s.clients
  {
    hide OpsOk, LedgerOk, PlacesOk, RelayOk;
    PoppedPlaces(cfg.names, s.written, m, s.clients[m]);
    RelayTo(cfg.names, s.written, m, s.clients[m].relaying[0]);
  }

  lemma RelayTo(names: seq<string>, book: Book, m: string, d: Delivery)
    requires RelayOk(names, book, m, d)
    ensures d.to in names
  {
  }

  /** As long as anything is left in a queue or running, some internal step can be taken: bounded
      channels never deadlock the hub. */
  lemma Progress(cfg: Config, s: State) returns (act: Action)
    requires Inv(cfg, s) && !Drained(s)
    ensures Enabled(cfg, s, act) && IsInternal(act)
  {
    InvGivesCallbacks(cfg, s);
    hide Inv, Enabled;
    if m :| m in s.clients && s.clients[m].incoming != [] {
      act := Read(m);
      CanRead(cfg, s, m);
    } else if m :| m in s.clients && s.clients[m].relaying != [] {
      act := Deliver(m);
      RelayTargetExists(cfg, s, m);
      CanDeliver(cfg, s, m);
    } else if m :| m in s.clients && s.clients[m].outgoing != [] {
      act := RelayTake(m);
      CanTake(cfg, s, m);
    } else {
      var m :| m in s.clients && s.clients[m].running != [];
      act := Finish(m, 0, BadParams(""));
      CanFinish(cfg, s, m);
    }
  }

  lemma InvGivesCallbacks(cfg: Config, s: State)
    requires Inv(cfg, s)
    ensures forall m :: m in s.clients ==> m in cfg.callbacks
  {
    hide OpsOk, LedgerOk, PlacesOk;
  }

  lemma CanRead(cfg: Config, s: State, m: string)
    requires m in s.clients && m in cfg.callbacks && s.clients[m].incoming != []
    ensures Enabled(cfg, s, Read(m))
  {
  }

  lemma CanDeliver(cfg: Config, s: State, m: string)
    requires m in s.clients && m in cfg.callbacks && s.clients[m].relaying != []
    requires s.clients[m].relaying[0].to in s.clients && s.clients[s.clients[m].relaying[0].to].incoming == []
    ensures Enabled(cfg, s, Deliver(m))
  {
  }

  lemma CanTake(cfg: Config, s: State, m: string)
    requires m in s.clients && m in cfg.callbacks && s.clients[m].relaying == [] && s.clients[m].outgoing != []
    ensures Enabled(cfg, s, RelayTake(m))
  {
  }

  lemma CanFinish(cfg: Config, s: State, m: string)
    requires m in s.clients && m in cfg.callbacks && s.clients[m].running != [] && s.clients[m].outgoing == []
    ensures Enabled(cfg, s, Finish(m, 0, BadParams("")))
  {
  }

  // ---- coming to rest ----

  ghost predicate AllInternal(acts: seq<Action>) {
    forall a :: a in acts ==> IsInternal(a)
  }

  lemma InternalKeepsInv(cfg: Config, s: State, act: Action)
    requires Inv(cfg, s) && Bounded(s) && Enabled(cfg, s, act) && IsInternal(act)
    ensures Inv(cfg, Next(cfg, s, act)) && Bounded(Next(cfg, s, act))
  {
    hide Inv, Next, Bounded, Enabled;
    CountersGrow(cfg, s, act);
    StepKeepsInv(cfg, s, act);
  }

  /** Without strays, an undisturbed hub takes at most as many steps as there is work. */
  lemma {:induction false} InternalRunsAreBounded(cfg: Config, s: State, acts: seq<Action>)
    requires Inv(cfg, s) && Bounded(s) && Legal(cfg, s, acts) && AllInternal(acts) && TotalOf(cfg, s, Stray) == 0
    ensures |acts| <= TotalOf(cfg, s, Work)
    decreases |acts|
  {
    hide Inv, Next, Bounded, Enabled, Total, IsInternal;
    if acts != [] {
      InternalKeepsInv(cfg, s, acts[0]);
      StraysAreConserved(cfg, s, acts[0]);
      InvGivesNames(cfg, s);
      NothingBounced(cfg, s, acts[0]);
      InternalStepsWork(cfg, s, acts[0]);
      InternalRunsAreBounded(cfg, Next(cfg, s, acts[0]), acts[1..]);
    }
  }

  /** ... and it can always go on until every queue is empty. */
  lemma {:induction false} CanDrain(cfg: Config, s: State) returns (acts: seq<Action>)
    requires Inv(cfg, s) && Bounded(s) && TotalOf(cfg, s, Stray) == 0
    ensures Legal(cfg, s, acts) && AllInternal(acts) && Drained(Run(cfg, s, acts))
    ensures Bounded(Run(cfg, s, acts))
    decreases TotalOf(cfg, s, Work)
  {
    hide Inv, Next, Bounded, Enabled, Total, IsInternal, Drained;
    if Drained(s) {
      acts := [];
    } else {
      var act := Progress(cfg, s);
      InternalKeepsInv(cfg, s, act);
      StraysAreConserved(cfg, s, act);
      InvGivesNames(cfg, s);
      NothingBounced(cfg, s, act);
      InternalStepsWork(cfg, s, act);
      var rest := CanDrain(cfg, Next(cfg, s, act));
      acts := [act] + rest;
      assert acts[1..] == rest;
    }
  }

  lemma DrainedWeighsNothing(cfg: Config, s: State, p: Probe)
    requires SameNames(cfg, s) && Drained(s)
    ensures TotalOf(cfg, s, p) == 0
  {
    hide Weight;
    forall m | m in cfg.names
      ensures ClientSum(cfg.names, p, m, s.clients[m]) == 0
    {
      assert s.clients[m].relaying == [];
      assert Messages(s.clients[m].relaying) == [];
    }
    TotalZero(cfg.names, p, cfg.names, s.clients);
  }

  /** With a stray on board the hub never comes to rest, whatever it does. */
  lemma {:induction false} StraysNeverDrain(cfg: Config, s: State, acts: seq<Action>)
    requires Inv(cfg, s) && Bounded(s) && Legal(cfg, s, acts) && AllInternal(acts) && TotalOf(cfg, s, Stray) > 0
    ensures !Drained(Run(cfg, s, acts))
    ensures Inv(cfg, Run(cfg, s, acts)) && Bounded(Run(cfg, s, acts))
    decreases |acts|
  {
    hide Inv, Next, Bounded, Enabled, Total, IsInternal, Drained;
    if acts == [] {
      InvGivesNames(cfg, s);
      if Drained(s) {
        DrainedWeighsNothing(cfg, s, Stray);
      }
    } else {
      InternalKeepsInv(cfg, s, acts[0]);
      StraysAreConserved(cfg, s, acts[0]);
      StraysNeverDrain(cfg, Next(cfg, s, acts[0]), acts[1..]);
    }
  }

  lemma InvGivesNames(cfg: Config, s: State)
    requires Inv(cfg, s)
    ensures SameNames(cfg, s) && cfg.Valid()
  {
    hide OpsOk, LedgerOk, PlacesOk;
  }

  /** From every reachable state the hub, left to itself, can come to rest if and only if it holds no
      stray; and then every way of going on leads there within a bounded number of steps. */
  lemma DrainsExactlyWithoutStrays(cfg: Config, s: State)
    requires Reachable(cfg, s)
    ensures SameNames(cfg, s)
    ensures (exists acts :: Legal(cfg, s, acts) && AllInternal(acts) && Drained(Run(cfg, s, acts)))
       <==> TotalOf(cfg, s, Stray) == 0
    ensures TotalOf(cfg, s, Stray) == 0 ==>
      forall acts :: Legal(cfg, s, acts) && AllInternal(acts) ==> |acts| <= TotalOf(cfg, s, Work)
  {
    ReachableInv(cfg, s);
    InvGivesNames(cfg, s);
    hide Inv, Next, Enabled, Total, IsInternal, Drained, Config.Valid;
    if TotalOf(cfg, s, Stray) == 0 {
      var acts := CanDrain(cfg, s);
      forall acts | Legal(cfg, s, acts) && AllInternal(acts)
        ensures |acts| <= TotalOf(cfg, s, Work)
      {
        InternalRunsAreBounded(cfg, s, acts);
      }
    } else {
      forall acts | Legal(cfg, s, acts) && AllInternal(acts)
        ensures !Drained(Run(cfg, s, acts))
      {
        StraysNeverDrain(cfg, s, acts);
      }
    }
  }

  // ---- where strays come from ----

  /** A `core_` call is the one and only thing that brings a stray into the hub. */
  lemma StraysAreCoreCalls(cfg: Config, s: State, act: Action)
    requires Inv(cfg, s) && Enabled(cfg, s, act) && Bounded(Next(cfg, s, act))
    ensures SameNames(cfg, s) && SameNames(cfg, Next(cfg, s, act))
    ensures TotalOf(cfg, Next(cfg, s, act), Stray)
         == TotalOf(cfg, s, Stray)
            + if act.Write? && s.clients[act.m].ops[act.n].IsCall() && !Deliverable(cfg.names, s.clients[act.m].ops[act.n].msg)
              then 1 else 0
  {
    hide Inv, Next, Enabled, Total, Bounded, Deliverable, Config.Valid, SameNames, Op.IsCall;
    InvGivesNames(cfg, s);
    if IsInternal(act) {
      StraysAreConserved(cfg, s, act);
    } else if act.Write? {
      WriteStraysIn(cfg, s, act.m, act.n);
    } else {
      QuietStep(cfg, s, act);
      InvGivesNames(cfg, Next(cfg, s, act));
    }
  }

  lemma WriteStraysIn(cfg: Config, s: State, m: string, n: nat)
    requires Inv(cfg, s) && Enabled(cfg, s, Write(m, n))
    ensures SameNames(cfg, s) && SameNames(cfg, Next(cfg, s, Write(m, n)))
    ensures m in s.clients && n < |s.clients[m].ops|
    ensures TotalOf(cfg, Next(cfg, s, Write(m, n)), Stray)
         == TotalOf(cfg, s, Stray)
            + if s.clients[m].ops[n].IsCall() && !Deliverable(cfg.names, s.clients[m].ops[n].msg) then 1 else 0
  {
    hide OpsOk, LedgerOk, PlacesOk, Total, Deliverable, ClientWrite;
    WriteStrays(cfg, s, m, n);
    assert Next(cfg, s, Write(m, n)).clients == WithClient(s, m, ClientWrite(s.clients[m], n)).clients;
  }
}
