/** Which calls are answered, and when the hub comes to rest: both depend on nothing but which modules
    the calls name. */
module HubAnswers {

  import opened Wrappers
  import opened Words
  import opened JsonRpc
  import opened Hub
  import opened HubLedger
  import opened HubInvariant
  import opened HubClients
  import opened HubSteps
  import opened HubReading
  import opened HubRuns
  import opened HubDraining

  // ---- continuing a run ----

  lemma {:induction false} RunConcat(cfg: Config, s: State, a: seq<Action>, b: seq<Action>)
    requires Legal(cfg, s, a) && Legal(cfg, Run(cfg, s, a), b)
    ensures Legal(cfg, s, a + b) && Run(cfg, s, a + b) == Run(cfg, Run(cfg, s, a), b)
    decreases |a|
  {
    hide Next, Enabled;
    if a == [] {
      assert a + b == b;
    } else {
      RunConcat(cfg, Next(cfg, s, a[0]), a[1..], b);
      assert (a + b)[0] == a[0] && (a + b)[1..] == a[1..] + b;
    }
  }

  lemma StaysReachable(cfg: Config, s: State, acts: seq<Action>)
    requires Reachable(cfg, s) && Legal(cfg, s, acts) && Bounded(Run(cfg, s, acts))
    ensures Reachable(cfg, Run(cfg, s, acts))
  {
    var s0, before :| IsInit(cfg, s0) && Legal(cfg, s0, before) && Run(cfg, s0, before) == s;
    hide Legal, Run, IsInit, Bounded, Config.Valid;
    RunConcat(cfg, s0, before, acts);
  }

  lemma ReachableBound(cfg: Config, s: State)
    requires Reachable(cfg, s)
    ensures Bounded(s)
  {
  }

  lemma {:induction false} InternalRunKeepsBound(cfg: Config, s: State, acts: seq<Action>)
    requires Inv(cfg, s) && Bounded(s) && Legal(cfg, s, acts) && AllInternal(acts)
    ensures Bounded(Run(cfg, s, acts))
    decreases |acts|
  {
    hide Inv, Next, Bounded, Enabled, IsInternal;
    if acts != [] {
      InternalKeepsInv(cfg, s, acts[0]);
      InternalRunKeepsBound(cfg, Next(cfg, s, acts[0]), acts[1..]);
    }
  }

  /** What is on record about written calls stays on record. */
  ghost predicate Extends(book: Book, book': Book) {
    forall key :: key in book ==> key in book' && book'[key] == book[key]
  }

  lemma StepKeepsRecords(cfg: Config, s: State, act: Action)
    requires Inv(cfg, s) && Enabled(cfg, s, act)
    ensures Extends(s.written, Next(cfg, s, act).written)
    ensures !act.Write? ==> Next(cfg, s, act).written == s.written
  {
    hide OpsOk, PlacesOk, LedgerOk, Config.Gate, Config.Valid, Deliveries, Answer, HandleMsg, ClientWrite;
    if act.Write? {
      WriteIsNew(cfg, s, act.m, act.n);
    }
  }

  lemma WriteIsNew(cfg: Config, s: State, m: string, n: nat)
    requires Inv(cfg, s) && Enabled(cfg, s, Write(m, n))
    ensures m in s.clients && n < |s.clients[m].ops|
    ensures var op := s.clients[m].ops[n];
      && (op.IsCall() ==> Key(m, op.msg.id.value) !in s.written)
      && Next(cfg, s, Write(m, n)).written
         == if op.IsCall() then s.written[Key(m, op.msg.id.value) := Record(op.msg, n)] else s.written
  {
    hide OpsOk, PlacesOk, LedgerOk, Config.Gate, Config.Valid, ClientWrite;
    WriteKeepsOps(cfg.names, s.written, m, s.clients[m], n, Next(cfg, s, Write(m, n)).written);
  }

  lemma {:induction false} RunKeepsRecords(cfg: Config, s: State, acts: seq<Action>)
    requires Inv(cfg, s) && Legal(cfg, s, acts) && Bounded(Run(cfg, s, acts))
    ensures Extends(s.written, Run(cfg, s, acts).written)
    decreases |acts|
  {
    hide Inv, Next, Enabled, Bounded;
    if acts != [] {
      BoundedBackwards(cfg, Next(cfg, s, acts[0]), acts[1..]);
      StepKeepsInv(cfg, s, acts[0]);
      StepKeepsRecords(cfg, s, acts[0]);
      RunKeepsRecords(cfg, Next(cfg, s, acts[0]), acts[1..]);
    }
  }

  /** The operations of every client are still in the same phase. */
  ghost predicate SamePhases(s: State, s': State) {
    && s'.written == s.written
    && forall m :: m in s.clients ==>
         && m in s'.clients && |s'.clients[m].ops| == |s.clients[m].ops|
         && forall n :: 0 <= n < |s.clients[m].ops| ==> s'.clients[m].ops[n].phase == s.clients[m].ops[n].phase
  }

  lemma InternalStepKeepsPhases(cfg: Config, s: State, act: Action)
    requires Enabled(cfg, s, act) && IsInternal(act)
    ensures SamePhases(s, Next(cfg, s, act))
  {
    hide Deliveries, Answer, Config.Gate;
  }

  lemma {:induction false} InternalRunKeepsPhases(cfg: Config, s: State, acts: seq<Action>)
    requires Legal(cfg, s, acts) && AllInternal(acts)
    ensures SamePhases(s, Run(cfg, s, acts))
    decreases |acts|
  {
    hide Next, Enabled, IsInternal;
    if acts != [] {
      InternalStepKeepsPhases(cfg, s, acts[0]);
      InternalRunKeepsPhases(cfg, Next(cfg, s, acts[0]), acts[1..]);
    }
  }

  // ---- coming to rest ----

  /** Every call that has been written names a module that exists. */
  ghost predicate AllServed(cfg: Config, s: State) {
    forall key :: key in s.written ==> Deliverable(cfg.names, s.written[key].msg)
  }

  ghost predicate StraysMirrorCalls(cfg: Config, s: State) {
    SameNames(cfg, s) && (TotalOf(cfg, s, Stray) == 0 <==> AllServed(cfg, s))
  }

  lemma WriteMirrors(cfg: Config, s: State, m: string, n: nat)
    requires Inv(cfg, s) && Enabled(cfg, s, Write(m, n)) && Bounded(Next(cfg, s, Write(m, n))) && StraysMirrorCalls(cfg, s)
    ensures StraysMirrorCalls(cfg, Next(cfg, s, Write(m, n)))
  {
    hide Inv, Enabled, Next, Total, Bounded, Deliverable, Op.IsCall;
    StraysAreCoreCalls(cfg, s, Write(m, n));
    WriteIsNew(cfg, s, m, n);
    var op, s' := s.clients[m].ops[n], Next(cfg, s, Write(m, n));
    if op.IsCall() {
      CallHasId(op);
      assert s'.written[Key(m, op.msg.id.value)].msg == op.msg;
      assert forall key :: key in s.written ==> s'.written[key] == s.written[key];
    }
  }

  lemma CallHasId(op: Op)
    requires op.IsCall()
    ensures op.msg.id.Some?
  {
  }

  lemma StepMirrors(cfg: Config, s: State, act: Action)
    requires Inv(cfg, s) && Enabled(cfg, s, act) && Bounded(Next(cfg, s, act)) && StraysMirrorCalls(cfg, s)
    ensures StraysMirrorCalls(cfg, Next(cfg, s, act))
  {
    hide Inv, Enabled, Next, Total, Bounded, Deliverable;
    if act.Write? {
      WriteMirrors(cfg, s, act.m, act.n);
    } else {
      StraysAreCoreCalls(cfg, s, act);
      StepKeepsRecords(cfg, s, act);
    }
  }

  lemma {:induction false} RunMirrors(cfg: Config, s: State, acts: seq<Action>)
    requires Inv(cfg, s) && Legal(cfg, s, acts) && Bounded(Run(cfg, s, acts)) && StraysMirrorCalls(cfg, s)
    ensures StraysMirrorCalls(cfg, Run(cfg, s, acts))
    decreases |acts|
  {
    hide Inv, Next, Enabled, Bounded, StraysMirrorCalls;
    if acts != [] {
      BoundedBackwards(cfg, Next(cfg, s, acts[0]), acts[1..]);
      StepKeepsInv(cfg, s, acts[0]);
      StepMirrors(cfg, s, acts[0]);
      RunMirrors(cfg, Next(cfg, s, acts[0]), acts[1..]);
    }
  }

  lemma IdleMirrors(cfg: Config, s: State)
    requires cfg.Valid() && IsInit(cfg, s)
    ensures StraysMirrorCalls(cfg, s)
  {
    DrainedWeighsNothing(cfg, s, Stray);
  }

  /** In every reachable state there is a bouncing call if and only if a call nobody serves has been written. */
  lemma ReachableMirrors(cfg: Config, s: State)
    requires Reachable(cfg, s)
    ensures StraysMirrorCalls(cfg, s)
  {
    var s0, acts :| IsInit(cfg, s0) && Legal(cfg, s0, acts) && Run(cfg, s0, acts) == s;
    hide IsInit, Legal, Run, Bounded, Config.Valid, Inv, StraysMirrorCalls;
    InitialInv(cfg, s0);
    IdleMirrors(cfg, s0);
    RunMirrors(cfg, s0, acts);
  }

  /** Acts is an undisturbed run that empties the hub. */
  ghost predicate Drains(cfg: Config, s: State, acts: seq<Action>) {
    Legal(cfg, s, acts) && AllInternal(acts) && Drained(Run(cfg, s, acts))
  }

  /** Left to itself, the hub can come to rest if and only if every call ever written names a module
      that exists; and then every way of going on leads there within a bounded number of steps. */
  lemma DrainsIffAllServed(cfg: Config, s: State)
    requires Reachable(cfg, s)
    ensures (exists acts :: Drains(cfg, s, acts)) <==> AllServed(cfg, s)
    ensures SameNames(cfg, s)
    ensures AllServed(cfg, s) ==> forall acts :: Legal(cfg, s, acts) && AllInternal(acts) ==> |acts| <= TotalOf(cfg, s, Work)
  {
    DrainsExactlyWithoutStrays(cfg, s);
    ReachableMirrors(cfg, s);
    hide Reachable, Legal, Run, Drained, AllInternal, Total, AllServed;
    if acts :| Legal(cfg, s, acts) && AllInternal(acts) && Drained(Run(cfg, s, acts)) {
      assert Drains(cfg, s, acts);
    }
    if acts :| Drains(cfg, s, acts) {
      assert Legal(cfg, s, acts) && AllInternal(acts) && Drained(Run(cfg, s, acts));
    }
  }

  // ---- every call is answered that can be ----

  /** Nothing is left but bounced calls, waiting to be answered. */
  ghost predicate Quiet(s: State) {
    forall m :: m in s.clients ==>
      var c := s.clients[m];
      c.outgoing == [] && c.relaying == [] && c.incoming == [] && forall x :: x in c.running ==> IsBounced(x)
  }

  lemma StepTowardsQuiet(cfg: Config, s: State) returns (act: Action)
    requires Inv(cfg, s) && !Quiet(s)
    ensures Enabled(cfg, s, act) && IsInternal(act) && !AnswersBounced(s, act)
  {
    InvGivesCallbacks(cfg, s);
    hide Inv, Enabled, IsBounced;
    if m :| m in s.clients && s.clients[m].incoming != [] {
      act := Read(m);
      CanRead(cfg, s, m);
    } else if m :| m in s.clients && s.clients[m].relaying != [] {
      act := Deliver(m);
      RelayTargetExists(cfg, s, m);
      CanDeliver(cfg, s, m);
    } else if m :| m in s.clients && s.clients[m].outgoing != [] {
      act := RelayTake(m);
      CanTake(cfg, s, m);
    } else {
      var m :| m in s.clients && exists x :: x in s.clients[m].running && !IsBounced(x);
      var i :| 0 <= i < |s.clients[m].running| && !IsBounced(s.clients[m].running[i]);
      act := Finish(m, i, BadParams(""));
      CanFinishAny(cfg, s, m, i);
    }
  }

  lemma CanFinishAny(cfg: Config, s: State, m: string, i: nat)
    requires m in s.clients && m in cfg.callbacks && i < |s.clients[m].running| && s.clients[m].outgoing == []
    ensures Enabled(cfg, s, Finish(m, i, BadParams("")))
  {
  }

  /** From every state of the invariant, strays or not, the hub can get there. */
  lemma {:induction false} CanGetQuiet(cfg: Config, s: State) returns (acts: seq<Action>)
    requires Inv(cfg, s) && Bounded(s) && SameNames(cfg, s)
    ensures Legal(cfg, s, acts) && AllInternal(acts) && Quiet(Run(cfg, s, acts))
    decreases TotalOf(cfg, s, Work)
  {
    hide Inv, Next, Bounded, Enabled, Total, IsInternal, Quiet, AnswersBounced;
    if Quiet(s) {
      acts := [];
    } else {
      var act := StepTowardsQuiet(cfg, s);
      InternalKeepsInv(cfg, s, act);
      InternalStepsWork(cfg, s, act);
      var rest := CanGetQuiet(cfg, Next(cfg, s, act));
      acts := [act] + rest;
      assert acts[1..] == rest;
    }
  }

  lemma BouncedIsNoToken(names: seq<string>, m: string, x: Message, p: Probe)
    requires IsBounced(x) && (p.Token? || p.Request?) && p.key.origin != ""
    ensures Weight(names, p, Running, m)(x) == 0
  {
  }

  lemma QuietWeighsNothing(cfg: Config, s: State, p: Probe)
    requires SameNames(cfg, s) && Quiet(s) && (p.Token? || p.Request?) && p.key.origin != ""
    ensures TotalOf(cfg, s, p) == 0
  {
    hide Weight, IsBounced;
    forall m | m in cfg.names
      ensures ClientSum(cfg.names, p, m, s.clients[m]) == 0
    {
      assert s.clients[m].relaying == [];
      assert Messages(s.clients[m].relaying) == [];
      forall x | x in s.clients[m].running
        ensures Weight(cfg.names, p, Running, m)(x) == 0
      {
        BouncedIsNoToken(cfg.names, m, x, p);
      }
      SumZero(Weight(cfg.names, p, Running, m), s.clients[m].running);
    }
    TotalZero(cfg.names, p, cfg.names, s.clients);
  }

  lemma QuietAccount(cfg: Config, s: State, key: Key)
    requires Accounted(cfg, s, key) && Quiet(s) && key.origin != ""
    ensures s.ran[key] == CopiesOf(s.written, key)
    ensures s.consumed[key] == CopiesOf(s.written, key) * CopiesOf(s.written, key) > 0
  {
    var d := CopiesOf(s.written, key);
    assert d == 1 || d == 2;
    hide Total, Quiet, CopiesOf;
    QuietWeighsNothing(cfg, s, Token(key, d));
    QuietWeighsNothing(cfg, s, Request(key, d));
  }

  lemma AccountedOrigin(cfg: Config, s: State, key: Key)
    requires Accounted(cfg, s, key)
    ensures key.origin in s.clients && s.written[key].op < |s.clients[key.origin].ops|
  {
    hide Balanced;
  }

  /** The call under this key has its operation. */
  ghost predicate InTable(s: State, key: Key) {
    key in s.written && key.origin in s.clients && s.written[key].op < |s.clients[key.origin].ops|
  }

  ghost predicate HasReply(s: State, key: Key) {
    InTable(s, key) && s.clients[key.origin].ops[s.written[key].op].reply.Some?
  }

  ghost predicate HasTimedOut(s: State, key: Key) {
    InTable(s, key) && s.clients[key.origin].ops[s.written[key].op].phase == Phase.TimedOut
  }

  /** When nothing but bounced calls is left, every call written to a module that exists has run its
      callback and had its reply consumed, and is resolved unless it timed out. */
  lemma QuietMeansAnswered(cfg: Config, s: State, key: Key)
    requires Reachable(cfg, s) && Quiet(s)
    requires key in s.written && Deliverable(cfg.names, s.written[key].msg)
    ensures s.ran[key] == if s.written[key].msg.Namespace() == key.origin then 2 else 1
    ensures HasReply(s, key) || HasTimedOut(s, key)
  {
    hide OpsOk, PlacesOk, Deliverable, Quiet, Accounted, Reachable;
    ReachableInv(cfg, s);
    assert Accounted(cfg, s, key);
    NoEmptyName(cfg);
    QuietAccount(cfg, s, key);
    AccountedOrigin(cfg, s, key);
    SettledMeansConsumed(cfg, s, key);
  }

  /** Liveness: every undisturbed run that ends with nothing but bounced calls left has answered every
      call written to a module that exists, unless it had timed out before; and there is such a run. */
  lemma EveryCallIsAnswered(cfg: Config, s: State, key: Key) returns (run: seq<Action>)
    requires Reachable(cfg, s)
    requires key in s.written && Deliverable(cfg.names, s.written[key].msg)
    ensures Legal(cfg, s, run) && AllInternal(run) && Quiet(Run(cfg, s, run))
    ensures forall acts :: Legal(cfg, s, acts) && AllInternal(acts) && Quiet(Run(cfg, s, acts)) ==>
      HasReply(Run(cfg, s, acts), key) || HasTimedOut(s, key)
  {
    hide Inv, Legal, Run, Quiet, Reachable, Deliverable, AllInternal, Bounded, HasReply, HasTimedOut, Config.Valid, SameNames;
    ReachableInv(cfg, s);
    ReachableBound(cfg, s);
    InvGivesNames(cfg, s);
    run := CanGetQuiet(cfg, s);
    forall acts | Legal(cfg, s, acts) && AllInternal(acts) && Quiet(Run(cfg, s, acts))
      ensures HasReply(Run(cfg, s, acts), key) || HasTimedOut(s, key)
    {
      QuietRunAnswers(cfg, s, key, acts);
    }
  }

  lemma QuietRunAnswers(cfg: Config, s: State, key: Key, acts: seq<Action>)
    requires Reachable(cfg, s) && Legal(cfg, s, acts) && AllInternal(acts) && Quiet(Run(cfg, s, acts))
    requires key in s.written && Deliverable(cfg.names, s.written[key].msg)
    ensures HasReply(Run(cfg, s, acts), key) || HasTimedOut(s, key)
  {
    hide Inv, Legal, Run, Quiet, Reachable, Deliverable, AllInternal, Bounded, HasReply, HasTimedOut, Config.Valid, SameNames,
      SamePhases;
    var s' := Run(cfg, s, acts);
    ReachableInv(cfg, s);
    ReachableBound(cfg, s);
    InternalRunKeepsBound(cfg, s, acts);
    StaysReachable(cfg, s, acts);
    InternalRunKeepsPhases(cfg, s, acts);
    SamePhasesSameRecords(s, s');
    QuietMeansAnswered(cfg, s', key);
    if HasTimedOut(s', key) {
      ReachableInv(cfg, s');
      InvGivesNames(cfg, s);
      InvGivesNames(cfg, s');
      OldTimeOut(cfg, s, s', key);
    }
  }

  lemma SamePhasesSameRecords(s: State, s': State)
    requires SamePhases(s, s')
    ensures s'.written == s.written
  {
  }

  lemma OldTimeOut(cfg: Config, s: State, s': State, key: Key)
    requires SamePhases(s, s') && SameNames(cfg, s) && SameNames(cfg, s') && HasTimedOut(s', key)
    ensures HasTimedOut(s, key)
  {
  }

  // ---- the exact condition ----

  /** A call nobody serves is never answered, in no continuation of the run, whatever the clients do. */
  lemma UnservedIsNeverAnswered(cfg: Config, s: State, key: Key, acts: seq<Action>)
    requires Reachable(cfg, s) && Legal(cfg, s, acts) && Bounded(Run(cfg, s, acts))
    requires key in s.written && !Deliverable(cfg.names, s.written[key].msg)
    ensures !HasReply(Run(cfg, s, acts), key)
  {
    hide Inv, Legal, Run, Reachable, Deliverable, Bounded;
    ReachableInv(cfg, s);
    RunKeepsRecords(cfg, s, acts);
    StaysReachable(cfg, s, acts);
    var s' := Run(cfg, s, acts);
    if HasReply(s', key) {
      ReachableInv(cfg, s');
      RecordedOp(cfg, s', key);
      ResolvedByOwnReply(cfg, s', key.origin, s'.written[key].op);
    }
  }

  lemma RecordedOp(cfg: Config, s: State, key: Key)
    requires Inv(cfg, s) && InTable(s, key)
    ensures s.clients[key.origin].ops[s.written[key].op].msg == s.written[key].msg
  {
    assert key == Key(key.origin, key.id);
    assert OpsOk(cfg.names, s.written, key.origin, s.clients[key.origin]);
    hide PlacesOk, LedgerOk, LockOk, IdsOk, WaitOk, RepliesOk, ShapesOk;
  }

  /** Some undisturbed run gets the call its reply. */
  ghost predicate Answers(cfg: Config, s: State, key: Key, acts: seq<Action>) {
    Legal(cfg, s, acts) && AllInternal(acts) && HasReply(Run(cfg, s, acts), key)
  }

  /** A written call that has not timed out can still be answered if and only if it names a module that
      exists. */
  lemma AnswerableIff(cfg: Config, s: State, key: Key)
    requires Reachable(cfg, s) && key in s.written && !HasTimedOut(s, key)
    ensures (exists acts :: Answers(cfg, s, key, acts)) <==> Deliverable(cfg.names, s.written[key].msg)
  {
    ReachableInv(cfg, s);
    ReachableBound(cfg, s);
    hide Inv, Legal, Run, Quiet, Reachable, Deliverable, AllInternal, Bounded, HasReply, HasTimedOut;
    if Deliverable(cfg.names, s.written[key].msg) {
      var run := EveryCallIsAnswered(cfg, s, key);
      assert Answers(cfg, s, key, run);
    } else {
      forall acts | Legal(cfg, s, acts) && AllInternal(acts)
        ensures !HasReply(Run(cfg, s, acts), key)
      {
        InternalRunKeepsBound(cfg, s, acts);
        UnservedIsNeverAnswered(cfg, s, key, acts);
      }
    }
  }

  // ---- one call ----

  /** Making, registering and writing a call from module m. */
  function CallSteps(m: string, procedure: string): seq<Action> {
    [NewOp(m, procedure, false, [], None, true, true), Init(m, 0), Write(m, 0)]
  }

  /** What is known along the way: the invariant, the client of module m, and the calls on record. */
  ghost predicate OnTheWay(cfg: Config, s: State, m: string, c: Client, book: Book) {
    Inv(cfg, s) && Bounded(s) && m in s.clients && m in cfg.callbacks && s.clients[m] == c && s.written == book
  }

  function Created0(msg: Message): Client {
    ClientNew(FRESH_CLIENT, msg)
  }

  lemma CreateStep(cfg: Config, s: State, m: string, procedure: string)
    requires cfg.Valid() && IsInit(cfg, s) && m in cfg.names && cfg.Known(procedure)
    ensures var act := NewOp(m, procedure, false, [], None, true, true);
      && Enabled(cfg, s, act)
      && OnTheWay(cfg, Next(cfg, s, act), m, Created0(NewMessage(0, procedure, false, [], None, true)), map[])
  {
    var act := NewOp(m, procedure, false, [], None, true, true);
    CreateEffect(cfg, s, m, procedure);
    hide Next, Enabled, Inv, Bounded, IsInit, Config.Valid, Config.Known, NewMessage, Created0;
    InitialInv(cfg, s);
    StepKeepsInv(cfg, s, act);
  }

  lemma CreateEffect(cfg: Config, s: State, m: string, procedure: string)
    requires cfg.Valid() && IsInit(cfg, s) && m in cfg.names && cfg.Known(procedure)
    ensures var act := NewOp(m, procedure, false, [], None, true, true);
      && Enabled(cfg, s, act) && Bounded(Next(cfg, s, act)) && m in cfg.callbacks && m in Next(cfg, s, act).clients
      && Next(cfg, s, act).clients[m] == Created0(NewMessage(0, procedure, false, [], None, true))
      && Next(cfg, s, act).written == map[]
  {
    hide NewMessage, Config.Known;
  }

  lemma RegisterStep(cfg: Config, s: State, m: string, msg: Message)
    requires OnTheWay(cfg, s, m, Created0(msg), map[])
    ensures Enabled(cfg, s, Init(m, 0))
    ensures OnTheWay(cfg, Next(cfg, s, Init(m, 0)), m, ClientInit(Created0(msg), 0), map[])
  {
    RegisterEffect(cfg, s, m, msg);
    hide Next, Enabled, Inv, Bounded, Created0, ClientInit;
    StepKeepsInv(cfg, s, Init(m, 0));
  }

  lemma RegisterEffect(cfg: Config, s: State, m: string, msg: Message)
    requires Bounded(s) && m in s.clients && m in cfg.callbacks && s.clients[m] == Created0(msg) && s.written == map[]
    ensures Enabled(cfg, s, Init(m, 0))
    ensures var s' := Next(cfg, s, Init(m, 0));
      Bounded(s') && m in s'.clients && s'.clients[m] == ClientInit(Created0(msg), 0) && s'.written == map[]
  {
    hide Config.Gate;
  }

  lemma WriteOutStep(cfg: Config, s: State, m: string, msg: Message)
    requires OnTheWay(cfg, s, m, ClientInit(Created0(msg), 0), map[]) && msg.IsCall()
    ensures Enabled(cfg, s, Write(m, 0))
    ensures OnTheWay(cfg, Next(cfg, s, Write(m, 0)), m, ClientWrite(ClientInit(Created0(msg), 0), 0),
                     map[Key(m, msg.id.value) := Record(msg, 0)])
  {
    WriteOutEffect(cfg, s, m, msg);
    hide Next, Enabled, Inv, Bounded, Created0, ClientInit, ClientWrite;
    StepKeepsInv(cfg, s, Write(m, 0));
  }

  lemma WriteOutEffect(cfg: Config, s: State, m: string, msg: Message)
    requires Bounded(s) && m in s.clients && m in cfg.callbacks && s.clients[m] == ClientInit(Created0(msg), 0)
    requires s.written == map[] && msg.IsCall()
    ensures Enabled(cfg, s, Write(m, 0))
    ensures var s' := Next(cfg, s, Write(m, 0));
      && Bounded(s') && m in s'.clients && s'.clients[m] == ClientWrite(ClientInit(Created0(msg), 0), 0)
      && s'.written == map[Key(m, msg.id.value) := Record(msg, 0)]
  {
    hide Config.Gate;
  }

  lemma ThreeSteps(cfg: Config, s: State, a1: Action, a2: Action, a3: Action)
    requires Enabled(cfg, s, a1)
    requires Enabled(cfg, Next(cfg, s, a1), a2)
    requires Enabled(cfg, Next(cfg, Next(cfg, s, a1), a2), a3)
    ensures Legal(cfg, s, [a1, a2, a3])
    ensures Run(cfg, s, [a1, a2, a3]) == Next(cfg, Next(cfg, Next(cfg, s, a1), a2), a3)
  {
    hide Next, Enabled;
    var s1 := Next(cfg, s, a1);
    var s2 := Next(cfg, s1, a2);
    assert [a3][1..] == [] && [a2, a3][1..] == [a3] && [a1, a2, a3][1..] == [a2, a3];
    assert Legal(cfg, s2, [a3]) && Run(cfg, s2, [a3]) == Next(cfg, s2, a3);
    assert Legal(cfg, s1, [a2, a3]) && Run(cfg, s1, [a2, a3]) == Next(cfg, s2, a3);
  }

  lemma ReachedBy(cfg: Config, s: State, acts: seq<Action>)
    requires cfg.Valid() && IsInit(cfg, s) && Legal(cfg, s, acts) && Bounded(Run(cfg, s, acts))
    ensures Reachable(cfg, Run(cfg, s, acts))
  {
    hide Legal, Run, Bounded, IsInit, Config.Valid;
  }

  lemma KnownCallIsACall(procedure: string)
    requires procedure != ""
    ensures NewMessage(0, procedure, false, [], None, true).IsCall()
  {
    DecimalRoundTrip(1);
  }

  /** Any known name can be called, from any module: the call is then on record, alone, and waits. */
  lemma CallIsWritten(cfg: Config, s: State, m: string, procedure: string) returns (key: Key, s': State)
    requires cfg.Valid() && IsInit(cfg, s) && m in cfg.names && cfg.Known(procedure) && procedure != ""
    ensures Legal(cfg, s, CallSteps(m, procedure)) && s' == Run(cfg, s, CallSteps(m, procedure)) && Reachable(cfg, s')
    ensures s'.written == map[key := Record(NewMessage(0, procedure, false, [], None, true), 0)]
    ensures !HasReply(s', key) && !HasTimedOut(s', key)
  {
    hide Inv, Next, Bounded, Enabled, NewMessage, IsInit, Config.Valid, Config.Known, Legal, Run, Reachable, Created0, ClientInit,
      ClientWrite, HasReply, HasTimedOut;
    var msg := NewMessage(0, procedure, false, [], None, true);
    var a1 := NewOp(m, procedure, false, [], None, true, true);
    KnownCallIsACall(procedure);
    CreateStep(cfg, s, m, procedure);
    var s1 := Next(cfg, s, a1);
    RegisterStep(cfg, s1, m, msg);
    var s2 := Next(cfg, s1, Init(m, 0));
    WriteOutStep(cfg, s2, m, msg);
    CallHasKey(msg);
    key, s' := Key(m, msg.id.value), Next(cfg, s2, Write(m, 0));
    ThreeSteps(cfg, s, a1, Init(m, 0), Write(m, 0));
    WayIsBounded(cfg, s', m, msg);
    ReachedBy(cfg, s, CallSteps(m, procedure));
    SentIsWaiting(s', key, msg);
  }

  lemma CallHasKey(msg: Message)
    requires msg.IsCall()
    ensures msg.id.Some?
  {
  }

  lemma WayIsBounded(cfg: Config, s: State, m: string, msg: Message)
    requires msg.IsCall()
    requires OnTheWay(cfg, s, m, ClientWrite(ClientInit(Created0(msg), 0), 0), map[Key(m, msg.id.value) := Record(msg, 0)])
    ensures Bounded(s)
  {
  }

  lemma SentIsWaiting(s: State, key: Key, msg: Message)
    requires key in s.written && s.written[key].op == 0 && key.origin in s.clients
    requires s.clients[key.origin] == ClientWrite(ClientInit(Created0(msg), 0), 0)
    ensures !HasReply(s, key) && !HasTimedOut(s, key)
  {
  }

  /** What is proved of reachable states is not empty: every call from one module to a callback of
      another can be written, and then it is there, served, and has not timed out. */
  lemma ServedCallIsReachable(cfg: Config, s: State, m: string, target: string, callback: string)
    returns (key: Key, s': State)
    requires cfg.Valid() && IsInit(cfg, s) && m in cfg.names && target in cfg.names && callback in cfg.callbacks[target]
    ensures Legal(cfg, s, CallSteps(m, KnownName(target, callback)))
    ensures s' == Run(cfg, s, CallSteps(m, KnownName(target, callback))) && Reachable(cfg, s')
    ensures s'.written.Keys == {key} && Deliverable(cfg.names, s'.written[key].msg) && !HasTimedOut(s', key) && !HasReply(s', key)
  {
    ServedCallShape(cfg, target, callback);
    hide IsInit, Config.Valid, Config.Known, Legal, Run, Reachable, NewMessage, CallSteps, HasReply, HasTimedOut, Deliverable, KnownName;
    key, s' := CallIsWritten(cfg, s, m, KnownName(target, callback));
  }

  lemma ServedCallShape(cfg: Config, target: string, callback: string)
    requires cfg.Valid() && target in cfg.names && callback in cfg.callbacks[target]
    ensures cfg.Known(KnownName(target, callback)) && KnownName(target, callback) != ""
    ensures Deliverable(cfg.names, NewMessage(0, KnownName(target, callback), false, [], None, true))
  {
    var msg := NewMessage(0, KnownName(target, callback), false, [], None, true);
    assert cfg.Known(KnownName(target, callback));
    hide KnownName;
    ServedName(cfg.names, msg, target, callback);
  }

  // ---- a call nobody serves ----

  const PING := "core_ping"

  lemma PingIsUnserved(cfg: Config)
    requires cfg.Valid()
    ensures cfg.Known(PING) && PING != ""
    ensures !Deliverable(cfg.names, NewMessage(0, PING, false, [], None, true))
  {
    var msg := NewMessage(0, PING, false, [], None, true);
    hide Decimal;
    assert HasPrefix(msg.procedure, "core_");
    CoreName(cfg.names, msg);
  }

  /** One call to `core_ping`, made, registered and written: after it no internal run, of any length,
      ever empties the queues. In every configuration and for every module. */
  lemma CoreCallsNeverDrain(cfg: Config, s: State, m: string)
    requires cfg.Valid() && IsInit(cfg, s) && m in cfg.names
    ensures Legal(cfg, s, CallSteps(m, PING))
    ensures forall acts :: !Drains(cfg, Run(cfg, s, CallSteps(m, PING)), acts)
  {
    PingIsUnserved(cfg);
    hide IsInit, Config.Valid, Config.Known, Legal, Run, Reachable, NewMessage, CallSteps, HasReply, HasTimedOut, Deliverable, Drains;
    var key, s' := CallIsWritten(cfg, s, m, PING);
    DrainsIffAllServed(cfg, s');
    assert key in s'.written;
  }
}
