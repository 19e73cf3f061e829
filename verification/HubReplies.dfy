/** What the callers get: the reply that resolves a call was made by an execution of that call at the
    module it names, and says how that execution ended. */
module HubReplies {

  import opened Wrappers
  import opened JsonRpc
  import opened Hub
  import opened HubInvariant
  import opened HubRelay
  import opened HubSteps
  import opened HubReading
  import opened HubClients
  import opened HubRuns
  import opened HubAnswers

  // ---- where a reply can be ----

  /** The reply is on its way in this client's queues, or has resolved one of its calls. */
  ghost predicate Holds(c: Client, r: Message) {
    || r in c.outgoing
    || (exists d :: d in c.relaying && d.msg == r)
    || r in c.incoming
    || (exists n :: 0 <= n < |c.ops| && c.ops[n].reply == Some(r))
  }

  ghost predicate InHub(s: State, r: Message) {
    exists m :: m in s.clients && Holds(s.clients[m], r)
  }

  /** A reply that somebody waits for. */
  predicate IsReply(r: Message) {
    r.IsResponse() && r.origin != ""
  }

  /** This step ends an execution of the call at a module it is meant for, and `r` reports how. */
  ghost predicate Executes(cfg: Config, s: State, act: Action, call: Message, r: Message) {
    && act.Finish? && act.m in s.clients && act.m in cfg.callbacks
    && IsAddressee(call, act.m)
    && act.i < |s.clients[act.m].running| && s.clients[act.m].running[act.i] == call
    && r.id == call.id && r.origin == call.origin && r.procedure == call.procedure + "_response"
    && forall c :: Addresses(call.procedure, c) ==> Reports(r, c in cfg.callbacks[act.m], act.outcome)
  }

  ghost predicate ExecutedIn(cfg: Config, s: State, acts: seq<Action>, call: Message, r: Message)
    requires Legal(cfg, s, acts)
    decreases |acts|
  {
    acts != [] && (Executes(cfg, s, acts[0], call, r) || ExecutedIn(cfg, Next(cfg, s, acts[0]), acts[1..], call, r))
  }

  // ---- every step ----

  /** The step puts a reply into the hub that was not there: a callback's answer. */
  ghost predicate Answers(cfg: Config, s: State, act: Action, r: Message)
    requires Enabled(cfg, s, act)
  {
    act.Finish? && Answer(cfg.callbacks[act.m], s.clients[act.m].running[act.i], act.outcome) == Some(r)
  }

  lemma QuietHolds(cfg: Config, s: State, act: Action, m: string, r: Message)
    requires Enabled(cfg, s, act) && !IsInternal(act) && !act.Write?
    requires m in s.clients && m in Next(cfg, s, act).clients && Holds(Next(cfg, s, act).clients[m], r)
    ensures Holds(s.clients[m], r)
  {
    hide Config.Gate, NewMessage, Message.IsResponse;
  }

  lemma WriteHolds(cfg: Config, s: State, m: string, n: nat, x: string, r: Message)
    requires Enabled(cfg, s, Write(m, n)) && IsReply(r)
    requires x in s.clients && x in Next(cfg, s, Write(m, n)).clients && Holds(Next(cfg, s, Write(m, n)).clients[x], r)
    requires Inv(cfg, s)
    ensures Holds(s.clients[x], r)
  {
    hide Inv, OpsOk, PlacesOk, CallShape;
    InvParts(cfg, s, m);
    InitializedOp(cfg.names, s.written, m, s.clients[m], n);
    if x == m {
      WrittenIsNoReply(cfg.names, s.clients[m].ops[n].msg);
    }
  }

  lemma WrittenIsNoReply(names: seq<string>, msg: Message)
    requires if msg.id.Some? then CallShape(names, msg) else NotifyShape(msg)
    ensures !IsReply(msg)
  {
  }

  lemma TakeHolds(cfg: Config, s: State, m: string, x: string, r: Message)
    requires Enabled(cfg, s, RelayTake(m)) && IsReply(r)
    requires x in s.clients && Holds(Next(cfg, s, RelayTake(m)).clients[x], r)
    ensures Holds(s.clients[x], r)
  {
    hide Deliveries, IsReply;
    var c := s.clients[m];
    if x == m {
      forall d | d in Deliveries(cfg.names, m, c.outgoing[0]) && d.msg == r
        ensures r == c.outgoing[0]
      {
        RepliesAreRelayedAsTheyAre(cfg.names, m, c.outgoing[0], d);
      }
    }
  }

  lemma RepliesAreRelayedAsTheyAre(names: seq<string>, m: string, msg: Message, d: Delivery)
    requires d in Deliveries(names, m, msg) && IsReply(d.msg)
    ensures d.msg == msg
  {
    DeliverySource(names, m, msg, d);
    if msg.IsCall() {
      NotFoundReplyIs(m, msg);
    }
  }

  lemma DeliverHolds(cfg: Config, s: State, m: string, x: string, r: Message)
    requires Enabled(cfg, s, Deliver(m))
    requires x in s.clients && Holds(Next(cfg, s, Deliver(m)).clients[x], r)
    ensures InHub(s, r)
  {
    var c := s.clients[m];
    assert c.relaying[0] in c.relaying;
    if !Holds(s.clients[x], r) {
      assert Holds(c, r);
    }
  }

  lemma ReadHolds(cfg: Config, s: State, m: string, x: string, r: Message)
    requires Enabled(cfg, s, Read(m))
    requires x in s.clients && Holds(Next(cfg, s, Read(m)).clients[x], r)
    ensures Holds(s.clients[x], r)
  {
    hide Message.IsResponse;
    assert s.clients[m].incoming[0] in s.clients[m].incoming;
  }

  lemma FinishHolds(cfg: Config, s: State, act: Action, x: string, r: Message)
    requires act.Finish? && Enabled(cfg, s, act)
    requires x in s.clients && Holds(Next(cfg, s, act).clients[x], r)
    ensures Holds(s.clients[x], r) || Answers(cfg, s, act, r)
  {
    hide Answer;
  }

  lemma StepHolds(cfg: Config, s: State, act: Action, r: Message)
    requires Inv(cfg, s) && Enabled(cfg, s, act) && IsReply(r) && InHub(Next(cfg, s, act), r)
    ensures InHub(s, r) || Answers(cfg, s, act, r)
  {
    hide Inv, Next, Holds, Enabled, IsReply, Answers, InHub;
    var x := Holder(Next(cfg, s, act), r);
    CountersGrow(cfg, s, act);
    HolderIsInHub(s, x, r);
    if IsInternal(act) {
      InternalHolds(cfg, s, act, x, r);
    } else if act.Write? {
      WriteHolds(cfg, s, act.m, act.n, x, r);
    } else {
      QuietHolds(cfg, s, act, x, r);
    }
  }

  lemma InternalHolds(cfg: Config, s: State, act: Action, x: string, r: Message)
    requires Enabled(cfg, s, act) && IsInternal(act) && IsReply(r)
    requires x in s.clients && x in Next(cfg, s, act).clients && Holds(Next(cfg, s, act).clients[x], r)
    ensures Holds(s.clients[x], r) || InHub(s, r) || Answers(cfg, s, act, r)
  {
    hide Next, Holds, Enabled, IsReply, Answers, InHub;
    match act
    case RelayTake(m) => TakeHolds(cfg, s, m, x, r);
    case Deliver(m) => DeliverHolds(cfg, s, m, x, r);
    case Read(m) => ReadHolds(cfg, s, m, x, r);
    case Finish(_, _, _) => FinishHolds(cfg, s, act, x, r);
  }

  lemma Holder(s: State, r: Message) returns (x: string)
    requires InHub(s, r)
    ensures x in s.clients && Holds(s.clients[x], r)
  {
    hide Holds;
    x :| x in s.clients && Holds(s.clients[x], r);
  }

  lemma HolderIsInHub(s: State, x: string, r: Message)
    requires x in s.clients
    ensures Holds(s.clients[x], r) ==> InHub(s, r)
  {
    hide Holds;
  }

  // ---- a callback's answer ----

  /** The call under the id and origin of the reply, as the callee sees it. */
  ghost predicate IsCallOf(cfg: Config, s: State, call: Message, r: Message) {
    HasRecord(s.written, r) && call == RecordOf(s.written, r).(origin := r.origin)
  }

  lemma AnswerExecutes(cfg: Config, s: State, act: Action, r: Message) returns (call: Message)
    requires Inv(cfg, s) && Enabled(cfg, s, act) && Answers(cfg, s, act, r) && IsReply(r)
    ensures Executes(cfg, s, act, call, r) && IsCallOf(cfg, s, call, r)
  {
    hide Inv, OpsOk, Answer, RunOk, OutOk, RelayOk, InOk, Reports, IsAddressee;
    InvParts(cfg, s, act.m);
    call := s.clients[act.m].running[act.i];
    assert call in s.clients[act.m].running;
    AnsweredCall(cfg, s.written, act.m, call, act.outcome, r);
    CallIsAnswered(cfg.callbacks[act.m], call, act.outcome);
  }

  lemma AnsweredCall(cfg: Config, book: Book, m: string, call: Message, outcome: Outcome, r: Message)
    requires m in cfg.callbacks && RunOk(cfg.names, book, m, call)
    requires Answer(cfg.callbacks[m], call, outcome) == Some(r) && IsReply(r)
    ensures StampedCall(cfg.names, book, call) && call.IsCall() && IsAddressee(call, m)
    ensures r.id == call.id && r.origin == call.origin
  {
    if StampedCall(cfg.names, book, call) && m == call.Namespace() {
      StampedIsMeantFor(cfg.names, book, call, m);
      CallIsAnswered(cfg.callbacks[m], call, outcome);
    } else {
      hide StampedCall;
      NoReplyElse(cfg.callbacks[m], call, outcome);
      assert false;
    }
  }

  lemma StampedIsMeantFor(names: seq<string>, book: Book, call: Message, m: string)
    requires StampedCall(names, book, call) && m == call.Namespace()
    ensures call.IsCall() && !call.IsResponse() && IsAddressee(call, m)
  {
    AddresseeIsTarget(call, m);
  }

  lemma NoReplyElse(callbacks: set<string>, msg: Message, outcome: Outcome)
    requires NotifyShape(msg) || Bounce(msg)
    ensures Answer(callbacks, msg, outcome).Some? ==> !IsReply(Answer(callbacks, msg, outcome).value)
  {
  }

  // ---- every run ----

  /** A reply that is in the hub at the end of a run was there at its start, or was made in the run by an
      execution of the call it answers. */
  lemma {:induction false} RepliesAreMade(cfg: Config, s: State, acts: seq<Action>, r: Message) returns (call: Message)
    requires Inv(cfg, s) && Legal(cfg, s, acts) && Bounded(Run(cfg, s, acts))
    requires IsReply(r) && InHub(Run(cfg, s, acts), r)
    ensures InHub(s, r) || (ExecutedIn(cfg, s, acts, call, r) && IsCallOf(cfg, Run(cfg, s, acts), call, r))
    decreases |acts|
  {
    hide Inv, Next, Enabled, Bounded, InHub, IsReply, Executes, Answers, IsCallOf;
    if acts == [] {
      call := r;
    } else {
      var s1 := Next(cfg, s, acts[0]);
      BoundedBackwards(cfg, s1, acts[1..]);
      StepKeepsInv(cfg, s, acts[0]);
      call := RepliesAreMade(cfg, s1, acts[1..], r);
      if InHub(s1, r) {
        StepHolds(cfg, s, acts[0], r);
        if Answers(cfg, s, acts[0], r) {
          call := AnswerExecutes(cfg, s, acts[0], r);
          CountersGrow(cfg, s, acts[0]);
          RunKeepsRecords(cfg, s, acts);
          CallStaysRecorded(cfg, s, Run(cfg, s, acts), call, r);
        }
      }
    }
  }

  lemma CallStaysRecorded(cfg: Config, s: State, s': State, call: Message, r: Message)
    requires Extends(s.written, s'.written) && IsCallOf(cfg, s, call, r)
    ensures IsCallOf(cfg, s', call, r)
  {
  }

  /** In every run: the reply of a resolved call was made by an execution of that very call, stamped with
      its caller, at the module it is meant for, and reports how that execution ended. */
  lemma ReplyIsOfAnExecution(cfg: Config, s: State, acts: seq<Action>, m: string, n: nat)
    requires cfg.Valid() && IsInit(cfg, s) && Legal(cfg, s, acts) && Bounded(Run(cfg, s, acts))
    requires var s' := Run(cfg, s, acts);
      m in s'.clients && n < |s'.clients[m].ops| && s'.clients[m].ops[n].reply.Some?
    ensures var op := Run(cfg, s, acts).clients[m].ops[n];
      ExecutedIn(cfg, s, acts, op.msg.(origin := m), op.reply.value)
  {
    hide Legal, Run, Inv, IsInit, Bounded, OpsOk, PlacesOk, ExecutedIn, Config.Valid, InHub;
    InitialInv(cfg, s);
    RunKeepsInv(cfg, s, acts);
    var s' := Run(cfg, s, acts);
    InvParts(cfg, s', m);
    var op := s'.clients[m].ops[n];
    ResolvedOp(cfg.names, s'.written, m, s'.clients[m], n);
    ReplyIsHeld(s', m, n);
    NothingAtFirst(cfg, s, op.reply.value);
    var call := RepliesAreMade(cfg, s, acts, op.reply.value);
  }

  lemma ReplyIsHeld(s: State, m: string, n: nat)
    requires m in s.clients && n < |s.clients[m].ops| && s.clients[m].ops[n].reply.Some?
    ensures InHub(s, s.clients[m].ops[n].reply.value)
  {
    assert Holds(s.clients[m], s.clients[m].ops[n].reply.value);
  }

  lemma NothingAtFirst(cfg: Config, s: State, r: Message)
    requires IsInit(cfg, s)
    ensures !InHub(s, r)
  {
  }
}
