/** Where every single message goes, over whole runs: what is put on the wire for a module is on its way
    to it, running there, or done. Nothing is lost and nothing is delivered more often than it is due;
    in particular every broadcast reaches every module it is meant for exactly once. */
module HubBroadcasts {

  import opened Bags
  import opened Wrappers
  import opened JsonRpc
  import opened Hub
  import opened HubLedger
  import opened HubRelay
  import opened HubSteps
  import opened HubTraffic
  import opened HubReading
  import opened HubRuns

  // ---- counting ----

  function Count(q: seq<Message>, x: Message): nat {
    multiset(q)[x]
  }

  function One(yes: bool): nat {
    if yes then 1 else 0
  }

  lemma CountPush(q: seq<Message>, msg: Message, x: Message)
    ensures Count(q + [msg], x) == Count(q, x) + One(msg == x)
    ensures Count([msg] + q, x) == Count(q, x) + One(msg == x)
  {
    assert multiset(q + [msg]) == multiset(q) + multiset{msg};
    assert multiset([msg] + q) == multiset(q) + multiset{msg};
  }

  lemma CountCut(q: seq<Message>, i: nat, x: Message)
    requires i < |q|
    ensures Count(q, x) == Count(q[..i] + q[i + 1..], x) + One(q[i] == x)
  {
    CutCounts(q, i);
  }

  lemma CountFirst(q: seq<Message>, x: Message)
    requires q != []
    ensures Count(q, x) == Count(q[1..], x) + One(q[0] == x)
  {
    hide Count;
    assert q == [q[0]] + q[1..];
    CountPush(q[1..], q[0], x);
  }

  /** How often module y is due to get x when module m's relay takes `msg`. */
  function Due(names: seq<string>, m: string, y: string, x: Message): Message -> nat {
    msg => Count(PushedTo(Deliveries(names, m, msg), y), x)
  }

  /** How often x is under way to y, or running there, in the client of module m. */
  function CountAt(names: seq<string>, y: string, x: Message, m: string, c: Client): nat {
    Sum(Due(names, m, y, x), c.outgoing) + Count(PushedTo(c.relaying, y), x)
    + if m == y then Count(c.incoming, x) + Count(c.running, x) else 0
  }

  function InHub(names: seq<string>, y: string, x: Message, over: seq<string>, clients: map<string, Client>): nat
    requires forall m :: m in over ==> m in clients
  {
    if over == [] then 0 else CountAt(names, y, x, over[0], clients[over[0]]) + InHub(names, y, x, over[1..], clients)
  }

  lemma {:induction false} InHubFrame(names: seq<string>, y: string, x: Message, over: seq<string>, clients: map<string, Client>,
                                      m: string, c: Client)
    requires (forall n :: n in over ==> n in clients) && m !in over
    ensures InHub(names, y, x, over, clients[m := c]) == InHub(names, y, x, over, clients)
  {
    if over != [] {
      InHubFrame(names, y, x, over[1..], clients, m, c);
    }
  }

  lemma {:induction false} InHubUpdate(names: seq<string>, y: string, x: Message, over: seq<string>, clients: map<string, Client>,
                                       m: string, c: Client)
    requires Distinct(over) && m in over && forall n :: n in over ==> n in clients
    ensures InHub(names, y, x, over, clients[m := c]) + CountAt(names, y, x, m, clients[m])
         == InHub(names, y, x, over, clients) + CountAt(names, y, x, m, c)
  {
    hide CountAt;
    if over[0] == m {
      assert m !in over[1..];
      InHubFrame(names, y, x, over[1..], clients, m, c);
    } else {
      assert m in over[1..];
      InHubUpdate(names, y, x, over[1..], clients, m, c);
    }
  }

  lemma {:induction false} EmptyHub(names: seq<string>, y: string, x: Message, over: seq<string>, clients: map<string, Client>)
    requires forall m :: m in over ==> m in clients && IsEmpty(clients[m])
    ensures InHub(names, y, x, over, clients) == 0
  {
    if over != [] {
      EmptyHub(names, y, x, over[1..], clients);
    }
  }

  predicate IsEmpty(c: Client) {
    c.outgoing == [] && c.relaying == [] && c.incoming == [] && c.running == []
  }

  // ---- what a step adds and what it finishes ----

  /** How often this step makes y due to get x: a client writes a message, or a callback its answer. */
  ghost function PutBy(cfg: Config, s: State, act: Action, y: string, x: Message): nat
    requires Enabled(cfg, s, act)
  {
    var c := s.clients[act.m];
    match act
    case Write(m, n) => Due(cfg.names, m, y, x)(c.ops[n].msg)
    case Finish(m, i, outcome) =>
      var answer := Answer(cfg.callbacks[m], c.running[i], outcome);
      if answer.Some? then Due(cfg.names, m, y, x)(answer.value) else 0
    case _ => 0
  }

  /** Whether y is done with an x in this step: its callback has ended, or it was a reply. */
  ghost function DoneBy(cfg: Config, s: State, act: Action, y: string, x: Message): nat
    requires Enabled(cfg, s, act)
  {
    var c := s.clients[act.m];
    match act
    case Finish(m, i, _) => One(m == y && c.running[i] == x)
    case Read(m) => One(m == y && c.incoming[0] == x && x.IsResponse())
    case _ => 0
  }

  // ---- every step ----

  lemma OneClientChanges(cfg: Config, s: State, m: string, c: Client, y: string, x: Message, put: nat, done: nat)
    requires cfg.Valid() && SameClients(cfg, s) && m in s.clients
    requires CountAt(cfg.names, y, x, m, c) + done == CountAt(cfg.names, y, x, m, s.clients[m]) + put
    ensures InHub(cfg.names, y, x, cfg.names, s.clients[m := c]) + done
         == InHub(cfg.names, y, x, cfg.names, s.clients) + put
  {
    hide CountAt, InHub;
    InHubUpdate(cfg.names, y, x, cfg.names, s.clients, m, c);
  }

  ghost predicate SameClients(cfg: Config, s: State) {
    forall m :: m in s.clients <==> m in cfg.names
  }

  lemma WriteCounts(names: seq<string>, y: string, x: Message, m: string, c: Client, n: nat)
    requires n < |c.ops|
    ensures CountAt(names, y, x, m, ClientWrite(c, n)) == CountAt(names, y, x, m, c) + Due(names, m, y, x)(c.ops[n].msg)
  {
    hide Due, Count, PushedTo;
    SumPush(Due(names, m, y, x), c.outgoing, c.ops[n].msg);
  }

  lemma TakeCounts(names: seq<string>, y: string, x: Message, m: string, c: Client)
    requires c.outgoing != [] && c.relaying == []
    ensures CountAt(names, y, x, m, Taken(names, m, c)) == CountAt(names, y, x, m, c)
  {
    hide Deliveries, Due;
    assert PushedTo([], y) == [];
    assert Due(names, m, y, x)(c.outgoing[0]) == Count(PushedTo(Deliveries(names, m, c.outgoing[0]), y), x) by {
      DueMeans(names, m, y, x, c.outgoing[0]);
    }
  }

  lemma DueMeans(names: seq<string>, m: string, y: string, x: Message, msg: Message)
    ensures Due(names, m, y, x)(msg) == Count(PushedTo(Deliveries(names, m, msg), y), x)
  {
  }

  lemma PopCounts(names: seq<string>, y: string, x: Message, m: string, c: Client)
    requires c.relaying != []
    ensures CountAt(names, y, x, m, Popped(c)) + One(c.relaying[0].to == y && c.relaying[0].msg == x) == CountAt(names, y, x, m, c)
  {
    hide Count, Due, PushedTo, Sum;
    PushedToStep(c.relaying, y);
    CountPush(PushedTo(c.relaying[1..], y), c.relaying[0].msg, x);
    assert [] + PushedTo(c.relaying[1..], y) == PushedTo(c.relaying[1..], y);
  }

  lemma ReceiveCounts(names: seq<string>, y: string, x: Message, m: string, c: Client, msg: Message)
    ensures CountAt(names, y, x, m, Received(c, msg)) == CountAt(names, y, x, m, c) + One(m == y && msg == x)
  {
    hide Count, Due, PushedTo, Sum;
    CountPush(c.incoming, msg, x);
  }

  lemma ReadCounts(names: seq<string>, y: string, x: Message, m: string, c: Client)
    requires c.incoming != []
    ensures CountAt(names, y, x, m, HandleMsg(Unqueued(c), c.incoming[0])) + One(m == y && c.incoming[0] == x && x.IsResponse())
         == CountAt(names, y, x, m, c)
  {
    hide Count, Due, PushedTo, Sum, HandleReply, Message.IsResponse;
    CountFirst(c.incoming, x);
    CountPush(c.running, c.incoming[0], x);
    ReplyKeepsQueues(Unqueued(c), c.incoming[0]);
  }

  lemma FinishCounts(names: seq<string>, callbacks: set<string>, y: string, x: Message, m: string, c: Client, i: nat, outcome: Outcome)
    requires i < |c.running|
    ensures var answer := Answer(callbacks, c.running[i], outcome);
      CountAt(names, y, x, m, Finished(callbacks, c, i, outcome)) + One(m == y && c.running[i] == x)
      == CountAt(names, y, x, m, c) + if answer.Some? then Due(names, m, y, x)(answer.value) else 0
  {
    hide Count, Due, PushedTo, Sum, Answer;
    var answer := Answer(callbacks, c.running[i], outcome);
    CountCut(c.running, i, x);
    if answer.Some? {
      SumPush(Due(names, m, y, x), c.outgoing, answer.value);
    }
  }

  lemma QuietCounts(names: seq<string>, y: string, x: Message, m: string, c: Client, c': Client)
    requires SameQueues(c, c')
    ensures CountAt(names, y, x, m, c') == CountAt(names, y, x, m, c)
  {
    hide Count, Due, PushedTo, Sum;
  }

  /** One step keeps account of every message for every module. */
  ghost predicate Accounts(cfg: Config, s: State, act: Action, y: string, x: Message)
    requires Enabled(cfg, s, act) && SameClients(cfg, s)
  {
    var s' := Next(cfg, s, act);
    && SameClients(cfg, s')
    && InHub(cfg.names, y, x, cfg.names, s'.clients) + DoneBy(cfg, s, act, y, x)
       == InHub(cfg.names, y, x, cfg.names, s.clients) + PutBy(cfg, s, act, y, x)
  }

  lemma StepAccounts(cfg: Config, s: State, act: Action, y: string, x: Message)
    requires cfg.Valid() && SameClients(cfg, s) && Enabled(cfg, s, act)
    ensures Accounts(cfg, s, act, y, x)
  {
    hide Accounts, Enabled, SameClients, Config.Valid;
    match act
    case Write(m, n) => WriteAccounts(cfg, s, m, n, y, x);
    case RelayTake(m) => TakeAccounts(cfg, s, m, y, x);
    case Deliver(m) => DeliverAccounts(cfg, s, m, y, x);
    case Read(m) => ReadAccounts(cfg, s, m, y, x);
    case Finish(m, i, outcome) => FinishAccounts(cfg, s, m, i, outcome, y, x);
    case _ => QuietAccounts(cfg, s, act, y, x);
  }

  lemma WriteAccounts(cfg: Config, s: State, m: string, n: nat, y: string, x: Message)
    requires cfg.Valid() && SameClients(cfg, s) && Enabled(cfg, s, Write(m, n))
    ensures Accounts(cfg, s, Write(m, n), y, x)
  {
    hide InHub, CountAt, Due, ClientWrite, Config.Valid;
    var c := s.clients[m];
    WriteCounts(cfg.names, y, x, m, c, n);
    OneClientChanges(cfg, s, m, ClientWrite(c, n), y, x, Due(cfg.names, m, y, x)(c.ops[n].msg), 0);
  }

  lemma TakeAccounts(cfg: Config, s: State, m: string, y: string, x: Message)
    requires cfg.Valid() && SameClients(cfg, s) && Enabled(cfg, s, RelayTake(m))
    ensures Accounts(cfg, s, RelayTake(m), y, x)
  {
    hide InHub, CountAt, Deliveries, Config.Valid;
    TakeCounts(cfg.names, y, x, m, s.clients[m]);
    OneClientChanges(cfg, s, m, Taken(cfg.names, m, s.clients[m]), y, x, 0, 0);
  }

  lemma ReadAccounts(cfg: Config, s: State, m: string, y: string, x: Message)
    requires cfg.Valid() && SameClients(cfg, s) && Enabled(cfg, s, Read(m))
    ensures Accounts(cfg, s, Read(m), y, x)
  {
    hide InHub, CountAt, HandleMsg, Message.IsResponse, Config.Valid;
    var c := s.clients[m];
    ReadCounts(cfg.names, y, x, m, c);
    OneClientChanges(cfg, s, m, HandleMsg(Unqueued(c), c.incoming[0]), y, x, 0, DoneBy(cfg, s, Read(m), y, x));
  }

  lemma FinishAccounts(cfg: Config, s: State, m: string, i: nat, outcome: Outcome, y: string, x: Message)
    requires cfg.Valid() && SameClients(cfg, s) && Enabled(cfg, s, Finish(m, i, outcome))
    ensures Accounts(cfg, s, Finish(m, i, outcome), y, x)
  {
    hide InHub, CountAt, Due, Answer, Config.Valid;
    var act, c := Finish(m, i, outcome), s.clients[m];
    FinishCounts(cfg.names, cfg.callbacks[m], y, x, m, c, i, outcome);
    OneClientChanges(cfg, s, m, Finished(cfg.callbacks[m], c, i, outcome), y, x, PutBy(cfg, s, act, y, x), DoneBy(cfg, s, act, y, x));
  }

  lemma QuietAccounts(cfg: Config, s: State, act: Action, y: string, x: Message)
    requires cfg.Valid() && SameClients(cfg, s) && Enabled(cfg, s, act) && !IsInternal(act) && !act.Write?
    ensures Accounts(cfg, s, act, y, x)
  {
    hide InHub, CountAt, Next, SameQueues, SameReplies, Config.Valid, Config.Gate;
    QuietShape(cfg, s, act);
    var c' := Next(cfg, s, act).clients[act.m];
    QuietCounts(cfg.names, y, x, act.m, s.clients[act.m], c');
    OneClientChanges(cfg, s, act.m, c', y, x, 0, 0);
  }

  lemma DeliverAccounts(cfg: Config, s: State, m: string, y: string, x: Message)
    requires cfg.Valid() && SameClients(cfg, s) && Enabled(cfg, s, Deliver(m))
    ensures Accounts(cfg, s, Deliver(m), y, x)
  {
    hide InHub, CountAt, Config.Valid;
    var c := s.clients[m];
    var d := c.relaying[0];
    var s1 := WithClient(s, m, Popped(c));
    PopCounts(cfg.names, y, x, m, c);
    OneClientChanges(cfg, s, m, Popped(c), y, x, 0, One(d.to == y && d.msg == x));
    ReceiveCounts(cfg.names, y, x, d.to, s1.clients[d.to], d.msg);
    OneClientChanges(cfg, s1, d.to, Received(s1.clients[d.to], d.msg), y, x, One(d.to == y && d.msg == x), 0);
    assert Next(cfg, s, Deliver(m)).clients == s1.clients[d.to := Received(s1.clients[d.to], d.msg)];
  }

  // ---- every run ----

  /** How often y became due to get x, in the run. */
  ghost function Put(cfg: Config, s: State, acts: seq<Action>, y: string, x: Message): nat
    requires Legal(cfg, s, acts)
    decreases |acts|
  {
    if acts == [] then 0 else PutBy(cfg, s, acts[0], y, x) + Put(cfg, Next(cfg, s, acts[0]), acts[1..], y, x)
  }

  /** How often y was done with x, in the run. */
  ghost function Done(cfg: Config, s: State, acts: seq<Action>, y: string, x: Message): nat
    requires Legal(cfg, s, acts)
    decreases |acts|
  {
    if acts == [] then 0 else DoneBy(cfg, s, acts[0], y, x) + Done(cfg, Next(cfg, s, acts[0]), acts[1..], y, x)
  }

  lemma {:induction false} RunAccounts(cfg: Config, s: State, acts: seq<Action>, y: string, x: Message)
    requires cfg.Valid() && SameClients(cfg, s) && Legal(cfg, s, acts)
    ensures SameClients(cfg, Run(cfg, s, acts))
    ensures InHub(cfg.names, y, x, cfg.names, Run(cfg, s, acts).clients) + Done(cfg, s, acts, y, x)
         == InHub(cfg.names, y, x, cfg.names, s.clients) + Put(cfg, s, acts, y, x)
    decreases |acts|
  {
    hide InHub, Enabled, Next, PutBy, DoneBy, Config.Valid, SameClients;
    if acts != [] {
      StepAccounts(cfg, s, acts[0], y, x);
      RunAccounts(cfg, Next(cfg, s, acts[0]), acts[1..], y, x);
    }
  }

  /** Every run: as often as y became due to get x, y has one under way to it or running, or is done
      with it. */
  lemma MessagesAreConserved(cfg: Config, s: State, acts: seq<Action>, y: string, x: Message)
    requires cfg.Valid() && IsInit(cfg, s) && Legal(cfg, s, acts)
    ensures SameClients(cfg, Run(cfg, s, acts))
    ensures Put(cfg, s, acts, y, x)
         == InHub(cfg.names, y, x, cfg.names, Run(cfg, s, acts).clients) + Done(cfg, s, acts, y, x)
  {
    hide Legal, Run, Put, Done, Config.Valid;
    RunAccounts(cfg, s, acts, y, x);
    EmptyHub(cfg.names, y, x, cfg.names, s.clients);
  }

  // ---- notifications and broadcasts ----

  /** Module y is to get x as its copy of the broadcast `msg` of module m. */
  predicate IsFor(names: seq<string>, m: string, msg: Message, y: string, x: Message) {
    && msg.notifyAll && Unaddressed(msg) == x
    && y in names && y != m && !IsAddressee(msg, y) && y !in msg.notifyExclusion
  }

  /** How often module y is to get x, which has no id, when module m sends `msg`: if the message is meant
      for y and x is that message, signed, once, and twice if y is the sender itself; and once if x is
      its copy of a broadcast. */
  function Expected(names: seq<string>, m: string, msg: Message, y: string, x: Message): nat {
    if IsAddressee(msg, y) then
      if Signed(m, msg) != x then 0 else if y == m then 2 else 1
    else One(IsFor(names, m, msg, y, x))
  }

  lemma DueIsExpected(cfg: Config, m: string, msg: Message, y: string, x: Message)
    requires cfg.Valid() && m in cfg.names && y in cfg.names && x.id.None?
    ensures Due(cfg.names, m, y, x)(msg) == Expected(cfg.names, m, msg, y, x)
  {
    hide PushedTo, Deliveries, Config.Valid, IsAddressee, Message.IsCall, Due, Count, Signed, Unaddressed, Distinct;
    DueMeans(cfg.names, m, y, x, msg);
    NamesAreDistinct(cfg);
    var t := OneAddressee(msg);
    RelayRoutes(cfg.names, m, msg, t, y);
    CallHasId(msg);
    CountOf(Signed(m, msg), x);
    CountOf(Unaddressed(msg), x);
    CountOf(Message("1.0", msg.id, "", None, Some(RpcError(-32000, "targetted module not found")), None, false, [], ""), x);
  }

  lemma CallHasId(msg: Message)
    ensures msg.IsCall() ==> msg.id.Some?
  {
  }

  lemma CountOf(msg: Message, x: Message)
    ensures Count([], x) == 0 && Count([msg], x) == One(msg == x)
    ensures Count([msg, msg], x) == if msg == x then 2 else 0
  {
    assert [msg, msg] == [msg] + [msg];
  }

  lemma AnswersAreNoNotifications(callbacks: set<string>, names: seq<string>, m: string, msg: Message, outcome: Outcome, y: string,
                                  x: Message)
    requires x.id.None?
    ensures var answer := Answer(callbacks, msg, outcome); answer.Some? ==> Expected(names, m, answer.value, y, x) == 0
  {
    hide IsAddressee;
  }

  /** How often y is to get x, from all messages written in the run. */
  ghost function Wanted(cfg: Config, s: State, acts: seq<Action>, y: string, x: Message): nat
    requires Legal(cfg, s, acts)
    decreases |acts|
  {
    if acts == [] then 0
    else
      (if acts[0].Write? then Expected(cfg.names, acts[0].m, s.clients[acts[0].m].ops[acts[0].n].msg, y, x) else 0)
      + Wanted(cfg, Next(cfg, s, acts[0]), acts[1..], y, x)
  }

  /** How many callbacks of y for this very message have ended. */
  ghost function Finishes(cfg: Config, s: State, acts: seq<Action>, y: string, x: Message): nat
    requires Legal(cfg, s, acts)
    decreases |acts|
  {
    if acts == [] then 0
    else
      One(acts[0].Finish? && acts[0].m == y && s.clients[y].running[acts[0].i] == x)
      + Finishes(cfg, Next(cfg, s, acts[0]), acts[1..], y, x)
  }

  lemma PutIsWanted(cfg: Config, s: State, act: Action, y: string, x: Message)
    requires cfg.Valid() && SameClients(cfg, s) && Enabled(cfg, s, act) && y in cfg.names && x.id.None?
    ensures PutBy(cfg, s, act, y, x)
         == if act.Write? then Expected(cfg.names, act.m, s.clients[act.m].ops[act.n].msg, y, x) else 0
  {
    hide Due, Answer, Config.Valid, Deliveries, Expected;
    if act.Write? {
      DueIsExpected(cfg, act.m, s.clients[act.m].ops[act.n].msg, y, x);
    } else if act.Finish? {
      var msg := s.clients[act.m].running[act.i];
      AnswersAreNoNotifications(cfg.callbacks[act.m], cfg.names, act.m, msg, act.outcome, y, x);
      var answer := Answer(cfg.callbacks[act.m], msg, act.outcome);
      if answer.Some? {
        DueIsExpected(cfg, act.m, answer.value, y, x);
      }
    }
  }

  lemma DoneIsFinish(cfg: Config, s: State, act: Action, y: string, x: Message)
    requires Enabled(cfg, s, act) && x.id.None?
    ensures DoneBy(cfg, s, act, y, x) == One(act.Finish? && act.m == y && s.clients[y].running[act.i] == x)
  {
    hide Answer;
  }

  lemma {:induction false} RunOfNotifications(cfg: Config, s: State, acts: seq<Action>, y: string, x: Message)
    requires cfg.Valid() && SameClients(cfg, s) && Legal(cfg, s, acts) && y in cfg.names && x.id.None?
    ensures Put(cfg, s, acts, y, x) == Wanted(cfg, s, acts, y, x)
    ensures Done(cfg, s, acts, y, x) == Finishes(cfg, s, acts, y, x)
    decreases |acts|
  {
    hide PutBy, DoneBy, Next, InHub, Config.Valid, Expected, Answer;
    if acts != [] {
      PutIsWanted(cfg, s, acts[0], y, x);
      DoneIsFinish(cfg, s, acts[0], y, x);
      StepAccounts(cfg, s, acts[0], y, x);
      RunOfNotifications(cfg, Next(cfg, s, acts[0]), acts[1..], y, x);
    }
  }

  /** Over every run, each notification for the module it is meant for, and each broadcast for each module
      that is to get a copy, is exactly as often as it should be, once unless a module notifies itself:
      still to be relayed, on its way, in the incoming queue, running, or done. So no module runs its
      callback for it more often; and when the hub is empty, it has run that often. */
  lemma NotificationsReachEachOnce(cfg: Config, s: State, acts: seq<Action>, y: string, x: Message)
    requires cfg.Valid() && IsInit(cfg, s) && Legal(cfg, s, acts) && y in cfg.names && x.id.None?
    ensures var s' := Run(cfg, s, acts);
      && SameClients(cfg, s')
      && Wanted(cfg, s, acts, y, x) == InHub(cfg.names, y, x, cfg.names, s'.clients) + Finishes(cfg, s, acts, y, x)
      && (Drained(s') ==> Finishes(cfg, s, acts, y, x) == Wanted(cfg, s, acts, y, x))
  {
    hide Legal, Run, Put, Done, Wanted, Finishes, Config.Valid;
    var s' := Run(cfg, s, acts);
    MessagesAreConserved(cfg, s, acts, y, x);
    RunOfNotifications(cfg, s, acts, y, x);
    if Drained(s') {
      EmptyHub(cfg.names, y, x, cfg.names, s'.clients);
    }
  }
}
