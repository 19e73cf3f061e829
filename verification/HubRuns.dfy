/** The invariant over whole runs, and what it says about every reachable state of the hub: where a
    call may be, who resolves it, and what the pending table holds. */
module HubRuns {

  import opened Wrappers
  import opened Words
  import opened JsonRpc
  import opened Hub
  import opened HubLedger
  import opened HubInvariant
  import opened HubClients
  import opened HubRelay
  import opened HubSteps
  import opened HubTraffic
  import opened HubReading

  // ---- every step ----

  lemma StepKeepsInv(cfg: Config, s: State, act: Action)
    requires Inv(cfg, s) && Enabled(cfg, s, act) && Bounded(Next(cfg, s, act))
    ensures Inv(cfg, Next(cfg, s, act))
  {
    hide Inv, Next, Bounded, Config.Gate;
    match act
    case Write(m, n) => WriteStep(cfg, s, m, n);
    case RelayTake(m) => TakeStep(cfg, s, m);
    case Deliver(m) => DeliverStep(cfg, s, m);
    case Read(m) =>
      if s.clients[m].incoming[0].IsResponse() {
        ReplyReadStep(cfg, s, m);
      } else {
        RequestReadStep(cfg, s, m);
      }
    case Finish(m, i, outcome) => FinishStep(cfg, s, m, i, outcome);
    case _ => QuietStep(cfg, s, act);
  }

  lemma CountersGrow(cfg: Config, s: State, act: Action)
    requires Enabled(cfg, s, act)
    ensures Bounded(Next(cfg, s, act)) ==> Bounded(s)
    ensures IsInternal(act) && Bounded(s) ==> Bounded(Next(cfg, s, act))
    ensures forall m :: m in s.clients <==> m in Next(cfg, s, act).clients
  {
    hide Config.Gate, Deliveries, Answer, Message.IsResponse;
    var s' := Next(cfg, s, act);
    forall m | m in s.clients
      ensures m in s'.clients && s.clients[m].counter <= s'.clients[m].counter
      ensures IsInternal(act) ==> s.clients[m].counter == s'.clients[m].counter
    {
    }
  }

  lemma {:induction false} RunKeepsInv(cfg: Config, s: State, acts: seq<Action>)
    requires Inv(cfg, s) && Legal(cfg, s, acts) && Bounded(Run(cfg, s, acts))
    ensures Inv(cfg, Run(cfg, s, acts)) && Bounded(s)
    decreases |acts|
  {
    hide Inv, Next, Enabled, Bounded;
    if acts != [] {
      BoundedBackwards(cfg, Next(cfg, s, acts[0]), acts[1..]);
      StepKeepsInv(cfg, s, acts[0]);
      CountersGrow(cfg, s, acts[0]);
      RunKeepsInv(cfg, Next(cfg, s, acts[0]), acts[1..]);
    }
  }

  lemma {:induction false} BoundedBackwards(cfg: Config, s: State, acts: seq<Action>)
    requires Legal(cfg, s, acts) && Bounded(Run(cfg, s, acts))
    ensures Bounded(s)
    decreases |acts|
  {
    hide Next, Enabled, Bounded;
    if acts != [] {
      BoundedBackwards(cfg, Next(cfg, s, acts[0]), acts[1..]);
      CountersGrow(cfg, s, acts[0]);
    }
  }

  lemma InitialInv(cfg: Config, s: State)
    requires cfg.Valid() && IsInit(cfg, s)
    ensures Inv(cfg, s)
  {
    forall x | x in s.clients
      ensures OpsOk(cfg.names, s.written, x, s.clients[x]) && PlacesOk(cfg.names, s.written, x, s.clients[x])
    {
    }
    AssembleInv(cfg, s);
  }

  /** A state that a run starting from idle clients can reach before any client has made more than
      2^32 requests. */
  ghost predicate Reachable(cfg: Config, s: State) {
    cfg.Valid() && Bounded(s) &&
    exists s0, acts :: IsInit(cfg, s0) && Legal(cfg, s0, acts) && Run(cfg, s0, acts) == s
  }

  /** The invariant holds in every reachable state. */
  lemma ReachableInv(cfg: Config, s: State)
    requires Reachable(cfg, s)
    ensures Inv(cfg, s)
  {
    var s0, acts :| IsInit(cfg, s0) && Legal(cfg, s0, acts) && Run(cfg, s0, acts) == s;
    hide Inv, Bounded, Config.Valid, IsInit;
    InitialInv(cfg, s0);
    RunKeepsInv(cfg, s0, acts);
  }

  // ---- conservation ----

  /** The call as the relay stamps it. */
  predicate IsStamped(call: Message, caller: string, x: Message) {
    x == call.(origin := caller)
  }

  /** Wherever a message counts for the call under this key, it is the call itself on its way from the
      caller to the module it names, or the reply on its way back. */
  ghost predicate OnItsWay(cfg: Config, s: State, key: Key, d: nat, m: string)
    requires key in s.written && m in s.clients
  {
    var c, call, target := s.clients[m], s.written[key].msg, s.written[key].msg.Namespace();
    var caller := key.origin;
    && (forall x :: x in c.outgoing && Weigh(cfg.names, Token(key, d), Outgoing, m, x) > 0 ==>
          (m == caller && x == call) || (m == target && IsReplyTo(call, caller, x)))
    && (forall p :: p in c.relaying && Weigh(cfg.names, Token(key, d), Relaying, m, p.msg) > 0 ==>
          || (m == caller && p.to == target && IsStamped(call, caller, p.msg))
          || (m == target && p.to == caller && IsReplyTo(call, caller, p.msg)))
    && (forall x :: x in c.incoming && Weigh(cfg.names, Token(key, d), Incoming, m, x) > 0 ==>
          (m == target && IsStamped(call, caller, x)) || (m == caller && IsReplyTo(call, caller, x)))
    && (forall x :: x in c.running && Weigh(cfg.names, Token(key, d), Running, m, x) > 0 ==>
          m == target && IsStamped(call, caller, x))
  }

  lemma OutIsOnItsWay(names: seq<string>, book: Book, key: Key, d: nat, m: string, x: Message)
    requires "" !in names && key.origin in names && key in book && OutOk(names, book, m, x)
    requires Weigh(names, Token(key, d), Outgoing, m, x) > 0
    ensures var call := book[key].msg;
      (m == key.origin && x == call) || (m == call.Namespace() && IsReplyTo(call, key.origin, x))
  {
    hide HasSuffix;
  }

  lemma RelayIsOnItsWay(names: seq<string>, book: Book, key: Key, d: nat, m: string, p: Delivery)
    requires "" !in names && key.origin in names && key in book && RelayOk(names, book, m, p)
    requires Weigh(names, Token(key, d), Relaying, m, p.msg) > 0
    ensures var call := book[key].msg;
      || (m == key.origin && p.to == call.Namespace() && IsStamped(call, key.origin, p.msg))
      || (m == call.Namespace() && p.to == key.origin && IsReplyTo(call, key.origin, p.msg))
  {
    hide HasSuffix;
  }

  lemma InIsOnItsWay(names: seq<string>, book: Book, key: Key, d: nat, m: string, x: Message)
    requires "" !in names && key.origin in names && key in book && InOk(names, book, m, x)
    requires Weigh(names, Token(key, d), Incoming, m, x) > 0
    ensures var call := book[key].msg;
      (m == call.Namespace() && IsStamped(call, key.origin, x)) || (m == key.origin && IsReplyTo(call, key.origin, x))
  {
    hide HasSuffix;
  }

  lemma RunIsOnItsWay(names: seq<string>, book: Book, key: Key, d: nat, m: string, x: Message)
    requires "" !in names && key.origin in names && key in book && RunOk(names, book, m, x)
    requires Weigh(names, Token(key, d), Running, m, x) > 0
    ensures m == book[key].msg.Namespace() && IsStamped(book[key].msg, key.origin, x)
  {
    hide HasSuffix;
  }

  lemma PlacesAreOnTheWay(cfg: Config, s: State, key: Key, d: nat, m: string)
    requires "" !in cfg.names && key.origin in cfg.names && key in s.written && m in s.clients
    requires PlacesOk(cfg.names, s.written, m, s.clients[m])
    ensures OnItsWay(cfg, s, key, d, m)
  {
    hide OutOk, RelayOk, InOk, RunOk, Weigh, IsReplyTo, IsStamped;
    var names, book, c := cfg.names, s.written, s.clients[m];
    forall x | x in c.outgoing && Weigh(names, Token(key, d), Outgoing, m, x) > 0
      ensures (m == key.origin && x == book[key].msg)
        || (m == book[key].msg.Namespace() && IsReplyTo(book[key].msg, key.origin, x))
    {
      OutIsOnItsWay(names, book, key, d, m, x);
    }
    forall p | p in c.relaying && Weigh(names, Token(key, d), Relaying, m, p.msg) > 0
      ensures (m == key.origin && p.to == book[key].msg.Namespace() && IsStamped(book[key].msg, key.origin, p.msg))
        || (m == book[key].msg.Namespace() && p.to == key.origin && IsReplyTo(book[key].msg, key.origin, p.msg))
    {
      RelayIsOnItsWay(names, book, key, d, m, p);
    }
    forall x | x in c.incoming && Weigh(names, Token(key, d), Incoming, m, x) > 0
      ensures (m == book[key].msg.Namespace() && IsStamped(book[key].msg, key.origin, x))
        || (m == key.origin && IsReplyTo(book[key].msg, key.origin, x))
    {
      InIsOnItsWay(names, book, key, d, m, x);
    }
    forall x | x in c.running && Weigh(names, Token(key, d), Running, m, x) > 0
      ensures m == book[key].msg.Namespace() && IsStamped(book[key].msg, key.origin, x)
    {
      RunIsOnItsWay(names, book, key, d, m, x);
    }
  }

  /** Every call ever written to a module that exists is in the hub exactly once, as a request on its way
      to that module, running there, or as a reply on its way back to the caller, until its reply is
      consumed; and its callback starts exactly once. A module that calls itself gets every message
      twice: two executions, four replies. */
  lemma CallsAreConserved(cfg: Config, s: State, key: Key)
    requires Reachable(cfg, s)
    requires key in s.written && Deliverable(cfg.names, s.written[key].msg)
    ensures var d := if s.written[key].msg.Namespace() == key.origin then 2 else 1;
      && SameNames(cfg, s)
      && TotalOf(cfg, s, Token(key, d)) + s.consumed[key] == d * d
      && TotalOf(cfg, s, Request(key, d)) + s.ran[key] == d
      && forall m :: m in s.clients ==> OnItsWay(cfg, s, key, d, m)
  {
    ReachableInv(cfg, s);
    hide OpsOk, PlacesOk, Deliverable, OnItsWay;
    assert Accounted(cfg, s, key);
    NoEmptyName(cfg);
    var d := CopiesOf(s.written, key);
    forall m | m in s.clients
      ensures OnItsWay(cfg, s, key, d, m)
    {
      PlacesAreOnTheWay(cfg, s, key, d, m);
    }
  }

  lemma {:induction false} SumDominates(f: Message -> nat, g: Message -> nat, d: nat, q: seq<Message>)
    requires forall x :: d * g(x) <= f(x)
    ensures d * Sum(g, q) <= Sum(f, q)
  {
    if q != [] {
      SumDominates(f, g, d, q[1..]);
      assert d * (g(q[0]) + Sum(g, q[1..])) == d * g(q[0]) + d * Sum(g, q[1..]);
    }
  }

  lemma RequestWithinToken(names: seq<string>, key: Key, d: nat, place: Place, m: string, x: Message)
    requires d == 1 || d == 2
    ensures d * Weigh(names, Request(key, d), place, m, x) <= Weigh(names, Token(key, d), place, m, x)
  {
    var r := Weigh(names, Request(key, d), place, m, x);
    assert r == 0 || r == 1 || r == d;
    assert d * 0 == 0 && d * 1 == d;
  }

  lemma TokenDominates(names: seq<string>, key: Key, d: nat, place: Place, m: string, q: seq<Message>)
    requires d == 1 || d == 2
    ensures d * Sum(Weight(names, Request(key, d), place, m), q) <= Sum(Weight(names, Token(key, d), place, m), q)
  {
    forall x
      ensures d * Weight(names, Request(key, d), place, m)(x) <= Weight(names, Token(key, d), place, m)(x)
    {
      RequestWithinToken(names, key, d, place, m, x);
    }
    SumDominates(Weight(names, Token(key, d), place, m), Weight(names, Request(key, d), place, m), d, q);
  }

  lemma {:induction false} TotalDominates(names: seq<string>, key: Key, d: nat, over: seq<string>, clients: map<string, Client>)
    requires d == 1 || d == 2
    requires forall x :: x in over ==> x in clients
    ensures d * Total(names, Request(key, d), over, clients) <= Total(names, Token(key, d), over, clients)
  {
    hide Weight;
    if over != [] {
      TotalDominates(names, key, d, over[1..], clients);
      var c := clients[over[0]];
      TokenDominates(names, key, d, Outgoing, over[0], c.outgoing);
      TokenDominates(names, key, d, Relaying, over[0], Messages(c.relaying));
      TokenDominates(names, key, d, Incoming, over[0], c.incoming);
      TokenDominates(names, key, d, Running, over[0], c.running);
    }
  }

  lemma StartedBeforeConsumed(cfg: Config, s: State, key: Key)
    requires Accounted(cfg, s, key) && s.consumed[key] > 0
    ensures s.ran[key] > 0
  {
    hide Total;
    TotalDominates(cfg.names, key, CopiesOf(s.written, key), cfg.names, s.clients);
  }

  lemma ResolvedOp(names: seq<string>, book: Book, m: string, c: Client, n: nat)
    requires OpsOk(names, book, m, c) && n < |c.ops| && c.ops[n].reply.Some?
    ensures var op := c.ops[n];
      op.msg.id.Some? && IsReplyTo(op.msg, m, op.reply.value) && Deliverable(names, op.msg)
      && Key(m, op.msg.id.value) in book && book[Key(m, op.msg.id.value)] == Record(op.msg, n)
  {
    hide LockOk, IdsOk, WaitOk, ShapesOk, IsReplyTo;
  }

  /** A resolved call went to a module that exists and was resolved by the reply to that very call,
      after its callback had started. A call nobody serves is never resolved. */
  lemma ResolvedByOwnReply(cfg: Config, s: State, m: string, n: nat)
    requires Reachable(cfg, s) && m in s.clients && n < |s.clients[m].ops|
    requires s.clients[m].ops[n].reply.Some?
    ensures var op := s.clients[m].ops[n];
      && op.msg.id.Some?
      && IsReplyTo(op.msg, m, op.reply.value)
      && Deliverable(cfg.names, op.msg)
      && s.ran[Key(m, op.msg.id.value)] > 0
  {
    hide OpsOk, PlacesOk, Deliverable, IsReplyTo, Config.Valid, Accounted, Reachable;
    ReachableInv(cfg, s);
    var op := s.clients[m].ops[n];
    ResolvedOp(cfg.names, s.written, m, s.clients[m], n);
    var key := Key(m, op.msg.id.value);
    assert Accounted(cfg, s, key);
    SettledMeansConsumed(cfg, s, key);
    StartedBeforeConsumed(cfg, s, key);
  }

  lemma SettledMeansConsumed(cfg: Config, s: State, key: Key)
    requires Accounted(cfg, s, key)
    ensures s.written[key].op < |s.clients[key.origin].ops|
    ensures s.clients[key.origin].ops[s.written[key].op].reply.Some? ==> s.consumed[key] > 0
    ensures s.consumed[key] > 0 ==>
      (var op := s.clients[key.origin].ops[s.written[key].op]; op.reply.Some? || op.phase == Phase.TimedOut)
  {
    hide Balanced;
  }

  // ---- resolving at most once ----

  ghost predicate RepliesPersist(c: Client, c': Client) {
    |c.ops| <= |c'.ops| &&
    forall n :: 0 <= n < |c.ops| && c.ops[n].reply.Some? ==> c'.ops[n].reply == c.ops[n].reply
  }

  /** No step, of any client, ever changes the reply of a resolved call. */
  lemma StepKeepsReplies(cfg: Config, s: State, act: Action, m: string)
    requires Enabled(cfg, s, act) && m in s.clients
    ensures m in Next(cfg, s, act).clients
    ensures RepliesPersist(s.clients[m], Next(cfg, s, act).clients[m])
  {
    hide Config.Gate, Deliveries, Answer;
    if act.m == m && !IsInternal(act) && !act.Write? {
      QuietShape(cfg, s, act);
    }
  }

  /** Once resolved, a call keeps its reply in every continuation: it is resolved at most once. */
  lemma {:induction false} ResolvedAtMostOnce(cfg: Config, s: State, acts: seq<Action>, m: string, n: nat)
    requires Legal(cfg, s, acts) && m in s.clients && n < |s.clients[m].ops| && s.clients[m].ops[n].reply.Some?
    ensures var s' := Run(cfg, s, acts);
      m in s'.clients && n < |s'.clients[m].ops| && s'.clients[m].ops[n].reply == s.clients[m].ops[n].reply
    decreases |acts|
  {
    hide Enabled, Next;
    if acts != [] {
      StepKeepsReplies(cfg, s, acts[0], m);
      ResolvedAtMostOnce(cfg, Next(cfg, s, acts[0]), acts[1..], m, n);
    }
  }

  /** Operation n gets the reply `msg` if it was still waiting; nothing else changes, and nothing at
      all if it had timed out. */
  predicate ResolvesOnly(c: Client, c': Client, n: nat, msg: Message) {
    && n < |c.ops| == |c'.ops|
    && (forall k :: 0 <= k < |c.ops| && k != n ==> c'.ops[k] == c.ops[k])
    && c'.ops[n].phase == c.ops[n].phase
    && (c.ops[n].phase == Phase.TimedOut || c.ops[n].reply.Some? ==> c'.ops == c.ops)
    && (c.ops[n].phase == Phase.TimedOut ==> c'.respWait == c.respWait)
    && (c.ops[n].phase != Phase.TimedOut && c.ops[n].reply.None? ==> c'.ops[n].reply == Some(msg))
  }

  /** Reading a reply changes no operation but the one that made the call, and not even that one when
      it has timed out: a late reply is dropped and never resolves another call. */
  lemma ReplyResolvesOnlyItsOp(cfg: Config, s: State, m: string, msg: Message)
    requires Reachable(cfg, s) && m in s.clients
    requires s.clients[m].incoming != [] && s.clients[m].incoming[0] == msg && msg.IsResponse()
    ensures Key(m, msg.id.value) in s.written
    ensures ResolvesOnly(s.clients[m], HandleMsg(Unqueued(s.clients[m]), msg), s.written[Key(m, msg.id.value)].op, msg)
  {
    hide OpsOk, PlacesOk, InOk, GoodReply, HandleReply, LedgerOk, Reachable, ResolvesOnly, Config.Valid;
    ReachableInv(cfg, s);
    var c := s.clients[m];
    NoEmptyName(cfg);
    UnqueuedPlaces(cfg.names, s.written, m, c);
    ReadKinds(cfg.names, s.written, m, msg);
    GoodReplyHasId(cfg.names, s.written, msg);
    HandleReplyResolvesOnly(cfg.names, s.written, m, c, msg);
  }

  lemma HandleReplyResolvesOnly(names: seq<string>, book: Book, m: string, c: Client, msg: Message)
    requires OpsOk(names, book, m, c) && GoodReply(names, book, msg) && msg.origin == m && c.incoming != []
    ensures msg.id.Some? && Key(m, msg.id.value) in book
    ensures ResolvesOnly(c, HandleReply(Unqueued(c), msg), book[Key(m, msg.id.value)].op, msg)
  {
    hide OpsOk, GoodReply;
    GoodReplyHasId(names, book, msg);
    SameOpsKeepOps(names, book, m, c, Unqueued(c));
    ReplySettles(names, book, m, Unqueued(c), msg);
  }

  // ---- the pending table ----

  lemma ReplyWaitsInIncoming(cfg: Config, s: State, m: string, msg: Message)
    requires Inv(cfg, s) && m in s.clients && msg in s.clients[m].incoming && msg.IsResponse()
    ensures GoodReply(cfg.names, s.written, msg) && msg.origin == m
    ensures var key := Key(m, msg.id.value);
      forall d: nat :: TotalOf(cfg, s, Token(key, d)) >= 1
  {
    hide OpsOk, LedgerOk, Total, ClientSum, Weight, Weigh, GoodReply;
    NoEmptyName(cfg);
    assert PlacesOk(cfg.names, s.written, m, s.clients[m]);
    ReadKinds(cfg.names, s.written, m, msg);
    GoodReplyHasId(cfg.names, s.written, msg);
    var key := Key(m, msg.id.value);
    forall d: nat
      ensures TotalOf(cfg, s, Token(key, d)) >= 1
    {
      ReplyWeighs(cfg.names, s.written, m, msg, Token(key, d));
      SumMember(Weight(cfg.names, Token(key, d), Incoming, m), s.clients[m].incoming, msg);
      IncomingWithinTotal(cfg, s, m, Token(key, d));
    }
  }

  lemma IncomingWithinTotal(cfg: Config, s: State, m: string, p: Probe)
    requires SameNames(cfg, s) && m in s.clients
    ensures Sum(Weight(cfg.names, p, Incoming, m), s.clients[m].incoming) <= TotalOf(cfg, s, p)
  {
    hide Weight;
    TotalMember(cfg.names, p, cfg.names, s.clients, m);
  }

  /** The pending table holds operation n, and n is waiting, under id i. */
  predicate Registered(c: Client, i: string, n: nat) {
    i in c.respWait && c.respWait[i] == n && Pending(c, n) && c.ops[n].WaitKey() == i
  }

  /** When a reply to a call reaches the caller's client, the call is still registered under its id,
      unless it timed out; or the module called itself and this is not the first of the several
      replies it then gets: an earlier one has resolved the call. */
  lemma RegisteredUnlessTimedOut(cfg: Config, s: State, m: string, msg: Message)
    requires Reachable(cfg, s) && m in s.clients && msg in s.clients[m].incoming && msg.IsResponse()
    ensures Key(m, msg.id.value) in s.written
    ensures var record := s.written[Key(m, msg.id.value)];
      || Registered(s.clients[m], msg.id.value, record.op)
      || InPhase(s.clients[m], record.op, Phase.TimedOut)
      || (record.msg.Namespace() == m && record.op < |s.clients[m].ops| && s.clients[m].ops[record.op].reply.Some?)
  {
    hide OpsOk, PlacesOk, Total, Config.Valid, Reachable, Accounted, GoodReply;
    ReachableInv(cfg, s);
    ReplyWaitsInIncoming(cfg, s, m, msg);
    GoodReplyHasId(cfg.names, s.written, msg);
    var key := Key(m, msg.id.value);
    GoodReplyIsAccounted(cfg, s, msg);
    NotYetConsumed(cfg, s, key);
    WrittenOp(cfg.names, s.written, m, s.clients[m], msg.id.value);
    var n := s.written[key].op;
    if s.clients[m].ops[n].reply.None? && !InPhase(s.clients[m], n, Phase.TimedOut) {
      PendingBecauseSent(cfg.names, s.written, m, s.clients[m], s.written[key].op);
    }
  }

  lemma GoodReplyIsAccounted(cfg: Config, s: State, msg: Message)
    requires LedgerOk(cfg, s) && GoodReply(cfg.names, s.written, msg)
    ensures msg.id.Some? && Accounted(cfg, s, Key(msg.origin, msg.id.value))
  {
    hide Accounted, IsReplyTo;
  }

  lemma NotYetConsumed(cfg: Config, s: State, key: Key)
    requires Accounted(cfg, s, key)
    requires TotalOf(cfg, s, Token(key, 1)) >= 1
    ensures s.written[key].msg.Namespace() != key.origin ==>
      s.clients[key.origin].ops[s.written[key].op].reply.None?
  {
    hide Total;
  }

  lemma WrittenOp(names: seq<string>, book: Book, m: string, c: Client, i: string)
    requires OpsOk(names, book, m, c) && Key(m, i) in book
    ensures var n := book[Key(m, i)].op;
      n < |c.ops| && c.ops[n].msg.id == Some(i) && c.ops[n].Written() && c.ops[n].WaitKey() == i
  {
    hide LockOk, IdsOk, WaitOk, ShapesOk, RepliesOk;
  }

  lemma PendingBecauseSent(names: seq<string>, book: Book, m: string, c: Client, n: nat)
    requires OpsOk(names, book, m, c) && n < |c.ops| && c.ops[n].IsCall() && c.ops[n].Written()
    requires c.ops[n].reply.None? && c.ops[n].phase != Phase.TimedOut
    ensures Pending(c, n) && c.ops[n].WaitKey() in c.respWait && c.respWait[c.ops[n].WaitKey()] == n
  {
    hide LockOk, IdsOk, ShapesOk, RecordsOk;
  }

  /** The write signal of a client concerns its `lastOp` and nothing else. */
  predicate SignalIsForLastOp(c: Client) {
    && (forall n :: 0 <= n < |c.ops| && c.ops[n].phase == Initialized ==> c.lock == Some(n) && c.reqSent.None?)
    && (c.reqSent == Some(true) ==> ClientSent(c).respWait == c.respWait)
    && (c.reqSent == Some(false) ==>
          && c.lock.Some? && c.lock.value < |c.ops|
          && c.ops[c.lock.value].phase == WriteFailed
          && ClientSent(c).respWait == c.respWait - {c.ops[c.lock.value].WaitKey()}
          && forall k :: 0 <= k < |c.ops| && k != c.lock.value && Pending(c, k) ==>
               Registered(ClientSent(c), c.ops[k].WaitKey(), k))
  }

  /** Between registration and write signal there is at most one operation, the one holding the send
      lock; so the signal of a failed write deregisters exactly the operation whose write failed, and
      every other pending call stays registered. The signal never finds its buffer occupied. */
  lemma WriteSignalIsForLastOp(cfg: Config, s: State, m: string)
    requires Reachable(cfg, s) && m in s.clients
    ensures SignalIsForLastOp(s.clients[m])
  {
    ReachableInv(cfg, s);
    hide PlacesOk, LedgerOk, OpsOk, Config.Valid, Reachable;
    FailedWriteFreesOnlyItself(cfg.names, s.written, m, s.clients[m]);
  }

  lemma FailedWriteFreesOnlyItself(names: seq<string>, book: Book, m: string, c: Client)
    requires OpsOk(names, book, m, c)
    ensures SignalIsForLastOp(c)
  {
    hide OpsOk;
    LockFacts(names, book, m, c);
    if c.reqSent == Some(false) {
      SentKeepsOps(names, book, m, c);
      forall k | 0 <= k < |c.ops| && k != c.lock.value && Pending(c, k)
        ensures Registered(ClientSent(c), c.ops[k].WaitKey(), k)
      {
        assert Pending(ClientSent(c), k);
        PendingIsRegistered(names, book, m, ClientSent(c), k);
      }
    }
  }

  lemma LockFacts(names: seq<string>, book: Book, m: string, c: Client)
    requires OpsOk(names, book, m, c)
    ensures forall n :: 0 <= n < |c.ops| && c.ops[n].phase == Initialized ==> c.lock == Some(n) && c.reqSent.None?
    ensures c.reqSent == Some(false) ==>
      c.lock.Some? && c.lock.value < |c.ops| && c.ops[c.lock.value].phase == WriteFailed
  {
    hide IdsOk, WaitOk, ShapesOk, RecordsOk, RepliesOk;
  }

  lemma PendingIsRegistered(names: seq<string>, book: Book, m: string, c: Client, k: nat)
    requires OpsOk(names, book, m, c) && Pending(c, k)
    ensures c.ops[k].WaitKey() in c.respWait && c.respWait[c.ops[k].WaitKey()] == k
  {
    hide LockOk, IdsOk, ShapesOk, RecordsOk, RepliesOk;
  }

  /** Two calls of one client never carry the same id, and the pending table holds each pending call
      under its own id and no other call. */
  lemma PendingTableIsExact(cfg: Config, s: State, m: string)
    requires Reachable(cfg, s) && m in s.clients
    ensures var c := s.clients[m];
      && (forall n, k :: 0 <= n < |c.ops| && 0 <= k < |c.ops| && n != k && c.ops[n].IsCall() && c.ops[k].IsCall() ==>
            c.ops[n].WaitKey() != c.ops[k].WaitKey())
      && (forall i, n :: i != "" && 0 <= n < |c.ops| ==>
            ((i in c.respWait && c.respWait[i] == n) <==> (Pending(c, n) && c.ops[n].WaitKey() == i)))
  {
    ReachableInv(cfg, s);
    var c := s.clients[m];
    hide PlacesOk, LedgerOk, Config.Valid, LockOk, ShapesOk, RecordsOk, RepliesOk;
    assert OpsOk(cfg.names, s.written, m, c);
    IdsGiveDistinctCalls(c);
    hide IdsOk;
  }

  // ---- notifications and broadcasts ----

  /** In every reachable state a running callback produces an answer exactly when its message carries
      an id: a notification or broadcast copy never causes a reply. */
  lemma OnlyCallsAreAnswered(cfg: Config, s: State, m: string, i: nat, outcome: Outcome)
    requires Reachable(cfg, s) && m in s.clients && m in cfg.callbacks && i < |s.clients[m].running|
    ensures Answer(cfg.callbacks[m], s.clients[m].running[i], outcome).Some? <==> s.clients[m].running[i].id.Some?
  {
    hide OpsOk, PlacesOk, LedgerOk, RunOk, Answer, Reachable;
    ReachableInv(cfg, s);
    NoEmptyName(cfg);
    FinishedPlaces(cfg.names, s.written, cfg.callbacks[m], m, s.clients[m], i, outcome);
    FinishKeepsPlaces(cfg.names, s.written, cfg.callbacks[m], m, s.clients[m].running[i], outcome);
  }

  /** A reply that names a caller is relayed to that caller and to nobody else; it never starts a
      broadcast. */
  lemma RepliesAreNotBroadcast(cfg: Config, s: State, m: string, d: Delivery)
    requires Reachable(cfg, s) && m in s.clients && s.clients[m].outgoing != []
    requires s.clients[m].outgoing[0].IsResponse() && s.clients[m].outgoing[0].origin in cfg.names
    requires d in Deliveries(cfg.names, m, s.clients[m].outgoing[0])
    ensures d == Delivery(s.clients[m].outgoing[0].origin, s.clients[m].outgoing[0])
  {
    hide OpsOk, PlacesOk, LedgerOk, OutOk, Deliveries, Reachable;
    ReachableInv(cfg, s);
    NoEmptyName(cfg);
    TakenPlaces(cfg.names, s.written, m, s.clients[m]);
    ReplyDelivery(cfg.names, s.written, m, s.clients[m].outgoing[0], d);
  }

  lemma ReplyDelivery(names: seq<string>, book: Book, m: string, msg: Message, d: Delivery)
    requires m in names && "" !in names && OutOk(names, book, m, msg)
    requires msg.IsResponse() && msg.origin in names && d in Deliveries(names, m, msg)
    ensures d == Delivery(msg.origin, msg)
  {
    hide OutOk, Deliveries, GoodReply, StampedCall;
    StampFacts(names, book, m, msg);
    DeliverySource(names, m, msg, d);
  }

  // ---- the limit on ids ----

  /** Why 2^32: request number k + 2^32 of a client is given the id of request number k. */
  lemma IdsWrapAround(k: nat, procedure: string, notifyAll: bool, exclusion: seq<string>, params: Option<string>)
    ensures NewMessage(k, procedure, notifyAll, exclusion, params, true)
         == NewMessage(k + ID_SPACE, procedure, notifyAll, exclusion, params, true)
  {
    assert (k + 1) % ID_SPACE == (k + ID_SPACE + 1) % ID_SPACE;
  }
}
