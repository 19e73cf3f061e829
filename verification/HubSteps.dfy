/** Every action keeps the invariant of the hub. */
module HubSteps {

  import opened JsonRpc
  import opened Hub
  import opened HubLedger
  import opened HubInvariant
  import opened HubClients

  ghost function TotalOf(cfg: Config, s: State, p: Probe): nat
    requires SameNames(cfg, s)
  {
    Total(cfg.names, p, cfg.names, s.clients)
  }

  ghost function WithClient(s: State, m: string, c: Client): State {
    s.(clients := s.clients[m := c])
  }

  lemma UpdateTotal(cfg: Config, s: State, p: Probe, m: string, c: Client)
    requires cfg.Valid() && SameNames(cfg, s) && m in s.clients
    ensures SameNames(cfg, WithClient(s, m, c))
    ensures TotalOf(cfg, WithClient(s, m, c), p) + ClientSum(cfg.names, p, m, s.clients[m])
         == TotalOf(cfg, s, p) + ClientSum(cfg.names, p, m, c)
  {
    TotalUpdate(cfg.names, p, cfg.names, s.clients, m, c);
  }

  ghost predicate SameQueues(c: Client, c': Client) {
    c'.outgoing == c.outgoing && c'.relaying == c.relaying && c'.incoming == c.incoming && c'.running == c.running
  }

  /** No operation gets or loses a reply, and none stops being timed out. */
  ghost predicate SameReplies(c: Client, c': Client) {
    && |c.ops| <= |c'.ops|
    && forall n :: 0 <= n < |c.ops| ==>
         c'.ops[n].reply == c.ops[n].reply && (c.ops[n].phase == Phase.TimedOut ==> c'.ops[n].phase == Phase.TimedOut)
  }

  // ---- steps that touch no queue ----

  lemma QuietTotals(cfg: Config, s: State, m: string, c': Client, p: Probe)
    requires cfg.Valid() && SameNames(cfg, s) && m in s.clients && SameQueues(s.clients[m], c')
    ensures SameNames(cfg, WithClient(s, m, c'))
    ensures TotalOf(cfg, WithClient(s, m, c'), p) == TotalOf(cfg, s, p)
  {
    UpdateTotal(cfg, s, p, m, c');
  }

  /** The invariant follows from its parts, module by module and call by call. */
  lemma AssembleInv(cfg: Config, s: State)
    requires cfg.Valid() && SameNames(cfg, s)
    requires forall key: Key :: key in s.written ==> key.origin in cfg.names
    requires forall x :: x in s.clients ==>
      OpsOk(cfg.names, s.written, x, s.clients[x]) && PlacesOk(cfg.names, s.written, x, s.clients[x])
    requires forall key :: key in s.written && Deliverable(cfg.names, s.written[key].msg) ==>
      Accounted(cfg, s, key)
    requires forall key: Key :: key.origin in cfg.names && key !in s.written ==> s.ran[key] == 0 && s.consumed[key] == 0
    ensures Inv(cfg, s)
  {
  }

  lemma QuietKeepsLedger(cfg: Config, s: State, m: string, c': Client, key: Key)
    requires cfg.Valid() && SameNames(cfg, s) && m in s.clients
    requires SameQueues(s.clients[m], c') && SameReplies(s.clients[m], c')
    requires Accounted(cfg, s, key)
    ensures var s' := WithClient(s, m, c'); Accounted(cfg, s', key)
  {
    var d := CopiesOf(s.written, key);
    QuietTotals(cfg, s, m, c', Token(key, d));
    QuietTotals(cfg, s, m, c', Request(key, d));
  }

  lemma SameQueuesKeepPlaces(names: seq<string>, book: Book, m: string, c: Client, c': Client)
    requires PlacesOk(names, book, m, c) && SameQueues(c, c')
    ensures PlacesOk(names, book, m, c')
  {
  }

  lemma QuietKeepsInv(cfg: Config, s: State, m: string, c': Client)
    requires Inv(cfg, s) && m in s.clients
    requires SameQueues(s.clients[m], c') && SameReplies(s.clients[m], c')
    requires OpsOk(cfg.names, s.written, m, c')
    ensures Inv(cfg, WithClient(s, m, c'))
  {
    hide OpsOk, PlacesOk, Deliverable, Accounted;
    var s' := WithClient(s, m, c');
    SameQueuesKeepPlaces(cfg.names, s.written, m, s.clients[m], c');
    forall key | key in s.written && Deliverable(cfg.names, s.written[key].msg)
      ensures Accounted(cfg, s', key)
    {
      QuietKeepsLedger(cfg, s, m, c', key);
    }
    AssembleInv(cfg, s');
  }

  lemma NewOpStep(cfg: Config, s: State, act: Action)
    requires Inv(cfg, s) && Enabled(cfg, s, act) && Bounded(Next(cfg, s, act)) && act.NewOp?
    ensures OpsOk(cfg.names, s.written, act.m, Next(cfg, s, act).clients[act.m])
  {
    hide OpsOk, PlacesOk, Deliverable, Accounted, LedgerOk, CallShape, NotifyShape, Config.Gate;
    var c := s.clients[act.m];
    var msg := NewMessage(c.counter, act.procedure, act.notifyAll, act.exclusion, act.params, act.isCall);
    assert Next(cfg, s, act).clients[act.m].counter == c.counter + 1;
    GatedShape(cfg, msg, act.notifyAll, (c.counter + 1) % ID_SPACE);
    if act.encodes {
      NewOpKeepsOps(cfg.names, s.written, act.m, c, msg);
    } else {
      CountKeepsOps(cfg.names, s.written, act.m, c);
    }
  }

  lemma QuietKeepsOps(cfg: Config, s: State, act: Action)
    requires Inv(cfg, s) && Enabled(cfg, s, act) && Bounded(Next(cfg, s, act))
    requires !IsInternal(act) && !act.Write?
    ensures OpsOk(cfg.names, s.written, act.m, Next(cfg, s, act).clients[act.m])
  {
    hide OpsOk, PlacesOk, Deliverable, Accounted, LedgerOk, Config.Gate;
    hide ClientInit, ClientWriteFails, ClientSent, ClientTimeOut;
    var c := s.clients[act.m];
    match act
    case NewOp(_, _, _, _, _, _, _) => NewOpStep(cfg, s, act);
    case GiveUp(m, n) => GiveUpKeepsOps(cfg.names, s.written, m, c, n);
    case Init(m, n) => InitKeepsOps(cfg.names, s.written, m, c, n);
    case WriteFails(m, n) => WriteFailsKeepsOps(cfg.names, s.written, m, c, n);
    case SentSignal(m) => SentKeepsOps(cfg.names, s.written, m, c);
    case Receive(m, n) => ReceiveKeepsOps(cfg.names, s.written, m, c, n);
    case TimeOut(m, n) => TimeOutKeepsOps(cfg.names, s.written, m, c, n);
  }

  lemma QuietShape(cfg: Config, s: State, act: Action)
    requires Enabled(cfg, s, act)
    requires !IsInternal(act) && !act.Write?
    ensures var c' := Next(cfg, s, act).clients[act.m];
      && Next(cfg, s, act) == WithClient(s, act.m, c')
      && SameQueues(s.clients[act.m], c')
      && SameReplies(s.clients[act.m], c')
  {
    hide Config.Gate;
  }

  lemma QuietStep(cfg: Config, s: State, act: Action)
    requires Inv(cfg, s) && Enabled(cfg, s, act) && Bounded(Next(cfg, s, act))
    requires !IsInternal(act) && !act.Write?
    ensures Inv(cfg, Next(cfg, s, act))
    ensures forall p :: TotalOf(cfg, Next(cfg, s, act), p) == TotalOf(cfg, s, p)
  {
    QuietShape(cfg, s, act);
    assert act.m in s.clients;
    hide OpsOk, PlacesOk, LedgerOk, Enabled, Next, SameQueues, SameReplies, Total;
    var c' := Next(cfg, s, act).clients[act.m];
    QuietKeepsOps(cfg, s, act);
    QuietKeepsInv(cfg, s, act.m, c');
    forall p
      ensures TotalOf(cfg, Next(cfg, s, act), p) == TotalOf(cfg, s, p)
    {
      QuietTotals(cfg, s, act.m, c', p);
    }
  }

  // ---- putting a message on the wire ----

  lemma WriteTotal(cfg: Config, s: State, m: string, n: nat, p: Probe)
    requires cfg.Valid() && SameNames(cfg, s) && m in s.clients && n < |s.clients[m].ops|
    ensures SameNames(cfg, WithClient(s, m, ClientWrite(s.clients[m], n)))
    ensures TotalOf(cfg, WithClient(s, m, ClientWrite(s.clients[m], n)), p)
         == TotalOf(cfg, s, p) + Weigh(cfg.names, p, Outgoing, m, s.clients[m].ops[n].msg)
  {
    var c := s.clients[m];
    UpdateTotal(cfg, s, p, m, ClientWrite(c, n));
    SumPush(Weight(cfg.names, p, Outgoing, m), c.outgoing, c.ops[n].msg);
  }

  lemma WrittenPlaces(names: seq<string>, book: Book, m: string, c: Client, n: nat, book': Book)
    requires PlacesOk(names, book, m, c) && OpsOk(names, book, m, c) && n < |c.ops|
    requires book' == if c.ops[n].IsCall() then book[Key(m, c.ops[n].msg.id.value) := Record(c.ops[n].msg, n)] else book
    requires c.ops[n].IsCall() ==> Key(m, c.ops[n].msg.id.value) !in book
    ensures PlacesOk(names, book', m, ClientWrite(c, n))
  {
    PlacesMonotone(names, book, book', m, c);
    hide PlacesOk, LockOk, IdsOk, WaitOk, RepliesOk, RecordsOk;
    assert OutOk(names, book', m, c.ops[n].msg);
    var c' := ClientWrite(c, n);
    assert PlacesOk(names, book', m, c') by {
      hide CallShape, NotifyShape;
      PushOut(names, book', m, c, c', c.ops[n].msg);
    }
  }

  lemma PushOut(names: seq<string>, book: Book, m: string, c: Client, c': Client, x: Message)
    requires PlacesOk(names, book, m, c) && OutOk(names, book, m, x)
    requires SameQueues(c.(outgoing := c.outgoing + [x]), c')
    ensures PlacesOk(names, book, m, c')
  {
    hide OutOk, InOk, RunOk, RelayOk;
  }

  lemma WriteKeepsParts(cfg: Config, s: State, m: string, n: nat, x: string)
    requires Inv(cfg, s) && Enabled(cfg, s, Write(m, n)) && x in s.clients
    ensures var s' := Next(cfg, s, Write(m, n));
      x in s'.clients && PlacesOk(cfg.names, s'.written, x, s'.clients[x]) && OpsOk(cfg.names, s'.written, x, s'.clients[x])
  {
    hide PlacesOk, OpsOk, Accounted, Deliverable, LedgerOk, Config.Valid, ClientWrite;
    var s' := Next(cfg, s, Write(m, n));
    var c := s.clients[m];
    assert OpsOk(cfg.names, s.written, x, s.clients[x]) && PlacesOk(cfg.names, s.written, x, s.clients[x]);
    WriteKeepsOps(cfg.names, s.written, m, c, n, s'.written);
    if x == m {
      WrittenPlaces(cfg.names, s.written, m, c, n, s'.written);
    } else {
      PlacesMonotone(cfg.names, s.written, s'.written, x, s.clients[x]);
      if c.ops[n].IsCall() {
        OthersKeepOps(cfg.names, s.written, m, c.ops[n].msg.id.value, Record(c.ops[n].msg, n), x, s.clients[x]);
      }
    }
  }

  lemma WriteWeighs(names: seq<string>, m: string, msg: Message, key: Key, d: nat)
    requires "" !in names && m in names && key.origin in names && msg.id.Some? ==> CallShape(names, msg)
    requires msg.origin == "" && m in names && key.origin in names && "" !in names
    ensures Weigh(names, Token(key, d), Outgoing, m, msg) == if msg.id.Some? && key == Key(m, msg.id.value) then d * d else 0
    ensures Weigh(names, Request(key, d), Outgoing, m, msg) == if msg.id.Some? && key == Key(m, msg.id.value) then d else 0
  {
  }

  lemma WriteKeepsOldBalance(cfg: Config, s: State, m: string, n: nat, book': Book, key: Key)
    requires cfg.Valid() && SameNames(cfg, s) && m in s.clients && InPhase(s.clients[m], n, Initialized)
    requires if s.clients[m].ops[n].IsCall() then CallShape(cfg.names, s.clients[m].ops[n].msg)
             else NotifyShape(s.clients[m].ops[n].msg)
    requires s.clients[m].ops[n].msg.origin == ""
    requires key in s.written && key in book' && book'[key] == s.written[key] && key.origin in cfg.names
    requires s.clients[m].ops[n].IsCall() ==> key != Key(m, s.clients[m].ops[n].msg.id.value)
    requires Accounted(cfg, s, key)
    ensures var s' := WithClient(s, m, ClientWrite(s.clients[m], n)).(written := book');
      Accounted(cfg, s', key)
  {
    var c := s.clients[m];
    var s' := WithClient(s, m, ClientWrite(c, n)).(written := book');
    WriteKeepsReplies(c, n);
    assert c.ops[n].msg.id.Some? == c.ops[n].IsCall();
    WriteKeepsSettled(s, m, ClientWrite(c, n), book', key);
    assert "" !in cfg.names;
    hide Total, Accounted, Settled, Config.Valid, ClientWrite, CallShape, NotifyShape, Op.IsCall;
    WriteKeepsTotals(cfg, s, m, n, key, CopiesOf(s.written, key));
    SameTotalsKeepAccount(cfg, s, s', key);
  }

  /** Writing another call adds nothing to what travels for this one. */
  lemma WriteKeepsTotals(cfg: Config, s: State, m: string, n: nat, key: Key, d: nat)
    requires cfg.Valid() && SameNames(cfg, s) && m in s.clients && n < |s.clients[m].ops|
    requires "" !in cfg.names && key.origin in cfg.names
    requires var msg := s.clients[m].ops[n].msg;
      msg.origin == "" && (msg.id.Some? ==> CallShape(cfg.names, msg) && key != Key(m, msg.id.value))
    ensures var s' := WithClient(s, m, ClientWrite(s.clients[m], n));
      && SameNames(cfg, s')
      && TotalOf(cfg, s', Token(key, d)) == TotalOf(cfg, s, Token(key, d))
      && TotalOf(cfg, s', Request(key, d)) == TotalOf(cfg, s, Request(key, d))
  {
    hide Weigh, Weight, Total, ClientSum, Config.Valid, ClientWrite, CallShape;
    WriteTotal(cfg, s, m, n, Token(key, d));
    WriteTotal(cfg, s, m, n, Request(key, d));
    WriteWeighs(cfg.names, m, s.clients[m].ops[n].msg, key, d);
  }

  lemma WriteKeepsSettled(s: State, m: string, c: Client, book: Book, key: Key)
    requires key in s.written && key in book && book[key] == s.written[key] && m in s.clients && Settled(s, key)
    requires SameReplies(s.clients[m], c) && |c.ops| == |s.clients[m].ops|
    ensures Settled(WithClient(s, m, c).(written := book), key)
  {
  }

  lemma SameTotalsKeepAccount(cfg: Config, s: State, s': State, key: Key)
    requires Accounted(cfg, s, key) && SameNames(cfg, s')
    requires key in s'.written && s'.written[key] == s.written[key]
    requires var d := CopiesOf(s.written, key);
      && TotalOf(cfg, s', Token(key, d)) == TotalOf(cfg, s, Token(key, d))
      && TotalOf(cfg, s', Request(key, d)) == TotalOf(cfg, s, Request(key, d))
    requires s'.ran == s.ran && s'.consumed == s.consumed && Settled(s', key)
    ensures Accounted(cfg, s', key)
  {
    hide Total, Settled;
  }

  lemma WriteKeepsReplies(c: Client, n: nat)
    requires n < |c.ops| && c.ops[n].phase != Phase.TimedOut
    ensures SameReplies(c, ClientWrite(c, n)) && |ClientWrite(c, n).ops| == |c.ops|
  {
  }

  lemma NewCallTotal(cfg: Config, s: State, m: string, n: nat, key: Key, p: Probe)
    requires cfg.Valid() && SameNames(cfg, s) && m in s.clients && n < |s.clients[m].ops|
    requires forall x :: x in s.clients ==> PlacesOk(cfg.names, s.written, x, s.clients[x])
    requires key !in s.written && key.origin == m && (p.Token? || p.Request?) && p.key == key
    ensures SameNames(cfg, WithClient(s, m, ClientWrite(s.clients[m], n)))
    ensures TotalOf(cfg, WithClient(s, m, ClientWrite(s.clients[m], n)), p)
         == Weigh(cfg.names, p, Outgoing, m, s.clients[m].ops[n].msg)
  {
    hide Weigh, Weight, Total, ClientSum, PlacesOk, ClientWrite;
    UnwrittenWeighsNothing(cfg, s, key, p);
    WriteTotal(cfg, s, m, n, p);
  }

  lemma WriteBalancesNew(cfg: Config, s: State, m: string, n: nat, book': Book, key: Key)
    requires cfg.Valid() && SameNames(cfg, s) && m in s.clients && n < |s.clients[m].ops|
    requires forall x :: x in s.clients ==> PlacesOk(cfg.names, s.written, x, s.clients[x])
    requires s.clients[m].ops[n].IsCall() && key == Key(m, s.clients[m].ops[n].msg.id.value)
    requires s.clients[m].ops[n].reply.None? && CallShape(cfg.names, s.clients[m].ops[n].msg)
    requires key !in s.written && key in book' && book'[key] == Record(s.clients[m].ops[n].msg, n)
    requires s.ran[key] == 0 && s.consumed[key] == 0
    ensures Accounted(cfg, WithClient(s, m, ClientWrite(s.clients[m], n)).(written := book'), key)
  {
    var c := s.clients[m];
    var d := CopiesOf(book', key);
    var s' := WithClient(s, m, ClientWrite(c, n)).(written := book');
    NewCallFacts(cfg, c, n, m);
    hide CopiesOf, Weigh, Total, PlacesOk, Config.Valid, CallShape, ClientWrite, Accounted, Op.IsCall;
    NewCallTotal(cfg, s, m, n, key, Token(key, d));
    NewCallTotal(cfg, s, m, n, key, Request(key, d));
    WriteWeighs(cfg.names, m, c.ops[n].msg, key, d);
    FreshAccount(cfg, s', key, d);
  }

  lemma NewCallFacts(cfg: Config, c: Client, n: nat, m: string)
    requires cfg.Valid() && n < |c.ops| && c.ops[n].IsCall() && CallShape(cfg.names, c.ops[n].msg)
    ensures "" !in cfg.names && c.ops[n].msg.id.Some? && c.ops[n].msg.origin == ""
    ensures |ClientWrite(c, n).ops| == |c.ops| && ClientWrite(c, n).ops[n].reply == c.ops[n].reply
  {
  }

  lemma FreshAccount(cfg: Config, s: State, key: Key, d: nat)
    requires SameNames(cfg, s) && key in s.written && d == CopiesOf(s.written, key)
    requires TotalOf(cfg, s, Token(key, d)) == d * d && TotalOf(cfg, s, Request(key, d)) == d
    requires s.ran[key] == 0 && s.consumed[key] == 0
    requires key.origin in s.clients && s.written[key].op < |s.clients[key.origin].ops|
    requires s.clients[key.origin].ops[s.written[key].op].reply.None?
    ensures Accounted(cfg, s, key)
  {
    hide Total, CopiesOf;
  }

  lemma WriteKeepsLedger(cfg: Config, s: State, m: string, n: nat, key: Key)
    requires Inv(cfg, s) && Enabled(cfg, s, Write(m, n))
    requires var s' := Next(cfg, s, Write(m, n)); key in s'.written && Deliverable(cfg.names, s'.written[key].msg)
    ensures var s' := Next(cfg, s, Write(m, n)); Accounted(cfg, s', key)
  {
    hide PlacesOk, OpsOk, Deliverable, Accounted, ClientWrite;
    var s' := Next(cfg, s, Write(m, n));
    var c := s.clients[m];
    WriteKeepsOps(cfg.names, s.written, m, c, n, s'.written);
    assert s' == WithClient(s, m, ClientWrite(c, n)).(written := s'.written);
    InitializedOp(cfg.names, s.written, m, c, n);
    if c.ops[n].IsCall() && key == Key(m, c.ops[n].msg.id.value) {
      WriteBalancesNew(cfg, s, m, n, s'.written, key);
    } else {
      WriteKeepsOldBalance(cfg, s, m, n, s'.written, key);
    }
  }

  lemma WriteStep(cfg: Config, s: State, m: string, n: nat)
    requires Inv(cfg, s) && Enabled(cfg, s, Write(m, n))
    ensures Inv(cfg, Next(cfg, s, Write(m, n)))
  {
    hide PlacesOk, OpsOk, Deliverable, Accounted;
    var s' := Next(cfg, s, Write(m, n));
    assert SameNames(cfg, s');
    forall x | x in s.clients
      ensures PlacesOk(cfg.names, s'.written, x, s'.clients[x]) && OpsOk(cfg.names, s'.written, x, s'.clients[x])
    {
      WriteKeepsParts(cfg, s, m, n, x);
    }
    forall key | key in s'.written && Deliverable(cfg.names, s'.written[key].msg)
      ensures Accounted(cfg, s', key)
    {
      WriteKeepsLedger(cfg, s, m, n, key);
    }
    AssembleInv(cfg, s');
  }

  lemma StrayWeight(names: seq<string>, m: string, msg: Message)
    requires "" !in names
    requires if msg.id.Some? then CallShape(names, msg) else NotifyShape(msg)
    ensures Weigh(names, Stray, Outgoing, m, msg) == if msg.id.Some? && !Deliverable(names, msg) then 1 else 0
  {
  }

  /** Writing a call nobody serves is the only way a stray enters the hub. */
  lemma WriteStrays(cfg: Config, s: State, m: string, n: nat)
    requires cfg.Valid() && SameNames(cfg, s) && m in s.clients
    requires OpsOk(cfg.names, s.written, m, s.clients[m]) && InPhase(s.clients[m], n, Initialized)
    ensures var s' := WithClient(s, m, ClientWrite(s.clients[m], n));
      var msg := s.clients[m].ops[n].msg;
      && SameNames(cfg, s')
      && TotalOf(cfg, s', Stray)
         == TotalOf(cfg, s, Stray) + if msg.id.Some? && !Deliverable(cfg.names, msg) then 1 else 0
  {
    hide OpsOk, Total, ClientSum, Weigh, CallShape, NotifyShape, Deliverable;
    InitializedOp(cfg.names, s.written, m, s.clients[m], n);
    WriteTotal(cfg, s, m, n, Stray);
    StrayWeight(cfg.names, m, s.clients[m].ops[n].msg);
  }
}
