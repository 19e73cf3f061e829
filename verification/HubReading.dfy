/** The dispatch loop reads a message: a reply is consumed and resolves the call it belongs to,
    anything else starts a callback. */
module HubReading {

  import opened Wrappers
  import opened Words
  import opened JsonRpc
  import opened Hub
  import opened HubLedger
  import opened HubInvariant
  import opened HubClients
  import opened HubSteps
  import opened HubTraffic

  function Unqueued(c: Client): Client
    requires c.incoming != []
  {
    c.(incoming := c.incoming[1..])
  }

  lemma UnqueuedPlaces(names: seq<string>, book: Book, m: string, c: Client)
    requires PlacesOk(names, book, m, c) && c.incoming != []
    ensures PlacesOk(names, book, m, Unqueued(c)) && InOk(names, book, m, c.incoming[0])
  {
    hide OutOk, RelayOk, InOk, RunOk;
    assert c.incoming[0] in c.incoming;
  }

  /** A message read is a reply to a call of this very module, or it is not a reply at all. */
  lemma ReadKinds(names: seq<string>, book: Book, m: string, msg: Message)
    requires InOk(names, book, m, msg) && "" !in names
    ensures msg.IsResponse() ==> GoodReply(names, book, msg) && msg.origin == m
    ensures !msg.IsResponse() ==> RunOk(names, book, m, msg)
  {
    assert !HasSuffix("", RESPONSE_SUFFIX);
  }

  // ---- replies ----

  lemma ReplyWeighs(names: seq<string>, book: Book, m: string, msg: Message, p: Probe)
    requires GoodReply(names, book, msg) && msg.origin == m && "" !in names
    ensures Weight(names, p, Incoming, m)(msg) ==
      match p
      case Token(key, d) => if key == Key(m, msg.id.value) then 1 else 0
      case Request(key, d) => 0
      case Stray => 0
      case Work => 1
  {
  }

  lemma ReplySum(names: seq<string>, p: Probe, m: string, c: Client)
    requires c.incoming != []
    ensures ClientSum(names, p, m, HandleReply(Unqueued(c), c.incoming[0])) + Weight(names, p, Incoming, m)(c.incoming[0])
         == ClientSum(names, p, m, c)
  {
    hide Weight;
  }

  /** The only operation a reply touches is the one that made the call it answers. */
  lemma ReplySettles(names: seq<string>, book: Book, m: string, c: Client, msg: Message)
    requires OpsOk(names, book, m, c) && GoodReply(names, book, msg) && msg.origin == m
    ensures var n := book[Key(m, msg.id.value)].op;
      var c' := HandleReply(c, msg);
      && n < |c.ops| && |c'.ops| == |c.ops|
      && (c'.ops[n].reply.Some? || c'.ops[n].phase == Phase.TimedOut)
      && (forall k :: 0 <= k < |c.ops| && k != n ==> c'.ops[k] == c.ops[k])
      && c'.ops[n].phase == c.ops[n].phase
      && (c.ops[n].reply.Some? ==> c'.ops[n] == c.ops[n])
      && (c.ops[n].phase == Phase.TimedOut ==> c' == c)
      && (c'.ops[n].reply != c.ops[n].reply ==> c'.ops[n].reply == Some(msg))
  {
    var i := msg.id.value;
    var n := book[Key(m, i)].op;
    if i in c.respWait {
      ReplyFindsItsOp(names, book, m, c, msg);
    } else {
      NotWaiting(names, book, m, c, i);
    }
  }

  lemma NotWaiting(names: seq<string>, book: Book, m: string, c: Client, i: string)
    requires OpsOk(names, book, m, c) && Key(m, i) in book && i !in c.respWait
    ensures var n := book[Key(m, i)].op;
      n < |c.ops| && (c.ops[n].reply.Some? || c.ops[n].phase == Phase.TimedOut)
  {
    hide LockOk, IdsOk, ShapesOk;
    var n := book[Key(m, i)].op;
    assert !Pending(c, n);
  }

  ghost function ReplyRead(s: State, m: string): State
    requires m in s.clients && s.clients[m].incoming != [] && s.clients[m].incoming[0].id.Some?
  {
    var c := s.clients[m];
    WithClient(s, m, HandleReply(Unqueued(c), c.incoming[0]))
      .(consumed := s.consumed + multiset{Key(m, c.incoming[0].id.value)})
  }

  lemma ReplyAccount(cfg: Config, s: State, m: string, key: Key)
    requires cfg.Valid() && SameNames(cfg, s) && m in s.clients && s.clients[m].incoming != []
    requires OpsOk(cfg.names, s.written, m, s.clients[m])
    requires GoodReply(cfg.names, s.written, s.clients[m].incoming[0]) && s.clients[m].incoming[0].origin == m
    requires Accounted(cfg, s, key) && RecordsOk(s.written, m, s.clients[m])
    ensures Accounted(cfg, ReplyRead(s, m), key)
  {
    hide Weight, Weigh, ClientSum, Total, CopiesOf, OpsOk, GoodReply, Config.Valid, HandleReply;
    var c := s.clients[m];
    var msg := c.incoming[0];
    var c' := HandleReply(Unqueued(c), msg);
    var d := CopiesOf(s.written, key);
    NoEmptyName(cfg);
    GoodReplyHasId(cfg.names, s.written, msg);
    UpdateTotal(cfg, s, Token(key, d), m, c');
    UpdateTotal(cfg, s, Request(key, d), m, c');
    ReplySum(cfg.names, Token(key, d), m, c);
    ReplySum(cfg.names, Request(key, d), m, c);
    ReplyWeighs(cfg.names, s.written, m, msg, Token(key, d));
    ReplyWeighs(cfg.names, s.written, m, msg, Request(key, d));
    SameOpsKeepOps(cfg.names, s.written, m, c, Unqueued(c));
    ReplySettles(cfg.names, s.written, m, Unqueued(c), msg);
    if key.origin == m && s.written[key].op == s.written[Key(m, msg.id.value)].op {
      assert key == Key(m, key.id);
    }
  }

  lemma NoEmptyName(cfg: Config)
    requires cfg.Valid()
    ensures "" !in cfg.names
  {
  }

  lemma GoodReplyHasId(names: seq<string>, book: Book, msg: Message)
    requires GoodReply(names, book, msg)
    ensures msg.id.Some? && msg.IsResponse() && Key(msg.origin, msg.id.value) in book && msg.origin in names
  {
  }

  lemma InvParts(cfg: Config, s: State, m: string)
    requires Inv(cfg, s) && m in s.clients
    ensures cfg.Valid() && SameNames(cfg, s) && "" !in cfg.names
    ensures OpsOk(cfg.names, s.written, m, s.clients[m]) && PlacesOk(cfg.names, s.written, m, s.clients[m])
  {
    hide OpsOk, PlacesOk, LedgerOk;
  }

  lemma ReplyReadIsNext(cfg: Config, s: State, m: string)
    requires m in s.clients && s.clients[m].incoming != [] && s.clients[m].incoming[0].IsResponse()
    requires Enabled(cfg, s, Read(m)) && s.clients[m].incoming[0].id.Some?
    ensures Next(cfg, s, Read(m)) == ReplyRead(s, m)
  {
    hide HandleReply;
  }

  lemma ReplyReadTotals(cfg: Config, s: State, m: string)
    requires cfg.Valid() && SameNames(cfg, s) && m in s.clients && s.clients[m].incoming != []
    requires GoodReply(cfg.names, s.written, s.clients[m].incoming[0]) && s.clients[m].incoming[0].origin == m
    requires s.clients[m].incoming[0].id.Some?
    ensures SameNames(cfg, ReplyRead(s, m))
    ensures TotalOf(cfg, ReplyRead(s, m), Stray) == TotalOf(cfg, s, Stray)
    ensures TotalOf(cfg, ReplyRead(s, m), Work) < TotalOf(cfg, s, Work)
  {
    hide Total, ClientSum, Weight, GoodReply, HandleReply, Config.Valid;
    var c := s.clients[m];
    var c' := HandleReply(Unqueued(c), c.incoming[0]);
    NoEmptyName(cfg);
    UpdateTotal(cfg, s, Stray, m, c');
    ReplySum(cfg.names, Stray, m, c);
    ReplyWeighs(cfg.names, s.written, m, c.incoming[0], Stray);
    UpdateTotal(cfg, s, Work, m, c');
    ReplySum(cfg.names, Work, m, c);
    ReplyWeighs(cfg.names, s.written, m, c.incoming[0], Work);
  }

  lemma ReplyReadClient(names: seq<string>, book: Book, m: string, c: Client)
    requires OpsOk(names, book, m, c) && PlacesOk(names, book, m, c) && c.incoming != []
    requires GoodReply(names, book, c.incoming[0]) && c.incoming[0].origin == m
    ensures var c' := HandleReply(Unqueued(c), c.incoming[0]); OpsOk(names, book, m, c') && PlacesOk(names, book, m, c')
  {
    hide OpsOk, PlacesOk, GoodReply, HandleReply;
    UnqueuedPlaces(names, book, m, c);
    SameOpsKeepOps(names, book, m, c, Unqueued(c));
    GoodReplyHasId(names, book, c.incoming[0]);
    ReplyKeepsOps(names, book, m, Unqueued(c), c.incoming[0]);
    ReplyKeepsQueues(Unqueued(c), c.incoming[0]);
    SameQueuesKeepPlaces(names, book, m, Unqueued(c), HandleReply(Unqueued(c), c.incoming[0]));
  }

  lemma ReplyReadKeepsInv(cfg: Config, s: State, m: string)
    requires Inv(cfg, s) && m in s.clients && s.clients[m].incoming != []
    requires GoodReply(cfg.names, s.written, s.clients[m].incoming[0]) && s.clients[m].incoming[0].origin == m
    requires s.clients[m].incoming[0].id.Some?
    ensures Inv(cfg, ReplyRead(s, m))
  {
    hide OpsOk, PlacesOk, Accounted, Deliverable, GoodReply, HandleReply, Config.Valid;
    var c, s' := s.clients[m], ReplyRead(s, m);
    ReplyReadClient(cfg.names, s.written, m, c);
    RecordsOf(cfg.names, s.written, m, c);
    GoodReplyHasId(cfg.names, s.written, c.incoming[0]);
    forall key | key in s'.written && Deliverable(cfg.names, s'.written[key].msg)
      ensures Accounted(cfg, s', key)
    {
      ReplyAccount(cfg, s, m, key);
    }
    AssembleInv(cfg, s');
  }

  lemma ReplyReadStep(cfg: Config, s: State, m: string)
    requires m in s.clients && s.clients[m].incoming != [] && s.clients[m].incoming[0].IsResponse()
    requires Inv(cfg, s) && Enabled(cfg, s, Read(m))
    ensures SameNames(cfg, s) && SameNames(cfg, Next(cfg, s, Read(m)))
    ensures Inv(cfg, Next(cfg, s, Read(m)))
    ensures TotalOf(cfg, Next(cfg, s, Read(m)), Stray) == TotalOf(cfg, s, Stray)
    ensures TotalOf(cfg, Next(cfg, s, Read(m)), Work) < TotalOf(cfg, s, Work)
  {
    hide Next, Inv, Enabled, Total, GoodReply, RunOk, HandleReply, Config.Valid, PlacesOk;
    InvParts(cfg, s, m);
    UnqueuedPlaces(cfg.names, s.written, m, s.clients[m]);
    ReadKinds(cfg.names, s.written, m, s.clients[m].incoming[0]);
    GoodReplyHasId(cfg.names, s.written, s.clients[m].incoming[0]);
    ReplyReadIsNext(cfg, s, m);
    ReplyReadKeepsInv(cfg, s, m);
    ReplyReadTotals(cfg, s, m);
  }


  lemma ReplyKeepsQueues(c: Client, msg: Message)
    ensures SameQueues(c, HandleReply(c, msg))
  {
  }

  lemma RecordsOf(names: seq<string>, book: Book, m: string, c: Client)
    requires OpsOk(names, book, m, c)
    ensures RecordsOk(book, m, c)
  {
    hide LockOk, IdsOk, WaitOk, RepliesOk, ShapesOk, RecordsOk;
  }

  // ---- requests and notifications ----

  function Started(c: Client): Client
    requires c.incoming != []
  {
    Unqueued(c).(running := c.running + [c.incoming[0]])
  }

  lemma StartedSum(names: seq<string>, p: Probe, m: string, c: Client)
    requires c.incoming != []
    ensures ClientSum(names, p, m, Started(c)) + Weight(names, p, Incoming, m)(c.incoming[0])
         == ClientSum(names, p, m, c) + Weight(names, p, Running, m)(c.incoming[0])
  {
    hide Weight;
    SumPush(Weight(names, p, Running, m), c.running, c.incoming[0]);
  }

  lemma StartWeighs(names: seq<string>, book: Book, m: string, msg: Message, p: Probe)
    requires RunOk(names, book, m, msg) && !msg.IsResponse() && "" !in names
    requires (p.Token? || p.Request?) ==> p.key.origin in names
    ensures Weight(names, p, Incoming, m)(msg) ==
      match p
      case Token(key, d) => Weight(names, p, Running, m)(msg)
      case Request(key, d) => if msg.id.Some? && key == Key(msg.origin, msg.id.value) then 1 else 0
      case Stray => Weight(names, p, Running, m)(msg)
      case Work => 7
    ensures p == Work ==> Weight(names, p, Running, m)(msg) < 7
    ensures p.Request? ==> Weight(names, p, Running, m)(msg) == 0
  {
  }

  ghost function RequestRead(s: State, m: string): State
    requires m in s.clients && s.clients[m].incoming != []
  {
    var c := s.clients[m];
    var msg := c.incoming[0];
    WithClient(s, m, Started(c))
      .(ran := if msg.id.Some? then s.ran + multiset{Key(msg.origin, msg.id.value)} else s.ran)
  }

  lemma RequestAccount(cfg: Config, s: State, m: string, key: Key)
    requires cfg.Valid() && SameNames(cfg, s) && m in s.clients && s.clients[m].incoming != []
    requires RunOk(cfg.names, s.written, m, s.clients[m].incoming[0]) && !s.clients[m].incoming[0].IsResponse()
    requires Accounted(cfg, s, key) && key.origin in cfg.names
    ensures Accounted(cfg, RequestRead(s, m), key)
  {
    hide Weight, Weigh, ClientSum, Total, CopiesOf, RunOk, Config.Valid;
    NoEmptyName(cfg);
    var c := s.clients[m];
    var d := CopiesOf(s.written, key);
    UpdateTotal(cfg, s, Token(key, d), m, Started(c));
    UpdateTotal(cfg, s, Request(key, d), m, Started(c));
    StartedSum(cfg.names, Token(key, d), m, c);
    StartedSum(cfg.names, Request(key, d), m, c);
    StartWeighs(cfg.names, s.written, m, c.incoming[0], Token(key, d));
    StartWeighs(cfg.names, s.written, m, c.incoming[0], Request(key, d));
  }

  lemma StartedPlaces(names: seq<string>, book: Book, m: string, c: Client)
    requires PlacesOk(names, book, m, c) && c.incoming != [] && RunOk(names, book, m, c.incoming[0])
    ensures PlacesOk(names, book, m, Started(c))
  {
    hide OutOk, RelayOk, InOk, RunOk;
  }

  lemma RanKey(names: seq<string>, book: Book, m: string, msg: Message, key: Key)
    requires RunOk(names, book, m, msg) && "" !in names
    requires key.origin in names && key !in book
    ensures msg.id.Some? ==> key != Key(msg.origin, msg.id.value)
  {
  }

  lemma RequestReadIsNext(cfg: Config, s: State, m: string)
    requires m in s.clients && s.clients[m].incoming != [] && !s.clients[m].incoming[0].IsResponse()
    requires Enabled(cfg, s, Read(m))
    ensures Next(cfg, s, Read(m)) == RequestRead(s, m)
  {
  }

  lemma RequestReadTotals(cfg: Config, s: State, m: string)
    requires cfg.Valid() && SameNames(cfg, s) && m in s.clients && s.clients[m].incoming != []
    requires RunOk(cfg.names, s.written, m, s.clients[m].incoming[0]) && !s.clients[m].incoming[0].IsResponse()
    ensures SameNames(cfg, RequestRead(s, m))
    ensures TotalOf(cfg, RequestRead(s, m), Stray) == TotalOf(cfg, s, Stray)
    ensures TotalOf(cfg, RequestRead(s, m), Work) < TotalOf(cfg, s, Work)
  {
    hide Total, ClientSum, Weight, RunOk, Config.Valid;
    var c := s.clients[m];
    NoEmptyName(cfg);
    UpdateTotal(cfg, s, Stray, m, Started(c));
    StartedSum(cfg.names, Stray, m, c);
    StartWeighs(cfg.names, s.written, m, c.incoming[0], Stray);
    UpdateTotal(cfg, s, Work, m, Started(c));
    StartedSum(cfg.names, Work, m, c);
    StartWeighs(cfg.names, s.written, m, c.incoming[0], Work);
  }

  lemma RequestReadKeepsInv(cfg: Config, s: State, m: string)
    requires Inv(cfg, s) && m in s.clients && s.clients[m].incoming != []
    requires RunOk(cfg.names, s.written, m, s.clients[m].incoming[0]) && !s.clients[m].incoming[0].IsResponse()
    ensures Inv(cfg, RequestRead(s, m))
  {
    hide OpsOk, PlacesOk, Accounted, Deliverable, RunOk, Config.Valid;
    var c, s' := s.clients[m], RequestRead(s, m);
    NoEmptyName(cfg);
    assert PlacesOk(cfg.names, s.written, m, c) && OpsOk(cfg.names, s.written, m, c);
    SameOpsKeepOps(cfg.names, s.written, m, c, Started(c));
    StartedPlaces(cfg.names, s.written, m, c);
    forall key | key in s'.written && Deliverable(cfg.names, s'.written[key].msg)
      ensures Accounted(cfg, s', key)
    {
      RequestAccount(cfg, s, m, key);
    }
    forall key: Key | key.origin in cfg.names && key !in s'.written
      ensures s'.ran[key] == 0
    {
      RanKey(cfg.names, s.written, m, c.incoming[0], key);
    }
    AssembleInv(cfg, s');
  }

  lemma RequestReadStep(cfg: Config, s: State, m: string)
    requires m in s.clients && s.clients[m].incoming != [] && !s.clients[m].incoming[0].IsResponse()
    requires Inv(cfg, s) && Enabled(cfg, s, Read(m))
    ensures SameNames(cfg, s) && SameNames(cfg, Next(cfg, s, Read(m)))
    ensures Inv(cfg, Next(cfg, s, Read(m)))
    ensures TotalOf(cfg, Next(cfg, s, Read(m)), Stray) == TotalOf(cfg, s, Stray)
    ensures TotalOf(cfg, Next(cfg, s, Read(m)), Work) < TotalOf(cfg, s, Work)
  {
    hide Next, Inv, Enabled, Total, GoodReply, RunOk, HandleReply, Config.Valid, PlacesOk;
    InvParts(cfg, s, m);
    UnqueuedPlaces(cfg.names, s.written, m, s.clients[m]);
    ReadKinds(cfg.names, s.written, m, s.clients[m].incoming[0]);
    RequestReadIsNext(cfg, s, m);
    RequestReadKeepsInv(cfg, s, m);
    RequestReadTotals(cfg, s, m);
  }

}
