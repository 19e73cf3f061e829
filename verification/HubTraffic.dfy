/** The steps the hub takes on its own, relaying, delivering, reading and finishing callbacks, keep
    the invariant; what they do to each account of the ledger. */
module HubTraffic {

  import opened JsonRpc
  import opened Hub
  import opened HubLedger
  import opened HubInvariant
  import opened HubRelay
  import opened HubSteps

  ghost predicate SameOps(c: Client, c': Client) {
    c'.counter == c.counter && c'.ops == c.ops && c'.respWait == c.respWait && c'.lock == c.lock && c'.reqSent == c.reqSent
  }

  lemma SameOpsKeepOps(names: seq<string>, book: Book, m: string, c: Client, c': Client)
    requires OpsOk(names, book, m, c) && SameOps(c, c')
    ensures OpsOk(names, book, m, c')
  {
    hide ShapesOk, RepliesOk, RecordsOk;
    assert forall n :: 0 <= n < |c.ops| ==> Pending(c, n) == Pending(c', n);
    assert ShapesOk(names, c') && RepliesOk(names, m, c') && RecordsOk(book, m, c') by {
      SameOpsKeepRest(names, book, m, c, c');
    }
  }

  lemma SameOpsKeepRest(names: seq<string>, book: Book, m: string, c: Client, c': Client)
    requires ShapesOk(names, c) && RepliesOk(names, m, c) && RecordsOk(book, m, c) && SameOps(c, c')
    ensures ShapesOk(names, c') && RepliesOk(names, m, c') && RecordsOk(book, m, c')
  {
  }

  // ---- steps that only move messages ----

  /** Nothing was written, started or consumed; operations are untouched and every account has the
      same total. */
  ghost predicate OnlyMoves(cfg: Config, s: State, s': State) {
    && SameNames(cfg, s) && SameNames(cfg, s')
    && s'.written == s.written && s'.ran == s.ran && s'.consumed == s.consumed
    && (forall x :: x in s.clients ==> SameOps(s.clients[x], s'.clients[x]))
    && (forall p :: ConservedProbe(cfg.names, s.written, p) ==> TotalOf(cfg, s', p) == TotalOf(cfg, s, p))
  }

  lemma MovesKeepAccount(cfg: Config, s: State, s': State, key: Key)
    requires OnlyMoves(cfg, s, s') && Accounted(cfg, s, key)
    requires key.origin in cfg.names && Deliverable(cfg.names, s.written[key].msg)
    ensures Accounted(cfg, s', key)
  {
    hide Total, CopiesOf, Deliverable;
    var d := CopiesOf(s.written, key);
    assert ConservedProbe(cfg.names, s.written, Token(key, d));
    assert ConservedProbe(cfg.names, s.written, Request(key, d));
    assert SameOps(s.clients[key.origin], s'.clients[key.origin]);
  }

  lemma MovesKeepInv(cfg: Config, s: State, s': State)
    requires Inv(cfg, s) && OnlyMoves(cfg, s, s')
    requires forall x :: x in s'.clients ==> PlacesOk(cfg.names, s'.written, x, s'.clients[x])
    ensures Inv(cfg, s')
  {
    hide OpsOk, PlacesOk, Accounted, Deliverable, SameOps, Total;
    forall x | x in s'.clients
      ensures OpsOk(cfg.names, s'.written, x, s'.clients[x])
    {
      assert OpsOk(cfg.names, s.written, x, s.clients[x]);
      SameOpsKeepOps(cfg.names, s.written, x, s.clients[x], s'.clients[x]);
    }
    forall key | key in s'.written && Deliverable(cfg.names, s'.written[key].msg)
      ensures Accounted(cfg, s', key)
    {
      MovesKeepAccount(cfg, s, s', key);
    }
    AssembleInv(cfg, s');
  }

  // ---- relay take ----

  function Taken(names: seq<string>, m: string, c: Client): Client
    requires c.outgoing != []
  {
    c.(outgoing := c.outgoing[1..], relaying := Deliveries(names, m, c.outgoing[0]))
  }

  lemma TakenSum(names: seq<string>, p: Probe, m: string, c: Client)
    requires c.outgoing != [] && c.relaying == []
    ensures ClientSum(names, p, m, Taken(names, m, c)) + Weight(names, p, Outgoing, m)(c.outgoing[0])
         == ClientSum(names, p, m, c) + Sum(Weight(names, p, Relaying, m), Messages(Deliveries(names, m, c.outgoing[0])))
  {
    hide Weight, Deliveries;
    assert Messages(c.relaying) == [];
  }

  lemma TakenPlaces(names: seq<string>, book: Book, m: string, c: Client)
    requires PlacesOk(names, book, m, c) && c.outgoing != [] && m in names && "" !in names
    ensures PlacesOk(names, book, m, Taken(names, m, c))
    ensures OutOk(names, book, m, c.outgoing[0])
  {
    hide OutOk, RelayOk, InOk, RunOk, Deliveries;
    assert c.outgoing[0] in c.outgoing;
    RelayKeepsPlaces(names, book, m, c.outgoing[0]);
  }

  lemma TakeStep(cfg: Config, s: State, m: string)
    requires Inv(cfg, s) && Enabled(cfg, s, RelayTake(m))
    ensures Inv(cfg, Next(cfg, s, RelayTake(m)))
    ensures OnlyMoves(cfg, s, Next(cfg, s, RelayTake(m)))
  {
    hide OpsOk, PlacesOk, LedgerOk, Deliverable, ClientSum, Total, Deliveries, ConservedProbe, OutOk;
    var c := s.clients[m];
    var c' := Taken(cfg.names, m, c);
    var s' := WithClient(s, m, c');
    assert Next(cfg, s, RelayTake(m)) == s';
    assert "" !in cfg.names;
    assert PlacesOk(cfg.names, s.written, m, c);
    TakenPlaces(cfg.names, s.written, m, c);
    forall p | ConservedProbe(cfg.names, s.written, p)
      ensures TotalOf(cfg, s', p) == TotalOf(cfg, s, p)
    {
      UpdateTotal(cfg, s, p, m, c');
      TakenSum(cfg.names, p, m, c);
      RelayConserves(cfg.names, s.written, p, m, c.outgoing[0]);
    }
    assert OnlyMoves(cfg, s, s');
    MovesKeepInv(cfg, s, s');
  }

  // ---- deliver ----

  function Popped(c: Client): Client
    requires c.relaying != []
  {
    c.(relaying := c.relaying[1..])
  }

  function Received(c: Client, msg: Message): Client {
    c.(incoming := c.incoming + [msg])
  }

  lemma PoppedSum(names: seq<string>, p: Probe, m: string, c: Client)
    requires c.relaying != []
    ensures ClientSum(names, p, m, Popped(c)) + Weight(names, p, Relaying, m)(c.relaying[0].msg) == ClientSum(names, p, m, c)
  {
    hide Weight;
    assert Messages(c.relaying)[1..] == Messages(c.relaying[1..]);
  }

  lemma ReceivedSum(names: seq<string>, p: Probe, m: string, c: Client, msg: Message)
    ensures ClientSum(names, p, m, Received(c, msg)) == ClientSum(names, p, m, c) + Weight(names, p, Incoming, m)(msg)
  {
    hide Weight;
    SumPush(Weight(names, p, Incoming, m), c.incoming, msg);
  }

  lemma DeliveredPlaces(names: seq<string>, book: Book, m: string, c: Client, d: Delivery)
    requires RelayOk(names, book, m, d)
    requires PlacesOk(names, book, d.to, c)
    ensures PlacesOk(names, book, d.to, Received(c, d.msg))
  {
    assert InOk(names, book, d.to, d.msg);
    hide OutOk, RelayOk, InOk, RunOk;
  }

  lemma PoppedPlaces(names: seq<string>, book: Book, m: string, c: Client)
    requires PlacesOk(names, book, m, c) && c.relaying != []
    ensures PlacesOk(names, book, m, Popped(c)) && RelayOk(names, book, m, c.relaying[0])
  {
    hide OutOk, RelayOk, InOk, RunOk;
    assert c.relaying[0] in c.relaying;
  }

  ghost function Delivered(s: State, m: string): State
    requires m in s.clients && s.clients[m].relaying != [] && s.clients[m].relaying[0].to in s.clients
  {
    var d := s.clients[m].relaying[0];
    var s1 := WithClient(s, m, Popped(s.clients[m]));
    WithClient(s1, d.to, Received(s1.clients[d.to], d.msg))
  }

  lemma DeliverTotal(cfg: Config, s: State, m: string, p: Probe)
    requires cfg.Valid() && SameNames(cfg, s)
    requires m in s.clients && s.clients[m].relaying != [] && s.clients[m].relaying[0].to in s.clients
    ensures var d := s.clients[m].relaying[0];
      && SameNames(cfg, Delivered(s, m))
      && TotalOf(cfg, Delivered(s, m), p) + Weight(cfg.names, p, Relaying, m)(d.msg)
         == TotalOf(cfg, s, p) + Weight(cfg.names, p, Incoming, d.to)(d.msg)
  {
    hide Weight, ClientSum, Total;
    var d := s.clients[m].relaying[0];
    var s1 := WithClient(s, m, Popped(s.clients[m]));
    UpdateTotal(cfg, s, p, m, Popped(s.clients[m]));
    PoppedSum(cfg.names, p, m, s.clients[m]);
    UpdateTotal(cfg, s1, p, d.to, Received(s1.clients[d.to], d.msg));
    ReceivedSum(cfg.names, p, d.to, s1.clients[d.to], d.msg);
  }

  lemma DeliveryWeighsTheSame(names: seq<string>, p: Probe, m: string, to: string, msg: Message)
    requires p != Work
    ensures Weight(names, p, Relaying, m)(msg) == Weight(names, p, Incoming, to)(msg)
  {
  }

  lemma DeliverPlaces(cfg: Config, s: State, m: string)
    requires SameNames(cfg, s) && m in s.clients && s.clients[m].relaying != [] && s.clients[m].relaying[0].to in s.clients
    requires forall x :: x in s.clients ==> PlacesOk(cfg.names, s.written, x, s.clients[x])
    ensures forall x :: x in Delivered(s, m).clients ==> PlacesOk(cfg.names, s.written, x, Delivered(s, m).clients[x])
  {
    hide PlacesOk, RelayOk;
    var d := s.clients[m].relaying[0];
    PoppedPlaces(cfg.names, s.written, m, s.clients[m]);
    var s1 := WithClient(s, m, Popped(s.clients[m]));
    DeliveredPlaces(cfg.names, s.written, m, s1.clients[d.to], d);
  }

  lemma DeliverMoves(cfg: Config, s: State, m: string)
    requires cfg.Valid() && SameNames(cfg, s)
    requires m in s.clients && s.clients[m].relaying != [] && s.clients[m].relaying[0].to in s.clients
    ensures OnlyMoves(cfg, s, Delivered(s, m))
  {
    hide ClientSum, Total, Weight, Weigh, Config.Valid, ConservedProbe;
    var s' := Delivered(s, m);
    var d := s.clients[m].relaying[0];
    DeliverTotal(cfg, s, m, Stray);
    forall p | ConservedProbe(cfg.names, s.written, p)
      ensures TotalOf(cfg, s', p) == TotalOf(cfg, s, p)
    {
      DeliverTotal(cfg, s, m, p);
      NotWork(cfg.names, s.written, p);
      DeliveryWeighsTheSame(cfg.names, p, m, d.to, d.msg);
    }
  }

  lemma NotWork(names: seq<string>, book: Book, p: Probe)
    requires ConservedProbe(names, book, p)
    ensures p != Work
  {
  }

  lemma DeliverStep(cfg: Config, s: State, m: string)
    requires Inv(cfg, s) && Enabled(cfg, s, Deliver(m))
    ensures Inv(cfg, Next(cfg, s, Deliver(m)))
    ensures OnlyMoves(cfg, s, Next(cfg, s, Deliver(m)))
  {
    hide OpsOk, PlacesOk, LedgerOk, OnlyMoves, Config.Valid;
    assert Next(cfg, s, Deliver(m)) == Delivered(s, m);
    DeliverPlaces(cfg, s, m);
    DeliverMoves(cfg, s, m);
    MovesKeepInv(cfg, s, Delivered(s, m));
  }

  // ---- finish ----

  function Finished(callbacks: set<string>, c: Client, i: nat, outcome: Outcome): Client
    requires i < |c.running|
  {
    var answer := Answer(callbacks, c.running[i], outcome);
    c.(running := c.running[..i] + c.running[i + 1..],
       outgoing := if answer.Some? then c.outgoing + [answer.value] else c.outgoing)
  }

  lemma FinishedSum(names: seq<string>, callbacks: set<string>, p: Probe, m: string, c: Client, i: nat, outcome: Outcome)
    requires i < |c.running|
    ensures var answer := Answer(callbacks, c.running[i], outcome);
      ClientSum(names, p, m, Finished(callbacks, c, i, outcome)) + Weight(names, p, Running, m)(c.running[i])
      == ClientSum(names, p, m, c) + if answer.Some? then Weight(names, p, Outgoing, m)(answer.value) else 0
  {
    hide Weight, Answer;
    SumRemove(Weight(names, p, Running, m), c.running, i);
    var answer := Answer(callbacks, c.running[i], outcome);
    if answer.Some? {
      SumPush(Weight(names, p, Outgoing, m), c.outgoing, answer.value);
    }
  }

  lemma FinishedPlaces(names: seq<string>, book: Book, callbacks: set<string>, m: string, c: Client, i: nat, outcome: Outcome)
    requires PlacesOk(names, book, m, c) && i < |c.running| && "" !in names
    ensures PlacesOk(names, book, m, Finished(callbacks, c, i, outcome))
    ensures RunOk(names, book, m, c.running[i])
  {
    hide OutOk, RelayOk, InOk, RunOk, Answer;
    assert c.running[i] in c.running;
    FinishKeepsPlaces(names, book, callbacks, m, c.running[i], outcome);
  }

  lemma FinishStep(cfg: Config, s: State, m: string, i: nat, outcome: Outcome)
    requires Inv(cfg, s) && Enabled(cfg, s, Finish(m, i, outcome))
    ensures Inv(cfg, Next(cfg, s, Finish(m, i, outcome)))
    ensures OnlyMoves(cfg, s, Next(cfg, s, Finish(m, i, outcome)))
  {
    hide OpsOk, PlacesOk, LedgerOk, Deliverable, ClientSum, Total, ConservedProbe, RunOk, Answer, Weigh;
    var c := s.clients[m];
    var c' := Finished(cfg.callbacks[m], c, i, outcome);
    var s' := WithClient(s, m, c');
    assert Next(cfg, s, Finish(m, i, outcome)) == s';
    assert "" !in cfg.names;
    assert PlacesOk(cfg.names, s.written, m, c);
    FinishedPlaces(cfg.names, s.written, cfg.callbacks[m], m, c, i, outcome);
    forall p | ConservedProbe(cfg.names, s.written, p)
      ensures TotalOf(cfg, s', p) == TotalOf(cfg, s, p)
    {
      UpdateTotal(cfg, s, p, m, c');
      FinishedSum(cfg.names, cfg.callbacks[m], p, m, c, i, outcome);
      FinishConserves(cfg.names, s.written, cfg.callbacks[m], p, m, c.running[i], outcome);
    }
    assert OnlyMoves(cfg, s, s');
    MovesKeepInv(cfg, s, s');
  }
}
