/** The client object: the cases of the dispatch loop, the sender's side and the callback side, as
    they update the client's fields. Its validity is the part of the hub's invariant that concerns one
    client; every method keeps it, takes the client from one state of the step system to the next
    under the guard of that step, and says what that means for the calls that are pending. */
module ClientLoop {

  import opened Wrappers
  import opened Words
  import opened JsonRpc
  import H = Hub
  import I = HubInvariant
  import C = HubClients
  import T = HubTraffic
  import G = HubReading
  import R = HubRuns

  // ---- the guards of the steps ----

  predicate CanGiveUp(c: H.Client, n: nat) {
    H.InPhase(c, n, H.Created)
  }

  predicate CanInit(c: H.Client, n: nat) {
    c.lock.None? && H.InPhase(c, n, H.Created)
  }

  predicate CanWrite(c: H.Client, n: nat, fails: bool) {
    H.InPhase(c, n, H.Initialized) && c.reqSent.None? && (fails || |c.outgoing| < 20_000)
  }

  predicate CanReceive(c: H.Client, n: nat) {
    H.InPhase(c, n, H.Phase.Sent) && c.ops[n].reply.Some?
  }

  predicate CanTimeOut(c: H.Client, n: nat) {
    H.InPhase(c, n, H.Phase.Sent) && c.ops[n].IsCall()
  }

  /** The steps this client takes itself. The relays take the others; of this client they touch the queues
      and nothing else. */
  predicate IsOwn(act: H.Action, m: string) {
    act.m == m && !act.RelayTake? && !act.Deliver?
  }

  datatype Queues = Queues(outgoing: seq<Message>, relaying: seq<H.Delivery>, incoming: seq<Message>)

  function QueuesOf(c: H.Client): Queues {
    Queues(c.outgoing, c.relaying, c.incoming)
  }

  function Requeued(c: H.Client, q: Queues): H.Client {
    c.(outgoing := q.outgoing, relaying := q.relaying, incoming := q.incoming)
  }

  /** `queues` says what each step of the run leaves in the queues of module m. */
  ghost predicate LeavesQueues(cfg: H.Config, s: H.State, m: string, acts: seq<H.Action>, queues: seq<Queues>)
    requires H.Legal(cfg, s, acts)
    decreases |acts|
  {
    |queues| == |acts| &&
    (acts == [] ||
     (var s' := H.Next(cfg, s, acts[0]);
      && (m in s'.clients ==> QueuesOf(s'.clients[m]) == queues[0])
      && LeavesQueues(cfg, s', m, acts[1..], queues[1..])))
  }

  /** There is such a list for every run. */
  lemma {:induction false} EveryRunLeavesQueues(cfg: H.Config, s: H.State, m: string, acts: seq<H.Action>) returns (queues: seq<Queues>)
    requires H.Legal(cfg, s, acts)
    ensures LeavesQueues(cfg, s, m, acts, queues)
    decreases |acts|
  {
    hide H.Enabled, H.Next, QueuesOf;
    if acts == [] {
      queues := [];
    } else {
      var s' := H.Next(cfg, s, acts[0]);
      var rest := EveryRunLeavesQueues(cfg, s', m, acts[1..]);
      queues := [if m in s'.clients then QueuesOf(s'.clients[m]) else Queues([], [], [])] + rest;
      assert queues[1..] == rest;
    }
  }

  lemma OthersLeaveTheRest(cfg: H.Config, s: H.State, act: H.Action, m: string)
    requires H.Enabled(cfg, s, act) && m in s.clients && !IsOwn(act, m)
    ensures var s' := H.Next(cfg, s, act);
      m in s'.clients && s'.clients[m] == Requeued(s.clients[m], QueuesOf(s'.clients[m]))
  {
    hide H.Deliveries, Answer, H.Config.Gate, H.HandleMsg, H.ClientInit, H.ClientNew, H.ClientWrite, H.ClientSent, H.ClientTimeOut;
  }

  /** The guards of the methods are those of the step system. */
  lemma GuardsAreThoseOfTheSteps(cfg: H.Config, s: H.State, m: string, n: nat)
    requires m in s.clients && m in cfg.callbacks
    ensures var c := s.clients[m];
      && (H.Enabled(cfg, s, H.GiveUp(m, n)) <==> CanGiveUp(c, n))
      && (H.Enabled(cfg, s, H.Init(m, n)) <==> CanInit(c, n))
      && (H.Enabled(cfg, s, H.Write(m, n)) <==> CanWrite(c, n, false))
      && (H.Enabled(cfg, s, H.WriteFails(m, n)) <==> CanWrite(c, n, true))
      && (H.Enabled(cfg, s, H.SentSignal(m)) <==> c.reqSent.Some?)
      && (H.Enabled(cfg, s, H.Receive(m, n)) <==> CanReceive(c, n))
      && (H.Enabled(cfg, s, H.TimeOut(m, n)) <==> CanTimeOut(c, n))
      && (H.Enabled(cfg, s, H.Read(m)) <==> c.incoming != [])
  {
  }

  /** What a step of its own makes of the client of module m, and of the written calls. */
  lemma OwnStep(cfg: H.Config, s: H.State, act: H.Action, m: string)
    requires H.Enabled(cfg, s, act) && IsOwn(act, m)
    ensures m in s.clients && m in H.Next(cfg, s, act).clients
    ensures var c, c' := s.clients[m], H.Next(cfg, s, act).clients[m];
      match act
      case NewOp(_, procedure, notifyAll, exclusion, params, isCall, encodes) =>
        && cfg.Gate(procedure, notifyAll)
        && c' == (if encodes then H.ClientNew(c, H.NewMessage(c.counter, procedure, notifyAll, exclusion, params, isCall))
                  else c.(counter := c.counter + 1))
      case GiveUp(_, n) => CanGiveUp(c, n) && c' == H.SetPhase(c, n, H.GivenUp)
      case Init(_, n) => CanInit(c, n) && c' == H.ClientInit(c, n)
      case Write(_, n) => CanWrite(c, n, false) && c' == H.ClientWrite(c, n)
      case WriteFails(_, n) => CanWrite(c, n, true) && c' == H.ClientWriteFails(c, n)
      case SentSignal(_) => c.reqSent.Some? && c' == H.ClientSent(c)
      case Receive(_, n) => CanReceive(c, n) && c' == H.SetPhase(c, n, H.Phase.Returned)
      case TimeOut(_, n) => CanTimeOut(c, n) && c' == H.ClientTimeOut(c, n)
      case Read(_) => c.incoming != [] && c' == H.HandleMsg(G.Unqueued(c), c.incoming[0])
      case Finish(_, i, outcome) => m in cfg.callbacks && i < |c.running| && c' == T.Finished(cfg.callbacks[m], c, i, outcome)
      case _ => true
    ensures H.Next(cfg, s, act).written ==
      if act.Write? && s.clients[m].ops[act.n].IsCall()
      then s.written[H.Key(m, s.clients[m].ops[act.n].msg.id.value) := H.Record(s.clients[m].ops[act.n].msg, act.n)]
      else s.written
  {
    hide H.ClientInit, H.ClientNew, H.ClientWrite, H.ClientSent, H.ClientTimeOut, H.HandleMsg, H.ClientWriteFails, H.Config.Gate,
      H.SetPhase, Answer, H.NewMessage;
  }

  /** How a call ends for its caller. */
  datatype Ending = Yields(text: string) | CallFailed(error: RpcError) | NoResult

  /** The caller of a call that was served learns how the callback ended. */
  predicate Delivers(ending: Ending, outcome: Outcome) {
    match outcome
    case BadParams(reason) => ending == CallFailed(RpcError(-32602, reason))
    case Failed(err) => ending == CallFailed(err)
    case Returned(encoded) =>
      if encoded.None? then ending.CallFailed? && ending.error.code == -32002
      else ending == if encoded.value == "" then NoResult else Yields(encoded.value)
  }

  class Client {
    const name: string
    ghost const cfg: H.Config
    const knownCallbacks: set<string>
    const serviceCallbacks: set<string>
    var idCounter: nat
    var ops: seq<H.Op>                // the request operations handed out so far
    var respWait: map<string, nat>
    var lastOp: Option<nat>
    var reqInitLock: bool             // true while the send lock is held
    var reqSent: Option<bool>
    var outgoing: seq<Message>
    var relaying: seq<H.Delivery>
    var incoming: seq<Message>
    var running: seq<Message>
    ghost var book: I.Book            // the calls written to the hub

    /** The client as a state of the step system. */
    ghost function View(): H.Client
      reads this
    {
      H.Client(idCounter, ops, respWait, if reqInitLock then lastOp else None, reqSent,
               outgoing, relaying, incoming, running)
    }

    /** The client belongs to a module of the configuration and was given its callbacks. */
    ghost predicate Wired() {
      && cfg.Valid() && name in cfg.names && name in cfg.callbacks
      && serviceCallbacks == cfg.callbacks[name]
      && forall p :: p in knownCallbacks <==> cfg.Known(p)
    }

    /** The table of pending calls holds exactly those, the ids of all calls are different, the send lock
        and the write signal belong to one operation, replies belong to their calls. */
    ghost predicate Valid()
      reads this
    {
      && Wired()
      && (reqInitLock ==> lastOp.Some?)
      && I.OpsOk(cfg.names, book, name, View())
    }

    constructor (name: string, ghost cfg: H.Config, known: set<string>, served: set<string>)
      requires cfg.Valid() && name in cfg.names && served == cfg.callbacks[name]
      requires forall p :: p in known <==> cfg.Known(p)
      ensures Valid() && View() == H.FRESH_CLIENT && book == map[]
      ensures this.name == name && this.cfg == cfg
    {
      this.name, this.cfg := name, cfg;
      knownCallbacks, serviceCallbacks := known, served;
      idCounter, ops, respWait, lastOp, reqInitLock, reqSent := 0, [], map[], None, false, None;
      outgoing, relaying, incoming, running := [], [], [], [];
      book := map[];
    }

    /** The calls that wait for a reply are exactly the ones in the table, each under its own id. */
    lemma TableIsExact()
      requires Valid()
      ensures forall i, n :: i != "" && 0 <= n < |ops| ==>
        ((i in respWait && respWait[i] == n) <==> (I.Pending(View(), n) && ops[n].WaitKey() == i))
    {
      hide I.LockOk, I.RecordsOk, I.RepliesOk, I.ShapesOk;
      C.IdsGiveDistinctCalls(View());
      hide I.IdsOk;
    }

    /** Operation k waits in the table under its own id. */
    ghost predicate Waits(k: nat)
      reads this
    {
      I.Pending(View(), k) && ops[k].WaitKey() in respWait && respWait[ops[k].WaitKey()] == k
    }

    lemma PendingWaits(k: nat)
      requires Valid() && I.Pending(View(), k)
      ensures Waits(k)
    {
      R.PendingIsRegistered(cfg.names, book, name, View(), k);
    }

    // ---- the sender ----

    method NextID() returns (id: string)
      modifies this`idCounter
      ensures idCounter == old(idCounter) + 1 && id == Decimal(idCounter % H.ID_SPACE)
    {
      idCounter := idCounter + 1;
      id := Decimal(idCounter % H.ID_SPACE);
    }

    /** `newMessage`: an unknown method costs no id, parameters that cannot be encoded cost one.
        `encodes` is what marshalling the parameters returns. */
    method NewMessage(procedure: string, notifyAll: bool, exclusion: seq<string>, params: Option<string>, encodes: bool)
      returns (r: Result<Message, string>)
      modifies this`idCounter
      ensures r.Success? <==> (procedure in knownCallbacks || (HasPrefix(procedure, "core_") && notifyAll)) && encodes
      ensures idCounter == old(idCounter) + if procedure in knownCallbacks || (HasPrefix(procedure, "core_") && notifyAll) then 1 else 0
      ensures r.Success? && (!notifyAll ==> exclusion == []) ==>
        r.value == H.NewMessage(old(idCounter), procedure, notifyAll, exclusion, params, true)
    {
      if procedure !in knownCallbacks {
        if !(HasPrefix(procedure, "core_") && notifyAll) {
          return Failure("unknown method");
        }
      }
      var id := NextID();
      if !encodes {
        return Failure("marshal");
      }
      return Success(Message(VSN, Some(id), procedure, params, None, None, notifyAll, exclusion, ""));
    }

    /** The operation for a call or a notification. It carries what the caller gave, exclusions only under a
        broadcast; the id of a new call is unlike that of any other call of this client. */
    method NewOp(procedure: string, notifyAll: bool, exclusion: seq<string>, params: Option<string>, isCall: bool, encodes: bool)
      returns (r: Result<nat, string>)
      requires Valid() && idCounter < H.ID_SPACE
      modifies this`idCounter, this`ops
      ensures Valid()
      ensures var msg := H.NewMessage(old(idCounter), procedure, notifyAll, exclusion, params, isCall);
        View() == if !cfg.Gate(procedure, notifyAll) then old(View())
                  else if encodes then H.ClientNew(old(View()), msg)
                  else old(View()).(counter := old(idCounter) + 1)
      ensures r.Success? <==> cfg.Gate(procedure, notifyAll) && encodes
      ensures r.Success? ==>
        r.value == |old(ops)| < |ops| && H.InPhase(View(), r.value, H.Created) && HasOwnId(r.value)
      ensures r.Success? ==>
        ops[r.value].msg == Message("1.0", if isCall then Some(Decimal(idCounter % 0x1_0000_0000)) else None, procedure, params,
                                    None, None, notifyAll, if notifyAll then exclusion else [], "")
    {
      MessageIs(idCounter, procedure, notifyAll, exclusion, params, isCall);
      hide I.OpsOk, Wired, H.Config.Gate, H.Config.Valid, H.Config.Known, HasPrefix, H.NewMessage, H.ClientNew, H.InPhase, HasOwnId;
      ghost var before := View();
      GateIsTheTable(procedure, notifyAll);
      NewOpFacts(before, procedure, notifyAll, exclusion, params, isCall);
      var msg := CallOrNotify(procedure, notifyAll, exclusion, params, isCall, encodes);
      assert Wired() && (reqInitLock ==> lastOp.Some?);
      if msg.Failure? {
        assert View() == before || View() == before.(counter := before.counter + 1);
        return Failure(msg.error);
      }
      hide View;
      var n := AddOp(msg.value, before);
      return Success(n);
    }

    /** What the caller makes of the message: exclusions only under a broadcast, an id only for a call. */
    method CallOrNotify(procedure: string, notifyAll: bool, exclusion: seq<string>, params: Option<string>, isCall: bool,
                        encodes: bool)
      returns (r: Result<Message, string>)
      modifies this`idCounter
      ensures r.Success? <==> (procedure in knownCallbacks || (HasPrefix(procedure, "core_") && notifyAll)) && encodes
      ensures idCounter == old(idCounter) + if procedure in knownCallbacks || (HasPrefix(procedure, "core_") && notifyAll) then 1 else 0
      ensures View() == old(View()).(counter := idCounter)
      ensures r.Success? ==> r.value == H.NewMessage(old(idCounter), procedure, notifyAll, exclusion, params, isCall)
    {
      hide HasPrefix, Decimal;
      ghost var count := idCounter;
      var exclude := exclusion;
      if !notifyAll {
        exclude := [];
      }
      r := NewMessage(procedure, notifyAll, exclude, params, encodes);
      if r.Success? && !isCall {
        r := Success(r.value.(id := None));
      }
    }

    /** If operation n is a call, no other call of this client has its id. */
    ghost predicate HasOwnId(n: nat)
      reads this
    {
      n < |ops| &&
      (ops[n].IsCall() ==> forall k :: 0 <= k < |ops| && k != n && ops[k].IsCall() ==> ops[k].WaitKey() != ops[n].WaitKey())
    }

    method AddOp(msg: Message, ghost before: H.Client) returns (n: nat)
      requires View() == before.(counter := before.counter + 1) && I.OpsOk(cfg.names, book, name, H.ClientNew(before, msg))
      modifies this`ops
      ensures View() == H.ClientNew(before, msg) && n == |old(ops)| < |ops|
      ensures H.InPhase(View(), n, H.Created) && ops[n].msg == msg
      ensures HasOwnId(n)
    {
      hide I.OpsOk;
      ops := ops + [H.Op(msg, idCounter, H.Created, None)];
      assert View() == H.ClientNew(before, msg);
      CallsDiffer();
      return |ops| - 1;
    }

    lemma MessageIs(count: nat, procedure: string, notifyAll: bool, exclusion: seq<string>, params: Option<string>, isCall: bool)
      ensures H.NewMessage(count, procedure, notifyAll, exclusion, params, isCall)
           == Message("1.0", if isCall then Some(Decimal((count + 1) % 0x1_0000_0000)) else None, procedure, params,
                      None, None, notifyAll, if notifyAll then exclusion else [], "")
    {
    }

    lemma GateIsTheTable(procedure: string, notifyAll: bool)
      requires Wired()
      ensures cfg.Valid()
      ensures cfg.Gate(procedure, notifyAll) <==> procedure in knownCallbacks || (HasPrefix(procedure, "core_") && notifyAll)
    {
    }

    lemma NewOpFacts(c: H.Client, procedure: string, notifyAll: bool, exclusion: seq<string>, params: Option<string>, isCall: bool)
      requires cfg.Valid() && I.OpsOk(cfg.names, book, name, c) && c.counter < H.ID_SPACE
      ensures I.OpsOk(cfg.names, book, name, c.(counter := c.counter + 1))
      ensures cfg.Gate(procedure, notifyAll) ==>
        I.OpsOk(cfg.names, book, name, H.ClientNew(c, H.NewMessage(c.counter, procedure, notifyAll, exclusion, params, isCall)))
    {
      C.CountKeepsOps(cfg.names, book, name, c);
      hide I.OpsOk, H.Config.Gate, H.Config.Valid, I.CallShape, I.NotifyShape;
      if cfg.Gate(procedure, notifyAll) {
        var msg := H.NewMessage(c.counter, procedure, notifyAll, exclusion, params, isCall);
        I.GatedShape(cfg, msg, notifyAll, (c.counter + 1) % H.ID_SPACE);
        C.NewOpKeepsOps(cfg.names, book, name, c, msg);
      }
    }

    lemma CallsDiffer()
      requires I.OpsOk(cfg.names, book, name, View())
      ensures forall n, k :: 0 <= n < |ops| && 0 <= k < |ops| && n != k && ops[n].IsCall() && ops[k].IsCall() ==>
        ops[n].WaitKey() != ops[k].WaitKey()
    {
      hide I.LockOk, I.WaitOk, I.RecordsOk, I.RepliesOk, I.ShapesOk;
      C.IdsGiveDistinctCalls(View());
    }

    /** The caller's context ends before the dispatch loop has accepted the operation. */
    method GiveUp(n: nat)
      requires Valid() && CanGiveUp(View(), n)
      modifies this`ops
      ensures Valid() && View() == H.SetPhase(old(View()), n, H.GivenUp)
      ensures forall k: nat :: old(Waits(k)) ==> Waits(k)
    {
      hide I.OpsOk;
      C.GiveUpKeepsOps(cfg.names, book, name, View(), n);
      ops := ops[n := ops[n].(phase := H.GivenUp)];
    }

    /** The write itself: it succeeds, or the context has ended. The signal it leaves concerns the
        operation that holds the send lock, which is this one. */
    method Write(n: nat, contextEnded: bool)
      requires Valid() && CanWrite(View(), n, contextEnded)
      modifies this`ops, this`outgoing, this`reqSent, this`book
      ensures Valid()
      ensures View() == if contextEnded then H.ClientWriteFails(old(View()), n) else H.ClientWrite(old(View()), n)
      ensures reqInitLock && lastOp == Some(n) && reqSent == Some(!contextEnded)
      ensures outgoing == if contextEnded then old(outgoing) else old(outgoing) + [old(ops)[n].msg]
      ensures book == if !contextEnded && old(ops)[n].IsCall()
                      then old(book)[H.Key(name, old(ops)[n].msg.id.value) := H.Record(old(ops)[n].msg, n)] else old(book)
      ensures forall key :: key in old(book) ==> key in book && book[key] == old(book)[key]
    {
      hide I.OpsOk, Wired;
      ghost var before, written := View(), BookWith(n);
      WriteFacts(n);
      if contextEnded {
        ops := ops[n := ops[n].(phase := H.WriteFailed)];
        reqSent := Some(false);
        assert View() == H.ClientWriteFails(before, n);
      } else {
        outgoing := outgoing + [ops[n].msg];
        ops := ops[n := ops[n].(phase := H.Phase.Sent)];
        reqSent := Some(true);
        book := written;
        assert View() == H.ClientWrite(before, n);
      }
    }

    /** The book with operation n, if it is a call. */
    ghost function BookWith(n: nat): I.Book
      requires n < |ops|
      reads this
    {
      if ops[n].IsCall() then book[H.Key(name, ops[n].msg.id.value) := H.Record(ops[n].msg, n)] else book
    }

    lemma WriteFacts(n: nat)
      requires Valid() && H.InPhase(View(), n, H.Initialized)
      ensures reqInitLock && lastOp == Some(n) && reqSent.None?
      ensures I.OpsOk(cfg.names, book, name, H.ClientWriteFails(View(), n))
      ensures I.OpsOk(cfg.names, BookWith(n), name, H.ClientWrite(View(), n))
      ensures ops[n].IsCall() ==> H.Key(name, ops[n].msg.id.value) !in book
    {
      R.LockFacts(cfg.names, book, name, View());
      hide I.OpsOk, H.ClientWrite, H.ClientWriteFails, H.Config.Valid;
      C.WriteFailsKeepsOps(cfg.names, book, name, View(), n);
      C.WriteKeepsOps(cfg.names, book, name, View(), n, BookWith(n));
    }

    /** The caller takes the reply: it is the reply to this very call. */
    method Receive(n: nat) returns (reply: Message, ending: Ending)
      requires Valid() && CanReceive(View(), n)
      modifies this`ops
      ensures Valid() && View() == H.SetPhase(old(View()), n, H.Phase.Returned)
      ensures I.IsReplyTo(ops[n].msg, name, reply)
      ensures forall outcome :: Reports(reply, true, outcome) ==> Delivers(ending, outcome)
      ensures forall k: nat :: old(Waits(k)) ==> Waits(k)
    {
      hide I.OpsOk, I.IsReplyTo;
      reply := ops[n].reply.value;
      R.ResolvedOp(cfg.names, book, name, View(), n);
      C.ReceiveKeepsOps(cfg.names, book, name, View(), n);
      ops := ops[n := ops[n].(phase := H.Phase.Returned)];
      ending := if reply.error.Some? then CallFailed(reply.error.value)
                else if reply.result.None? || reply.result.value == "" then NoResult
                else Yields(reply.result.value);
    }

    // ---- the dispatch loop ----

    method AddRequestOp(n: nat)
      requires n < |ops|
      modifies this`respWait
      ensures respWait == old(respWait)[ops[n].WaitKey() := n]
    {
      respWait := respWait[ops[n].WaitKey() := n];
    }

    method RemoveRequestOp(n: nat)
      requires n < |ops|
      modifies this`respWait
      ensures respWait == old(respWait) - {ops[n].WaitKey()}
    {
      respWait := respWait - {ops[n].WaitKey()};
    }

    /** Accepting an operation registers it; every call that was waiting still is. */
    method OnReqInit(n: nat)
      requires Valid() && CanInit(View(), n)
      modifies this`ops, this`respWait, this`lastOp, this`reqInitLock
      ensures Valid() && View() == H.ClientInit(old(View()), n)
      ensures ops[n].WaitKey() in respWait && respWait[ops[n].WaitKey()] == n
      ensures forall k: nat :: old(I.Pending(View(), k)) ==> Waits(k)
    {
      hide I.OpsOk, I.Pending, Wired;
      ghost var before := View();
      C.InitKeepsOps(cfg.names, book, name, before, n);
      InitKeepsPending(before, n);
      reqInitLock := true;
      lastOp := Some(n);
      ops := ops[n := ops[n].(phase := H.Initialized)];
      AddRequestOp(n);
      assert View() == H.ClientInit(before, n);
      forall k: nat | I.Pending(before, k)
        ensures Waits(k)
      {
        PendingWaits(k);
      }
    }

    /** A failed write deregisters exactly its own call; a successful one deregisters nothing. */
    method OnReqSent()
      requires Valid() && reqSent.Some?
      modifies this`respWait, this`reqInitLock, this`reqSent
      ensures Valid() && View() == H.ClientSent(old(View()))
      ensures !old(reqSent).value ==> lastOp.Some? && lastOp.value < |ops| && ops[lastOp.value].WaitKey() !in respWait
      ensures forall k: nat :: old(I.Pending(View(), k)) && (old(reqSent) == Some(true) || Some(k) != lastOp) ==> Waits(k)
    {
      hide I.OpsOk, I.Pending, Wired;
      ghost var before := View();
      C.SentKeepsOps(cfg.names, book, name, before);
      R.LockFacts(cfg.names, book, name, before);
      SentKeepsPending(before);
      var ok := reqSent.value;
      reqSent := None;
      if !ok {
        RemoveRequestOp(lastOp.value);
      }
      reqInitLock := false;
      assert View() == H.ClientSent(before);
      forall k: nat | I.Pending(before, k) && (ok || Some(k) != lastOp)
        ensures Waits(k)
      {
        PendingWaits(k);
      }
    }

    /** A timed-out call is deregistered, and no other. */
    method OnReqTimeout(n: nat)
      requires Valid() && CanTimeOut(View(), n)
      modifies this`ops, this`respWait
      ensures Valid() && View() == H.ClientTimeOut(old(View()), n)
      ensures ops[n].WaitKey() !in respWait
      ensures forall k: nat :: old(I.Pending(View(), k)) && k != n ==> Waits(k)
    {
      hide I.OpsOk, I.Pending, Wired;
      ghost var before := View();
      C.TimeOutKeepsOps(cfg.names, book, name, before, n);
      TimeOutKeepsPending(before, n);
      ops := ops[n := ops[n].(phase := H.Phase.TimedOut)];
      RemoveRequestOp(n);
      assert View() == H.ClientTimeOut(before, n);
      forall k: nat | I.Pending(before, k) && k != n
        ensures Waits(k)
      {
        PendingWaits(k);
      }
    }

    /** The reader hands the oldest incoming message to the dispatch loop. A reply touches the one call
        it answers, and not even that when it has timed out; anything else starts a callback. */
    method OnRead()
      requires Valid() && incoming != [] && I.InOk(cfg.names, book, name, incoming[0])
      modifies this`incoming, this`respWait, this`ops, this`running
      ensures Valid()
      ensures View() == H.HandleMsg(old(View()).(incoming := old(incoming)[1..]), old(incoming)[0])
      ensures var msg := old(incoming)[0];
        if msg.IsResponse() then
          && H.Key(name, msg.id.value) in book
          && R.ResolvesOnly(old(View()), View(), book[H.Key(name, msg.id.value)].op, msg)
          && running == old(running) && incoming == old(incoming)[1..]
        else incoming == old(incoming)[1..] && ops == old(ops) && respWait == old(respWait) && running == old(running) + [msg]
    {
      hide I.OpsOk, I.InOk, R.ResolvesOnly, H.Config.Valid;
      ghost var before := View();
      var msg := incoming[0];
      ReadKeepsValid(before, msg);
      TableIndices();
      incoming := incoming[1..];
      if msg.IsResponse() {
        HandleResponse(msg);
      } else {
        running := running + [msg];
      }
      assert View() == H.HandleMsg(G.Unqueued(before), msg);
    }

    method HandleResponse(msg: Message)
      requires msg.id.Some? && forall k :: k in respWait ==> respWait[k] < |ops|
      modifies this`respWait, this`ops
      ensures View() == H.HandleReply(old(View()), msg)
    {
      if msg.id.value in respWait {
        var n := respWait[msg.id.value];
        respWait := respWait - {msg.id.value};
        if ops[n].reply.None? {
          ops := ops[n := ops[n].(reply := Some(msg))];
        }
      }
    }

    lemma TableIndices()
      requires Valid()
      ensures forall k :: k in respWait ==> respWait[k] < |ops|
    {
      hide I.LockOk, I.IdsOk, I.RecordsOk, I.RepliesOk, I.ShapesOk;
    }

    lemma ReadKeepsValid(c: H.Client, msg: Message)
      requires Valid() && c == View() && incoming != [] && msg == incoming[0] && I.InOk(cfg.names, book, name, msg)
      ensures I.OpsOk(cfg.names, book, name, H.HandleMsg(G.Unqueued(c), msg))
      ensures msg.IsResponse() ==>
        && msg.id.Some? && H.Key(name, msg.id.value) in book
        && R.ResolvesOnly(c, H.HandleMsg(G.Unqueued(c), msg), book[H.Key(name, msg.id.value)].op, msg)
    {
      hide I.OpsOk, I.InOk, I.GoodReply, R.ResolvesOnly, H.HandleReply, H.Config.Valid;
      G.NoEmptyName(cfg);
      G.ReadKinds(cfg.names, book, name, msg);
      if msg.IsResponse() {
        R.HandleReplyResolvesOnly(cfg.names, book, name, c, msg);
        T.SameOpsKeepOps(cfg.names, book, name, c, G.Unqueued(c));
        C.ReplyKeepsOps(cfg.names, book, name, G.Unqueued(c), msg);
      } else {
        T.SameOpsKeepOps(cfg.names, book, name, c, G.Started(c));
      }
    }

    // ---- callbacks ----

    /** A callback returns: the message leaves the running ones and its answer, if any, is written. */
    method FinishCall(i: nat, outcome: Outcome)
      requires Valid() && i < |running|
      modifies this`running, this`outgoing
      ensures Valid()
      ensures var answer := Answer(serviceCallbacks, old(running)[i], outcome);
        View() == old(View()).(running := old(running)[..i] + old(running)[i + 1..],
                               outgoing := if answer.Some? then old(outgoing) + [answer.value] else old(outgoing))
      ensures var msg := old(running)[i];
        && (msg.IsNotification() ==> outgoing == old(outgoing))
        && (msg.IsCall() ==> exists answer :: outgoing == old(outgoing) + [answer] && AnswersCall(msg, answer, outcome))
    {
      ghost var before := View();
      CallIsAnsweredByTheCallback(running[i], outcome);
      hide I.OpsOk, AnswersCall, Message.IsCall, Message.IsNotification;
      var msg := running[i];
      running := running[..i] + running[i + 1..];
      var answer := HandleCallMsg(msg, outcome);
      if answer.Some? {
        outgoing := outgoing + [answer.value];
      }
      T.SameOpsKeepOps(cfg.names, book, name, before, View());
    }

    /** The message is the answer to this call, and reports how its callback ended, or that this client has
        no callback of that name. */
    ghost predicate AnswersCall(call: Message, answer: Message, outcome: Outcome) {
      && answer.id == call.id && answer.origin == call.origin
      && (answer.IsResponse() ==> answer.procedure == call.procedure + "_response")
      && forall c :: Addresses(call.procedure, c) ==> Reports(answer, c in serviceCallbacks, outcome)
    }

    lemma CallIsAnsweredByTheCallback(msg: Message, outcome: Outcome)
      ensures msg.IsNotification() ==> Answer(serviceCallbacks, msg, outcome).None?
      ensures msg.IsCall() ==>
        && Answer(serviceCallbacks, msg, outcome).Some?
        && AnswersCall(msg, Answer(serviceCallbacks, msg, outcome).value, outcome)
    {
      if msg.IsCall() {
        CallIsAnswered(serviceCallbacks, msg, outcome);
      }
    }

    method HandleCallMsg(msg: Message, outcome: Outcome) returns (answer: Option<Message>)
      ensures answer == Answer(serviceCallbacks, msg, outcome)
    {
      if msg.IsNotification() {
        answer := None;
      } else if msg.IsCall() {
        var name := msg.MethodName();
        if name.None? || name.value !in serviceCallbacks {
          return Some(msg.ErrorResponse(RpcError(-32601, "method not found")));
        }
        match outcome
        case BadParams(reason) => answer := Some(msg.ErrorResponse(RpcError(-32602, reason)));
        case Failed(err) => answer := Some(msg.ErrorResponse(err));
        case Returned(encoded) => answer := Some(msg.Response(encoded));
      } else if msg.HasValidID() {
        answer := Some(msg.ErrorResponse(RpcError(-32600, "invalid request")));
      } else {
        answer := Some(ErrorMessage(RpcError(-32600, "invalid request")));
      }
    }

    // ---- the client in the hub ----

    /** The hub is in state s, as far as this client can tell. */
    ghost predicate IsIn(s: H.State)
      reads this
    {
      name in s.clients && s.clients[name] == View() && s.written == book
    }

    /** The client through any run of the hub: its dispatch loop, its callers and its callbacks act through
        the methods, in whatever order they get to it, and the relays and all other modules act in
        between. It always is what the run makes of it. */
    method Dispatch(acts: seq<H.Action>, queues: seq<Queues>, ghost s: H.State)
      requires Valid() && IsIn(s) && I.Inv(cfg, s)
      requires H.Legal(cfg, s, acts) && H.Bounded(H.Run(cfg, s, acts)) && LeavesQueues(cfg, s, name, acts, queues)
      modifies this
      ensures Valid() && IsIn(H.Run(cfg, s, acts))
    {
      hide I.Inv, I.OpsOk, H.Enabled, H.Next, H.Bounded, Wired, View;
      ghost var t := s;
      assert acts[0..] == acts && queues[0..] == queues;
      for i := 0 to |acts|
        invariant Valid() && IsIn(t) && I.Inv(cfg, t)
        invariant |queues| == |acts| && H.Legal(cfg, t, acts[i..]) && H.Run(cfg, t, acts[i..]) == H.Run(cfg, s, acts)
        invariant LeavesQueues(cfg, t, name, acts[i..], queues[i..])
      {
        assert acts[i..][0] == acts[i] && acts[i..][1..] == acts[i + 1..];
        assert queues[i..][0] == queues[i] && queues[i..][1..] == queues[i + 1..];
        R.BoundedBackwards(cfg, H.Next(cfg, t, acts[i]), acts[i + 1..]);
        R.StepKeepsInv(cfg, t, acts[i]);
        if IsOwn(acts[i], name) {
          Act(acts[i], t);
        } else {
          Wait(acts[i], queues[i], t);
        }
        t := H.Next(cfg, t, acts[i]);
      }
    }

    /** The relays or another module act. */
    method Wait(ghost act: H.Action, queues: Queues, ghost s: H.State)
      requires Valid() && IsIn(s) && H.Enabled(cfg, s, act) && !IsOwn(act, name)
      requires var s' := H.Next(cfg, s, act);
        I.Inv(cfg, s') && (name in s'.clients ==> QueuesOf(s'.clients[name]) == queues)
      modifies this`outgoing, this`relaying, this`incoming, this`book
      ensures Valid() && IsIn(H.Next(cfg, s, act))
    {
      hide I.Inv, I.OpsOk, H.Enabled, H.Next, Wired, Requeued, QueuesOf;
      OthersLeaveTheRest(cfg, s, act, name);
      OpsOfInv(H.Next(cfg, s, act));
      Requeue(queues, H.Next(cfg, s, act).written);
    }

    method Requeue(queues: Queues, ghost written: I.Book)
      modifies this`outgoing, this`relaying, this`incoming, this`book
      ensures View() == Requeued(old(View()), queues) && book == written
    {
      outgoing, relaying, incoming := queues.outgoing, queues.relaying, queues.incoming;
      book := written;
    }

    lemma OpsOfInv(s: H.State)
      requires I.Inv(cfg, s) && name in s.clients
      ensures I.OpsOk(cfg.names, s.written, name, s.clients[name])
    {
    }

    lemma OldestIsAdmissible(s: H.State)
      requires I.Inv(cfg, s) && IsIn(s) && incoming != []
      ensures I.InOk(cfg.names, book, name, incoming[0])
    {
      hide I.OpsOk, I.LedgerOk, I.InOk, I.OutOk, I.RelayOk, I.RunOk;
      assert I.PlacesOk(cfg.names, s.written, name, s.clients[name]);
    }

    lemma RoomForIds(act: H.Action, s: H.State)
      requires H.Enabled(cfg, s, act) && act.NewOp? && act.m == name && IsIn(s) && H.Bounded(H.Next(cfg, s, act))
      ensures idCounter < H.ID_SPACE
    {
      hide H.NewMessage, H.Config.Gate;
      assert name in H.Next(cfg, s, act).clients;
    }

    /** One step of this client, by the method that takes it. */
    method Act(act: H.Action, ghost s: H.State)
      requires Valid() && IsIn(s) && I.Inv(cfg, s) && H.Enabled(cfg, s, act) && IsOwn(act, name)
      requires H.Bounded(H.Next(cfg, s, act))
      modifies this
      ensures Valid() && IsIn(H.Next(cfg, s, act))
    {
      hide *;
      if act.Init? || act.SentSignal? || act.TimeOut? || act.Read? {
        Select(act, s);
      } else {
        ActAround(act, s);
      }
    }

    /** A case of the dispatch loop's select. */
    method Select(act: H.Action, ghost s: H.State)
      requires act.Init? || act.SentSignal? || act.TimeOut? || act.Read?
      requires Valid() && IsIn(s) && I.Inv(cfg, s) && H.Enabled(cfg, s, act) && IsOwn(act, name)
      modifies this`ops, this`respWait, this`lastOp, this`reqInitLock, this`reqSent, this`incoming, this`running
      ensures Valid() && IsIn(H.Next(cfg, s, act))
    {
      hide H.Enabled, H.Next, I.OpsOk, I.InOk, I.Inv, I.Pending, R.ResolvesOnly, H.ClientInit, H.ClientSent, H.ClientTimeOut,
        H.HandleMsg, Wired, Waits, H.Config.Valid, CanInit, CanTimeOut;
      OwnStep(cfg, s, act, name);
      match act {
        case Init(_, n) => OnReqInit(n);
        case SentSignal(_) => OnReqSent();
        case TimeOut(_, n) => OnReqTimeout(n);
        case Read(_) =>
          OldestIsAdmissible(s);
          OnRead();
      }
    }

    /** A step of a caller or of a callback. */
    method ActAround(act: H.Action, ghost s: H.State)
      requires !act.Init? && !act.SentSignal? && !act.TimeOut? && !act.Read?
      requires Valid() && IsIn(s) && H.Enabled(cfg, s, act) && IsOwn(act, name) && H.Bounded(H.Next(cfg, s, act))
      modifies this`idCounter, this`ops, this`outgoing, this`reqSent, this`book, this`running
      ensures Valid() && IsIn(H.Next(cfg, s, act))
    {
      hide H.Enabled, H.Next, I.OpsOk, H.ClientNew, H.ClientWrite, H.ClientWriteFails, H.Config.Gate, H.SetPhase, Answer,
        H.NewMessage, H.Bounded, I.IsReplyTo, Waits, HasOwnId, H.Config.Valid, CanGiveUp, CanWrite, CanReceive;
      OwnStep(cfg, s, act, name);
      match act {
        case NewOp(_, procedure, notifyAll, exclusion, params, isCall, encodes) =>
          RoomForIds(act, s);
          var r := NewOp(procedure, notifyAll, exclusion, params, isCall, encodes);
        case GiveUp(_, n) => GiveUp(n);
        case Write(_, n) => Write(n, false);
        case WriteFails(_, n) => Write(n, true);
        case Receive(_, n) => var reply, ending := Receive(n);
        case Finish(_, i, outcome) => FinishCall(i, outcome);
      }
    }
  }

  lemma InitKeepsPending(c: H.Client, n: nat)
    requires CanInit(c, n)
    ensures forall k: nat :: I.Pending(c, k) ==> I.Pending(H.ClientInit(c, n), k)
  {
  }

  lemma SentKeepsPending(c: H.Client)
    requires c.reqSent.Some?
    ensures forall k: nat :: I.Pending(c, k) && (c.reqSent == Some(true) || c.lock != Some(k)) ==> I.Pending(H.ClientSent(c), k)
  {
  }

  lemma TimeOutKeepsPending(c: H.Client, n: nat)
    requires n < |c.ops|
    ensures forall k: nat :: I.Pending(c, k) && k != n ==> I.Pending(H.ClientTimeOut(c, n), k)
  {
  }
}
