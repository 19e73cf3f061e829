/** The message hub as a step system: one client per module (its dispatch loop, its queues, its
    pending calls) and one relay goroutine per module moving messages between the clients.
    Every interleaving of callers, dispatch loops, callbacks and relays is a sequence of actions. */
module Hub {

  import opened Wrappers
  import opened Words
  import opened JsonRpc

  /** Capacity of the incoming and outgoing channels. */
  const CHANNEL_SIZE: nat := 20000

  /** Request ids are rendered from a 32-bit counter. */
  const ID_SPACE: nat := 0x1_0000_0000

  // ---- configuration ----

  /** The registered modules, in the order in which the relays range over them, and the names of
      the callbacks each one serves. */
  datatype Config = Config(names: seq<string>, callbacks: map<string, set<string>>)
  {
    ghost predicate Valid() {
      && (forall i, j :: 0 <= i < j < |names| ==> names[i] != names[j])
      && (forall m :: m in names <==> m in callbacks)
      && (forall m :: m in names ==> m != "" && m != "core" && SEPARATOR !in m)
      && (forall m, c :: m in callbacks && c in callbacks[m] ==> SEPARATOR !in c && c != "response")
    }

    /** `knownCallbacks`, as `Configure` builds it. */
    ghost predicate Known(procedure: string) {
      || procedure == "core_ping"
      || (exists m, c :: m in callbacks && c in callbacks[m] && procedure == KnownName(m, c))
    }

    /** The gate of `newMessage`. */
    ghost predicate Gate(procedure: string, notifyAll: bool) {
      Known(procedure) || (HasPrefix(procedure, "core_") && notifyAll)
    }
  }

  // ---- client state ----

  datatype Phase =
    | Created      // built by newMessage, not yet accepted by the dispatch loop
    | GivenUp      // the caller's context ended before the dispatch loop accepted it
    | Initialized  // registered; the caller is about to write
    | WriteFailed  // the write failed; the caller has returned the error
    | Sent         // written; a caller of Call now waits
    | Returned     // the caller has taken the reply
    | TimedOut     // the caller has stopped waiting

  /** One request operation: a call has an id, a notification has none. */
  datatype Op = Op(msg: Message, serial: nat, phase: Phase, reply: Option<Message>)
  {
    predicate IsCall() {
      msg.id.Some?
    }

    /** The key of the operation in `respWait`. */
    function WaitKey(): string {
      if msg.id.Some? then msg.id.value else ""
    }

    predicate Written() {
      phase.Sent? || phase.Returned? || phase.TimedOut?
    }
  }

  datatype Delivery = Delivery(to: string, msg: Message)

  datatype Client = Client(
    counter: nat,                 // how often nextID was called; the 32-bit counter is its remainder
    ops: seq<Op>,
    respWait: map<string, nat>,
    lock: Option<nat>,            // lastOp while the send lock is held
    reqSent: Option<bool>,        // the buffered write signal: true for a successful write
    outgoing: seq<Message>,
    relaying: seq<Delivery>,      // what the module's relay goroutine still has to push
    incoming: seq<Message>,       // the channel together with the message in the reader's hand
    running: seq<Message>)        // messages whose callback is executing

  /** A call is identified by the module that made it and its id. */
  datatype Key = Key(origin: string, id: string)

  datatype Record = Record(msg: Message, op: nat)

  /** `written`, `ran` and `consumed` only record what happened; no step reads them. */
  datatype State = State(
    clients: map<string, Client>,
    written: map<Key, Record>,    // calls put on the wire
    ran: multiset<Key>,           // callback executions started for a call
    consumed: multiset<Key>)      // replies handled by the dispatch loop of the caller

  // ---- what a client does ----

  function NewMessage(counter: nat, procedure: string, notifyAll: bool, exclusion: seq<string>,
                      params: Option<string>, isCall: bool): Message {
    Message(VSN, if isCall then Some(Decimal((counter + 1) % ID_SPACE)) else None, procedure, params,
            None, None, notifyAll, if notifyAll then exclusion else [], "")
  }

  function ClientNew(c: Client, msg: Message): Client {
    c.(counter := c.counter + 1, ops := c.ops + [Op(msg, c.counter + 1, Created, None)])
  }

  function SetPhase(c: Client, n: nat, phase: Phase): Client
    requires n < |c.ops|
  {
    c.(ops := c.ops[n := c.ops[n].(phase := phase)])
  }

  /** The dispatch loop accepts an operation: it registers it and takes the send lock. */
  function ClientInit(c: Client, n: nat): Client
    requires n < |c.ops|
  {
    SetPhase(c, n, Initialized).(respWait := c.respWait[c.ops[n].WaitKey() := n], lock := Some(n))
  }

  function ClientWrite(c: Client, n: nat): Client
    requires n < |c.ops|
  {
    SetPhase(c, n, Sent).(outgoing := c.outgoing + [c.ops[n].msg], reqSent := Some(true))
  }

  function ClientWriteFails(c: Client, n: nat): Client
    requires n < |c.ops|
  {
    SetPhase(c, n, WriteFailed).(reqSent := Some(false))
  }

  /** The dispatch loop takes the write signal: a failed write deregisters `lastOp`. */
  function ClientSent(c: Client): Client
    requires c.reqSent.Some?
  {
    var wait := if !c.reqSent.value && c.lock.Some? && c.lock.value < |c.ops|
                then c.respWait - {c.ops[c.lock.value].WaitKey()} else c.respWait;
    c.(reqSent := None, lock := None, respWait := wait)
  }

  function ClientTimeOut(c: Client, n: nat): Client
    requires n < |c.ops|
  {
    SetPhase(c, n, TimedOut).(respWait := c.respWait - {c.ops[n].WaitKey()})
  }

  /** `handleResponse` on a reply. */
  function HandleReply(c: Client, msg: Message): Client {
    if msg.id.None? || msg.id.value !in c.respWait || c.respWait[msg.id.value] >= |c.ops| then c
    else
      var n := c.respWait[msg.id.value];
      var op := c.ops[n];
      c.(respWait := c.respWait - {msg.id.value},
         ops := if op.reply.Some? then c.ops else c.ops[n := op.(reply := Some(msg))])
  }

  /** `handleMsg`: a reply resolves an operation, anything else starts a callback. */
  function HandleMsg(c: Client, msg: Message): Client {
    if msg.IsResponse() then HandleReply(c, msg) else c.(running := c.running + [msg])
  }

  // ---- what a relay goroutine does ----

  function Stamp(m: string, msg: Message): Message {
    if !msg.IsResponse() && msg.origin == "" then msg.(origin := m) else msg
  }

  function TargetOf(msg: Message): string {
    if msg.IsResponse() then msg.origin else msg.Namespace()
  }

  function NotFoundReply(msg: Message): Message {
    Message(msg.version, msg.id, msg.procedure + RESPONSE_SUFFIX, None, None, None, false, [], "")
      .ErrorResponse(RpcError(DEFAULT_ERROR_CODE, "targetted module not found"))
  }

  function Copy(msg: Message): Message {
    Message(msg.version, None, msg.procedure, msg.params, msg.error, msg.result, msg.notifyAll, [], "")
  }

  function Copies(names: seq<string>, m: string, target: string, exclusion: seq<string>, copy: Message): seq<Delivery> {
    if names == [] then []
    else
      var rest := Copies(names[1..], m, target, exclusion, copy);
      if names[0] == m || names[0] == target || names[0] in exclusion then rest
      else [Delivery(names[0], copy)] + rest
  }

  /** Everything one iteration of module m's relay pushes for `msg`, in order. */
  function Deliveries(names: seq<string>, m: string, msg: Message): seq<Delivery> {
    var stamped := Stamp(m, msg);
    var target := TargetOf(msg);
    (if target == m then [Delivery(m, stamped)] else [])
    + (if target in names then [Delivery(target, stamped)]
       else if msg.IsCall() then [Delivery(m, NotFoundReply(stamped))]
       else [])
    + (if msg.notifyAll then Copies(names, m, target, msg.notifyExclusion, Copy(stamped)) else [])
  }

  // ---- actions ----

  datatype Action =
    | NewOp(m: string, procedure: string, notifyAll: bool, exclusion: seq<string>, params: Option<string>,
            isCall: bool, encodes: bool)
    | GiveUp(m: string, n: nat)
    | Init(m: string, n: nat)
    | Write(m: string, n: nat)
    | WriteFails(m: string, n: nat)
    | SentSignal(m: string)
    | Receive(m: string, n: nat)
    | TimeOut(m: string, n: nat)
    | RelayTake(m: string)
    | Deliver(m: string)
    | Read(m: string)
    | Finish(m: string, i: nat, outcome: Outcome)

  /** Steps the hub takes on its own, once messages are on the wire. */
  predicate IsInternal(act: Action) {
    act.RelayTake? || act.Deliver? || act.Read? || act.Finish?
  }

  predicate InPhase(c: Client, n: nat, phase: Phase) {
    n < |c.ops| && c.ops[n].phase == phase
  }

  ghost predicate Enabled(cfg: Config, s: State, act: Action) {
    && act.m in s.clients
    && act.m in cfg.callbacks
    && var c := s.clients[act.m];
    match act
    case NewOp(_, procedure, notifyAll, _, _, _, _) => cfg.Gate(procedure, notifyAll)
    case GiveUp(_, n) => InPhase(c, n, Created)
    case Init(_, n) => c.lock.None? && InPhase(c, n, Created)
    case Write(_, n) => InPhase(c, n, Initialized) && |c.outgoing| < CHANNEL_SIZE && c.reqSent.None?
    case WriteFails(_, n) => InPhase(c, n, Initialized) && c.reqSent.None?
    case SentSignal(_) => c.reqSent.Some?
    case Receive(_, n) => InPhase(c, n, Phase.Sent) && c.ops[n].reply.Some?
    case TimeOut(_, n) => InPhase(c, n, Phase.Sent) && c.ops[n].IsCall()
    case RelayTake(_) => c.relaying == [] && c.outgoing != []
    case Deliver(_) =>
      && c.relaying != []
      && c.relaying[0].to in s.clients
      && |s.clients[c.relaying[0].to].incoming| <= CHANNEL_SIZE
    case Read(_) => c.incoming != []
    case Finish(_, i, outcome) =>
      && i < |c.running|
      && (Answer(cfg.callbacks[act.m], c.running[i], outcome).Some? ==> |c.outgoing| < CHANNEL_SIZE)
  }

  function Push(clients: map<string, Client>, to: string, msg: Message): map<string, Client>
    requires to in clients
  {
    clients[to := clients[to].(incoming := clients[to].incoming + [msg])]
  }

  ghost function Next(cfg: Config, s: State, act: Action): State
    requires Enabled(cfg, s, act)
  {
    var m := act.m;
    var c := s.clients[m];
    match act
    case NewOp(_, procedure, notifyAll, exclusion, params, isCall, encodes) =>
      var msg := NewMessage(c.counter, procedure, notifyAll, exclusion, params, isCall);
      s.(clients := s.clients[m := if encodes then ClientNew(c, msg) else c.(counter := c.counter + 1)])
    case GiveUp(_, n) => s.(clients := s.clients[m := SetPhase(c, n, GivenUp)])
    case Init(_, n) => s.(clients := s.clients[m := ClientInit(c, n)])
    case Write(_, n) =>
      s.(clients := s.clients[m := ClientWrite(c, n)],
         written := if c.ops[n].IsCall()
                    then s.written[Key(m, c.ops[n].msg.id.value) := Record(c.ops[n].msg, n)] else s.written)
    case WriteFails(_, n) => s.(clients := s.clients[m := ClientWriteFails(c, n)])
    case SentSignal(_) => s.(clients := s.clients[m := ClientSent(c)])
    case Receive(_, n) => s.(clients := s.clients[m := SetPhase(c, n, Phase.Returned)])
    case TimeOut(_, n) => s.(clients := s.clients[m := ClientTimeOut(c, n)])
    case RelayTake(_) =>
      s.(clients := s.clients[m := c.(outgoing := c.outgoing[1..],
                                      relaying := Deliveries(cfg.names, m, c.outgoing[0]))])
    case Deliver(_) =>
      s.(clients := Push(s.clients[m := c.(relaying := c.relaying[1..])], c.relaying[0].to, c.relaying[0].msg))
    case Read(_) =>
      var msg := c.incoming[0];
      s.(clients := s.clients[m := HandleMsg(c.(incoming := c.incoming[1..]), msg)],
         consumed := if msg.IsResponse() then s.consumed + multiset{Key(m, msg.id.value)} else s.consumed,
         ran := if !msg.IsResponse() && msg.id.Some? then s.ran + multiset{Key(msg.origin, msg.id.value)} else s.ran)
    case Finish(_, i, outcome) =>
      var answer := Answer(cfg.callbacks[m], c.running[i], outcome);
      s.(clients := s.clients[m := c.(running := c.running[..i] + c.running[i + 1..],
                                      outgoing := if answer.Some? then c.outgoing + [answer.value] else c.outgoing)])
  }

  // ---- runs ----

  const FRESH_CLIENT: Client := Client(0, [], map[], None, None, [], [], [], [])

  ghost predicate IsInit(cfg: Config, s: State) {
    && (forall m :: m in s.clients <==> m in cfg.names)
    && (forall m :: m in s.clients ==> s.clients[m] == FRESH_CLIENT)
    && s.written == map[] && s.ran == multiset{} && s.consumed == multiset{}
  }

  ghost predicate Legal(cfg: Config, s: State, acts: seq<Action>)
    decreases |acts|
  {
    acts == [] || (Enabled(cfg, s, acts[0]) && Legal(cfg, Next(cfg, s, acts[0]), acts[1..]))
  }

  ghost function Run(cfg: Config, s: State, acts: seq<Action>): State
    requires Legal(cfg, s, acts)
    decreases |acts|
  {
    if acts == [] then s else Run(cfg, Next(cfg, s, acts[0]), acts[1..])
  }

  /** No client has issued more requests than there are ids. */
  ghost predicate Bounded(s: State) {
    forall m :: m in s.clients ==> s.clients[m].counter <= ID_SPACE
  }

  ghost predicate Drained(s: State) {
    forall m :: m in s.clients ==>
      var c := s.clients[m];
      c.outgoing == [] && c.relaying == [] && c.incoming == [] && c.running == []
  }
}
