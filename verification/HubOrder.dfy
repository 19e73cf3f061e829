/** The order of messages, over whole runs: what one module sends to another arrives, and is read, in the
    order in which it was sent, whatever happens in between. */
module HubOrder {

  import opened JsonRpc
  import opened Hub
  import opened HubRelay
  import opened HubSteps
  import opened HubRuns

  // ---- from the sender to the receiver's queue ----

  /** What module m's relay will push to y for the messages of a queue, in order. */
  function ToCome(names: seq<string>, m: string, q: seq<Message>, y: string): seq<Message> {
    if q == [] then [] else PushedTo(Deliveries(names, m, q[0]), y) + ToCome(names, m, q[1..], y)
  }

  /** What is under way from m to y, in order: first what the relay is pushing, then what waits for it. */
  function UnderWay(names: seq<string>, m: string, c: Client, y: string): seq<Message> {
    PushedTo(c.relaying, y) + ToCome(names, m, c.outgoing, y)
  }

  /** What this step of m puts on the wire for y: a message that is written, or a callback's answer. */
  ghost function SentBy(cfg: Config, s: State, act: Action, m: string, y: string): seq<Message>
    requires Enabled(cfg, s, act)
  {
    if act.m != m then []
    else
      match act
      case Write(_, n) => PushedTo(Deliveries(cfg.names, m, s.clients[m].ops[n].msg), y)
      case Finish(_, i, outcome) =>
        var answer := Answer(cfg.callbacks[m], s.clients[m].running[i], outcome);
        if answer.Some? then PushedTo(Deliveries(cfg.names, m, answer.value), y) else []
      case _ => []
  }

  /** A message in y's incoming queue, with the module whose relay pushed it. */
  datatype Arrival = Arrival(sender: string, msg: Message)

  ghost function ArrivesBy(cfg: Config, s: State, act: Action, y: string): seq<Arrival>
    requires Enabled(cfg, s, act)
  {
    if act.Deliver? && s.clients[act.m].relaying[0].to == y then [Arrival(act.m, s.clients[act.m].relaying[0].msg)] else []
  }

  ghost function ReadBy(cfg: Config, s: State, act: Action, y: string): seq<Message>
    requires Enabled(cfg, s, act)
  {
    if act == Read(y) then [s.clients[y].incoming[0]] else []
  }

  /** The arrivals that came from m. */
  function From(log: seq<Arrival>, m: string): seq<Message> {
    if log == [] then [] else (if log[0].sender == m then [log[0].msg] else []) + From(log[1..], m)
  }

  function Messages(log: seq<Arrival>): seq<Message> {
    seq(|log|, i requires 0 <= i < |log| => log[i].msg)
  }

  // ---- every step ----

  lemma {:induction false} ToComePush(names: seq<string>, m: string, q: seq<Message>, x: Message, y: string)
    ensures ToCome(names, m, q + [x], y) == ToCome(names, m, q, y) + PushedTo(Deliveries(names, m, x), y)
  {
    hide Deliveries, PushedTo;
    if q == [] {
      assert [x][1..] == [] && [] + [x] == [x];
      assert ToCome(names, m, [x], y) == PushedTo(Deliveries(names, m, x), y) + ToCome(names, m, [], y);
    } else {
      ToComePush(names, m, q[1..], x, y);
      assert (q + [x])[1..] == q[1..] + [x] && (q + [x])[0] == q[0];
      Associative(PushedTo(Deliveries(names, m, q[0]), y), ToCome(names, m, q[1..], y), PushedTo(Deliveries(names, m, x), y));
    }
  }

  lemma PushIsUnderWay(names: seq<string>, m: string, c: Client, c': Client, x: Message, y: string)
    requires c'.outgoing == c.outgoing + [x] && c'.relaying == c.relaying
    ensures UnderWay(names, m, c', y) == UnderWay(names, m, c, y) + PushedTo(Deliveries(names, m, x), y)
  {
    hide Deliveries, PushedTo, ToCome;
    ToComePush(names, m, c.outgoing, x, y);
    Associative(PushedTo(c.relaying, y), ToCome(names, m, c.outgoing, y), PushedTo(Deliveries(names, m, x), y));
  }

  lemma TakeKeepsOrder(names: seq<string>, m: string, c: Client, c': Client, y: string)
    requires c.relaying == [] && c.outgoing != []
    requires c'.relaying == Deliveries(names, m, c.outgoing[0]) && c'.outgoing == c.outgoing[1..]
    ensures UnderWay(names, m, c', y) == UnderWay(names, m, c, y)
  {
    hide Deliveries;
    assert PushedTo([], y) == [];
  }

  lemma PopKeepsOrder(names: seq<string>, m: string, c: Client, c': Client, y: string)
    requires c.relaying != [] && c'.relaying == c.relaying[1..] && c'.outgoing == c.outgoing
    ensures UnderWay(names, m, c, y) == (if c.relaying[0].to == y then [c.relaying[0].msg] else []) + UnderWay(names, m, c', y)
  {
    hide Deliveries, ToCome, PushedTo;
    PushedToStep(c.relaying, y);
    Associative(if c.relaying[0].to == y then [c.relaying[0].msg] else [], PushedTo(c.relaying[1..], y), ToCome(names, m, c.outgoing, y));
  }

  /** One step keeps the order between two modules, and that of one incoming queue. */
  ghost predicate InOrder(cfg: Config, s: State, act: Action, m: string, y: string)
    requires Enabled(cfg, s, act) && m in s.clients && y in s.clients
  {
    var s' := Next(cfg, s, act);
    && m in s'.clients && y in s'.clients
    && UnderWay(cfg.names, m, s.clients[m], y) + SentBy(cfg, s, act, m, y)
       == From(ArrivesBy(cfg, s, act, y), m) + UnderWay(cfg.names, m, s'.clients[m], y)
    && s.clients[y].incoming + Messages(ArrivesBy(cfg, s, act, y)) == ReadBy(cfg, s, act, y) + s'.clients[y].incoming
  }

  lemma OneArrival(a: Arrival, m: string)
    ensures From([a], m) == if a.sender == m then [a.msg] else []
    ensures Messages([a]) == [a.msg]
  {
    assert [a][1..] == [];
  }

  lemma NoArrival(m: string)
    ensures From([], m) == [] && Messages([]) == []
  {
  }

  lemma StepInOrder(cfg: Config, s: State, act: Action, m: string, y: string)
    requires Enabled(cfg, s, act) && m in s.clients && y in s.clients
    ensures InOrder(cfg, s, act, m, y)
  {
    hide InOrder, Enabled, UnderWay;
    match act
    case Write(x, n) => WriteInOrder(cfg, s, x, n, m, y);
    case RelayTake(x) => TakeInOrder(cfg, s, x, m, y);
    case Deliver(x) => DeliverInOrder(cfg, s, x, m, y);
    case Read(x) => ReadInOrder(cfg, s, x, m, y);
    case Finish(x, i, outcome) => FinishInOrder(cfg, s, act, m, y);
    case _ => QuietInOrder(cfg, s, act, m, y);
  }

  lemma Nothing(q: seq<Message>)
    ensures q + [] == q && [] + q == q
  {
  }

  lemma WriteInOrder(cfg: Config, s: State, x: string, n: nat, m: string, y: string)
    requires Enabled(cfg, s, Write(x, n)) && m in s.clients && y in s.clients
    ensures InOrder(cfg, s, Write(x, n), m, y)
  {
    hide UnderWay, Deliveries, PushedTo, From, Messages;
    NoArrival(m);
    var c, c' := s.clients[m], Next(cfg, s, Write(x, n)).clients[m];
    if x == m {
      PushIsUnderWay(cfg.names, m, c, c', c.ops[n].msg, y);
    }
  }

  lemma TakeInOrder(cfg: Config, s: State, x: string, m: string, y: string)
    requires Enabled(cfg, s, RelayTake(x)) && m in s.clients && y in s.clients
    ensures InOrder(cfg, s, RelayTake(x), m, y)
  {
    hide UnderWay, Deliveries, PushedTo, From, Messages;
    NoArrival(m);
    if x == m {
      TakeKeepsOrder(cfg.names, m, s.clients[m], Next(cfg, s, RelayTake(x)).clients[m], y);
    }
  }

  lemma DeliverInOrder(cfg: Config, s: State, x: string, m: string, y: string)
    requires Enabled(cfg, s, Deliver(x)) && m in s.clients && y in s.clients
    ensures InOrder(cfg, s, Deliver(x), m, y)
  {
    hide UnderWay, Deliveries, PushedTo, From, Messages;
    var c, c' := s.clients[m], Next(cfg, s, Deliver(x)).clients[m];
    NoArrival(m);
    OneArrival(Arrival(x, s.clients[x].relaying[0].msg), m);
    if x == m {
      PopKeepsOrder(cfg.names, m, c, c', y);
    } else {
      SameUnderWay(cfg.names, m, c, c', y);
    }
  }

  lemma ReadInOrder(cfg: Config, s: State, x: string, m: string, y: string)
    requires Enabled(cfg, s, Read(x)) && m in s.clients && y in s.clients
    ensures InOrder(cfg, s, Read(x), m, y)
  {
    hide UnderWay, Deliveries, PushedTo, From, Messages, Message.IsResponse;
    NoArrival(m);
    SameUnderWay(cfg.names, m, s.clients[m], Next(cfg, s, Read(x)).clients[m], y);
  }

  lemma FinishInOrder(cfg: Config, s: State, act: Action, m: string, y: string)
    requires act.Finish? && Enabled(cfg, s, act) && m in s.clients && y in s.clients
    ensures InOrder(cfg, s, act, m, y)
  {
    hide UnderWay, Deliveries, PushedTo, From, Messages, Answer;
    NoArrival(m);
    var c, c' := s.clients[m], Next(cfg, s, act).clients[m];
    var answer := Answer(cfg.callbacks[act.m], s.clients[act.m].running[act.i], act.outcome);
    if act.m == m && answer.Some? {
      PushIsUnderWay(cfg.names, m, c, c', answer.value, y);
    } else {
      SameUnderWay(cfg.names, m, c, c', y);
    }
  }

  lemma QuietInOrder(cfg: Config, s: State, act: Action, m: string, y: string)
    requires Enabled(cfg, s, act) && m in s.clients && y in s.clients && !IsInternal(act) && !act.Write?
    ensures InOrder(cfg, s, act, m, y)
  {
    hide UnderWay, From, Messages, Next, SameReplies, Config.Gate;
    QuietShape(cfg, s, act);
    NoArrival(m);
    SameUnderWay(cfg.names, m, s.clients[m], Next(cfg, s, act).clients[m], y);
  }

  lemma SameUnderWay(names: seq<string>, m: string, c: Client, c': Client, y: string)
    requires c'.relaying == c.relaying && c'.outgoing == c.outgoing
    ensures UnderWay(names, m, c', y) == UnderWay(names, m, c, y)
  {
  }

  // ---- every run ----

  ghost function Sent(cfg: Config, s: State, acts: seq<Action>, m: string, y: string): seq<Message>
    requires Legal(cfg, s, acts)
    decreases |acts|
  {
    if acts == [] then [] else SentBy(cfg, s, acts[0], m, y) + Sent(cfg, Next(cfg, s, acts[0]), acts[1..], m, y)
  }

  /** The arrivals in y's incoming queue in the run, in order. */
  ghost function Arrivals(cfg: Config, s: State, acts: seq<Action>, y: string): seq<Arrival>
    requires Legal(cfg, s, acts)
    decreases |acts|
  {
    if acts == [] then [] else ArrivesBy(cfg, s, acts[0], y) + Arrivals(cfg, Next(cfg, s, acts[0]), acts[1..], y)
  }

  /** What y's dispatch loop has read in the run, in order. */
  ghost function Reads(cfg: Config, s: State, acts: seq<Action>, y: string): seq<Message>
    requires Legal(cfg, s, acts)
    decreases |acts|
  {
    if acts == [] then [] else ReadBy(cfg, s, acts[0], y) + Reads(cfg, Next(cfg, s, acts[0]), acts[1..], y)
  }

  lemma {:induction false} FromConcat(a: seq<Arrival>, b: seq<Arrival>, m: string)
    ensures From(a + b, m) == From(a, m) + From(b, m)
  {
    if a == [] {
      assert a + b == b;
    } else {
      FromConcat(a[1..], b, m);
      assert (a + b)[1..] == a[1..] + b && (a + b)[0] == a[0];
      Associative(if a[0].sender == m then [a[0].msg] else [], From(a[1..], m), From(b, m));
    }
  }

  lemma MessagesConcatenate(a: seq<Arrival>, b: seq<Arrival>)
    ensures Messages(a + b) == Messages(a) + Messages(b)
  {
  }

  /** Two steps of bookkeeping, joined: in goes out first. */
  lemma Joined(before: seq<Message>, in1: seq<Message>, out1: seq<Message>, between: seq<Message>, in2: seq<Message>,
               out2: seq<Message>, after: seq<Message>)
    requires before + in1 == out1 + between && between + in2 == out2 + after
    ensures before + (in1 + in2) == (out1 + out2) + after
  {
    Associative(before, in1, in2);
    Associative(out1, between, in2);
    Associative(out1, out2, after);
  }

  lemma {:induction false} RunInOrder(cfg: Config, s: State, acts: seq<Action>, m: string, y: string)
    requires Legal(cfg, s, acts) && m in s.clients && y in s.clients
    ensures var s' := Run(cfg, s, acts);
      && m in s'.clients && y in s'.clients
      && UnderWay(cfg.names, m, s.clients[m], y) + Sent(cfg, s, acts, m, y)
         == From(Arrivals(cfg, s, acts, y), m) + UnderWay(cfg.names, m, s'.clients[m], y)
      && s.clients[y].incoming + Messages(Arrivals(cfg, s, acts, y)) == Reads(cfg, s, acts, y) + s'.clients[y].incoming
    decreases |acts|
  {
    hide Enabled, Next, UnderWay, SentBy, ArrivesBy, ReadBy, From, Messages;
    if acts == [] {
      NoArrival(m);
      Nothing(UnderWay(cfg.names, m, s.clients[m], y));
      Nothing(s.clients[y].incoming);
    } else {
      StepInOrder(cfg, s, acts[0], m, y);
      var s1 := Next(cfg, s, acts[0]);
      var s' := Run(cfg, s, acts);
      RunInOrder(cfg, s1, acts[1..], m, y);
      var first, rest := ArrivesBy(cfg, s, acts[0], y), Arrivals(cfg, s1, acts[1..], y);
      FromConcat(first, rest, m);
      MessagesConcatenate(first, rest);
      Joined(UnderWay(cfg.names, m, s.clients[m], y), SentBy(cfg, s, acts[0], m, y), From(first, m),
             UnderWay(cfg.names, m, s1.clients[m], y), Sent(cfg, s1, acts[1..], m, y), From(rest, m),
             UnderWay(cfg.names, m, s'.clients[m], y));
      Joined(s.clients[y].incoming, Messages(first), ReadBy(cfg, s, acts[0], y), s1.clients[y].incoming,
             Messages(rest), Reads(cfg, s1, acts[1..], y), s'.clients[y].incoming);
    }
  }

  /** Every run: what m has sent to y is what has arrived at y from m, in the same order, followed by what is
      still under way; and y has read its arrivals in their order, up to what is still in its queue. */
  lemma MessagesArriveInOrder(cfg: Config, s: State, acts: seq<Action>, m: string, y: string)
    requires IsInit(cfg, s) && Legal(cfg, s, acts) && m in cfg.names && y in cfg.names
    ensures var s', log := Run(cfg, s, acts), Arrivals(cfg, s, acts, y);
      && m in s'.clients && y in s'.clients
      && Sent(cfg, s, acts, m, y) == From(log, m) + UnderWay(cfg.names, m, s'.clients[m], y)
      && Messages(log) == Reads(cfg, s, acts, y) + s'.clients[y].incoming
  {
    hide Legal, Run, Sent, Reads, Arrivals, From, Messages;
    RunInOrder(cfg, s, acts, m, y);
    assert UnderWay(cfg.names, m, s.clients[m], y) == [] && s.clients[y].incoming == [];
    Nothing(Sent(cfg, s, acts, m, y));
    Nothing(Messages(Arrivals(cfg, s, acts, y)));
  }

  // ---- the channels are bounded ----

  /** No queue outgrows its channel; the incoming one counts the message in the reader's hand. */
  ghost predicate QueuesFit(s: State) {
    forall m :: m in s.clients ==> QueueFits(s.clients[m])
  }

  ghost predicate QueueFits(c: Client) {
    |c.outgoing| <= 20_000 && |c.incoming| <= 20_001
  }

  lemma StepKeepsQueue(cfg: Config, s: State, act: Action, m: string)
    requires Enabled(cfg, s, act) && m in s.clients && QueueFits(s.clients[m])
    ensures m in Next(cfg, s, act).clients && QueueFits(Next(cfg, s, act).clients[m])
  {
    hide Deliveries, Answer, Config.Gate, NewMessage, Message.IsResponse;
  }

  lemma StepKeepsQueues(cfg: Config, s: State, act: Action)
    requires Enabled(cfg, s, act) && QueuesFit(s)
    ensures QueuesFit(Next(cfg, s, act))
  {
    hide Enabled, Next, QueueFits;
    CountersGrow(cfg, s, act);
    forall m | m in s.clients
      ensures m in Next(cfg, s, act).clients && QueueFits(Next(cfg, s, act).clients[m])
    {
      StepKeepsQueue(cfg, s, act, m);
    }
  }

  lemma {:induction false} RunKeepsQueues(cfg: Config, s: State, acts: seq<Action>)
    requires QueuesFit(s) && Legal(cfg, s, acts)
    ensures QueuesFit(Run(cfg, s, acts))
    decreases |acts|
  {
    hide Enabled, Next, QueuesFit;
    if acts != [] {
      StepKeepsQueues(cfg, s, acts[0]);
      RunKeepsQueues(cfg, Next(cfg, s, acts[0]), acts[1..]);
    }
  }

  /** In every run the outgoing queue of a module holds at most 20000 messages, and the incoming one at most
      one more: a full channel blocks whoever wants to put something in. */
  lemma QueuesAreBounded(cfg: Config, s: State, acts: seq<Action>)
    requires IsInit(cfg, s) && Legal(cfg, s, acts)
    ensures QueuesFit(Run(cfg, s, acts))
  {
    hide Legal, Run;
    RunKeepsQueues(cfg, s, acts);
  }
}
