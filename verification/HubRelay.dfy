/** What one relay iteration and one callback execution do to the messages in the hub: what may
    come out of them, and how the weights change. */
module HubRelay {

  import opened Wrappers
  import opened Words
  import opened JsonRpc
  import opened Hub
  import opened HubLedger
  import opened HubInvariant

  // ---- routing and broadcast ----

  /** What is pushed to module x, in order. */
  function PushedTo(q: seq<Delivery>, x: string): seq<Message> {
    if q == [] then [] else (if q[0].to == x then [q[0].msg] else []) + PushedTo(q[1..], x)
  }

  lemma {:induction false} PushedToConcat(q: seq<Delivery>, r: seq<Delivery>, x: string)
    ensures PushedTo(q + r, x) == PushedTo(q, x) + PushedTo(r, x)
  {
    if q == [] {
      assert q + r == r;
    } else {
      hide PushedTo;
      assert (q + r)[1..] == q[1..] + r && (q + r)[0] == q[0];
      PushedToStep(q, x);
      PushedToStep(q + r, x);
      PushedToConcat(q[1..], r, x);
      Associative(if q[0].to == x then [q[0].msg] else [], PushedTo(q[1..], x), PushedTo(r, x));
    }
  }

  lemma PushedToStep(q: seq<Delivery>, x: string)
    requires q != []
    ensures PushedTo(q, x) == (if q[0].to == x then [q[0].msg] else []) + PushedTo(q[1..], x)
  {
  }

  lemma Associative(a: seq<Message>, b: seq<Message>, c: seq<Message>)
    ensures (a + b) + c == a + (b + c)
  {
  }

  lemma OnePushed(d: Delivery, x: string)
    ensures PushedTo([d], x) == if d.to == x then [d.msg] else []
    ensures PushedTo([], x) == []
  {
    assert [d][1..] == [];
  }

  lemma {:induction false} CopiesPushed(names: seq<string>, m: string, target: string, exclusion: seq<string>, copy: Message, x: string)
    requires Distinct(names)
    ensures PushedTo(Copies(names, m, target, exclusion, copy), x)
         == if x in names && x != m && x != target && x !in exclusion then [copy] else []
  {
    if names != [] {
      CopiesPushed(names[1..], m, target, exclusion, copy, x);
      var rest := Copies(names[1..], m, target, exclusion, copy);
      assert names[0] !in names[1..];
      assert ([Delivery(names[0], copy)] + rest)[1..] == rest;
    }
  }

  lemma {:induction false} CopiesShape(names: seq<string>, m: string, target: string, exclusion: seq<string>, copy: Message)
    ensures var q := Copies(names, m, target, exclusion, copy);
      && |q| <= |names|
      && (forall d :: d in q ==> d.msg == copy && d.to in names && d.to != m && d.to != target && d.to !in exclusion)
  {
    if names != [] {
      CopiesShape(names[1..], m, target, exclusion, copy);
    }
  }

  /** The message without its id, its exclusions and its sender. */
  function Unaddressed(msg: Message): Message {
    msg.(id := None, notifyExclusion := [], origin := "")
  }

  lemma CopyIsTheMessage(m: string, msg: Message)
    ensures Copy(Stamp(m, msg)) == Unaddressed(msg)
    ensures !Unaddressed(msg).IsCall() && !Unaddressed(msg).IsResponse()
  {
  }

  /** Module t is meant by the message: it is the origin of a reply, or what stands before the first
      separator of the name of anything else. */
  predicate IsAddressee(msg: Message, t: string) {
    if msg.IsResponse() then t == msg.origin
    else '_' !in t && (msg.procedure == t || HasPrefix(msg.procedure, t + "_"))
  }

  lemma AddresseeIsTarget(msg: Message, t: string)
    ensures IsAddressee(msg, t) <==> TargetOf(msg) == t
  {
    if !msg.IsResponse() {
      var i := IndexOf(msg.procedure, SEPARATOR);
      assert TargetOf(msg) == msg.procedure[..i];
      if i < |msg.procedure| {
        assert msg.procedure[..i + 1] == msg.procedure[..i] + "_";
      }
      if IsAddressee(msg, t) && msg.procedure != t {
        var head := msg.procedure[..|t + "_"|];
        assert msg.procedure == t + [SEPARATOR] + msg.procedure[|t| + 1..];
        FirstSplit(t, msg.procedure[|t| + 1..], SEPARATOR);
      } else if IsAddressee(msg, t) {
        assert i == |msg.procedure|;
      }
    }
  }

  /** A name made of a module and a callback is meant for that module. */
  lemma NamedModuleIsMeant(msg: Message, t: string, c: string)
    requires !msg.IsResponse() && msg.procedure == KnownName(t, c)
    ensures IsAddressee(msg, t) <==> '_' !in t
  {
    assert msg.procedure[..|t + "_"|] == t + "_";
  }

  /** Every message is meant for exactly one module. */
  lemma OneAddressee(msg: Message) returns (t: string)
    ensures IsAddressee(msg, t)
    ensures forall x :: IsAddressee(msg, x) ==> x == t
  {
    t := TargetOf(msg);
    forall x
      ensures IsAddressee(msg, x) <==> TargetOf(msg) == x
    {
      AddresseeIsTarget(msg, x);
    }
  }

  /** The message as it leaves module m: with m as its sender, unless it is a reply or names one already. */
  function Signed(m: string, msg: Message): Message {
    if msg.IsResponse() || msg.origin != "" then msg else msg.(origin := m)
  }

  /** What module x is to get of the message `msg` for t when module m sends it. A registered t gets the
      signed message once, and twice if it is the sender; the sender of a call without server gets an
      error; under a broadcast every other registered module that is not excluded gets one copy without
      id, exclusions and sender; nobody gets anything else. */
  function Routed(names: seq<string>, m: string, msg: Message, t: string, x: string): seq<Message> {
    if x == t && t in names then
      if t == m then [Signed(m, msg), Signed(m, msg)] else [Signed(m, msg)]
    else if x == m then
      if t !in names && msg.IsCall()
      then [Message("1.0", msg.id, "", None, Some(RpcError(-32000, "targetted module not found")), None, false, [], "")]
      else []
    else if msg.notifyAll && x in names && x !in msg.notifyExclusion then [Unaddressed(msg)]
    else []
  }

  /** One relay iteration of module m pushes exactly that, to every module x; and a copy can neither be
      answered nor taken for an answer. */
  lemma RelayRoutes(names: seq<string>, m: string, msg: Message, t: string, x: string)
    requires Distinct(names) && m in names && IsAddressee(msg, t)
    ensures PushedTo(Deliveries(names, m, msg), x) == Routed(names, m, msg, t, x)
    ensures !Unaddressed(msg).IsCall() && !Unaddressed(msg).IsResponse()
  {
    hide Deliveries, Copies, Stamp, TargetOf, NotFoundReply, Copy, Unaddressed, PushedTo, Message.IsCall, Message.IsResponse,
      Distinct, IsAddressee, Signed;
    AddresseeIsTarget(msg, t);
    CopyIsTheMessage(m, msg);
    StampSigns(m, msg);
    if msg.IsCall() {
      NotFoundReplyIs(m, msg);
    }
    var stamped := Stamp(m, msg);
    var self := if t == m then [Delivery(m, stamped)] else [];
    var direct := if t in names then [Delivery(t, stamped)]
                  else if msg.IsCall() then [Delivery(m, NotFoundReply(stamped))] else [];
    var copies := if msg.notifyAll then Copies(names, m, t, msg.notifyExclusion, Copy(stamped)) else [];
    assert Deliveries(names, m, msg) == self + direct + copies by {
      DeliveriesAre(names, m, msg);
    }
    CopiesPushed(names, m, t, msg.notifyExclusion, Copy(stamped), x);
    PushedToConcat(self + direct, copies, x);
    PushedToConcat(self, direct, x);
    OnePushed(Delivery(m, stamped), x);
    OnePushed(Delivery(t, stamped), x);
    OnePushed(Delivery(m, NotFoundReply(stamped)), x);
  }

  lemma StampSigns(m: string, msg: Message)
    ensures Stamp(m, msg) == Signed(m, msg)
  {
  }

  lemma NotFoundReplyIs(m: string, msg: Message)
    requires msg.IsCall()
    ensures NotFoundReply(Stamp(m, msg))
         == Message("1.0", msg.id, "", None, Some(RpcError(-32000, "targetted module not found")), None, false, [], "")
  {
    SuffixEnds(msg.procedure);
  }

  lemma DeliveriesAre(names: seq<string>, m: string, msg: Message)
    ensures var target := TargetOf(msg);
      var stamped := Stamp(m, msg);
      Deliveries(names, m, msg) ==
        (if target == m then [Delivery(m, stamped)] else [])
        + (if target in names then [Delivery(target, stamped)]
           else if msg.IsCall() then [Delivery(m, NotFoundReply(stamped))] else [])
        + (if msg.notifyAll then Copies(names, m, target, msg.notifyExclusion, Copy(stamped)) else [])
  {
  }

  lemma NamesAreDistinct(cfg: Config)
    requires cfg.Valid()
    ensures Distinct(cfg.names)
  {
  }

  /** The not-found reply keeps the id of the call and nothing that would lead it anywhere: it is no
      reply, and answering it gives a message whose method is the bare suffix, for nobody. */
  lemma NotFoundReplyLeadsNowhere(m: string, msg: Message, callbacks: set<string>, outcome: Outcome)
    requires msg.IsCall()
    ensures var reply := NotFoundReply(Stamp(m, msg));
      && reply.id == msg.id && reply.error.Some? && reply.origin == "" && reply.procedure == ""
      && !reply.IsResponse() && !reply.IsCall() && !reply.IsNotification()
      && var answer := Answer(callbacks, reply, outcome);
         && answer.Some? && answer.value.id == msg.id && answer.value.procedure == RESPONSE_SUFFIX
         && answer.value.error.Some? && answer.value.error.value.code == -32600
         && answer.value.IsResponse() && IsAddressee(answer.value, "")
  {
    var reply := NotFoundReply(Stamp(m, msg));
    SuffixEnds(msg.procedure);
    assert reply.procedure == "" && reply.HasValidID();
    assert !HasSuffix("", RESPONSE_SUFFIX);
    hide NotFoundReply, Stamp;
    BareSuffix(reply, callbacks, outcome);
  }

  lemma BareSuffix(msg: Message, callbacks: set<string>, outcome: Outcome)
    requires msg.HasValidID() && msg.procedure == "" && msg.origin == ""
    ensures var answer := Answer(callbacks, msg, outcome);
      && answer.Some? && answer.value.id == msg.id && answer.value.procedure == RESPONSE_SUFFIX
      && answer.value.error.Some? && answer.value.error.value.code == -32600
      && answer.value.IsResponse() && IsAddressee(answer.value, "")
  {
    assert !msg.IsCall() && !msg.IsNotification();
    var answer := msg.ErrorResponse(RpcError(-32600, "invalid request"));
    assert !HasSuffix("", RESPONSE_SUFFIX);
    assert "" + RESPONSE_SUFFIX == RESPONSE_SUFFIX;
    SuffixEnds("");
    assert answer.procedure == RESPONSE_SUFFIX && answer.params.None?;
  }

  lemma SuffixEnds(p: string)
    ensures HasSuffix(p + RESPONSE_SUFFIX, RESPONSE_SUFFIX)
  {
    assert (p + RESPONSE_SUFFIX)[|p|..] == RESPONSE_SUFFIX;
  }

  // ---- what a relay iteration produces ----

  lemma StampFacts(names: seq<string>, book: Book, m: string, msg: Message)
    requires m in names && "" !in names && OutOk(names, book, m, msg)
    ensures Stamp(m, msg).id == msg.id && Stamp(m, msg).procedure == msg.procedure
    ensures msg.id.None? ==> NotifyShape(Stamp(m, msg))
    ensures TargetOf(msg) in names && msg.id.Some? && msg.origin == "" ==>
      StampedCall(names, book, Stamp(m, msg)) && !msg.IsResponse() && Stamp(m, msg).origin == m
        && TargetOf(msg) == msg.Namespace()
    ensures TargetOf(msg) in names && msg.id.Some? && msg.origin != "" ==>
      GoodReply(names, book, msg) && Stamp(m, msg) == msg && m == RecordOf(book, msg).Namespace()
        && TargetOf(msg) == msg.origin && !msg.notifyAll
    ensures TargetOf(msg) !in names && msg.id.Some? ==> msg.IsCall() && Bounce(NotFoundReply(Stamp(m, msg)))
    ensures TargetOf(msg) !in names ==> TargetOf(msg) != m
  {
    assert !HasSuffix("", RESPONSE_SUFFIX);
    if msg.id.Some? && TargetOf(msg) !in names {
      var p := msg.procedure + RESPONSE_SUFFIX;
      assert p[|p| - |RESPONSE_SUFFIX|..] == RESPONSE_SUFFIX;
    }
  }

  lemma DeliverySource(names: seq<string>, m: string, msg: Message, d: Delivery)
    requires d in Deliveries(names, m, msg)
    ensures var stamped := Stamp(m, msg);
      var target := TargetOf(msg);
      || (d == Delivery(target, stamped) && (target == m || target in names))
      || (d == Delivery(m, NotFoundReply(stamped)) && target !in names && msg.IsCall())
      || (d.msg == Copy(stamped) && d.to in names && msg.notifyAll)
  {
    CopiesShape(names, m, TargetOf(msg), msg.notifyExclusion, Copy(Stamp(m, msg)));
  }

  lemma DeliveryOk(names: seq<string>, book: Book, m: string, msg: Message, d: Delivery)
    requires m in names && "" !in names && OutOk(names, book, m, msg)
    requires d in Deliveries(names, m, msg)
    ensures RelayOk(names, book, m, d)
  {
    StampFacts(names, book, m, msg);
    DeliverySource(names, m, msg, d);
    assert NotifyShape(Copy(Stamp(m, msg)));
  }

  lemma RelayKeepsPlaces(names: seq<string>, book: Book, m: string, msg: Message)
    requires m in names && "" !in names && OutOk(names, book, m, msg)
    ensures forall d :: d in Deliveries(names, m, msg) ==> RelayOk(names, book, m, d)
  {
    forall d | d in Deliveries(names, m, msg)
      ensures RelayOk(names, book, m, d)
    {
      DeliveryOk(names, book, m, msg, d);
    }
  }

  // ---- how the weights change in a relay iteration ----

  lemma MessagesConcat(q: seq<Delivery>, r: seq<Delivery>)
    ensures Messages(q + r) == Messages(q) + Messages(r)
  {
  }

  lemma SingleSum(f: Message -> nat, d: Delivery)
    ensures Sum(f, Messages([d])) == f(d.msg)
  {
    assert Messages([d]) == [d.msg];
    SumOne(f, d.msg);
  }

  lemma {:induction false} CopiesSum(f: Message -> nat, names: seq<string>, m: string, target: string, exclusion: seq<string>,
                                     copy: Message, bound: nat)
    requires f(copy) <= bound
    ensures Sum(f, Messages(Copies(names, m, target, exclusion, copy))) <= bound * |names|
  {
    if names != [] {
      CopiesSum(f, names[1..], m, target, exclusion, copy, bound);
      var rest := Copies(names[1..], m, target, exclusion, copy);
      MessagesConcat([Delivery(names[0], copy)], rest);
      SumConcat(f, Messages([Delivery(names[0], copy)]), Messages(rest));
      SingleSum(f, Delivery(names[0], copy));
      assert bound * |names| == bound * |names[1..]| + bound;
    }
  }

  /** The weight of everything a relay iteration pushes, when a copy weighs at most `bound`. */
  lemma DeliveriesSum(f: Message -> nat, names: seq<string>, m: string, msg: Message, bound: nat)
    requires f(Copy(Stamp(m, msg))) <= bound
    ensures var stamped := Stamp(m, msg);
      var target := TargetOf(msg);
      var known := (if target == m then f(stamped) else 0)
                   + (if target in names then f(stamped) else if msg.IsCall() then f(NotFoundReply(stamped)) else 0);
      var total := Sum(f, Messages(Deliveries(names, m, msg)));
      known <= total <= known + (if msg.notifyAll then bound * |names| else 0)
  {
    var stamped := Stamp(m, msg);
    var target := TargetOf(msg);
    var self := if target == m then [Delivery(m, stamped)] else [];
    var direct := if target in names then [Delivery(target, stamped)]
                  else if msg.IsCall() then [Delivery(m, NotFoundReply(stamped))] else [];
    var copies := if msg.notifyAll then Copies(names, m, target, msg.notifyExclusion, Copy(stamped)) else [];
    assert Deliveries(names, m, msg) == self + direct + copies;
    MessagesConcat(self + direct, copies);
    MessagesConcat(self, direct);
    SumConcat(f, Messages(self + direct), Messages(copies));
    SumConcat(f, Messages(self), Messages(direct));
    SingleSum(f, Delivery(m, stamped));
    SingleSum(f, Delivery(target, stamped));
    SingleSum(f, Delivery(m, NotFoundReply(stamped)));
    CopiesSum(f, names, m, target, msg.notifyExclusion, Copy(stamped), bound);
  }

  ghost predicate ConservedProbe(names: seq<string>, book: Book, p: Probe) {
    match p
    case Token(key, d) =>
      key.origin in names && key in book && Deliverable(names, book[key].msg) && d == CopiesOf(book, key)
    case Request(key, d) =>
      key.origin in names && key in book && Deliverable(names, book[key].msg) && d == CopiesOf(book, key)
    case Stray => true
    case Work => false
  }

  /** A relay iteration neither loses nor invents anything that is being accounted for. */
  lemma RelayConserves(names: seq<string>, book: Book, p: Probe, m: string, msg: Message)
    requires m in names && "" !in names && OutOk(names, book, m, msg)
    requires ConservedProbe(names, book, p)
    ensures Sum(Weight(names, p, Relaying, m), Messages(Deliveries(names, m, msg)))
         == Weight(names, p, Outgoing, m)(msg)
  {
    StampFacts(names, book, m, msg);
    DeliveriesSum(Weight(names, p, Relaying, m), names, m, msg, 0);
    if p == Stray {
      StrayOut(names, book, m, msg);
    } else {
      KeyOut(names, book, p, m, msg);
    }
  }

  /** What the deliveries of msg weigh, the copies aside, is what msg weighs. */
  ghost predicate OutBalances(names: seq<string>, p: Probe, m: string, msg: Message) {
    var stamped, target := Stamp(m, msg), TargetOf(msg);
    Weigh(names, p, Outgoing, m, msg) ==
      (if target == m then Weigh(names, p, Relaying, m, stamped) else 0)
      + (if target in names then Weigh(names, p, Relaying, m, stamped)
         else if msg.IsCall() then Weigh(names, p, Relaying, m, NotFoundReply(stamped)) else 0)
  }

  lemma StrayOut(names: seq<string>, book: Book, m: string, msg: Message)
    requires m in names && "" !in names && OutOk(names, book, m, msg)
    ensures OutBalances(names, Stray, m, msg)
  {
    StampFacts(names, book, m, msg);
    hide HasSuffix;
  }

  lemma KeyOut(names: seq<string>, book: Book, p: Probe, m: string, msg: Message)
    requires m in names && "" !in names && OutOk(names, book, m, msg)
    requires p.Token? || p.Request?
    requires ConservedProbe(names, book, p)
    ensures OutBalances(names, p, m, msg)
  {
    StampFacts(names, book, m, msg);
    if msg.id == Some(p.key.id) {
      if TargetOf(msg) in names && msg.origin != "" && msg.origin == p.key.origin {
        assert RecordOf(book, msg) == book[p.key].msg;
      } else if TargetOf(msg) in names && msg.origin == "" && m == p.key.origin {
        assert RecordOf(book, Stamp(m, msg)) == book[p.key].msg;
      }
    }
  }

  /** A relay iteration leaves less work than it found. */
  lemma RelayWorks(names: seq<string>, book: Book, m: string, msg: Message)
    requires m in names && "" !in names && OutOk(names, book, m, msg)
    ensures Sum(Weight(names, Work, Relaying, m), Messages(Deliveries(names, m, msg)))
          < Weight(names, Work, Outgoing, m)(msg)
  {
    StampFacts(names, book, m, msg);
    DeliveriesSum(Weight(names, Work, Relaying, m), names, m, msg, 8);
  }

  // ---- callbacks ----

  lemma FinishKeepsPlaces(names: seq<string>, book: Book, callbacks: set<string>, m: string, msg: Message, outcome: Outcome)
    requires "" !in names && RunOk(names, book, m, msg)
    ensures var answer := Answer(callbacks, msg, outcome);
      && (answer.Some? ==> OutOk(names, book, m, answer.value))
      && (answer.Some? ==> answer.value.IsResponse() && answer.value.id == msg.id && answer.value.origin == msg.origin)
      && (answer.Some? <==> msg.id.Some?)
      && (answer.Some? && msg.origin == "" ==> answer.value.procedure == RESPONSE_SUFFIX)
  {
    if StampedCall(names, book, msg) {
      CallIsAnswered(callbacks, msg, outcome);
    } else if Bounce(msg) {
      assert "" + RESPONSE_SUFFIX == RESPONSE_SUFFIX;
      assert HasSuffix(RESPONSE_SUFFIX, RESPONSE_SUFFIX);
    }
  }

  /** Answering a call moves its token to the outgoing queue unchanged. */
  lemma AnswerWeighsTheSame(names: seq<string>, book: Book, p: Probe, m: string, msg: Message, answer: Message)
    requires "" !in names && (StampedCall(names, book, msg) || Bounce(msg))
    requires ConservedProbe(names, book, p)
    requires OutOk(names, book, m, answer) && answer.IsResponse()
    requires answer.id == msg.id && answer.origin == msg.origin
    requires msg.origin == "" ==> answer.procedure == RESPONSE_SUFFIX
    ensures Weigh(names, p, Running, m, msg) == Weigh(names, p, Outgoing, m, answer)
  {
    if p == Stray {
      StrayAnswer(names, book, m, msg, answer);
    } else if StampedCall(names, book, msg) {
      StampedAnswer(names, book, p, m, msg, answer);
    } else {
      BouncedAnswer(names, book, p, m, msg, answer);
    }
  }

  lemma StrayAnswer(names: seq<string>, book: Book, m: string, msg: Message, answer: Message)
    requires "" !in names && (StampedCall(names, book, msg) || Bounce(msg))
    requires OutOk(names, book, m, answer) && answer.IsResponse()
    requires answer.id == msg.id && answer.origin == msg.origin
    requires msg.origin == "" ==> answer.procedure == RESPONSE_SUFFIX
    ensures Weigh(names, Stray, Running, m, msg) == Weigh(names, Stray, Outgoing, m, answer)
  {
    hide OutOk, HasSuffix;
    assert TargetOf(answer) == msg.origin;
    if StampedCall(names, book, msg) {
      assert msg.IsCall() && msg.procedure != "";
    }
  }

  lemma StampedAnswer(names: seq<string>, book: Book, p: Probe, m: string, msg: Message, answer: Message)
    requires "" !in names && StampedCall(names, book, msg) && (p.Token? || p.Request?)
    requires p.key.origin in names && answer.id == msg.id && answer.origin == msg.origin
    ensures Weigh(names, p, Running, m, msg) == Weigh(names, p, Outgoing, m, answer)
  {
    hide HasSuffix;
    assert !msg.IsResponse() && msg.origin != "";
  }

  lemma BouncedAnswer(names: seq<string>, book: Book, p: Probe, m: string, msg: Message, answer: Message)
    requires "" !in names && Bounce(msg) && (p.Token? || p.Request?)
    requires p.key.origin in names && answer.id == msg.id && answer.origin == msg.origin
    requires answer.procedure == RESPONSE_SUFFIX
    ensures Weigh(names, p, Running, m, msg) == Weigh(names, p, Outgoing, m, answer)
  {
    hide HasSuffix;
    assert p.key.origin != "";
  }

  lemma FinishConserves(names: seq<string>, book: Book, callbacks: set<string>, p: Probe, m: string, msg: Message, outcome: Outcome)
    requires "" !in names && RunOk(names, book, m, msg)
    requires ConservedProbe(names, book, p)
    ensures var answer := Answer(callbacks, msg, outcome);
      Weigh(names, p, Running, m, msg) == if answer.Some? then Weigh(names, p, Outgoing, m, answer.value) else 0
  {
    FinishKeepsPlaces(names, book, callbacks, m, msg, outcome);
    var answer := Answer(callbacks, msg, outcome);
    if answer.Some? {
      AnswerWeighsTheSame(names, book, p, m, msg, answer.value);
    }
  }
}
