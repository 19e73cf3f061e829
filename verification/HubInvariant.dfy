/** The inductive invariant of the hub: what may lie in each queue, how the pending table mirrors
    the operations, and the ledger that accounts for every call ever written. */
module HubInvariant {

  import opened Wrappers
  import opened Words
  import opened JsonRpc
  import opened Hub
  import opened HubLedger

  type Book = map<Key, Record>

  // ---- shapes of messages ----

  /** A call that some module serves. */
  predicate Deliverable(names: seq<string>, msg: Message) {
    msg.Namespace() in names
  }

  predicate CallShape(names: seq<string>, msg: Message) {
    && msg.IsCall()
    && msg.origin == ""
    && msg.procedure != RESPONSE_SUFFIX
    && (Deliverable(names, msg) ==> !HasSuffix(msg.procedure, RESPONSE_SUFFIX))
  }

  predicate NotifyShape(msg: Message) {
    msg.IsNotification()
  }

  predicate IsReplyTo(call: Message, caller: string, msg: Message) {
    && msg.IsResponse()
    && msg.id == call.id
    && msg.origin == caller
    && msg.procedure == call.procedure + RESPONSE_SUFFIX
    && !msg.notifyAll
  }

  predicate HasRecord(book: Book, msg: Message) {
    msg.id.Some? && Key(msg.origin, msg.id.value) in book
  }

  function RecordOf(book: Book, msg: Message): Message
    requires HasRecord(book, msg)
  {
    book[Key(msg.origin, msg.id.value)].msg
  }

  /** A written call, stamped with its caller. */
  predicate StampedCall(names: seq<string>, book: Book, msg: Message) {
    && msg.origin in names
    && HasRecord(book, msg)
    && Deliverable(names, msg)
    && msg == RecordOf(book, msg).(origin := msg.origin)
    && CallShape(names, RecordOf(book, msg))
  }

  /** A reply to a written call. */
  predicate GoodReply(names: seq<string>, book: Book, msg: Message) {
    && msg.origin in names
    && HasRecord(book, msg)
    && Deliverable(names, RecordOf(book, msg))
    && IsReplyTo(RecordOf(book, msg), msg.origin, msg)
  }

  /** What a call without a server turns into on its way in ... */
  predicate Bounce(msg: Message) {
    msg.HasValidVersion() && msg.HasValidID() && msg.procedure == "" && msg.origin == "" && !msg.notifyAll
  }

  /** ... and on its way out. */
  predicate BounceBack(msg: Message) {
    msg.IsResponse() && msg.procedure == RESPONSE_SUFFIX && msg.origin == "" && !msg.notifyAll
  }

  predicate FreshCall(names: seq<string>, book: Book, m: string, msg: Message) {
    && CallShape(names, msg)
    && Key(m, msg.id.value) in book
    && book[Key(m, msg.id.value)].msg == msg
  }

  // ---- places ----

  predicate OutOk(names: seq<string>, book: Book, m: string, msg: Message) {
    || FreshCall(names, book, m, msg)
    || (NotifyShape(msg) && msg.origin == "")
    || (GoodReply(names, book, msg) && m == RecordOf(book, msg).Namespace())
    || BounceBack(msg)
  }

  predicate RelayOk(names: seq<string>, book: Book, m: string, d: Delivery) {
    && d.to in names
    && (|| (StampedCall(names, book, d.msg) && m == d.msg.origin && d.to == d.msg.Namespace())
        || (GoodReply(names, book, d.msg) && m == RecordOf(book, d.msg).Namespace() && d.to == d.msg.origin)
        || NotifyShape(d.msg)
        || (Bounce(d.msg) && d.to == m))
  }

  predicate InOk(names: seq<string>, book: Book, m: string, msg: Message) {
    RunOk(names, book, m, msg) || (GoodReply(names, book, msg) && m == msg.origin)
  }

  predicate RunOk(names: seq<string>, book: Book, m: string, msg: Message) {
    || (StampedCall(names, book, msg) && m == msg.Namespace())
    || NotifyShape(msg)
    || Bounce(msg)
  }

  ghost predicate PlacesOk(names: seq<string>, book: Book, m: string, c: Client) {
    && (forall x :: x in c.outgoing ==> OutOk(names, book, m, x))
    && (forall d :: d in c.relaying ==> RelayOk(names, book, m, d))
    && (forall x :: x in c.incoming ==> InOk(names, book, m, x))
    && (forall x :: x in c.running ==> RunOk(names, book, m, x))
  }

  // ---- operations of one client ----

  ghost predicate LockOk(c: Client) {
    && (c.lock.None? ==> c.reqSent.None?)
    && (c.lock.Some? ==>
        && c.lock.value < |c.ops|
        && var op := c.ops[c.lock.value];
           (match c.reqSent
            case None => op.phase == Initialized
            case Some(ok) => if ok then op.Written() else op.phase == WriteFailed))
    && (forall n :: 0 <= n < |c.ops| && c.ops[n].phase == Initialized ==> c.lock == Some(n) && c.reqSent.None?)
  }

  ghost predicate IdsOk(c: Client) {
    && c.counter <= ID_SPACE
    && (forall n :: 0 <= n < |c.ops| ==> 0 < c.ops[n].serial <= c.counter)
    && (forall n, k :: 0 <= n < k < |c.ops| ==> c.ops[n].serial < c.ops[k].serial)
    && (forall n :: 0 <= n < |c.ops| && c.ops[n].IsCall() ==>
          c.ops[n].msg.id == Some(Decimal(c.ops[n].serial % ID_SPACE)))
  }

  /** Operation n still has to be resolved and may still be. */
  predicate Pending(c: Client, n: nat) {
    && n < |c.ops|
    && c.ops[n].IsCall()
    && c.ops[n].reply.None?
    && (|| c.ops[n].phase == Initialized
        || c.ops[n].phase == Phase.Sent
        || (c.ops[n].phase == WriteFailed && c.lock == Some(n) && c.reqSent == Some(false)))
  }

  ghost predicate WaitOk(c: Client) {
    && (forall k :: k in c.respWait ==>
          && c.respWait[k] < |c.ops|
          && c.ops[c.respWait[k]].WaitKey() == k
          && (k != "" ==> Pending(c, c.respWait[k])))
    && (forall n :: 0 <= n < |c.ops| && Pending(c, n) ==>
          c.ops[n].WaitKey() in c.respWait && c.respWait[c.ops[n].WaitKey()] == n)
  }

  ghost predicate RepliesOk(names: seq<string>, m: string, c: Client) {
    forall n :: 0 <= n < |c.ops| ==>
      && (c.ops[n].reply.Some? ==>
            && c.ops[n].IsCall() && c.ops[n].Written() && Deliverable(names, c.ops[n].msg)
            && IsReplyTo(c.ops[n].msg, m, c.ops[n].reply.value))
      && (c.ops[n].phase == Phase.Returned ==> c.ops[n].reply.Some?)
  }

  ghost predicate ShapesOk(names: seq<string>, c: Client) {
    forall n :: 0 <= n < |c.ops| ==>
      if c.ops[n].IsCall() then CallShape(names, c.ops[n].msg)
      else NotifyShape(c.ops[n].msg) && c.ops[n].msg.origin == ""
  }

  /** The record of written calls agrees with the operations. */
  ghost predicate RecordsOk(book: Book, m: string, c: Client) {
    && (forall n :: 0 <= n < |c.ops| && c.ops[n].IsCall() && c.ops[n].Written() ==>
          && Key(m, c.ops[n].msg.id.value) in book
          && book[Key(m, c.ops[n].msg.id.value)] == Record(c.ops[n].msg, n))
    && (forall i :: Key(m, i) in book ==>
          && book[Key(m, i)].op < |c.ops|
          && var op := c.ops[book[Key(m, i)].op];
             op.msg.id == Some(i) && op.Written() && op.msg == book[Key(m, i)].msg)
  }

  ghost predicate OpsOk(names: seq<string>, book: Book, m: string, c: Client) {
    LockOk(c) && IdsOk(c) && WaitOk(c) && RepliesOk(names, m, c) && ShapesOk(names, c) && RecordsOk(book, m, c)
  }

  // ---- the ledger ----

  /** How often the relay delivers each message of this call. */
  function CopiesOf(book: Book, key: Key): nat
    requires key in book
  {
    if book[key].msg.Namespace() == key.origin then 2 else 1
  }

  ghost predicate SameNames(cfg: Config, s: State) {
    forall m :: m in s.clients <==> m in cfg.names
  }

  ghost predicate Balanced(cfg: Config, s: State, key: Key)
    requires SameNames(cfg, s) && key in s.written
  {
    var d := CopiesOf(s.written, key);
    && Total(cfg.names, Token(key, d), cfg.names, s.clients) + s.consumed[key] == d * d
    && Total(cfg.names, Request(key, d), cfg.names, s.clients) + s.ran[key] == d
  }

  /** A consumed reply has resolved its operation, unless that had timed out; nothing else resolves one. */
  ghost predicate Settled(s: State, key: Key)
    requires key in s.written
  {
    key.origin in s.clients && s.written[key].op < |s.clients[key.origin].ops| &&
    var op := s.clients[key.origin].ops[s.written[key].op];
    && (s.consumed[key] > 0 ==> op.reply.Some? || op.phase == Phase.TimedOut)
    && (op.reply.Some? ==> s.consumed[key] > 0)
  }

  /** The call under this key is accounted for. */
  ghost predicate Accounted(cfg: Config, s: State, key: Key) {
    SameNames(cfg, s) && key in s.written && Balanced(cfg, s, key) && Settled(s, key)
  }

  ghost predicate LedgerOk(cfg: Config, s: State) {
    && (forall key :: key in s.written && Deliverable(cfg.names, s.written[key].msg) ==> Accounted(cfg, s, key))
    && (forall key: Key :: key.origin in cfg.names && key !in s.written ==> s.ran[key] == 0 && s.consumed[key] == 0)
  }

  ghost predicate Inv(cfg: Config, s: State) {
    && cfg.Valid()
    && SameNames(cfg, s)
    && (forall key :: key in s.written ==> key.origin in cfg.names)
    && (forall m :: m in s.clients ==> OpsOk(cfg.names, s.written, m, s.clients[m]))
    && (forall m :: m in s.clients ==> PlacesOk(cfg.names, s.written, m, s.clients[m]))
    && LedgerOk(cfg, s)
  }

  // ---- basic consequences ----

  /** Below 2^32 requests, two calls of one client never share an id. */
  lemma IdsDistinct(c: Client, n: nat, k: nat)
    requires IdsOk(c) && n < |c.ops| && k < |c.ops|
    requires c.ops[n].IsCall() && c.ops[k].IsCall() && c.ops[n].msg.id == c.ops[k].msg.id
    ensures n == k
  {
    DecimalInjective(c.ops[n].serial % ID_SPACE, c.ops[k].serial % ID_SPACE);
  }

  lemma CoreName(names: seq<string>, msg: Message)
    requires "core" !in names && HasPrefix(msg.procedure, "core_")
    ensures !Deliverable(names, msg) && msg.procedure != "" && msg.procedure != RESPONSE_SUFFIX
  {
    assert msg.procedure == KnownName("core", msg.procedure[5..]);
    NamespaceInverts(msg, "core", msg.procedure[5..]);
    assert msg.procedure[0] == 'c';
  }

  lemma ServedName(names: seq<string>, msg: Message, m: string, c: string)
    requires m in names && m != "" && SEPARATOR !in m && SEPARATOR !in c && c != "response"
    requires msg.procedure == KnownName(m, c)
    ensures Deliverable(names, msg) && msg.Namespace() == m
    ensures msg.procedure != "" && !HasSuffix(msg.procedure, RESPONSE_SUFFIX)
  {
    NamespaceInverts(msg, m, c);
    SuffixOfKnownName(m, c);
    assert msg.procedure[0] == m[0];
  }

  /** The gate lets through calls to callbacks that exist, and `core_` names nobody serves. */
  lemma GatedShape(cfg: Config, msg: Message, notifyAll: bool, n: nat)
    requires cfg.Valid() && cfg.Gate(msg.procedure, notifyAll)
    requires msg.version == VSN && msg.origin == ""
    requires msg.id.None? || msg.id == Some(Decimal(n))
    ensures if msg.id.Some? then CallShape(cfg.names, msg) else NotifyShape(msg)
    ensures Deliverable(cfg.names, msg) <==> !HasPrefix(msg.procedure, "core_")
  {
    if msg.id.Some? {
      DecimalRoundTrip(n);
    }
    if HasPrefix(msg.procedure, "core_") {
      CoreName(cfg.names, msg);
    } else {
      assert msg.procedure != "core_ping" by {
        assert HasPrefix("core_ping", "core_");
      }
      var m, c :| m in cfg.callbacks && c in cfg.callbacks[m] && msg.procedure == KnownName(m, c);
      ServedName(cfg.names, msg, m, c);
      assert HasSuffix(RESPONSE_SUFFIX, RESPONSE_SUFFIX);
    }
  }

  /** Everything a queue may hold stays admissible as more calls are written. */
  lemma PlacesMonotone(names: seq<string>, book: Book, book': Book, m: string, c: Client)
    requires PlacesOk(names, book, m, c)
    requires forall key :: key in book ==> key in book' && book'[key] == book[key]
    ensures PlacesOk(names, book', m, c)
  {
  }

  /** A call that was never written is nowhere in the hub. */
  lemma UnwrittenWeighsNothing(cfg: Config, s: State, key: Key, p: Probe)
    requires cfg.Valid() && SameNames(cfg, s) && key.origin in cfg.names && key !in s.written
    requires forall m :: m in s.clients ==> PlacesOk(cfg.names, s.written, m, s.clients[m])
    requires p.Token? || p.Request?
    requires p.key == key
    ensures Total(cfg.names, p, cfg.names, s.clients) == 0
  {
    forall m | m in cfg.names
      ensures ClientSum(cfg.names, p, m, s.clients[m]) == 0
    {
      assert "" !in cfg.names;
      UnwrittenIsNotIn(cfg.names, s.written, m, s.clients[m], key, p);
    }
    TotalZero(cfg.names, p, cfg.names, s.clients);
  }

  lemma UnwrittenIsNotIn(names: seq<string>, book: Book, m: string, c: Client, key: Key, p: Probe)
    requires "" !in names && key.origin in names && key !in book && PlacesOk(names, book, m, c)
    requires (p.Token? || p.Request?) && p.key == key
    ensures ClientSum(names, p, m, c) == 0
  {
    hide OutOk, RelayOk, InOk, RunOk, Weigh;
    forall x | x in c.outgoing
      ensures Weigh(names, p, Outgoing, m, x) == 0
    {
      UnwrittenOut(names, book, m, x, key, p);
    }
    forall x | x in Messages(c.relaying)
      ensures Weigh(names, p, Relaying, m, x) == 0
    {
      var d := MessageSource(c.relaying, x);
      UnwrittenRelay(names, book, m, d, key, p);
    }
    forall x | x in c.incoming
      ensures Weigh(names, p, Incoming, m, x) == 0
    {
      UnwrittenIn(names, book, m, x, key, p);
    }
    forall x | x in c.running
      ensures Weigh(names, p, Running, m, x) == 0
    {
      UnwrittenRunning(names, book, m, x, key, p);
    }
    SumZero(Weight(names, p, Outgoing, m), c.outgoing);
    SumZero(Weight(names, p, Relaying, m), Messages(c.relaying));
    SumZero(Weight(names, p, Incoming, m), c.incoming);
    SumZero(Weight(names, p, Running, m), c.running);
  }

  lemma UnwrittenOut(names: seq<string>, book: Book, m: string, x: Message, key: Key, p: Probe)
    requires "" !in names && key.origin in names && key !in book && OutOk(names, book, m, x)
    requires (p.Token? || p.Request?) && p.key == key
    ensures Weigh(names, p, Outgoing, m, x) == 0
  {
    hide HasSuffix;
  }

  lemma UnwrittenRelay(names: seq<string>, book: Book, m: string, d: Delivery, key: Key, p: Probe)
    requires "" !in names && key.origin in names && key !in book && RelayOk(names, book, m, d)
    requires (p.Token? || p.Request?) && p.key == key
    ensures Weigh(names, p, Relaying, m, d.msg) == 0
  {
    hide HasSuffix;
  }

  lemma UnwrittenIn(names: seq<string>, book: Book, m: string, x: Message, key: Key, p: Probe)
    requires "" !in names && key.origin in names && key !in book && InOk(names, book, m, x)
    requires (p.Token? || p.Request?) && p.key == key
    ensures Weigh(names, p, Incoming, m, x) == 0
  {
    hide HasSuffix;
  }

  lemma UnwrittenRunning(names: seq<string>, book: Book, m: string, x: Message, key: Key, p: Probe)
    requires "" !in names && key.origin in names && key !in book && RunOk(names, book, m, x)
    requires (p.Token? || p.Request?) && p.key == key
    ensures Weigh(names, p, Running, m, x) == 0
  {
    hide HasSuffix;
  }
}
