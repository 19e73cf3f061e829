/** Each thing a client does keeps its operations and its pending table in agreement. */
module HubClients {

  import opened Wrappers
  import opened Words
  import opened JsonRpc
  import opened Hub
  import opened HubInvariant

  ghost predicate DistinctCalls(c: Client) {
    forall n, k :: 0 <= n < |c.ops| && 0 <= k < |c.ops| && n != k && c.ops[n].IsCall() && c.ops[k].IsCall() ==>
      c.ops[n].WaitKey() != c.ops[k].WaitKey()
  }

  lemma IdsGiveDistinctCalls(c: Client)
    requires IdsOk(c)
    ensures DistinctCalls(c)
  {
    forall n, k | 0 <= n < |c.ops| && 0 <= k < |c.ops| && n != k && c.ops[n].IsCall() && c.ops[k].IsCall()
      ensures c.ops[n].WaitKey() != c.ops[k].WaitKey()
    {
      if c.ops[n].msg.id == c.ops[k].msg.id {
        IdsDistinct(c, n, k);
      }
    }
  }

  /** Calls have nonempty ids, so they never share the key of the notifications. */
  predicate CallKeysOk(c: Client) {
    forall n :: 0 <= n < |c.ops| && c.ops[n].IsCall() ==> c.ops[n].WaitKey() != ""
  }

  lemma ShapesGiveCallKeys(names: seq<string>, c: Client)
    requires ShapesOk(names, c)
    ensures CallKeysOk(c)
  {
  }

  /** The operations are the same up to phase and reply. */
  ghost predicate SameCalls(c: Client, c': Client) {
    && c'.counter == c.counter
    && |c'.ops| == |c.ops|
    && forall k :: 0 <= k < |c.ops| ==> c'.ops[k].msg == c.ops[k].msg && c'.ops[k].serial == c.ops[k].serial
  }

  lemma SameCallsKeepIds(names: seq<string>, c: Client, c': Client)
    requires IdsOk(c) && ShapesOk(names, c) && SameCalls(c, c')
    ensures IdsOk(c') && ShapesOk(names, c')
  {
    assert forall k :: 0 <= k < |c.ops| ==> c'.ops[k].IsCall() == c.ops[k].IsCall();
  }

  lemma RepliesCarryOver(names: seq<string>, m: string, c: Client, c': Client)
    requires RepliesOk(names, m, c) && SameCalls(c, c')
    requires forall k :: 0 <= k < |c.ops| ==>
      && c'.ops[k].reply == c.ops[k].reply
      && (c.ops[k].Written() ==> c'.ops[k].Written())
      && (c'.ops[k].phase == Phase.Returned ==> c.ops[k].phase == Phase.Returned || c.ops[k].reply.Some?)
    ensures RepliesOk(names, m, c')
  {
    hide IsReplyTo;
    assert forall k :: 0 <= k < |c.ops| ==> c'.ops[k].IsCall() == c.ops[k].IsCall();
  }

  lemma RecordsCarryOver(book: Book, m: string, c: Client, c': Client)
    requires RecordsOk(book, m, c) && SameCalls(c, c')
    requires forall k :: 0 <= k < |c.ops| ==> (c'.ops[k].Written() <==> c.ops[k].Written())
    ensures RecordsOk(book, m, c')
  {
    assert forall k :: 0 <= k < |c.ops| ==> c'.ops[k].IsCall() == c.ops[k].IsCall();
  }

  // ---- creating an operation ----

  lemma NewOpKeepsIds(c: Client, msg: Message)
    requires IdsOk(c) && c.counter < ID_SPACE
    requires msg.id.Some? ==> msg.id == Some(Decimal((c.counter + 1) % ID_SPACE))
    ensures IdsOk(ClientNew(c, msg))
  {
    var c' := ClientNew(c, msg);
    assert forall n :: 0 <= n < |c.ops| ==> c'.ops[n] == c.ops[n];
    assert c'.ops[|c.ops|] == Op(msg, c.counter + 1, Created, None);
  }

  lemma NewOpKeepsWait(c: Client, msg: Message)
    requires WaitOk(c)
    ensures WaitOk(ClientNew(c, msg))
  {
    var c' := ClientNew(c, msg);
    assert forall n :: 0 <= n < |c.ops| ==> c'.ops[n] == c.ops[n];
    assert forall n :: 0 <= n < |c.ops| ==> Pending(c, n) == Pending(c', n);
    assert !Pending(c', |c.ops|);
  }

  lemma NewOpKeepsOps(names: seq<string>, book: Book, m: string, c: Client, msg: Message)
    requires OpsOk(names, book, m, c) && c.counter < ID_SPACE
    requires if msg.id.Some? then CallShape(names, msg) else NotifyShape(msg) && msg.origin == ""
    requires msg.id.Some? ==> msg.id == Some(Decimal((c.counter + 1) % ID_SPACE))
    ensures OpsOk(names, book, m, ClientNew(c, msg))
  {
    var c' := ClientNew(c, msg);
    NewOpKeepsIds(c, msg);
    NewOpKeepsWait(c, msg);
    assert forall n :: 0 <= n < |c.ops| ==> c'.ops[n] == c.ops[n];
    assert c'.ops[|c.ops|] == Op(msg, c.counter + 1, Created, None);
    assert LockOk(c');
    assert RepliesOk(names, m, c');
    assert ShapesOk(names, c');
    assert RecordsOk(book, m, c');
  }

  lemma CountKeepsParts(names: seq<string>, book: Book, m: string, c: Client)
    requires OpsOk(names, book, m, c) && c.counter < ID_SPACE
    ensures var c' := c.(counter := c.counter + 1);
      LockOk(c') && IdsOk(c') && RepliesOk(names, m, c') && ShapesOk(names, c') && RecordsOk(book, m, c')
  {
    hide WaitOk;
  }

  lemma CountKeepsWait(c: Client)
    requires WaitOk(c)
    ensures WaitOk(c.(counter := c.counter + 1))
  {
    var c' := c.(counter := c.counter + 1);
    assert forall n :: 0 <= n < |c.ops| ==> Pending(c, n) == Pending(c', n);
  }

  /** An id is spent even when the parameters cannot be encoded. */
  lemma CountKeepsOps(names: seq<string>, book: Book, m: string, c: Client)
    requires OpsOk(names, book, m, c) && c.counter < ID_SPACE
    ensures OpsOk(names, book, m, c.(counter := c.counter + 1))
  {
    hide ShapesOk, RecordsOk, RepliesOk, WaitOk, LockOk, IdsOk;
    var c' := c.(counter := c.counter + 1);
    CountKeepsParts(names, book, m, c);
    CountKeepsWait(c);
  }

  // ---- sending ----

  lemma GiveUpKeepsLock(names: seq<string>, m: string, c: Client, n: nat)
    requires LockOk(c) && WaitOk(c) && RepliesOk(names, m, c) && InPhase(c, n, Created)
    ensures LockOk(SetPhase(c, n, GivenUp)) && WaitOk(SetPhase(c, n, GivenUp))
  {
    var c' := SetPhase(c, n, GivenUp);
    assert forall k :: 0 <= k < |c.ops| ==> Pending(c, k) == Pending(c', k);
    hide Pending;
  }

  lemma GiveUpKeepsOps(names: seq<string>, book: Book, m: string, c: Client, n: nat)
    requires OpsOk(names, book, m, c) && InPhase(c, n, Created)
    ensures OpsOk(names, book, m, SetPhase(c, n, GivenUp))
  {
    hide IdsOk, ShapesOk, RecordsOk, RepliesOk, WaitOk, LockOk;
    var c' := SetPhase(c, n, GivenUp);
    SameCallsKeepIds(names, c, c');
    GiveUpKeepsLock(names, m, c, n);
    RepliesCarryOver(names, m, c, c');
    RecordsCarryOver(book, m, c, c');
  }

  lemma InitKeepsWait(c: Client, n: nat)
    requires WaitOk(c) && LockOk(c) && DistinctCalls(c) && CallKeysOk(c) && c.lock.None? && InPhase(c, n, Created)
    requires c.ops[n].reply.None?
    ensures WaitOk(ClientInit(c, n))
  {
    var c' := ClientInit(c, n);
    assert forall k :: 0 <= k < |c.ops| && k != n ==> c'.ops[k] == c.ops[k] && Pending(c, k) == Pending(c', k);
    forall k | 0 <= k < |c.ops| && Pending(c', k)
      ensures c'.ops[k].WaitKey() in c'.respWait && c'.respWait[c'.ops[k].WaitKey()] == k
    {
      if k != n {
        assert Pending(c, k);
        assert c.ops[k].WaitKey() != c.ops[n].WaitKey();
      }
    }
    forall key | key in c'.respWait
      ensures var k := c'.respWait[key];
        k < |c'.ops| && c'.ops[k].WaitKey() == key && (key != "" ==> Pending(c', k))
    {
      if key != c.ops[n].WaitKey() {
        assert c.respWait[key] != n;
      }
    }
  }

  lemma InitKeepsOps(names: seq<string>, book: Book, m: string, c: Client, n: nat)
    requires OpsOk(names, book, m, c) && c.lock.None? && InPhase(c, n, Created)
    ensures OpsOk(names, book, m, ClientInit(c, n))
  {
    var c' := ClientInit(c, n);
    SameCallsKeepIds(names, c, c');
    IdsGiveDistinctCalls(c);
    ShapesGiveCallKeys(names, c);
    InitKeepsWait(c, n);
    assert LockOk(c');
    assert RepliesOk(names, m, c');
    assert RecordsOk(book, m, c');
  }

  lemma InitializedOp(names: seq<string>, book: Book, m: string, c: Client, n: nat)
    requires OpsOk(names, book, m, c) && InPhase(c, n, Initialized)
    ensures c.ops[n].reply.None?
    ensures if c.ops[n].IsCall() then CallShape(names, c.ops[n].msg) else NotifyShape(c.ops[n].msg)
    ensures c.ops[n].msg.origin == ""
  {
    hide LockOk, IdsOk, WaitOk, RecordsOk;
  }

  lemma WriteKeepsWait(c: Client, n: nat)
    requires WaitOk(c) && InPhase(c, n, Initialized) && LockOk(c)
    ensures WaitOk(ClientWrite(c, n))
  {
    var c' := ClientWrite(c, n);
    assert forall k :: 0 <= k < |c.ops| && k != n ==> c'.ops[k] == c.ops[k];
    assert forall k :: 0 <= k < |c.ops| ==> Pending(c, k) == Pending(c', k);
  }

  lemma WriteKeepsRecords(book: Book, m: string, c: Client, n: nat, book': Book)
    requires RecordsOk(book, m, c) && DistinctCalls(c) && InPhase(c, n, Initialized)
    requires book' == if c.ops[n].IsCall() then book[Key(m, c.ops[n].msg.id.value) := Record(c.ops[n].msg, n)] else book
    ensures RecordsOk(book', m, ClientWrite(c, n))
    ensures c.ops[n].IsCall() ==> Key(m, c.ops[n].msg.id.value) !in book
  {
    var c' := ClientWrite(c, n);
    assert forall k :: 0 <= k < |c.ops| && k != n ==> c'.ops[k] == c.ops[k];
    if c.ops[n].IsCall() {
      var id := c.ops[n].msg.id.value;
      assert Key(m, id) in book ==> c.ops[book[Key(m, id)].op].WaitKey() == c.ops[n].WaitKey();
      forall k | 0 <= k < |c.ops| && c'.ops[k].IsCall() && c'.ops[k].Written()
        ensures Key(m, c'.ops[k].msg.id.value) in book'
             && book'[Key(m, c'.ops[k].msg.id.value)] == Record(c'.ops[k].msg, k)
      {
        if k != n {
          assert c.ops[k].WaitKey() != c.ops[n].WaitKey();
        }
      }
    }
  }

  lemma WriteKeepsOps(names: seq<string>, book: Book, m: string, c: Client, n: nat, book': Book)
    requires OpsOk(names, book, m, c) && InPhase(c, n, Initialized)
    requires book' == if c.ops[n].IsCall() then book[Key(m, c.ops[n].msg.id.value) := Record(c.ops[n].msg, n)] else book
    ensures OpsOk(names, book', m, ClientWrite(c, n))
    ensures c.ops[n].IsCall() ==> Key(m, c.ops[n].msg.id.value) !in book
  {
    var c' := ClientWrite(c, n);
    SameCallsKeepIds(names, c, c');
    IdsGiveDistinctCalls(c);
    WriteKeepsWait(c, n);
    WriteKeepsRecords(book, m, c, n, book');
    assert LockOk(c');
    assert RepliesOk(names, m, c');
  }

  lemma WriteFailsKeepsWait(c: Client, n: nat)
    requires WaitOk(c) && LockOk(c) && InPhase(c, n, Initialized)
    ensures WaitOk(ClientWriteFails(c, n))
  {
    var c' := ClientWriteFails(c, n);
    assert forall k :: 0 <= k < |c.ops| && k != n ==> c'.ops[k] == c.ops[k];
    assert forall k :: 0 <= k < |c.ops| ==> Pending(c, k) == Pending(c', k);
  }

  lemma WriteFailsKeepsOps(names: seq<string>, book: Book, m: string, c: Client, n: nat)
    requires OpsOk(names, book, m, c) && InPhase(c, n, Initialized) && c.reqSent.None?
    ensures OpsOk(names, book, m, ClientWriteFails(c, n))
  {
    var c' := ClientWriteFails(c, n);
    SameCallsKeepIds(names, c, c');
    WriteFailsKeepsWait(c, n);
    assert LockOk(c');
    assert RepliesOk(names, m, c');
    assert RecordsOk(book, m, c');
  }

  lemma SentKeepsWait(c: Client)
    requires WaitOk(c) && LockOk(c) && DistinctCalls(c) && CallKeysOk(c) && c.reqSent.Some?
    ensures WaitOk(ClientSent(c))
  {
    var c' := ClientSent(c);
    var n := c.lock.value;
    assert forall k :: 0 <= k < |c.ops| && k != n ==> Pending(c, k) == Pending(c', k);
    forall k | 0 <= k < |c.ops| && k != n && Pending(c, k)
      ensures c.ops[k].WaitKey() != c.ops[n].WaitKey()
    {
      assert c.ops[k].WaitKey() != "";
    }
  }

  lemma SentKeepsOps(names: seq<string>, book: Book, m: string, c: Client)
    requires OpsOk(names, book, m, c) && c.reqSent.Some?
    ensures OpsOk(names, book, m, ClientSent(c))
  {
    var c' := ClientSent(c);
    SameCallsKeepIds(names, c, c');
    IdsGiveDistinctCalls(c);
    ShapesGiveCallKeys(names, c);
    SentKeepsWait(c);
  }

  // ---- waiting ----

  lemma ReceiveKeepsLock(c: Client, n: nat)
    requires LockOk(c) && WaitOk(c) && InPhase(c, n, Phase.Sent) && c.ops[n].reply.Some?
    ensures LockOk(SetPhase(c, n, Phase.Returned)) && WaitOk(SetPhase(c, n, Phase.Returned))
  {
    var c' := SetPhase(c, n, Phase.Returned);
    assert forall k :: 0 <= k < |c.ops| ==> Pending(c, k) == Pending(c', k);
    hide Pending;
  }

  lemma ReceiveKeepsOps(names: seq<string>, book: Book, m: string, c: Client, n: nat)
    requires OpsOk(names, book, m, c) && InPhase(c, n, Phase.Sent) && c.ops[n].reply.Some?
    ensures OpsOk(names, book, m, SetPhase(c, n, Phase.Returned))
  {
    hide IdsOk, ShapesOk, RecordsOk, RepliesOk, WaitOk, LockOk;
    var c' := SetPhase(c, n, Phase.Returned);
    SameCallsKeepIds(names, c, c');
    ReceiveKeepsLock(c, n);
    RepliesCarryOver(names, m, c, c');
    RecordsCarryOver(book, m, c, c');
  }

  lemma TimeOutKeepsWait(c: Client, n: nat)
    requires WaitOk(c) && DistinctCalls(c) && InPhase(c, n, Phase.Sent) && c.ops[n].IsCall()
    ensures WaitOk(ClientTimeOut(c, n))
  {
    var c' := ClientTimeOut(c, n);
    assert forall k :: 0 <= k < |c.ops| && k != n ==> c'.ops[k] == c.ops[k] && Pending(c, k) == Pending(c', k);
    forall k | 0 <= k < |c.ops| && k != n && Pending(c, k)
      ensures c.ops[k].WaitKey() != c.ops[n].WaitKey()
    {
    }
    forall key | key in c'.respWait
      ensures c'.respWait[key] != n
    {
    }
  }

  lemma TimeOutKeepsLock(c: Client, n: nat)
    requires LockOk(c) && InPhase(c, n, Phase.Sent)
    ensures LockOk(ClientTimeOut(c, n))
  {
  }

  lemma TimeOutKeepsOps(names: seq<string>, book: Book, m: string, c: Client, n: nat)
    requires OpsOk(names, book, m, c) && InPhase(c, n, Phase.Sent) && c.ops[n].IsCall()
    ensures OpsOk(names, book, m, ClientTimeOut(c, n))
  {
    hide IdsOk, ShapesOk, RecordsOk, RepliesOk, WaitOk, LockOk;
    var c' := ClientTimeOut(c, n);
    SameCallsKeepIds(names, c, c');
    IdsGiveDistinctCalls(c);
    TimeOutKeepsWait(c, n);
    TimeOutKeepsLock(c, n);
    RepliesCarryOver(names, m, c, c');
    RecordsCarryOver(book, m, c, c');
  }

  lemma ReplyKeepsWait(c: Client, msg: Message)
    requires WaitOk(c) && DistinctCalls(c) && msg.id.Some? && msg.id.value != ""
    ensures WaitOk(HandleReply(c, msg))
  {
    var i := msg.id.value;
    var c' := HandleReply(c, msg);
    if i in c.respWait {
      var n := c.respWait[i];
      assert Pending(c, n);
      assert forall k :: 0 <= k < |c.ops| && k != n ==> c'.ops[k] == c.ops[k] && Pending(c, k) == Pending(c', k);
      assert !Pending(c', n);
      forall k | 0 <= k < |c.ops| && k != n && Pending(c, k)
        ensures c.ops[k].WaitKey() != i
      {
        assert c.ops[n].WaitKey() == i;
      }
      forall key | key in c'.respWait
        ensures c'.respWait[key] != n
      {
        assert c.ops[c.respWait[key]].WaitKey() == key;
      }
    }
  }

  /** The operation a reply finds in the pending table is the one that made the call. */
  lemma ReplyFindsItsOp(names: seq<string>, book: Book, m: string, c: Client, msg: Message)
    requires OpsOk(names, book, m, c)
    requires GoodReply(names, book, msg) && msg.origin == m
    requires msg.id.value in c.respWait
    ensures c.respWait[msg.id.value] == book[Key(m, msg.id.value)].op
    ensures Pending(c, c.respWait[msg.id.value])
    ensures c.ops[c.respWait[msg.id.value]].phase == Phase.Sent
  {
    var n := c.respWait[msg.id.value];
    var k := book[Key(m, msg.id.value)].op;
    assert msg.id.value != "";
    IdsDistinct(c, n, k);
  }

  lemma IdIsNotEmpty(msg: Message)
    requires msg.IsResponse()
    ensures msg.id.Some? && msg.id.value != ""
  {
  }

  lemma ReplyShape(c: Client, msg: Message)
    requires msg.id.Some? && msg.id.value in c.respWait && c.respWait[msg.id.value] < |c.ops|
    ensures var c' := HandleReply(c, msg);
      && SameCalls(c, c')
      && forall k :: 0 <= k < |c.ops| ==> c'.ops[k].phase == c.ops[k].phase
  {
  }

  lemma ReplyKeepsLock(c: Client, msg: Message)
    requires LockOk(c) && msg.id.Some? && msg.id.value in c.respWait && c.respWait[msg.id.value] < |c.ops|
    ensures LockOk(HandleReply(c, msg))
  {
    ReplyShape(c, msg);
    assert HandleReply(c, msg).lock == c.lock && HandleReply(c, msg).reqSent == c.reqSent;
    hide HandleReply, SameCalls;
  }

  lemma ReplyKeepsReplies(names: seq<string>, book: Book, m: string, c: Client, msg: Message)
    requires RepliesOk(names, m, c) && RecordsOk(book, m, c) && GoodReply(names, book, msg) && msg.origin == m
    requires msg.id.value in c.respWait && c.respWait[msg.id.value] == book[Key(m, msg.id.value)].op
    requires Pending(c, c.respWait[msg.id.value])
    ensures RepliesOk(names, m, HandleReply(c, msg))
  {
    var c' := HandleReply(c, msg);
    var n := c.respWait[msg.id.value];
    assert c.ops[n].msg == RecordOf(book, msg) && c.ops[n].Written();
    hide IsReplyTo;
    assert c'.ops == c.ops[n := c.ops[n].(reply := Some(msg))];
  }

  lemma ReplyKeepsOps(names: seq<string>, book: Book, m: string, c: Client, msg: Message)
    requires OpsOk(names, book, m, c)
    requires GoodReply(names, book, msg) && msg.origin == m
    ensures OpsOk(names, book, m, HandleReply(c, msg))
  {
    var c' := HandleReply(c, msg);
    if msg.id.value in c.respWait {
      ReplyFindsItsOp(names, book, m, c, msg);
      hide IdsOk, ShapesOk, RecordsOk, WaitOk, LockOk, RepliesOk;
      IdsGiveDistinctCalls(c);
      IdIsNotEmpty(msg);
      ReplyKeepsWait(c, msg);
      ReplyShape(c, msg);
      SameCallsKeepIds(names, c, c');
      ReplyKeepsLock(c, msg);
      RecordsCarryOver(book, m, c, c');
      ReplyKeepsReplies(names, book, m, c, msg);
    } else {
      assert c' == c;
    }
  }

  /** Writing a call of module m does not concern the operations of other modules. */
  lemma OthersKeepOps(names: seq<string>, book: Book, m: string, i: string, record: Record, other: string, c: Client)
    requires OpsOk(names, book, other, c) && other != m
    ensures OpsOk(names, book[Key(m, i) := record], other, c)
  {
  }
}
