/** Weighing what travels through the hub: a weight per message and place, summed over one queue,
    over one client and over all clients. Conservation laws and the termination measure of the hub
    are all statements about such sums. */
module HubLedger {

  import opened Wrappers
  import opened JsonRpc
  import opened Hub

  datatype Place = Outgoing | Relaying | Incoming | Running

  /** What is being weighed. `copies` is how many times the relay delivers each message between the
      caller and its target: twice when a module addresses itself, once otherwise. */
  datatype Probe =
    | Token(key: Key, copies: nat)    // a call on its way to being answered: request, execution or reply
    | Request(key: Key, copies: nat)  // a call whose callback has not started
    | Stray                           // a call nobody serves, or the error reply it bounces as
    | Work                            // what the hub still has to do, answering bounced calls aside

  /** The error reply to a call nobody serves: no method, no sender, an id. */
  predicate IsBounced(msg: Message) {
    msg.procedure == "" && msg.origin == "" && msg.HasValidID()
  }

  function Weigh(names: seq<string>, p: Probe, place: Place, m: string, msg: Message): nat {
    match p
    case Token(key, copies) =>
      if msg.id != Some(key.id) then 0
      else if place == Outgoing then
        if msg.origin == "" && m == key.origin && msg.procedure != RESPONSE_SUFFIX then copies * copies
        else if msg.origin == key.origin then copies
        else 0
      else if msg.origin != key.origin then 0
      else if msg.IsResponse() then 1 else copies
    case Request(key, copies) =>
      if msg.id != Some(key.id) then 0
      else if place == Outgoing then
        if msg.origin == "" && m == key.origin && msg.procedure != RESPONSE_SUFFIX then copies else 0
      else if place == Running || msg.origin != key.origin || msg.IsResponse() then 0 else 1
    case Stray =>
      if place == Outgoing then if msg.IsCall() && TargetOf(msg) !in names then 1 else 0
      else if IsBounced(msg) then 1 else 0
    case Work =>
      match place
      case Outgoing => if msg.IsResponse() && TargetOf(msg) in names then 5 else 8 * (|names| + 2) + 1
      case Relaying => if msg.IsResponse() then 2 else 8
      case Incoming => if msg.IsResponse() then 1 else 7
      case Running => if IsBounced(msg) then 0 else 6
  }

  function Weight(names: seq<string>, p: Probe, place: Place, m: string): Message -> nat {
    msg => Weigh(names, p, place, m, msg)
  }

  // ---- one queue ----

  function Sum(f: Message -> nat, q: seq<Message>): nat {
    if q == [] then 0 else f(q[0]) + Sum(f, q[1..])
  }

  function Messages(q: seq<Delivery>): seq<Message> {
    seq(|q|, i requires 0 <= i < |q| => q[i].msg)
  }

  lemma MessageSource(q: seq<Delivery>, x: Message) returns (d: Delivery)
    requires x in Messages(q)
    ensures d in q && d.msg == x
  {
    var i :| 0 <= i < |Messages(q)| && Messages(q)[i] == x;
    d := q[i];
  }

  lemma {:induction false} SumConcat(f: Message -> nat, q: seq<Message>, r: seq<Message>)
    ensures Sum(f, q + r) == Sum(f, q) + Sum(f, r)
  {
    if q == [] {
      assert q + r == r;
    } else {
      SumConcat(f, q[1..], r);
      assert (q + r)[1..] == q[1..] + r;
    }
  }

  lemma SumOne(f: Message -> nat, x: Message)
    ensures Sum(f, [x]) == f(x)
  {
    assert Sum(f, [x][1..]) == 0;
  }

  lemma SumPush(f: Message -> nat, q: seq<Message>, x: Message)
    ensures Sum(f, q + [x]) == Sum(f, q) + f(x)
  {
    SumConcat(f, q, [x]);
    SumOne(f, x);
  }

  lemma SumRemove(f: Message -> nat, q: seq<Message>, i: nat)
    requires i < |q|
    ensures Sum(f, q) == Sum(f, q[..i] + q[i + 1..]) + f(q[i])
  {
    hide Sum;
    assert q == q[..i] + ([q[i]] + q[i + 1..]);
    SumConcat(f, q[..i], [q[i]] + q[i + 1..]);
    SumConcat(f, [q[i]], q[i + 1..]);
    SumConcat(f, q[..i], q[i + 1..]);
    SumOne(f, q[i]);
  }

  lemma {:induction false} SumZero(f: Message -> nat, q: seq<Message>)
    requires forall x :: x in q ==> f(x) == 0
    ensures Sum(f, q) == 0
  {
    if q != [] {
      SumZero(f, q[1..]);
    }
  }

  lemma {:induction false} SumMember(f: Message -> nat, q: seq<Message>, x: Message)
    requires x in q
    ensures f(x) <= Sum(f, q)
  {
    if q[0] != x {
      SumMember(f, q[1..], x);
    }
  }

  // ---- one client ----

  function ClientSum(names: seq<string>, p: Probe, m: string, c: Client): nat {
    Sum(Weight(names, p, Outgoing, m), c.outgoing)
    + Sum(Weight(names, p, Relaying, m), Messages(c.relaying))
    + Sum(Weight(names, p, Incoming, m), c.incoming)
    + Sum(Weight(names, p, Running, m), c.running)
  }

  // ---- all clients ----

  function Total(names: seq<string>, p: Probe, over: seq<string>, clients: map<string, Client>): nat
    requires forall m :: m in over ==> m in clients
  {
    if over == [] then 0
    else ClientSum(names, p, over[0], clients[over[0]]) + Total(names, p, over[1..], clients)
  }

  ghost predicate Distinct(names: seq<string>) {
    forall i, j :: 0 <= i < j < |names| ==> names[i] != names[j]
  }

  lemma {:induction false} TotalFrame(names: seq<string>, p: Probe, over: seq<string>, clients: map<string, Client>, m: string, c: Client)
    requires forall x :: x in over ==> x in clients
    requires m !in over
    ensures Total(names, p, over, clients[m := c]) == Total(names, p, over, clients)
  {
    if over != [] {
      TotalFrame(names, p, over[1..], clients, m, c);
    }
  }

  /** Replacing one client changes the total by the difference of its own sum. */
  lemma {:induction false} TotalUpdate(names: seq<string>, p: Probe, over: seq<string>, clients: map<string, Client>, m: string, c: Client)
    requires Distinct(over) && m in over
    requires forall x :: x in over ==> x in clients
    ensures Total(names, p, over, clients[m := c]) + ClientSum(names, p, m, clients[m])
         == Total(names, p, over, clients) + ClientSum(names, p, m, c)
  {
    if over[0] == m {
      assert m !in over[1..];
      TotalFrame(names, p, over[1..], clients, m, c);
    } else {
      assert m in over[1..];
      TotalUpdate(names, p, over[1..], clients, m, c);
    }
  }

  lemma {:induction false} TotalZero(names: seq<string>, p: Probe, over: seq<string>, clients: map<string, Client>)
    requires forall x :: x in over ==> x in clients
    requires forall x :: x in over ==> ClientSum(names, p, x, clients[x]) == 0
    ensures Total(names, p, over, clients) == 0
  {
    if over != [] {
      TotalZero(names, p, over[1..], clients);
    }
  }

  lemma {:induction false} TotalMember(names: seq<string>, p: Probe, over: seq<string>, clients: map<string, Client>, m: string)
    requires forall x :: x in over ==> x in clients
    requires m in over
    ensures ClientSum(names, p, m, clients[m]) <= Total(names, p, over, clients)
  {
    if over[0] != m {
      TotalMember(names, p, over[1..], clients, m);
    }
  }
}
