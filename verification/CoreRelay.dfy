/** The relay loop of the core: one iteration takes a message from a module's outgoing queue and
    pushes it, stamped, to its target, to the sender in the special cases, and to everybody else
    under a broadcast. */
module CoreRelay {

  import opened JsonRpc
  import opened H = Hub
  import R = HubRelay

  class Core {
    var incoming: map<string, seq<Message>>
    var outgoing: map<string, seq<Message>>
    const allModules: seq<string>

    ghost predicate Valid()
      reads this
    {
      && (forall x :: x in allModules <==> x in incoming)
      && (forall x :: x in allModules <==> x in outgoing)
      && (forall i, j :: 0 <= i < j < |allModules| ==> allModules[i] != allModules[j])
    }

    constructor (modules: seq<string>)
      requires forall i, j :: 0 <= i < j < |modules| ==> modules[i] != modules[j]
      ensures Valid() && allModules == modules
      ensures forall x :: x in modules ==> incoming[x] == [] && outgoing[x] == []
    {
      allModules := modules;
      incoming := map x | x in modules :: [];
      outgoing := map x | x in modules :: [];
    }

    method Push(to: string, msg: Message)
      requires to in incoming
      modifies this`incoming
      ensures incoming == old(incoming)[to := old(incoming)[to] + [msg]]
    {
      incoming := incoming[to := incoming[to] + [msg]];
    }

    method IsExcluded(exclusion: seq<string>, x: string) returns (skip: bool)
      ensures skip <==> x in exclusion
    {
      skip := false;
      for i := 0 to |exclusion|
        invariant !skip && x !in exclusion[..i]
      {
        if exclusion[i] == x {
          skip := true;
          assert x in exclusion;
          return;
        }
        assert exclusion[..i + 1] == exclusion[..i] + [exclusion[i]];
      }
      assert exclusion[..|exclusion|] == exclusion;
    }

    /** Every module's incoming queue has grown by what `q` pushes to it. */
    ghost predicate Grew(before: map<string, seq<Message>>, q: seq<Delivery>)
      reads this
    {
      && (forall x :: x in allModules <==> x in incoming)
      && (forall x :: x in allModules ==> x in before && incoming[x] == before[x] + R.PushedTo(q, x))
    }

    method PushDelivery(to: string, msg: Message, ghost before: map<string, seq<Message>>, ghost q: seq<Delivery>)
      requires to in allModules && Grew(before, q)
      modifies this`incoming
      ensures Grew(before, q + [Delivery(to, msg)])
    {
      Push(to, msg);
      forall x | x in allModules
        ensures incoming[x] == before[x] + R.PushedTo(q + [Delivery(to, msg)], x)
      {
        R.PushedToConcat(q, [Delivery(to, msg)], x);
        assert [Delivery(to, msg)][1..] == [];
      }
    }

    /** The copies of a broadcast. */
    method Broadcast(m: string, target: string, exclusion: seq<string>, copy: Message,
                     ghost before: map<string, seq<Message>>, ghost q: seq<Delivery>)
      requires Grew(before, q)
      modifies this`incoming
      ensures Grew(before, q + Copies(allModules, m, target, exclusion, copy))
    {
      hide Grew;
      assert q + Copies(allModules[..0], m, target, exclusion, copy) == q;
      for k := 0 to |allModules|
        invariant Grew(before, q + Copies(allModules[..k], m, target, exclusion, copy))
      {
        var other := allModules[k];
        ghost var so := Copies(allModules[..k], m, target, exclusion, copy);
        CopiesSnoc(allModules[..k], other, m, target, exclusion, copy);
        assert allModules[..k + 1] == allModules[..k] + [other];
        assert so + [] == so && (q + so) + [Delivery(other, copy)] == q + (so + [Delivery(other, copy)]);
        if other == m || other == target {
          continue;
        }
        if |exclusion| > 0 {
          var skip := IsExcluded(exclusion, other);
          if skip {
            continue;
          }
        }
        PushDelivery(other, copy, before, q + so);
      }
      assert allModules[..|allModules|] == allModules;
    }

    /** Origin stamping and the choice of the target. */
    method Route(m: string, original: Message) returns (msg: Message, target: string)
      ensures msg == Stamp(m, original) && target == TargetOf(original) && msg.IsCall() == original.IsCall()
    {
      msg := original;
      if msg.IsResponse() {
        target := msg.origin;
      } else {
        target := msg.Namespace();
        if msg.origin == "" {
          msg := msg.(origin := m);
        }
      }
    }

    /** The pushes of one iteration, for a message that has been stamped and routed. */
    method DeliverAll(m: string, msg: Message, target: string, ghost original: Message)
      requires Valid() && m in allModules
      requires msg == Stamp(m, original) && target == TargetOf(original) && msg.IsCall() == original.IsCall()
      requires msg.notifyAll == original.notifyAll && msg.notifyExclusion == original.notifyExclusion
      modifies this`incoming
      ensures Grew(old(incoming), Deliveries(allModules, m, original))
    {
      hide Stamp, TargetOf, NotFoundReply, Copy, Message.IsCall, Copies, Grew;
      ghost var before := incoming;
      ghost var q: seq<Delivery> := [];
      assert Grew(before, q) by {
        NothingPushed(this, before);
      }
      if target == m {
        PushDelivery(m, msg, before, q);
        q := q + [Delivery(m, msg)];
      }
      if target !in allModules {
        if msg.IsCall() {
          PushDelivery(m, NotFoundReply(msg), before, q);
          q := q + [Delivery(m, NotFoundReply(msg))];
        }
      } else {
        PushDelivery(target, msg, before, q);
        q := q + [Delivery(target, msg)];
      }
      if msg.notifyAll {
        Broadcast(m, target, msg.notifyExclusion, Copy(msg), before, q);
        q := q + Copies(allModules, m, target, msg.notifyExclusion, Copy(msg));
      }
      assert q == Deliveries(allModules, m, original);
    }

    /** One relay iteration of module m delivers, to every module, exactly what the routing rule says for
        the module that the message is meant for. */
    method RelayOne(m: string)
      requires Valid() && m in allModules && outgoing[m] != []
      modifies this
      ensures Valid()
      ensures outgoing == old(outgoing)[m := old(outgoing)[m][1..]]
      ensures forall x :: x in allModules ==>
        incoming[x] == old(incoming)[x] + R.PushedTo(Deliveries(allModules, m, old(outgoing)[m][0]), x)
      ensures forall t, x :: R.IsAddressee(old(outgoing)[m][0], t) && x in allModules ==>
        incoming[x] == old(incoming)[x] + R.Routed(allModules, m, old(outgoing)[m][0], t, x)
    {
      ghost var taken := outgoing[m][0];
      forall t, x | R.IsAddressee(taken, t)
        ensures R.PushedTo(Deliveries(allModules, m, taken), x) == R.Routed(allModules, m, taken, t, x)
      {
        R.RelayRoutes(allModules, m, taken, t, x);
      }
      hide R.Routed, R.IsAddressee, Stamp, TargetOf, Message.IsCall, Deliveries, R.PushedTo;
      var original := outgoing[m][0];
      outgoing := outgoing[m := outgoing[m][1..]];
      var msg, target := Route(m, original);
      StampKeepsBroadcast(m, original);
      DeliverAll(m, msg, target, original);
    }
  }

  lemma NothingPushed(core: Core, before: map<string, seq<Message>>)
    requires core.Valid() && before == core.incoming
    ensures core.Grew(before, [])
  {
  }

  lemma StampKeepsBroadcast(m: string, msg: Message)
    ensures Stamp(m, msg).notifyAll == msg.notifyAll && Stamp(m, msg).notifyExclusion == msg.notifyExclusion
  {
  }

  lemma {:induction false} CopiesSnoc(names: seq<string>, x: string, m: string, target: string, exclusion: seq<string>, copy: Message)
    ensures Copies(names + [x], m, target, exclusion, copy)
         == Copies(names, m, target, exclusion, copy)
            + if x == m || x == target || x in exclusion then [] else [Delivery(x, copy)]
  {
    if names == [] {
      assert names + [x] == [x] && [x][1..] == [];
    } else {
      CopiesSnoc(names[1..], x, m, target, exclusion, copy);
      assert (names + [x])[1..] == names[1..] + [x];
    }
  }
}
