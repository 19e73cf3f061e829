/** One header request of the relay module: replies arrive in any order, the accepted ones are
    recorded under their block hash, and the best one is kept. */
module RelayAuction {

  import opened Bags
  import opened Wrappers
  import opened TopThree
  import Words

  datatype RelayEntry = RelayEntry(publicKey: string, signingDomain: string, url: string)

  datatype Reply = HttpError | HttpReply(code: nat, bid: SignedBid)

  datatype Arrival = Arrival(relay: RelayEntry, reply: Reply)

  datatype BidInfo = BidInfo(blockHash: string, parentHash: string, pubkey: string, txRoot: string, value: nat)

  /** An accepted bid with what was read from it. */
  datatype Offer = Offer(response: SignedBid, info: BidInfo)

  /** What a request depends on; the signature check is a parameter that may also fail (None). */
  datatype Terms = Terms(
    parentHash: string,
    minBid: nat,
    signatureCheck: bool,
    verify: (SignedBid, RelayEntry) -> Option<bool>)

  const NO_CONTENT: nat := 204
  const NIL_HASH := "0x0000000000000000000000000000000000000000000000000000000000000000"

  function ParseBidInfo(bid: SignedBid): Option<BidInfo> {
    if bid.blockHash.None? || bid.parentHash.None? || bid.pubkey.None? || bid.txRoot.None? || bid.value.None? then None
    else Some(BidInfo(bid.blockHash.value, bid.parentHash.value, bid.pubkey.value, bid.txRoot.value, bid.value.value))
  }

  /** The checks on one reply, in the order the source makes them. */
  function Accepted(t: Terms, a: Arrival): Option<Offer> {
    if a.reply.HttpError? || a.reply.code == NO_CONTENT || a.reply.bid.empty then None
    else
      var parsed := ParseBidInfo(a.reply.bid);
      if parsed.None? then None
      else
        var info := parsed.value;
        if info.blockHash == NIL_HASH then None
        else if a.relay.publicKey != info.pubkey then None
        else if t.signatureCheck && t.verify(a.reply.bid, a.relay) != Some(true) then None
        else if info.parentHash != t.parentHash then None
        else if info.value == 0 then None
        else if info.value < t.minBid then None
        else Some(Offer(a.reply.bid, info))
  }

  /** What this relay sent is a bid with this hash that passes every check: its own key, the parent
      asked for, a value that is neither zero nor under the minimum, a signature where one is required. */
  predicate DeliversBid(t: Terms, a: Arrival, blockHash: string) {
    && a.reply.HttpReply? && a.reply.code != 204 && !a.reply.bid.empty
    && a.reply.bid.blockHash == Some(blockHash) && blockHash != "0x0000000000000000000000000000000000000000000000000000000000000000"
    && a.reply.bid.parentHash == Some(t.parentHash)
    && a.reply.bid.pubkey == Some(a.relay.publicKey)
    && a.reply.bid.txRoot.Some?
    && a.reply.bid.value.Some? && a.reply.bid.value.value > 0 && a.reply.bid.value.value >= t.minBid
    && (t.signatureCheck ==> t.verify(a.reply.bid, a.relay) == Some(true))
  }

  /** An offer is the bid of this reply, with the bid's own hash, parent, key, root and value. */
  predicate IsOfferOf(o: Offer, reply: Reply) {
    && reply.HttpReply? && o.response == reply.bid
    && reply.bid.blockHash == Some(o.info.blockHash) && reply.bid.parentHash == Some(o.info.parentHash)
    && reply.bid.pubkey == Some(o.info.pubkey) && reply.bid.txRoot == Some(o.info.txRoot)
    && reply.bid.value == Some(o.info.value)
  }

  lemma AcceptedBidIsSound(t: Terms, a: Arrival, blockHash: string)
    ensures DeliversBid(t, a, blockHash) <==> Accepted(t, a).Some? && Accepted(t, a).value.info.blockHash == blockHash
    ensures Accepted(t, a).Some? ==> IsOfferOf(Accepted(t, a).value, a.reply)
  {
  }

  // ---- the order on bids ----

  /** More value wins; on equal value, the smaller hash. */
  predicate Beats(a: BidInfo, b: BidInfo) {
    a.value > b.value || (a.value == b.value && Words.Less(a.blockHash, b.blockHash))
  }

  predicate Ties(a: BidInfo, b: BidInfo) {
    a.value == b.value && a.blockHash == b.blockHash
  }

  lemma BeatsIsATotalOrder(a: BidInfo, b: BidInfo, c: BidInfo)
    ensures Beats(a, b) || Ties(a, b) || Beats(b, a)
    ensures !(Beats(a, b) && Beats(b, a)) && !(Ties(a, b) && Beats(a, b))
    ensures Beats(a, b) && Beats(b, c) ==> Beats(a, c)
    ensures Beats(a, b) && Ties(b, c) ==> Beats(a, c)
    ensures Ties(a, b) && Beats(b, c) ==> Beats(a, c)
  {
    Words.LessTotal(a.blockHash, b.blockHash);
    Words.LessTotal(b.blockHash, c.blockHash);
    if Words.Less(a.blockHash, b.blockHash) && Words.Less(b.blockHash, c.blockHash) {
      Words.LessTransitive(a.blockHash, b.blockHash, c.blockHash);
    }
  }

  // ---- the race ----

  /** The running best after these arrivals, in this order. */
  function Race(t: Terms, arrivals: seq<Arrival>): Option<Offer> {
    if arrivals == [] then None
    else
      var before, a := Race(t, arrivals[..|arrivals| - 1]), arrivals[|arrivals| - 1];
      var offer := Accepted(t, a);
      if offer.Some? && (before.None? || Beats(offer.value.info, before.value.info)) then offer else before
  }

  /** The relays that delivered an accepted bid with this hash, in order of arrival. */
  function Deliverers(t: Terms, arrivals: seq<Arrival>, blockHash: string): seq<RelayEntry> {
    if arrivals == [] then []
    else
      var before, a := Deliverers(t, arrivals[..|arrivals| - 1], blockHash), arrivals[|arrivals| - 1];
      var offer := Accepted(t, a);
      if offer.Some? && offer.value.info.blockHash == blockHash then before + [a.relay] else before
  }

  lemma PushStep(t: Terms, arrivals: seq<Arrival>, a: Arrival, blockHash: string)
    ensures Race(t, arrivals + [a]) == (var offer, before := Accepted(t, a), Race(t, arrivals);
      if offer.Some? && (before.None? || Beats(offer.value.info, before.value.info)) then offer else before)
    ensures Deliverers(t, arrivals + [a], blockHash)
         == if Accepted(t, a).Some? && Accepted(t, a).value.info.blockHash == blockHash
            then Deliverers(t, arrivals, blockHash) + [a.relay] else Deliverers(t, arrivals, blockHash)
  {
    assert (arrivals + [a])[..|arrivals|] == arrivals;
  }

  /** The leader came with an arrival, and no accepted bid beats it. There is no leader exactly when
      nothing was accepted. */
  lemma {:induction false} LeaderIsUnbeaten(t: Terms, arrivals: seq<Arrival>)
    ensures Race(t, arrivals).None? <==> (forall a :: a in arrivals ==> Accepted(t, a).None?)
    ensures var r := Race(t, arrivals);
      r.Some? ==>
        && (exists a :: a in arrivals && Accepted(t, a) == r)
        && (forall a :: a in arrivals && Accepted(t, a).Some? ==>
              Beats(r.value.info, Accepted(t, a).value.info) || Ties(r.value.info, Accepted(t, a).value.info))
  {
    if arrivals != [] {
      var init, last := arrivals[..|arrivals| - 1], arrivals[|arrivals| - 1];
      assert arrivals == init + [last];
      LeaderIsUnbeaten(t, init);
      var before, r := Race(t, init), Race(t, arrivals);
      hide Accepted, Beats, Ties;
      if before.Some? && Accepted(t, last).Some? {
        BeatsIsATotalOrder(Accepted(t, last).value.info, before.value.info, before.value.info);
        forall a | a in init && Accepted(t, a).Some?
          ensures Beats(r.value.info, Accepted(t, a).value.info) || Ties(r.value.info, Accepted(t, a).value.info)
        {
          BeatsIsATotalOrder(r.value.info, before.value.info, Accepted(t, a).value.info);
        }
      }
      if r.Some? {
        TiesItself(r.value.info);
        if r != before {
          assert last in arrivals && Accepted(t, last) == r;
        }
      }
    }
  }

  /** One of these relays delivered the bid, and no relay delivered one of higher value, or of the same
      value with a smaller hash. */
  ghost predicate IsBestBid(t: Terms, arrivals: seq<Arrival>, o: Offer) {
    && (exists a :: a in arrivals && DeliversBid(t, a, o.info.blockHash) && IsOfferOf(o, a.reply))
    && (forall b, h :: b in arrivals && DeliversBid(t, b, h) ==> NoBetter(b, h, o))
  }

  predicate NoBetter(b: Arrival, blockHash: string, o: Offer) {
    b.reply.HttpReply? && b.reply.bid.value.Some? &&
    (|| b.reply.bid.value.value < o.info.value
     || (b.reply.bid.value.value == o.info.value && !Words.Less(blockHash, o.info.blockHash)))
  }

  /** The race ends with the best bid that was delivered; without one exactly when none was. */
  lemma RaceFindsTheMaximum(t: Terms, arrivals: seq<Arrival>)
    ensures Race(t, arrivals).None? <==> forall a, h :: a in arrivals ==> !DeliversBid(t, a, h)
    ensures Race(t, arrivals).Some? ==> IsBestBid(t, arrivals, Race(t, arrivals).value)
  {
    hide Accepted, Beats, Race, DeliversBid, IsOfferOf;
    LeaderIsUnbeaten(t, arrivals);
    var r := Race(t, arrivals);
    forall b, h | b in arrivals && DeliversBid(t, b, h)
      ensures Accepted(t, b).Some?
      ensures r.Some? ==> NoBetter(b, h, r.value)
    {
      AcceptedBidIsSound(t, b, h);
      if r.Some? {
        OfferHasTheValue(Accepted(t, b).value, b.reply);
        UnbeatenMeans(r.value.info, Accepted(t, b).value.info);
      }
    }
    if r.Some? {
      var a :| a in arrivals && Accepted(t, a) == r;
      AcceptedBidIsSound(t, a, r.value.info.blockHash);
    }
    assert r.None? ==> forall a, h :: a in arrivals ==> !DeliversBid(t, a, h);
  }

  lemma OfferHasTheValue(o: Offer, reply: Reply)
    requires IsOfferOf(o, reply)
    ensures reply.HttpReply? && reply.bid.value == Some(o.info.value)
  {
  }

  lemma UnbeatenMeans(a: BidInfo, b: BidInfo)
    requires Beats(a, b) || Ties(a, b)
    ensures b.value < a.value || (b.value == a.value && !Words.Less(b.blockHash, a.blockHash))
  {
    Words.LessTotal(a.blockHash, b.blockHash);
  }

  lemma TiesItself(info: BidInfo)
    ensures Ties(info, info)
  {
  }

  /** Among equal bids the first to arrive is kept: everything accepted before the leader is beaten. */
  lemma {:induction false} RaceKeepsTheFirst(t: Terms, arrivals: seq<Arrival>) returns (i: nat)
    requires Race(t, arrivals).Some?
    ensures i < |arrivals| && Race(t, arrivals) == Accepted(t, arrivals[i])
    ensures forall j :: 0 <= j < i && Accepted(t, arrivals[j]).Some? ==>
      Beats(Race(t, arrivals).value.info, Accepted(t, arrivals[j]).value.info)
  {
    var init, last := arrivals[..|arrivals| - 1], arrivals[|arrivals| - 1];
    var before, r := Race(t, init), Race(t, arrivals);
    if r == before {
      i := RaceKeepsTheFirst(t, init);
    } else {
      i := |arrivals| - 1;
      LeaderIsUnbeaten(t, init);
      hide Accepted, Beats, Ties;
      forall j | 0 <= j < i && Accepted(t, arrivals[j]).Some?
        ensures Beats(r.value.info, Accepted(t, arrivals[j]).value.info)
      {
        assert arrivals[j] in init;
        BeatsIsATotalOrder(r.value.info, before.value.info, Accepted(t, arrivals[j]).value.info);
      }
    }
  }

  // ---- order of arrival ----

  lemma {:induction false} DeliverersConcat(t: Terms, a: seq<Arrival>, b: seq<Arrival>, blockHash: string)
    ensures Deliverers(t, a + b, blockHash) == Deliverers(t, a, blockHash) + Deliverers(t, b, blockHash)
  {
    if b == [] {
      assert a + b == a;
    } else {
      var init, last := b[..|b| - 1], b[|b| - 1];
      assert b == init + [last] && a + b == (a + init) + [last];
      DeliverersConcat(t, a, init, blockHash);
      hide Accepted, Race, Deliverers;
      PushStep(t, a + init, last, blockHash);
      PushStep(t, init, last, blockHash);
    }
  }

  /** Each arrival contributes to the record on its own. */
  lemma DeliverersCut(t: Terms, arrivals: seq<Arrival>, i: nat, blockHash: string)
    requires i < |arrivals|
    ensures multiset(Deliverers(t, arrivals, blockHash))
         == multiset(Deliverers(t, Cut(arrivals, i), blockHash)) + multiset(Deliverers(t, [arrivals[i]], blockHash))
  {
    var x, y, z := arrivals[..i], [arrivals[i]], arrivals[i + 1..];
    assert arrivals == x + (y + z);
    hide Deliverers;
    DeliverersConcat(t, x, y + z, blockHash);
    DeliverersConcat(t, y, z, blockHash);
    DeliverersConcat(t, x, z, blockHash);
  }

  lemma {:induction false} DeliverersPermute(t: Terms, a: seq<Arrival>, b: seq<Arrival>, blockHash: string)
    requires multiset(a) == multiset(b)
    ensures multiset(Deliverers(t, a, blockHash)) == multiset(Deliverers(t, b, blockHash))
    decreases |b|
  {
    if b == [] {
      assert |multiset(a)| == |a| == 0;
    } else {
      hide Deliverers;
      var init, last := b[..|b| - 1], b[|b| - 1];
      assert b == init + [last];
      var i := Permuted(a, init, last);
      DeliverersPermute(t, Cut(a, i), init, blockHash);
      DeliverersCut(t, a, i, blockHash);
      DeliverersConcat(t, init, [last], blockHash);
    }
  }

  /** A relay is recorded for a hash exactly when one of its replies passes every check with that hash. */
  lemma {:induction false} DelivererDelivered(t: Terms, arrivals: seq<Arrival>, blockHash: string, relay: RelayEntry)
    ensures relay in Deliverers(t, arrivals, blockHash) <==>
      exists a :: a in arrivals && a.relay == relay && DeliversBid(t, a, blockHash)
  {
    if arrivals != [] {
      AcceptedBidIsSound(t, arrivals[|arrivals| - 1], blockHash);
      var init, last := arrivals[..|arrivals| - 1], arrivals[|arrivals| - 1];
      assert arrivals == init + [last];
      DelivererDelivered(t, init, blockHash, relay);
      hide Accepted, DeliversBid;
      assert last in arrivals;
      assert forall a :: a in arrivals <==> a in init || a == last;
    }
  }

  /** Every order of arrival gives the same winning value and hash, and the same relays for it. */
  lemma AuctionIsConfluent(t: Terms, a: seq<Arrival>, b: seq<Arrival>)
    requires multiset(a) == multiset(b)
    ensures Race(t, a).Some? <==> Race(t, b).Some?
    ensures Race(t, a).Some? ==>
      var x, y := Race(t, a).value.info, Race(t, b).value.info;
      && x.value == y.value && x.blockHash == y.blockHash
      && multiset(Deliverers(t, a, x.blockHash)) == multiset(Deliverers(t, b, y.blockHash))
  {
    LeaderIsUnbeaten(t, a);
    LeaderIsUnbeaten(t, b);
    assert forall x :: x in a <==> x in multiset(b);
    assert forall x :: x in a <==> x in b;
    hide Accepted, Beats, Ties;
    if Race(t, a).Some? {
      var x, y := Race(t, a).value.info, Race(t, b).value.info;
      BeatsIsATotalOrder(x, y, x);
      TiesMeans(x, y);
      DeliverersPermute(t, a, b, x.blockHash);
    }
  }

  lemma TiesMeans(a: BidInfo, b: BidInfo)
    ensures Ties(a, b) <==> a.value == b.value && a.blockHash == b.blockHash
    ensures Ties(a, b) ==> Ties(b, a)
  {
  }

  /** Arrival a brought an accepted bid with the winning value and hash. */
  predicate Wins(t: Terms, arrivals: seq<Arrival>, a: Arrival) {
    && a in arrivals && Accepted(t, a).Some? && Race(t, arrivals).Some?
    && Ties(Accepted(t, a).value.info, Race(t, arrivals).value.info)
  }

  lemma WinnerMovedToTheFront(t: Terms, arrivals: seq<Arrival>, x: Arrival) returns (order: seq<Arrival>)
    requires Wins(t, arrivals, x)
    ensures multiset(order) == multiset(arrivals)
    ensures Race(t, order) == Accepted(t, x) && Accepted(t, x).Some?
  {
    var k :| 0 <= k < |arrivals| && arrivals[k] == x;
    order := [x] + Cut(arrivals, k);
    CutCounts(arrivals, k);
    AuctionIsConfluent(t, arrivals, order);
    var i := RaceKeepsTheFirst(t, order);
    hide Accepted, Beats, Ties, Race;
    TiesMeans(Accepted(t, x).value.info, Race(t, arrivals).value.info);
    TiesMeans(Accepted(t, x).value.info, Race(t, order).value.info);
    BeatsIsATotalOrder(Race(t, order).value.info, Accepted(t, x).value.info, Race(t, order).value.info);
    BeatsIsATotalOrder(Accepted(t, x).value.info, Race(t, order).value.info, Race(t, order).value.info);
    assert order[0] == x;
  }

  ghost predicate OrderIsIrrelevant(t: Terms, arrivals: seq<Arrival>) {
    forall order :: multiset(order) == multiset(arrivals) ==> Race(t, order) == Race(t, arrivals)
  }

  ghost predicate WinnersAgree(t: Terms, arrivals: seq<Arrival>) {
    forall x, y :: Wins(t, arrivals, x) && Wins(t, arrivals, y) ==> Accepted(t, x) == Accepted(t, y)
  }

  /** The bid that is returned does not depend on the order of arrival if and only if all bids that
      reach the winning value and hash are the same. */
  lemma ResponseIsConfluentIff(t: Terms, arrivals: seq<Arrival>)
    ensures OrderIsIrrelevant(t, arrivals) <==> WinnersAgree(t, arrivals)
  {
    hide Accepted, Beats, Ties;
    if OrderIsIrrelevant(t, arrivals) {
      forall x, y | Wins(t, arrivals, x) && Wins(t, arrivals, y)
        ensures Accepted(t, x) == Accepted(t, y)
      {
        var first := WinnerMovedToTheFront(t, arrivals, x);
        var second := WinnerMovedToTheFront(t, arrivals, y);
      }
    }
    if WinnersAgree(t, arrivals) {
      forall order | multiset(order) == multiset(arrivals)
        ensures Race(t, order) == Race(t, arrivals)
      {
        AuctionIsConfluent(t, arrivals, order);
        if Race(t, arrivals).Some? {
          var x := LeadingArrival(t, arrivals);
          var y := LeadingArrival(t, order);
          TiesMeans(Race(t, order).value.info, Race(t, arrivals).value.info);
          assert y in multiset(arrivals);
          assert Wins(t, arrivals, x) && Wins(t, arrivals, y);
        }
      }
    }
  }

  lemma LeadingArrival(t: Terms, arrivals: seq<Arrival>) returns (a: Arrival)
    requires Race(t, arrivals).Some?
    ensures a in arrivals && Race(t, arrivals) == Accepted(t, a)
    ensures Wins(t, arrivals, a)
  {
    var i := RaceKeepsTheFirst(t, arrivals);
    a := arrivals[i];
    TiesMeans(Race(t, arrivals).value.info, Race(t, arrivals).value.info);
  }

  /** Two relays can deliver the same value and hash under their own keys: then it does depend. */
  lemma ResponseCanDependOnTheOrder(t: Terms, p: string, q: string, h: string)
    requires p != q && h != NIL_HASH && !t.signatureCheck && t.minBid == 0
    ensures var a, b := OneWeiFrom(p, h, t.parentHash), OneWeiFrom(q, h, t.parentHash);
      Race(t, [a, b]) != Race(t, [b, a])
  {
    var a, b := OneWeiFrom(p, h, t.parentHash), OneWeiFrom(q, h, t.parentHash);
    OneWeiIsAccepted(t, p, h);
    OneWeiIsAccepted(t, q, h);
    FirstOfEqualsWins(t, a, b);
    FirstOfEqualsWins(t, b, a);
  }

  lemma OneWeiIsAccepted(t: Terms, key: string, h: string)
    requires h != NIL_HASH && !t.signatureCheck && t.minBid == 0
    ensures Accepted(t, OneWeiFrom(key, h, t.parentHash)).Some?
    ensures Accepted(t, OneWeiFrom(key, h, t.parentHash)).value.info == BidInfo(h, t.parentHash, key, "", 1)
  {
  }

  lemma FirstOfEqualsWins(t: Terms, a: Arrival, b: Arrival)
    requires Accepted(t, a).Some? && Accepted(t, b).Some?
    requires Ties(Accepted(t, b).value.info, Accepted(t, a).value.info)
    ensures Race(t, [a, b]) == Accepted(t, a)
  {
    hide Accepted;
    BeatsIsATotalOrder(Accepted(t, b).value.info, Accepted(t, a).value.info, Accepted(t, a).value.info);
    PushStep(t, [], a, "");
    PushStep(t, [a], b, "");
    assert [] + [a] == [a] && [a] + [b] == [a, b];
  }

  function OneWeiFrom(key: string, blockHash: string, parentHash: string): Arrival {
    Arrival(RelayEntry(key, "", ""), HttpReply(200, SignedBid(false, Some(blockHash), Some(parentHash), Some(key), Some(""), Some(1))))
  }
}
