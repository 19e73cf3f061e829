/** The relay module: header requests fill a pruned cache of bids, payload requests go to the relays
    the cache names. The cache refines the history of successful header requests. */
module RelayService {

  import opened Bags
  import opened Wrappers
  import opened Slots
  import opened RelayAuction
  import opened PayloadRace

  datatype RelayError = InvalidInput | NoBidReceived | IncompletePayload | NoPayloadReceived

  datatype BidKey = BidKey(slot: Slot, blockHash: string)

  datatype BidResp = BidResp(offer: Offer, relays: seq<RelayEntry>)

  // ---- the cache as a function of the history ----

  /** A successful header request: what was asked, and the replies in the order they arrived. */
  datatype Stored = Stored(slot: Slot, terms: Terms, arrivals: seq<Arrival>)

  ghost predicate Found(e: Stored) {
    Race(e.terms, e.arrivals).Some?
  }

  ghost function KeyOf(e: Stored): BidKey
    requires Found(e)
  {
    BidKey(e.slot, Race(e.terms, e.arrivals).value.info.blockHash)
  }

  ghost function RespOf(e: Stored): BidResp
    requires Found(e)
  {
    BidResp(Race(e.terms, e.arrivals).value, Deliverers(e.terms, e.arrivals, KeyOf(e).blockHash))
  }

  function Pruned(bids: map<BidKey, BidResp>, slot: Slot): map<BidKey, BidResp> {
    map k | k in bids && k.slot >= Floor(slot) :: bids[k]
  }

  ghost function Cache(stores: seq<Stored>): map<BidKey, BidResp>
    requires forall e :: e in stores ==> Found(e)
  {
    if stores == [] then map[]
    else
      var e := stores[|stores| - 1];
      Pruned(Cache(stores[..|stores| - 1])[KeyOf(e) := RespOf(e)], e.slot)
  }

  ghost predicate IsLastStore(stores: seq<Stored>, key: BidKey, i: nat)
    requires forall e :: e in stores ==> Found(e)
  {
    && i < |stores|
    && KeyOf(stores[i]) == key
    && forall j :: i < j < |stores| ==> KeyOf(stores[j]) != key
  }

  /** No successful request from store i onward, itself included, put the slot out of the window. */
  ghost predicate StaysInWindow(stores: seq<Stored>, slot: Slot, i: nat) {
    forall j :: i <= j < |stores| ==> slot >= Floor(stores[j].slot)
  }

  /** A key maps to its last stored result, and does so exactly while that store stays in the window. */
  lemma {:induction false} CacheRefinesHistory(stores: seq<Stored>, key: BidKey)
    requires forall e :: e in stores ==> Found(e)
    ensures key in Cache(stores) <==> exists i: nat :: IsLastStore(stores, key, i) && StaysInWindow(stores, key.slot, i)
    ensures forall i: nat :: IsLastStore(stores, key, i) && key in Cache(stores) ==> Cache(stores)[key] == RespOf(stores[i])
  {
    hide Found, KeyOf, RespOf, Floor;
    if stores != [] {
      var n := |stores| - 1;
      var init, e := stores[..n], stores[n];
      assert e in stores && forall x :: x in init ==> x in stores;
      if KeyOf(e) == key {
        assert IsLastStore(stores, key, n);
        assert forall i: nat :: IsLastStore(stores, key, i) ==> i == n;
      } else {
        CacheRefinesHistory(init, key);
        assert key in Cache(stores) <==> key in Cache(init) && key.slot >= Floor(e.slot);
        OtherStoresCount(stores, key);
        hide Cache, IsLastStore;
        forall i: nat
          ensures IsLastStore(init, key, i) ==>
            (StaysInWindow(stores, key.slot, i) <==> StaysInWindow(init, key.slot, i) && key.slot >= Floor(e.slot))
        {
          LastStoreIsInside(init, key, i);
          OneMoreInWindow(stores, key.slot, i);
        }
      }
    }
  }

  lemma LastStoreIsInside(stores: seq<Stored>, key: BidKey, i: nat)
    requires forall e :: e in stores ==> Found(e)
    ensures IsLastStore(stores, key, i) ==> i < |stores|
  {
  }

  lemma OneMoreInWindow(stores: seq<Stored>, slot: Slot, i: nat)
    requires stores != []
    ensures i < |stores| ==>
      (StaysInWindow(stores, slot, i)
       <==> StaysInWindow(stores[..|stores| - 1], slot, i) && slot >= Floor(stores[|stores| - 1].slot))
  {
    var n := |stores| - 1;
    assert forall j :: 0 <= j < n ==> stores[..n][j] == stores[j];
    if i < |stores| && StaysInWindow(stores, slot, i) {
      assert slot >= Floor(stores[n].slot);
    }
  }

  lemma OtherStoresCount(stores: seq<Stored>, key: BidKey)
    requires forall e :: e in stores ==> Found(e)
    requires stores != [] && KeyOf(stores[|stores| - 1]) != key
    ensures forall e :: e in stores[..|stores| - 1] ==> Found(e)
    ensures forall i: nat :: IsLastStore(stores, key, i) <==> IsLastStore(stores[..|stores| - 1], key, i)
  {
    hide Found, KeyOf;
    var n := |stores| - 1;
    forall i: nat
      ensures IsLastStore(stores, key, i) <==> IsLastStore(stores[..n], key, i)
    {
      assert forall j :: 0 <= j < n ==> stores[..n][j] == stores[j];
    }
  }

  /** In slots: from slot 64 on, staying in the window means no later request more than 64 slots ahead. */
  lemma WindowInSlots(stores: seq<Stored>, slot: Slot, i: nat)
    requires forall j :: i <= j < |stores| ==> stores[j].slot >= 64
    ensures StaysInWindow(stores, slot, i) <==> forall j :: i <= j < |stores| ==> stores[j].slot <= slot + 64
  {
    forall j | i <= j < |stores|
      ensures slot >= Floor(stores[j].slot) <==> stores[j].slot <= slot + 64
    {
      FloorWraps(stores[j].slot, 0);
    }
  }

  /** Below slot 64 the bound wraps: the bid that was just stored is gone again. */
  lemma EarlyBidsAreLost(stores: seq<Stored>, e: Stored)
    requires (forall x :: x in stores ==> Found(x)) && Found(e) && e.slot < 64
    ensures forall x :: x in stores + [e] ==> Found(x)
    ensures KeyOf(e) !in Cache(stores + [e])
  {
    assert (stores + [e])[..|stores|] == stores;
    FloorWraps(e.slot, e.slot);
  }

  /** Who is asked for the payload: for every order in which the replies may have arrived, the same
      relays, each as often as it delivered a bid with this hash that passes every check, and at
      least one. */
  lemma CachedRelaysAreTheDeliverers(e: Stored, order: seq<Arrival>, relay: RelayEntry)
    requires Found(e) && multiset(order) == multiset(e.arrivals)
    ensures multiset(RespOf(e).relays) == multiset(Deliverers(e.terms, order, KeyOf(e).blockHash))
    ensures relay in RespOf(e).relays <==>
      exists a :: a in e.arrivals && a.relay == relay && DeliversBid(e.terms, a, KeyOf(e).blockHash)
    ensures RespOf(e).relays != []
  {
    hide DeliversBid;
    var h := KeyOf(e).blockHash;
    AuctionIsConfluent(e.terms, e.arrivals, order);
    DelivererDelivered(e.terms, e.arrivals, h, relay);
    var a := LeadingArrival(e.terms, e.arrivals);
    AcceptedBidIsSound(e.terms, a, h);
    DelivererDelivered(e.terms, e.arrivals, h, a.relay);
  }

  // ---- one header request ----

  /** What the goroutines of a header request share, under its mutex. */
  class Auction {
    const terms: Terms
    var result: Option<Offer>
    var relaysMap: map<string, seq<RelayEntry>>
    ghost var arrivals: seq<Arrival>

    ghost predicate Valid()
      reads this
    {
      && result == Race(terms, arrivals)
      && forall h :: RelaysFor(relaysMap, h) == Deliverers(terms, arrivals, h)
    }

    constructor (terms: Terms)
      ensures Valid() && this.terms == terms && arrivals == []
    {
      this.terms := terms;
      result, relaysMap, arrivals := None, map[], [];
    }

    method RequestRelayHeader(relay: RelayEntry, reply: Reply)
      requires Valid()
      modifies this
      ensures Valid() && arrivals == old(arrivals) + [Arrival(relay, reply)]
    {
      ghost var a := Arrival(relay, reply);
      forall h {
        PushStep(terms, arrivals, a, h);
      }
      hide Accepted, Beats, Race, Deliverers;
      var offer := Accepted(terms, Arrival(relay, reply));
      arrivals := arrivals + [a];
      if offer.None? {
        return;
      }
      var h := offer.value.info.blockHash;
      relaysMap := relaysMap[h := RelaysFor(relaysMap, h) + [relay]];
      if result.Some? && !Beats(offer.value.info, result.value.info) {
        return;
      }
      result := offer;
    }
  }

  function RelaysFor(relaysMap: map<string, seq<RelayEntry>>, h: string): seq<RelayEntry> {
    if h in relaysMap then relaysMap[h] else []
  }

  // ---- one payload request ----

  /** The payload relay number i delivers within the allowed attempts; attempt k gives answers(i, k). */
  function Delivers(answers: (nat, nat) -> Option<Payload>, i: nat, maxRetries: int, from: nat := 0): Option<Payload>
    decreases maxRetries - from
  {
    if from >= maxRetries then None
    else if answers(i, from).Some? then answers(i, from)
    else Delivers(answers, i, maxRetries, from + 1)
  }

  /** Attempt k of relay i is the first that gets an answer, and the answer is p. */
  ghost predicate SentAt(answers: (nat, nat) -> Option<Payload>, i: nat, maxRetries: int, k: nat, p: Payload) {
    k < maxRetries && answers(i, k) == Some(p) && forall j: nat :: j < k ==> answers(i, j).None?
  }

  /** Relay i sends p, within the allowed attempts, and p is a payload of the block. */
  ghost predicate Serves(answers: (nat, nat) -> Option<Payload>, i: nat, maxRetries: int, roots: Roots, block: Block, p: Payload) {
    (exists k: nat :: SentAt(answers, i, maxRetries, k, p)) && IsPayloadOf(roots, block, p)
  }

  lemma {:induction false} DeliversTheFirst(answers: (nat, nat) -> Option<Payload>, i: nat, maxRetries: int, from: nat)
    requires forall j: nat :: j < from ==> answers(i, j).None?
    ensures forall p :: Delivers(answers, i, maxRetries, from) == Some(p) <==> exists k: nat :: SentAt(answers, i, maxRetries, k, p)
    decreases maxRetries - from
  {
    if from < maxRetries {
      if answers(i, from).None? {
        DeliversTheFirst(answers, i, maxRetries, from + 1);
      } else {
        assert SentAt(answers, i, maxRetries, from, answers(i, from).value);
      }
    }
  }

  lemma ServesIff(answers: (nat, nat) -> Option<Payload>, i: nat, maxRetries: int, roots: Roots, block: Block)
    ensures forall p ::
      Serves(answers, i, maxRetries, roots, block, p) <==> Delivers(answers, i, maxRetries) == Some(p) && Verified(roots, block, p)
  {
    DeliversTheFirst(answers, i, maxRetries, 0);
    forall p
      ensures Verified(roots, block, p) <==> IsPayloadOf(roots, block, p)
    {
      VerifiedIff(roots, block, p);
    }
  }

  /** The result and the context that the goroutines of a payload request share. */
  class PayloadRequest {
    var result: Option<Payload>
    var canceled: bool

    constructor ()
      ensures result.None? && !canceled
    {
      result, canceled := None, false;
    }

    /** `requestRelayPayload`: the retry loop, the checks, and the critical section, in which the payload of
        the block that the relay has sent becomes the result, unless there is one or the context has ended. */
    method RequestRelayPayload(roots: Roots, block: Block, maxRetries: int, i: nat, answers: (nat, nat) -> Option<Payload>)
      modifies this
      ensures old(canceled) || (forall p :: !Serves(answers, i, maxRetries, roots, block, p)) ==> unchanged(this)
      ensures forall p :: Serves(answers, i, maxRetries, roots, block, p) && !old(canceled) ==>
        canceled && result == if old(result).Some? then old(result) else Some(p)
    {
      hide Serves, Verified;
      ServesIff(answers, i, maxRetries, roots, block);
      var payload: Option<Payload> := None;
      var attempts := 1;
      while attempts <= maxRetries && payload.None?
        invariant 1 <= attempts
        invariant payload.None? ==> Delivers(answers, i, maxRetries) == Delivers(answers, i, maxRetries, attempts - 1)
        invariant payload.Some? ==> payload == Delivers(answers, i, maxRetries)
        invariant unchanged(this)
      {
        payload := answers(i, attempts - 1);
        attempts := attempts + 1;
      }
      if payload.None? || !Verified(roots, block, payload.value) {
        return;
      }
      if canceled {
        return;
      }
      canceled := true;
      if result.Some? {
        return;
      }
      result := payload;
    }
  }

  // ---- the service ----

  const PUBKEY_LENGTH: nat := 98
  const HASH_LENGTH: nat := 66

  /** The replies of all relays in the order of the configuration. */
  function AllArrivals(relays: seq<RelayEntry>, replies: seq<Reply>): (s: seq<Arrival>)
    requires |relays| == |replies|
    ensures |s| == |relays| && forall i :: 0 <= i < |relays| ==> s[i].relay == relays[i] && s[i].reply == replies[i]
  {
    seq(|relays|, i requires 0 <= i < |relays| => Arrival(relays[i], replies[i]))
  }

  class RelayService {
    const relays: seq<RelayEntry>
    const minBid: nat
    const signatureCheck: bool
    const verify: (TopThree.SignedBid, RelayEntry) -> Option<bool>
    const roots: Roots
    const maxRetries: int
    var bids: map<BidKey, BidResp>
    ghost var stores: seq<Stored>
    ghost var asked: multiset<RelayEntry>   // the relays the last payload request was sent to

    ghost predicate Valid()
      reads this
    {
      && (forall e :: e in stores ==> Found(e))
      && bids == Cache(stores)
    }

    constructor (relays: seq<RelayEntry>, minBid: nat, signatureCheck: bool,
                 verify: (TopThree.SignedBid, RelayEntry) -> Option<bool>, roots: Roots, maxRetries: int)
      ensures Valid() && bids == map[] && stores == [] && asked == multiset{}
      ensures this.relays == relays && this.minBid == minBid && this.signatureCheck == signatureCheck
      ensures this.verify == verify && this.roots == roots && this.maxRetries == maxRetries
    {
      this.relays, this.minBid, this.signatureCheck := relays, minBid, signatureCheck;
      this.verify, this.roots, this.maxRetries := verify, roots, maxRetries;
      bids, stores, asked := map[], [], multiset{};
    }

    /** A header request returns the best accepted bid, with the relays that delivered it, whatever
        the order of arrival; and it is stored under its slot and hash. */
    method ProcessGetHeader(slot: Slot, parentHash: string, pubkey: string, replies: seq<Reply>)
      returns (r: Result<BidResp, RelayError>)
      requires Valid() && |replies| == |relays|
      modifies this
      ensures Valid() && asked == old(asked)
      ensures var t := Terms(parentHash, minBid, signatureCheck, verify);
        var all := AllArrivals(relays, replies);
        var invalid := |pubkey| != 98 || |parentHash| != 66;
        && (invalid ==> r == Failure(InvalidInput))
        && (!invalid && Race(t, all).None? ==> r == Failure(NoBidReceived))
        && (r == Failure(NoBidReceived) <==> !invalid && forall a, h :: a in all ==> !DeliversBid(t, a, h))
        && (r.Failure? ==> stores == old(stores))
        && (!invalid && Race(t, all).Some? ==>
              && r.Success?
              && (exists order :: multiset(order) == multiset(all) && stores == old(stores) + [Stored(slot, t, order)])
              && r.value == RespOf(stores[|stores| - 1])
              && Ties(r.value.offer.info, Race(t, all).value.info)
              && IsBestBid(t, all, r.value.offer)
              && multiset(r.value.relays) == multiset(Deliverers(t, all, r.value.offer.info.blockHash)))
    {
      hide Race, Deliverers, Ties, DeliversBid, IsBestBid, Found, KeyOf, RespOf, Cache;
      if |pubkey| != PUBKEY_LENGTH || |parentHash| != HASH_LENGTH {
        return Failure(InvalidInput);
      }
      var t := Terms(parentHash, minBid, signatureCheck, verify);
      var auction := RunAuction(t, relays, replies);
      ghost var all := AllArrivals(relays, replies);
      AuctionIsDecided(t, auction.arrivals, all);
      AuctionResult(auction);
      if auction.result.None? {
        return Failure(NoBidReceived);
      }
      var offer := auction.result.value;
      var resp := BidResp(offer, RelaysFor(auction.relaysMap, offer.info.blockHash));
      ghost var e := Stored(slot, t, auction.arrivals);
      StoredIs(e);
      CachePush(stores, e);
      stores := stores + [e];
      bids := bids[BidKey(slot, offer.info.blockHash) := resp];
      PruneOldBids(slot);
      return Success(resp);
    }

    method PruneOldBids(slot: Slot)
      modifies this`bids
      ensures bids == Pruned(old(bids), slot)
    {
      var keys := bids.Keys;
      while keys != {}
        invariant keys <= bids.Keys <= old(bids).Keys
        invariant forall k :: k in old(bids) && k !in keys ==> (k in bids <==> k.slot >= Floor(slot))
        invariant forall k :: k in bids ==> bids[k] == old(bids)[k]
        decreases |keys|
      {
        var k :| k in keys;
        if k.slot < Floor(slot) {
          bids := bids - {k};
        }
        keys := keys - {k};
      }
    }

    /** A payload request goes to exactly the relays the cache has for the block, and succeeds if and
        only if one of them sends a payload of the block; such a payload is returned. */
    method ProcessGetPayload(slot: Slot, block: Option<Block>, answers: (nat, nat) -> Option<Payload>)
      returns (r: Result<Payload, RelayError>)
      requires Valid()
      modifies this`asked
      ensures block.None? ==> r == Failure(IncompletePayload) && asked == multiset{}
      ensures block.Some? ==>
        var key := BidKey(slot, block.value.blockHash);
        if key !in bids then r == Failure(NoBidReceived) && asked == multiset{}
        else
          && asked == multiset(bids[key].relays)
          && (r.Success? ==> exists i: nat :: i < |bids[key].relays| && Serves(answers, i, maxRetries, roots, block.value, r.value))
          && (r.Failure? ==> r.error == NoPayloadReceived)
          && (r.Failure? ==> forall i: nat, p :: i < |bids[key].relays| ==> !Serves(answers, i, maxRetries, roots, block.value, p))
    {
      asked := multiset{};
      if block.None? {
        return Failure(IncompletePayload);
      }
      var key := BidKey(slot, block.value.blockHash);
      if key !in bids {
        return Failure(NoBidReceived);
      }
      var result;
      result, asked := AskAll(bids[key].relays, roots, block.value, maxRetries, answers);
      if result.None? {
        return Failure(NoPayloadReceived);
      }
      return Success(result.value);
    }
  }

  function At(relays: seq<RelayEntry>, positions: seq<nat>): seq<RelayEntry>
    requires forall k :: 0 <= k < |positions| ==> positions[k] < |relays|
  {
    seq(|positions|, k requires 0 <= k < |positions| => relays[positions[k]])
  }

  lemma AtCut(relays: seq<RelayEntry>, positions: seq<nat>, k: nat)
    requires k < |positions| && forall j :: 0 <= j < |positions| ==> positions[j] < |relays|
    ensures multiset(At(relays, positions)) == multiset(At(relays, Cut(positions, k))) + multiset{relays[positions[k]]}
    ensures forall j :: j in positions <==> j in Cut(positions, k) || j == positions[k]
  {
    CutCounts(At(relays, positions), k);
    assert At(relays, Cut(positions, k)) == Cut(At(relays, positions), k);
    CutCounts(positions, k);
    assert forall j :: j in positions <==> j in multiset(positions);
  }

  /** The goroutines of a payload request, one per relay, in whatever order they finish. */
  method AskAll(targets: seq<RelayEntry>, roots: Roots, block: Block, maxRetries: int, answers: (nat, nat) -> Option<Payload>)
    returns (result: Option<Payload>, ghost asked: multiset<RelayEntry>)
    ensures asked == multiset(targets)
    ensures result.Some? ==> exists i: nat :: i < |targets| && Serves(answers, i, maxRetries, roots, block, result.value)
    ensures result.None? ==> forall i: nat, p :: i < |targets| ==> !Serves(answers, i, maxRetries, roots, block, p)
  {
    hide Verified, Delivers, Serves;
    var request := new PayloadRequest();
    var todo: seq<nat> := seq(|targets|, i => i);
    asked := multiset{};
    assert At(targets, todo) == targets && multiset{} + multiset(targets) == multiset(targets);
    forall i: nat | i < |targets|
      ensures i in todo
    {
      assert todo[i] == i;
    }
    while todo != []
      invariant forall k :: 0 <= k < |todo| ==> todo[k] < |targets|
      invariant asked + multiset(At(targets, todo)) == multiset(targets)
      invariant request.canceled <==> request.result.Some?
      invariant request.result.None? ==>
        (forall i: nat, p :: i < |targets| && i !in todo ==> !Serves(answers, i, maxRetries, roots, block, p))
      invariant request.result.Some? ==>
        (exists i: nat :: i < |targets| && Serves(answers, i, maxRetries, roots, block, request.result.value))
      decreases |todo|
    {
      var k :| 0 <= k < |todo|;
      AtCut(targets, todo, k);
      asked := asked + multiset{targets[todo[k]]};
      ghost var before := request.result;
      request.RequestRelayPayload(roots, block, maxRetries, todo[k], answers);
      assert request.result == before || Serves(answers, todo[k], maxRetries, roots, block, request.result.value);
      forall i: nat, p | request.result.None? && i < |targets| && i !in Cut(todo, k)
        ensures !Serves(answers, i, maxRetries, roots, block, p)
      {
        assert i == todo[k] || i !in todo;
      }
      todo := Cut(todo, k);
    }
    result := request.result;
  }

  /** In whatever order the replies came: the same winning value and hash, and it is the best bid of all. */
  lemma AuctionIsDecided(t: Terms, order: seq<Arrival>, all: seq<Arrival>)
    requires multiset(order) == multiset(all)
    ensures Race(t, order).Some? <==> Race(t, all).Some?
    ensures Race(t, all).None? <==> forall a, h :: a in all ==> !DeliversBid(t, a, h)
    ensures Race(t, order).Some? ==>
      var o := Race(t, order).value;
      && Ties(o.info, Race(t, all).value.info)
      && IsBestBid(t, all, o)
      && multiset(Deliverers(t, order, o.info.blockHash)) == multiset(Deliverers(t, all, o.info.blockHash))
  {
    hide Race, Deliverers, DeliversBid, IsBestBid;
    AuctionIsConfluent(t, order, all);
    RaceFindsTheMaximum(t, all);
    RaceFindsTheMaximum(t, order);
    BestInAnyOrder(t, order, all);
    if Race(t, order).Some? {
      TiesMeans(Race(t, order).value.info, Race(t, all).value.info);
    }
  }

  lemma AuctionResult(auction: Auction)
    requires auction.Valid()
    ensures auction.result == Race(auction.terms, auction.arrivals)
    ensures forall h :: RelaysFor(auction.relaysMap, h) == Deliverers(auction.terms, auction.arrivals, h)
  {
  }

  lemma StoredIs(e: Stored)
    ensures Found(e) <==> Race(e.terms, e.arrivals).Some?
    ensures Found(e) ==>
      var o := Race(e.terms, e.arrivals).value;
      && KeyOf(e) == BidKey(e.slot, o.info.blockHash)
      && RespOf(e) == BidResp(o, Deliverers(e.terms, e.arrivals, o.info.blockHash))
  {
  }

  lemma CachePush(stores: seq<Stored>, e: Stored)
    requires (forall x :: x in stores ==> Found(x)) && Found(e)
    ensures Cache(stores + [e]) == Pruned(Cache(stores)[KeyOf(e) := RespOf(e)], e.slot)
  {
    assert (stores + [e])[..|stores|] == stores;
  }

  lemma BestInAnyOrder(t: Terms, order: seq<Arrival>, all: seq<Arrival>)
    requires multiset(order) == multiset(all)
    ensures forall o :: IsBestBid(t, order, o) ==> IsBestBid(t, all, o)
  {
    assert forall a :: a in order <==> a in multiset(all);
    assert forall a :: a in order <==> a in all;
    hide DeliversBid, IsOfferOf;
  }

  /** The goroutines of a header request, in whatever order their replies come in. */
  method RunAuction(t: Terms, relays: seq<RelayEntry>, replies: seq<Reply>) returns (auction: Auction)
    requires |relays| == |replies|
    ensures fresh(auction) && auction.Valid() && auction.terms == t
    ensures multiset(auction.arrivals) == multiset(AllArrivals(relays, replies))
  {
    auction := new Auction(t);
    var todo := AllArrivals(relays, replies);
    while todo != []
      invariant auction.Valid() && fresh(auction) && auction.terms == t
      invariant multiset(auction.arrivals) + multiset(todo) == multiset(AllArrivals(relays, replies))
      decreases |todo|
    {
      var i :| 0 <= i < |todo|;
      CutCounts(todo, i);
      auction.RequestRelayHeader(todo[i].relay, todo[i].reply);
      todo := Cut(todo, i);
    }
  }
}
