/** The aggregator: collecting headers from all block sources through one bounded channel, turning
    them into stored headers, and choosing the source to ask for the payload. */
module BlockAggregator {

  import opened Bags
  import opened Wrappers
  import opened Slots
  import opened TopThree
  import opened AggregatorData
  import JsonRpc

  // ---- the collector ----

  /** What a source pushes: its index and a bid. */
  datatype Push = Push(source: nat, bid: SignedBid)

  /** The goroutines of one header request: what each source still has to push, and the channel. */
  datatype Collector = Collector(todo: seq<seq<SignedBid>>, channel: seq<Push>)

  /** The channel has one place per connected source. */
  function Capacity(c: Collector): nat {
    |c.todo|
  }

  predicate CanStep(c: Collector, i: nat) {
    i < |c.todo| && c.todo[i] != [] && (c.todo[i][0].empty || |c.channel| < Capacity(c))
  }

  /** Source i skips an empty header or pushes a header; a push blocks while the channel is full. */
  function Step(c: Collector, i: nat): Collector
    requires CanStep(c, i)
  {
    var bid := c.todo[i][0];
    Collector(c.todo[i := c.todo[i][1..]], if bid.empty then c.channel else c.channel + [Push(i, bid)])
  }

  /** All goroutines have returned: the wait group lets the request go on and drain the channel. */
  predicate AllReturned(c: Collector) {
    forall i :: 0 <= i < |c.todo| ==> c.todo[i] == []
  }

  ghost predicate LegalSteps(c: Collector, steps: seq<nat>)
    decreases |steps|
  {
    steps == [] || (CanStep(c, steps[0]) && LegalSteps(Step(c, steps[0]), steps[1..]))
  }

  ghost function RunSteps(c: Collector, steps: seq<nat>): Collector
    requires LegalSteps(c, steps)
    decreases |steps|
  {
    if steps == [] then c else RunSteps(Step(c, steps[0]), steps[1..])
  }

  /** The headers source i still has to push. */
  function NonEmpty(i: nat, bids: seq<SignedBid>): multiset<Push> {
    if bids == [] then multiset{}
    else (if bids[0].empty then multiset{} else multiset{Push(i, bids[0])}) + NonEmpty(i, bids[1..])
  }

  function Outstanding(todo: seq<seq<SignedBid>>): multiset<Push> {
    if todo == [] then multiset{}
    else Outstanding(todo[..|todo| - 1]) + NonEmpty(|todo| - 1, todo[|todo| - 1])
  }

  lemma {:induction false} OutstandingUpdate(todo: seq<seq<SignedBid>>, i: nat, bids: seq<SignedBid>)
    requires i < |todo|
    ensures Outstanding(todo[i := bids]) + NonEmpty(i, todo[i]) == Outstanding(todo) + NonEmpty(i, bids)
  {
    var n, updated := |todo| - 1, todo[i := bids];
    assert Outstanding(todo) == Outstanding(todo[..n]) + NonEmpty(n, todo[n]);
    assert Outstanding(updated) == Outstanding(updated[..n]) + NonEmpty(n, updated[n]);
    if i == n {
      assert updated[..n] == todo[..n];
    } else {
      assert updated[..n] == todo[..n][i := bids];
      OutstandingUpdate(todo[..n], i, bids);
      assert todo[..n][i] == todo[i];
      hide Outstanding, NonEmpty;
      AddBoth(Outstanding(updated[..n]), NonEmpty(i, todo[i]), Outstanding(todo[..n]), NonEmpty(i, bids), NonEmpty(n, todo[n]));
    }
  }

  lemma PushCounts(channel: multiset<Push>, p: Push, left: multiset<Push>, mine: multiset<Push>, before: multiset<Push>)
    requires left + (multiset{p} + mine) == before + mine
    ensures channel + multiset{p} + left == channel + before
  {
    forall x
      ensures (channel + multiset{p} + left)[x] == (channel + before)[x]
    {
      assert (left + (multiset{p} + mine))[x] == (before + mine)[x];
    }
  }

  /** No header is lost, invented or duplicated by a step. */
  lemma StepConserves(c: Collector, i: nat)
    requires CanStep(c, i)
    ensures multiset(Step(c, i).channel) + Outstanding(Step(c, i).todo) == multiset(c.channel) + Outstanding(c.todo)
    ensures Capacity(Step(c, i)) == Capacity(c)
    ensures |c.channel| <= Capacity(c) ==> |Step(c, i).channel| <= Capacity(c)
  {
    var bid, rest := c.todo[i][0], c.todo[i][1..];
    OutstandingUpdate(c.todo, i, rest);
    assert NonEmpty(i, c.todo[i]) == (if bid.empty then multiset{} else multiset{Push(i, bid)}) + NonEmpty(i, rest);
    hide NonEmpty, Outstanding;
    if bid.empty {
      assert multiset{} + NonEmpty(i, rest) == NonEmpty(i, rest);
      Cancel(Outstanding(c.todo[i := rest]), Outstanding(c.todo), NonEmpty(i, rest));
    } else {
      PushCounts(multiset(c.channel), Push(i, bid), Outstanding(c.todo[i := rest]), NonEmpty(i, rest), Outstanding(c.todo));
    }
  }

  lemma {:induction false} RunConserves(c: Collector, steps: seq<nat>)
    requires LegalSteps(c, steps) && |c.channel| <= Capacity(c)
    ensures var c' := RunSteps(c, steps);
      && multiset(c'.channel) + Outstanding(c'.todo) == multiset(c.channel) + Outstanding(c.todo)
      && Capacity(c') == Capacity(c)
      && |c'.channel| <= Capacity(c)
    decreases |steps|
  {
    if steps != [] {
      StepConserves(c, steps[0]);
      RunConserves(Step(c, steps[0]), steps[1..]);
    }
  }

  lemma {:induction false} ReturnedMeansNothingOutstanding(todo: seq<seq<SignedBid>>)
    requires forall i :: 0 <= i < |todo| ==> todo[i] == []
    ensures Outstanding(todo) == multiset{}
  {
    if todo != [] {
      ReturnedMeansNothingOutstanding(todo[..|todo| - 1]);
    }
  }

  lemma {:induction false} NonEmptyBound(todo: seq<seq<SignedBid>>, i: nat)
    requires i < |todo|
    ensures NonEmpty(i, todo[i]) <= Outstanding(todo)
  {
    if i < |todo| - 1 {
      NonEmptyBound(todo[..|todo| - 1], i);
    }
  }

  /** With room for all outstanding headers, some goroutine can always go on. */
  lemma CollectorProgress(c: Collector) returns (i: nat)
    requires !AllReturned(c) && |c.channel| + |Outstanding(c.todo)| <= Capacity(c)
    ensures CanStep(c, i)
  {
    i :| 0 <= i < |c.todo| && c.todo[i] != [];
    if !c.todo[i][0].empty {
      NonEmptyBound(c.todo, i);
      assert Push(i, c.todo[i][0]) in Outstanding(c.todo);
      assert |Outstanding(c.todo)| > 0;
    }
  }

  function Length(todo: seq<seq<SignedBid>>): nat {
    if todo == [] then 0 else Length(todo[..|todo| - 1]) + |todo[|todo| - 1]|
  }

  lemma {:induction false} LengthUpdate(todo: seq<seq<SignedBid>>, i: nat, bids: seq<SignedBid>)
    requires i < |todo|
    ensures Length(todo[i := bids]) + |todo[i]| == Length(todo) + |bids|
  {
    var n := |todo| - 1;
    if i == n {
      assert todo[i := bids][..n] == todo[..n];
    } else {
      LengthUpdate(todo[..n], i, bids);
      assert todo[i := bids][..n] == todo[..n][i := bids];
    }
  }

  lemma {:induction false} CollectorFinishes(c: Collector) returns (steps: seq<nat>)
    requires |c.channel| + |Outstanding(c.todo)| <= Capacity(c)
    ensures LegalSteps(c, steps) && AllReturned(RunSteps(c, steps))
    decreases Length(c.todo)
  {
    if AllReturned(c) {
      steps := [];
    } else {
      var i := CollectorProgress(c);
      StepConserves(c, i);
      LengthUpdate(c.todo, i, c.todo[i][1..]);
      assert |multiset(Step(c, i).channel) + Outstanding(Step(c, i).todo)| == |multiset(c.channel) + Outstanding(c.todo)|;
      var rest := CollectorFinishes(Step(c, i));
      steps := [i] + rest;
      assert steps[1..] == rest;
    }
  }

  /** Every way the goroutines may interleave: if all of them return, the channel holds exactly the
      non-empty headers of all sources. If there are at most as many of those as connected sources,
      no interleaving ever gets stuck before that. */
  lemma CollectorIsComplete(responses: seq<seq<SignedBid>>, steps: seq<nat>)
    requires LegalSteps(Collector(responses, []), steps)
    ensures var c := RunSteps(Collector(responses, []), steps);
      && (AllReturned(c) ==> multiset(c.channel) == Outstanding(responses))
      && (|Outstanding(responses)| <= |responses| && !AllReturned(c) ==> exists i :: CanStep(c, i))
  {
    var c := RunSteps(Collector(responses, []), steps);
    RunConserves(Collector(responses, []), steps);
    if AllReturned(c) {
      ReturnedMeansNothingOutstanding(c.todo);
      assert multiset(c.channel) + Outstanding(c.todo) == Outstanding(responses);
    } else if |Outstanding(responses)| <= |responses| {
      assert |multiset(c.channel) + Outstanding(c.todo)| == |Outstanding(responses)|;
      var i := CollectorProgress(c);
    }
  }

  /** An interleaving in which all goroutines return. */
  ghost predicate Finishes(responses: seq<seq<SignedBid>>, steps: seq<nat>) {
    LegalSteps(Collector(responses, []), steps) && AllReturned(RunSteps(Collector(responses, []), steps))
  }

  /** The request can get past its wait group if and only if the sources together return at most as
      many non-empty headers as there are sources. One header more, and it waits for ever. */
  lemma CollectorReturnsIff(responses: seq<seq<SignedBid>>)
    ensures (exists steps :: Finishes(responses, steps)) <==> |Outstanding(responses)| <= |responses|
  {
    var c := Collector(responses, []);
    if |Outstanding(responses)| <= |responses| {
      var steps := CollectorFinishes(c);
      assert Finishes(responses, steps);
    }
    forall steps | Finishes(responses, steps)
      ensures |Outstanding(responses)| <= |responses|
    {
      var end := RunSteps(c, steps);
      RunConserves(c, steps);
      ReturnedMeansNothingOutstanding(end.todo);
      assert multiset(end.channel) + Outstanding(end.todo) == Outstanding(responses);
      assert |multiset(end.channel)| == |end.channel|;
    }
  }

  /** One source with two headers is enough. */
  lemma TwoHeadersBlock(a: SignedBid, b: SignedBid)
    requires !a.empty && !b.empty
    ensures !exists steps :: Finishes([[a, b]], steps)
  {
    CollectorReturnsIff([[a, b]]);
    assert [a, b][1..] == [b] && [b][1..] == [];
    assert NonEmpty(0, [b]) == multiset{Push(0, b)};
    assert NonEmpty(0, [a, b]) == multiset{Push(0, a), Push(0, b)};
    assert Outstanding([[a, b]][..0]) == multiset{};
  }

  // ---- bids become stored headers ----

  predicate WellFormed(bid: SignedBid) {
    bid.value.Some? && bid.blockHash.Some?
  }

  function HeaderOf(name: string, slot: nat, bid: SignedBid): SlotHeader
    requires WellFormed(bid)
  {
    SlotHeader(name, slot, bid.value.value, bid.blockHash.value, bid)
  }

  /** The header is that of this bid: its module and slot, and the bid's own value and hash. */
  predicate IsHeaderOf(h: SlotHeader, name: string, slot: nat, bid: SignedBid) {
    && h.moduleName == name && h.slot == slot && h.bid == bid
    && bid.value.Some? && h.value == bid.value.value
    && bid.blockHash == Some(h.blockHash)
  }

  /** A bid is stored under its slot with its own value and hash, or refused without any change. */
  method ProcessNewBid(data: AggregatorData, name: string, slot: Slot, bid: SignedBid) returns (r: Result<(), string>)
    requires data.Valid()
    modifies data
    ensures data.Valid()
    ensures r.Success? <==> bid.value.Some? && bid.blockHash.Some? && slot >= old(data.lastSlot)
    ensures r.Success? ==> data.history == old(data.history) + [HeaderOf(name, slot, bid)] && data.lastSlot == slot
    ensures r.Success? ==> IsHeaderOf(data.history[|data.history| - 1], name, slot, bid)
    ensures r.Failure? ==> data.history == old(data.history) && data.lastSlot == old(data.lastSlot)
  {
    if bid.value.None? {
      return Failure("no value");
    }
    if bid.blockHash.None? {
      return Failure("no block hash");
    }
    r := data.AddSlotHeader(SlotHeader(name, slot, bid.value.value, bid.blockHash.value, bid));
  }

  /** The history after other requests have offered headers: one that is too old is refused. */
  function AfterOthers(history: seq<SlotHeader>, offered: seq<SlotHeader>): seq<SlotHeader>
    decreases |offered|
  {
    if offered == [] then history
    else AfterOthers(if offered[0].slot < LastSlotOf(history) then history else history + [offered[0]], offered[1..])
  }

  /** The history after a request has stored its first n bids, when other requests store headers before
      each of them; None when one of its own bids is malformed or has become too old. */
  function AfterBids(history: seq<SlotHeader>, sources: seq<string>, slot: nat, pushed: seq<Push>,
                     others: seq<seq<SlotHeader>>, n: nat): Option<seq<SlotHeader>>
    requires n <= |pushed| <= |others|
    requires forall k :: 0 <= k < |pushed| ==> pushed[k].source < |sources|
  {
    if n == 0 then Some(history)
    else
      var before := AfterBids(history, sources, slot, pushed, others, n - 1);
      var p := pushed[n - 1];
      if before.None? then None
      else
        var now := AfterOthers(before.value, others[n - 1]);
        if !WellFormed(p.bid) || slot < LastSlotOf(now) then None
        else Some(now + [HeaderOf(sources[p.source], slot, p.bid)])
  }

  lemma {:induction false} OthersOnlyExtend(history: seq<SlotHeader>, offered: seq<SlotHeader>)
    ensures history <= AfterOthers(history, offered)
    ensures LastSlotOf(history) <= LastSlotOf(AfterOthers(history, offered))
    ensures forall h :: h in AfterOthers(history, offered) ==> h in history || h in offered
    decreases |offered|
  {
    if offered != [] {
      var next := if offered[0].slot < LastSlotOf(history) then history else history + [offered[0]];
      OthersOnlyExtend(next, offered[1..]);
      assert offered == [offered[0]] + offered[1..];
    }
  }

  /** Without other requests, a request whose bids are well-formed stores exactly them unless its slot
      is older than the last one. */
  lemma {:induction false} UndisturbedBids(history: seq<SlotHeader>, sources: seq<string>, slot: nat, pushed: seq<Push>,
                                           others: seq<seq<SlotHeader>>, n: nat)
    requires n <= |pushed| <= |others| && forall k :: 0 <= k < |pushed| ==> pushed[k].source < |sources|
    requires forall k :: 0 <= k < |others| ==> others[k] == []
    requires forall k :: 0 <= k < n ==> pushed[k].bid.value.Some? && pushed[k].bid.blockHash.Some?
    requires LastSlotOf(history) <= slot
    ensures var r := AfterBids(history, sources, slot, pushed, others, n);
      && r.Some? && |r.value| == |history| + n && history <= r.value
      && (forall k :: 0 <= k < n ==> IsHeaderOf(r.value[|history| + k], sources[pushed[k].source], slot, pushed[k].bid))
      && (n > 0 ==> LastSlotOf(r.value) == slot)
  {
    if n > 0 {
      UndisturbedBids(history, sources, slot, pushed, others, n - 1);
    }
  }

  /** Every bid a request has stored is in the history. */
  lemma {:induction false} OwnBidsAreStored(history: seq<SlotHeader>, sources: seq<string>, slot: nat, pushed: seq<Push>,
                                            others: seq<seq<SlotHeader>>, n: nat, k: nat)
    requires k < n <= |pushed| <= |others| && forall k :: 0 <= k < |pushed| ==> pushed[k].source < |sources|
    requires AfterBids(history, sources, slot, pushed, others, n).Some?
    ensures WellFormed(pushed[k].bid)
    ensures exists h :: h in AfterBids(history, sources, slot, pushed, others, n).value
                        && IsHeaderOf(h, sources[pushed[k].source], slot, pushed[k].bid)
  {
    if k < n - 1 {
      var before := AfterBids(history, sources, slot, pushed, others, n - 1);
      OwnBidsAreStored(history, sources, slot, pushed, others, n - 1, k);
      OthersOnlyExtend(before.value, others[n - 1]);
    } else {
      var own := HeaderOf(sources[pushed[k].source], slot, pushed[k].bid);
      assert IsHeaderOf(own, sources[pushed[k].source], slot, pushed[k].bid);
    }
  }

  /** Headers that other requests add while this one does not hold the lock. */
  method LetOthersStore(data: AggregatorData, offered: seq<SlotHeader>)
    requires data.Valid() && forall h :: h in offered ==> h.slot < UINT64
    modifies data
    ensures data.Valid() && data.history == AfterOthers(old(data.history), offered)
  {
    for i := 0 to |offered|
      invariant data.Valid() && AfterOthers(data.history, offered[i..]) == AfterOthers(old(data.history), offered)
    {
      assert offered[i] in offered && offered[i..][1..] == offered[i + 1..];
      var r := data.AddSlotHeader(offered[i]);
    }
    assert offered[|offered|..] == [];
  }

  /** The part of a header request after the wait group. `pushed` is the content of the channel, in
      whatever order the sources filled it; `others` is what other requests store before each bid and,
      at the end, before the selection. The request succeeds exactly when each of its bids is
      well-formed and not yet too old when its turn comes, and its slot is still in the window at the
      end; then all its bids are stored, and the answer is the most valuable header of the slot. */
  method ProcessHeaders(data: AggregatorData, sources: seq<string>, slot: Slot, pushed: seq<Push>, others: seq<seq<SlotHeader>>)
    returns (r: Result<SlotHeader, string>)
    requires data.Valid() && forall k :: 0 <= k < |pushed| ==> pushed[k].source < |sources|
    requires |others| == |pushed| + 1 && forall k, h :: 0 <= k < |others| && h in others[k] ==> h.slot < UINT64
    modifies data
    ensures data.Valid() && old(data.history) <= data.history
    ensures var stored := AfterBids(old(data.history), sources, slot, pushed, others, |pushed|);
      && (stored.Some? ==> data.history == AfterOthers(stored.value, others[|pushed|]))
      && (r.Success? <==> stored.Some? && IsRetained(data.history, slot))
    ensures r.Success? ==> forall k :: 0 <= k < |pushed| ==>
      && (exists h :: h in data.history && IsHeaderOf(h, sources[pushed[k].source], slot, pushed[k].bid))
      && pushed[k].bid.value.Some? && pushed[k].bid.value.value <= r.value.value
    ensures r.Success? ==> r.value in data.history && r.value.slot == slot
    ensures r.Success? ==> forall h :: h in data.history && h.slot == slot ==> h.value <= r.value.value
  {
    hide IsRetained, AfterOthers, AfterBids, WellFormed, HeaderOf, IsHeaderOf;
    ghost var before := data.history;
    var stored := StoreBids(data, sources, slot, pushed, others);
    if stored.Failure? {
      return Failure(stored.error);
    }
    ghost var own := data.history;
    LetOthersStore(data, others[|pushed|]);
    OthersOnlyExtend(own, others[|pushed|]);
    r := data.GetSelectedSlotHeaders(slot);
    forall k | 0 <= k < |pushed|
      ensures exists h :: h in data.history && IsHeaderOf(h, sources[pushed[k].source], slot, pushed[k].bid)
      ensures r.Success? ==> pushed[k].bid.value.Some? && pushed[k].bid.value.value <= r.value.value
    {
      var h := OwnHeader(before, own, sources, slot, pushed, others, k);
      assert h in data.history;
    }
  }

  /** The loop over the channel: each bid is stored after what other requests store before it, up to the
      first that is refused. */
  method StoreBids(data: AggregatorData, sources: seq<string>, slot: Slot, pushed: seq<Push>, others: seq<seq<SlotHeader>>)
    returns (r: Result<(), string>)
    requires data.Valid() && forall k :: 0 <= k < |pushed| ==> pushed[k].source < |sources|
    requires |others| >= |pushed| && forall k, h :: 0 <= k < |others| && h in others[k] ==> h.slot < UINT64
    modifies data
    ensures data.Valid() && old(data.history) <= data.history
    ensures var stored := AfterBids(old(data.history), sources, slot, pushed, others, |pushed|);
      if r.Success? then stored == Some(data.history) else stored.None?
  {
    hide AfterOthers, AfterBids, WellFormed, HeaderOf, IsHeaderOf;
    ghost var before := data.history;
    NoBidsYet(before, sources, slot, pushed, others);
    for i := 0 to |pushed|
      invariant data.Valid() && before <= data.history
      invariant AfterBids(before, sources, slot, pushed, others, i) == Some(data.history)
    {
      ghost var earlier := data.history;
      LetOthersStore(data, others[i]);
      OthersOnlyExtend(earlier, others[i]);
      OneMoreBid(before, earlier, sources, slot, pushed, others, i);
      r := ProcessNewBid(data, sources[pushed[i].source], slot, pushed[i].bid);
      if r.Failure? {
        RefusedForGood(before, sources, slot, pushed, others, i + 1, |pushed|);
        return;
      }
    }
    return Success(());
  }

  lemma NoBidsYet(history: seq<SlotHeader>, sources: seq<string>, slot: nat, pushed: seq<Push>, others: seq<seq<SlotHeader>>)
    requires |pushed| <= |others| && forall k :: 0 <= k < |pushed| ==> pushed[k].source < |sources|
    ensures AfterBids(history, sources, slot, pushed, others, 0) == Some(history)
  {
  }

  lemma OneMoreBid(history: seq<SlotHeader>, earlier: seq<SlotHeader>, sources: seq<string>, slot: nat, pushed: seq<Push>,
                   others: seq<seq<SlotHeader>>, i: nat)
    requires i < |pushed| <= |others| && forall k :: 0 <= k < |pushed| ==> pushed[k].source < |sources|
    requires AfterBids(history, sources, slot, pushed, others, i) == Some(earlier)
    ensures var now, bid := AfterOthers(earlier, others[i]), pushed[i].bid;
      AfterBids(history, sources, slot, pushed, others, i + 1)
      == if bid.value.None? || bid.blockHash.None? || slot < LastSlotOf(now) then None
         else Some(now + [HeaderOf(sources[pushed[i].source], slot, bid)])
  {
  }

  lemma OwnHeader(before: seq<SlotHeader>, now: seq<SlotHeader>, sources: seq<string>, slot: nat, pushed: seq<Push>,
                  others: seq<seq<SlotHeader>>, k: nat) returns (h: SlotHeader)
    requires k < |pushed| <= |others| && forall k :: 0 <= k < |pushed| ==> pushed[k].source < |sources|
    requires AfterBids(before, sources, slot, pushed, others, |pushed|) == Some(now)
    ensures h in now && IsHeaderOf(h, sources[pushed[k].source], slot, pushed[k].bid)
    ensures h.slot == slot && pushed[k].bid.value.Some? && h.value == pushed[k].bid.value.value
  {
    OwnBidsAreStored(before, sources, slot, pushed, others, |pushed|, k);
    h :| h in now && IsHeaderOf(h, sources[pushed[k].source], slot, pushed[k].bid);
  }

  lemma {:induction false} RefusedForGood(history: seq<SlotHeader>, sources: seq<string>, slot: nat, pushed: seq<Push>,
                                          others: seq<seq<SlotHeader>>, k: nat, n: nat)
    requires k <= n <= |pushed| <= |others| && forall k :: 0 <= k < |pushed| ==> pushed[k].source < |sources|
    requires AfterBids(history, sources, slot, pushed, others, k).None?
    ensures AfterBids(history, sources, slot, pushed, others, n).None?
  {
    if k < n {
      RefusedForGood(history, sources, slot, pushed, others, k, n - 1);
    }
  }

  /** The module asked for the payload is one whose accepted header has the requested hash. */
  method PayloadSource(data: AggregatorData, blockHash: string) returns (r: Result<string, string>)
    requires data.Valid()
    ensures r.Success? ==> (exists h :: (h in data.history && h.blockHash == blockHash && !h.bid.empty
                                     && r.value == JsonRpc.KnownName(h.moduleName, "getPayload")))
    ensures (forall x :: x in data.history ==> !x.bid.empty) ==>
      (forall h :: IsSafe(data.history, h) && h.blockHash == blockHash && h.slot < UINT64 ==> r.Success?)
  {
    hide IsSafe, IsRetained, JsonRpc.KnownName;
    var found := data.GetSlotHeaderByHash(blockHash);
    if found.Failure? {
      return Failure(found.error);
    }
    var header := found.value;
    if header.bid.empty {
      return Failure("slot header bid is empty");
    }
    return Success(JsonRpc.KnownName(header.moduleName, "getPayload"));
  }
}
