/** The aggregator's store of slot headers: three per slot, for the last two epochs. It is a bounded,
    pruned picture of the history of accepted headers, and Valid says exactly which one. */
module AggregatorData {

  import opened Wrappers
  import opened Slots
  import opened TopThree

  function HeadersOf(history: seq<SlotHeader>, slot: nat): seq<SlotHeader> {
    if history == [] then []
    else
      var before := HeadersOf(history[..|history| - 1], slot);
      var h := history[|history| - 1];
      if h.slot == slot then before + [h] else before
  }

  lemma HeadersOfPush(history: seq<SlotHeader>, h: SlotHeader, slot: nat)
    ensures HeadersOf(history + [h], slot)
         == if h.slot == slot then HeadersOf(history, slot) + [h] else HeadersOf(history, slot)
  {
    assert (history + [h])[..|history|] == history;
  }

  lemma {:induction false} HeadersOfMembers(history: seq<SlotHeader>, slot: nat, h: SlotHeader)
    ensures h in HeadersOf(history, slot) <==> h in history && h.slot == slot
  {
    if history != [] {
      HeadersOfMembers(history[..|history| - 1], slot, h);
      assert history == history[..|history| - 1] + [history[|history| - 1]];
    }
  }

  function LastSlotOf(history: seq<SlotHeader>): nat {
    if history == [] then 0 else history[|history| - 1].slot
  }

  /** The slots the store keeps after this history: not older than two epochs, and not below slot 64,
      where the pruning bound wraps. */
  predicate IsRetained(history: seq<SlotHeader>, slot: nat) {
    HeadersOf(history, slot) != [] && WINDOW <= slot && LastSlotOf(history) <= slot + WINDOW
  }

  /** A header that is sure to be found again. */
  predicate IsSafe(history: seq<SlotHeader>, h: SlotHeader) {
    && h in history
    && WINDOW <= h.slot
    && LastSlotOf(history) <= h.slot + WINDOW
    && |RivalsOf(HeadersOf(history, h.slot), h)| < KEPT
  }

  /** `sort.Slice` by descending value: the caller only learns that the result is sorted. */
  method SortSlice(hs: seq<SlotHeader>) returns (sorted: seq<SlotHeader>)
    ensures IsSortOf(hs, sorted)
  {
    sorted := Sort(hs);
    SortSorts(hs);
  }

  class AggregatorData {
    var lastSlot: Slot
    var selectedSlotHeaders: map<Slot, seq<SlotHeader>>
    ghost var history: seq<SlotHeader>   // the headers accepted so far

    ghost predicate Valid()
      reads this
    {
      && lastSlot == LastSlotOf(history)
      && (forall h :: h in history ==> h.slot <= lastSlot)
      && (forall slot: Slot :: slot in selectedSlotHeaders <==> IsRetained(history, slot))
      && (forall slot: Slot :: slot in selectedSlotHeaders ==>
            Possible(HeadersOf(history, slot), selectedSlotHeaders[slot]))
    }

    constructor ()
      ensures Valid() && history == []
    {
      lastSlot := 0;
      selectedSlotHeaders := map[];
      history := [];
    }

    /** A header is accepted unless its slot is older than the last one. Accepting it extends the
        history by it, and nothing else; a refused header changes nothing. */
    method AddSlotHeader(h: SlotHeader) returns (r: Result<(), string>)
      requires Valid() && h.slot < UINT64
      modifies this
      ensures Valid()
      ensures r.Success? <==> h.slot >= old(lastSlot)
      ensures r.Success? ==> history == old(history) + [h] && lastSlot == h.slot
      ensures r.Failure? ==> unchanged(this)
    {
      hide IsRetained, Possible, HeadersOf, IsSortOf;
      if h.slot < lastSlot {
        return Failure("addition of old slot header");
      }
      ghost var before := history;
      ghost var stored := selectedSlotHeaders;
      var slot: Slot := h.slot;
      var headers := if slot in selectedSlotHeaders then selectedSlotHeaders[slot] else [];
      var sorted := SortSlice(headers + [h]);
      if |sorted| > KEPT {
        sorted := sorted[..KEPT];
      }
      selectedSlotHeaders := selectedSlotHeaders[slot := sorted];
      lastSlot := slot;
      history := history + [h];
      PruneOldSlots();
      StepIsPossible(before, h, stored, headers, sorted);
      return Success(());
    }

    /** Deletes the slots below the (wrapping) bound. */
    method PruneOldSlots()
      modifies this`selectedSlotHeaders
      ensures forall slot: Slot :: slot in selectedSlotHeaders <==> slot in old(selectedSlotHeaders) && slot >= Floor(lastSlot)
      ensures forall slot: Slot :: slot in selectedSlotHeaders ==> selectedSlotHeaders[slot] == old(selectedSlotHeaders)[slot]
    {
      var slots := selectedSlotHeaders.Keys;
      while slots != {}
        invariant slots <= selectedSlotHeaders.Keys <= old(selectedSlotHeaders).Keys
        invariant forall slot: Slot :: slot in old(selectedSlotHeaders) && slot !in slots ==>
          (slot in selectedSlotHeaders <==> slot >= Floor(lastSlot))
        invariant forall slot: Slot :: slot in selectedSlotHeaders ==> selectedSlotHeaders[slot] == old(selectedSlotHeaders)[slot]
        decreases |slots|
      {
        var slot :| slot in slots;
        if slot < Floor(lastSlot) {
          selectedSlotHeaders := selectedSlotHeaders - {slot};
        }
        slots := slots - {slot};
      }
    }

    /** The selected header of a slot is the most valuable one ever accepted for it; there is none
        exactly when the slot has no header in the window. */
    method GetSelectedSlotHeaders(slot: Slot) returns (r: Result<SlotHeader, string>)
      requires Valid()
      ensures r.Success? <==> IsRetained(history, slot)
      ensures r.Success? ==> r.value in history && r.value.slot == slot
      ensures r.Success? ==> forall h :: h in history && h.slot == slot ==> h.value <= r.value.value
    {
      if slot !in selectedSlotHeaders {
        return Failure("slot not found");
      }
      SelectedIsBest(history, slot, selectedSlotHeaders[slot]);
      return Success(selectedSlotHeaders[slot][0]);
    }

    /** A header found by hash is an accepted one with that hash; every safe header's hash is found. */
    method GetSlotHeaderByHash(blockHash: string) returns (r: Result<SlotHeader, string>)
      requires Valid()
      ensures r.Success? ==> r.value in history && r.value.blockHash == blockHash && IsRetained(history, r.value.slot)
      ensures forall h :: IsSafe(history, h) && h.blockHash == blockHash && h.slot < UINT64 ==> r.Success?
    {
      var slots := selectedSlotHeaders.Keys;
      while slots != {}
        invariant slots <= selectedSlotHeaders.Keys
        invariant forall slot: Slot, h :: slot in selectedSlotHeaders && slot !in slots && h in selectedSlotHeaders[slot] ==>
          h.blockHash != blockHash
        decreases |slots|
      {
        var slot :| slot in slots;
        var headers := selectedSlotHeaders[slot];
        for i := 0 to |headers|
          invariant forall k :: 0 <= k < i ==> headers[k].blockHash != blockHash
        {
          if headers[i].blockHash == blockHash {
            StoredIsAccepted(history, slot, headers, headers[i]);
            return Success(headers[i]);
          }
        }
        slots := slots - {slot};
      }
      forall h | IsSafe(history, h) && h.slot < UINT64
        ensures h.blockHash != blockHash
      {
        SafeIsStored(history, h, selectedSlotHeaders);
        assert h in selectedSlotHeaders[h.slot];
      }
      return Failure("slot header not found");
    }
  }

  // ---- why the store refines the history ----

  lemma OtherSlotsUnchanged(before: seq<SlotHeader>, h: SlotHeader, slot: nat)
    requires slot != h.slot
    ensures HeadersOf(before + [h], slot) == HeadersOf(before, slot)
    ensures LastSlotOf(before) <= h.slot ==> (IsRetained(before + [h], slot) ==> IsRetained(before, slot))
  {
    HeadersOfPush(before, h, slot);
  }

  lemma AppendPossible(all: seq<SlotHeader>, list: seq<SlotHeader>, h: SlotHeader, sorted: seq<SlotHeader>)
    requires Possible(all, list) && IsSortOf(list + [h], sorted)
    ensures Possible(all + [h], Best(sorted))
  {
    var lists :| IsStream(all, lists) && lists[|all|] == list;
    assert AddStep(list, h, Best(sorted));
    hide AddStep;
    ExtendStream(all, lists, h, Best(sorted));
    assert (lists + [Best(sorted)])[|all + [h]|] == Best(sorted);
  }

  lemma EmptyIsPossible()
    ensures Possible([], [])
  {
    assert IsStream([], [[]]);
  }

  lemma StepIsPossible(before: seq<SlotHeader>, h: SlotHeader, stored: map<Slot, seq<SlotHeader>>,
                       headers: seq<SlotHeader>, kept: seq<SlotHeader>)
    requires h.slot < UINT64 && LastSlotOf(before) <= h.slot
    requires forall x :: x in before ==> x.slot <= LastSlotOf(before)
    requires forall slot: Slot :: slot in stored <==> IsRetained(before, slot)
    requires forall slot: Slot :: slot in stored ==> Possible(HeadersOf(before, slot), stored[slot])
    requires headers == if h.slot in stored then stored[h.slot] else []
    requires exists sorted :: IsSortOf(headers + [h], sorted) && kept == Best(sorted)
    ensures forall slot: Slot :: IsRetained(before + [h], slot) <==> (slot in stored || slot == h.slot) && slot >= Floor(h.slot)
    ensures h.slot >= WINDOW ==> Possible(HeadersOf(before + [h], h.slot), kept)
    ensures forall slot: Slot :: slot != h.slot ==> HeadersOf(before + [h], slot) == HeadersOf(before, slot)
  {
    var sorted :| IsSortOf(headers + [h], sorted) && kept == Best(sorted);
    HeadersOfPush(before, h, h.slot);
    assert LastSlotOf(before + [h]) == h.slot;
    forall slot: Slot
      ensures slot != h.slot ==> HeadersOf(before + [h], slot) == HeadersOf(before, slot)
      ensures IsRetained(before + [h], slot) <==> (slot in stored || slot == h.slot) && slot >= Floor(h.slot)
    {
      FloorWraps(h.slot, slot);
      if slot != h.slot {
        OtherSlotsUnchanged(before, h, slot);
        RetainedIsNotNewer(before, slot);
      }
    }
    if h.slot >= WINDOW {
      if h.slot !in stored {
        EmptyIsPossible();
        assert HeadersOf(before, h.slot) == [];
      }
      AppendPossible(HeadersOf(before, h.slot), headers, h, sorted);
    }
  }

  lemma RetainedIsNotNewer(history: seq<SlotHeader>, slot: nat)
    requires forall x :: x in history ==> x.slot <= LastSlotOf(history)
    ensures HeadersOf(history, slot) != [] ==> slot <= LastSlotOf(history)
  {
    if HeadersOf(history, slot) != [] {
      HeadersOfMembers(history, slot, HeadersOf(history, slot)[0]);
    }
  }

  lemma StoredIsAccepted(history: seq<SlotHeader>, slot: nat, list: seq<SlotHeader>, h: SlotHeader)
    requires Possible(HeadersOf(history, slot), list) && h in list
    ensures h in history && h.slot == slot
  {
    StreamingGivesTop(HeadersOf(history, slot), list);
    assert h in multiset(HeadersOf(history, slot));
    HeadersOfMembers(history, slot, h);
  }

  lemma SelectedIsBest(history: seq<SlotHeader>, slot: nat, list: seq<SlotHeader>)
    requires Possible(HeadersOf(history, slot), list) && HeadersOf(history, slot) != []
    ensures |list| > 0 && list[0] in history && list[0].slot == slot
    ensures forall h :: h in history && h.slot == slot ==> h.value <= list[0].value
  {
    var all := HeadersOf(history, slot);
    StreamingGivesTop(all, list);
    StoredIsAccepted(history, slot, list, list[0]);
    forall h | h in history && h.slot == slot
      ensures h.value <= list[0].value
    {
      HeadersOfMembers(history, slot, h);
      assert h in multiset(all);
      assert h in list || h in multiset(all) - multiset(list);
    }
  }

  lemma SafeIsStored(history: seq<SlotHeader>, h: SlotHeader, stored: map<Slot, seq<SlotHeader>>)
    requires IsSafe(history, h) && h.slot < UINT64
    requires forall slot: Slot :: slot in stored <==> IsRetained(history, slot)
    requires forall slot: Slot :: slot in stored ==> Possible(HeadersOf(history, slot), stored[slot])
    ensures h.slot in stored && h in stored[h.slot]
  {
    HeadersOfMembers(history, h.slot, h);
    SurelyKeptIff(HeadersOf(history, h.slot), h);
  }

  /** A header below slot 64 is accepted and gone at once: no header of such a slot is ever retained. */
  lemma EarlySlotsAreLost(history: seq<SlotHeader>, slot: nat)
    requires slot < 64
    ensures !IsRetained(history, slot)
  {
  }

  /** The values of a retained slot are the first three of all its values sorted, whatever order the
      sorts chose among equals. */
  lemma RetainedValuesAreTheLargest(data: AggregatorData, slot: Slot)
    requires data.Valid() && slot in data.selectedSlotHeaders
    ensures var list := data.selectedSlotHeaders[slot];
      var all := Sort(HeadersOf(data.history, slot));
      && 1 <= |list| <= 3
      && |list| == (if |all| > 3 then 3 else |all|)
      && Sorted(list)
      && (forall i :: 0 <= i < |list| ==> list[i].value == all[i].value)
      && data.lastSlot <= slot + 64 && slot <= data.lastSlot && 64 <= slot
  {
    var list := data.selectedSlotHeaders[slot];
    assert Possible(HeadersOf(data.history, slot), list) && IsRetained(data.history, slot);
    KeptValuesAreTheLargest(HeadersOf(data.history, slot), list);
    StreamingGivesTop(HeadersOf(data.history, slot), list);
    RetainedIsNotNewer(data.history, slot);
  }
}
