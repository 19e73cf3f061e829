/** Keeping the three most valuable headers of a stream, when the sort may order equal values in any
    way: which lists can be left, which values they have, and which headers are sure to be kept. */
module TopThree {

  import opened Bags
  import opened Wrappers

  const KEPT: nat := 3

  /** A signed bid as the block sources return it; a field that the version at hand lacks is None. */
  datatype SignedBid = SignedBid(
    empty: bool,
    blockHash: Option<string>,
    parentHash: Option<string>,
    pubkey: Option<string>,
    txRoot: Option<string>,
    value: Option<nat>)

  datatype SlotHeader = SlotHeader(moduleName: string, slot: nat, value: int, blockHash: string, bid: SignedBid)

  predicate Sorted(hs: seq<SlotHeader>) {
    forall i, j :: 0 <= i < j < |hs| ==> hs[i].value >= hs[j].value
  }

  /** What `sort.Slice` by descending value may turn `hs` into: it is not stable. */
  predicate IsSortOf(hs: seq<SlotHeader>, sorted: seq<SlotHeader>) {
    multiset(sorted) == multiset(hs) && Sorted(sorted)
  }

  function Best(hs: seq<SlotHeader>): seq<SlotHeader> {
    if |hs| > KEPT then hs[..KEPT] else hs
  }

  /** Adding h to `prev`, sorting and truncating can leave `list`. */
  ghost predicate AddStep(prev: seq<SlotHeader>, h: SlotHeader, list: seq<SlotHeader>) {
    exists sorted :: IsSortOf(prev + [h], sorted) && list == Best(sorted)
  }

  /** One way the headers of `all` may be added one by one, sorting and truncating each time. */
  ghost predicate IsStream(all: seq<SlotHeader>, lists: seq<seq<SlotHeader>>) {
    && |lists| == |all| + 1
    && lists[0] == []
    && forall i :: 0 <= i < |all| ==> AddStep(lists[i], all[i], lists[i + 1])
  }

  /** `list` can be what is left of `all`. */
  ghost predicate Possible(all: seq<SlotHeader>, list: seq<SlotHeader>) {
    exists lists :: IsStream(all, lists) && lists[|all|] == list
  }

  /** The reference definition, which looks at the whole history at once. */
  ghost predicate IsTop(all: seq<SlotHeader>, list: seq<SlotHeader>) {
    && Sorted(list)
    && multiset(list) <= multiset(all)
    && |list| == (if |all| > KEPT then KEPT else |all|)
    && forall x, y :: x in multiset(all) - multiset(list) && y in list ==> x.value <= y.value
  }

  // ---- streaming computes the reference ----

  lemma TailIsBelow(sorted: seq<SlotHeader>, n: nat, x: SlotHeader, y: SlotHeader)
    requires Sorted(sorted) && n <= |sorted| && x in sorted[n..] && y in sorted[..n]
    ensures x.value <= y.value
  {
    var i :| n <= i < |sorted| && sorted[i] == x;
    var j :| 0 <= j < n && sorted[j] == y;
  }

  lemma SplitSorted(hs: seq<SlotHeader>, sorted: seq<SlotHeader>, n: nat)
    requires IsSortOf(hs, sorted) && n <= |sorted|
    ensures multiset(hs) == multiset(sorted[..n]) + multiset(sorted[n..])
    ensures |hs| == |sorted| && Sorted(sorted[..n])
  {
    assert |multiset(sorted)| == |multiset(hs)|;
    assert sorted == sorted[..n] + sorted[n..];
  }

  lemma BestOfSorted(hs: seq<SlotHeader>, sorted: seq<SlotHeader>)
    requires IsSortOf(hs, sorted)
    ensures IsTop(hs, Best(sorted))
  {
    var list := Best(sorted);
    SplitSorted(hs, sorted, |list|);
    assert sorted[..|list|] == list && Sorted(sorted);
    hide IsSortOf, Sorted, Best;
    forall x, y | x in multiset(hs) - multiset(list) && y in list
      ensures x.value <= y.value
    {
      assert x in multiset(sorted[|list|..]);
      TailIsBelow(sorted, |list|, x, y);
    }
  }

  /** Adding one header to a top list and sorting again gives a top list of the longer history. */
  lemma TopStep(all: seq<SlotHeader>, list: seq<SlotHeader>, h: SlotHeader, sorted: seq<SlotHeader>)
    requires IsTop(all, list) && IsSortOf(list + [h], sorted)
    ensures IsTop(all + [h], Best(sorted))
  {
    var next := Best(sorted);
    BestOfSorted(list + [h], sorted);
    assert multiset(list + [h]) == multiset(list) + multiset{h};
    assert multiset(all + [h]) == multiset(all) + multiset{h};
    assert |sorted| == |list| + 1 by {
      assert |multiset(sorted)| == |multiset(list + [h])|;
    }
    forall x, y | x in multiset(all + [h]) - multiset(next) && y in next
      ensures x.value <= y.value
    {
      if x in multiset(list + [h]) - multiset(next) {
      } else {
        assert x in multiset(all) - multiset(list);
        DroppedBelow(all, list, h, next, x, y);
      }
    }
  }

  /** A header dropped earlier is not worth more than anything kept now. */
  lemma DroppedBelow(all: seq<SlotHeader>, list: seq<SlotHeader>, h: SlotHeader, next: seq<SlotHeader>, x: SlotHeader, y: SlotHeader)
    requires IsTop(all, list) && IsTop(list + [h], next)
    requires x in multiset(all) - multiset(list) && y in next
    ensures x.value <= y.value
  {
    if y in list {
    } else {
      assert |multiset(list)| < |multiset(all)| by {
        if |multiset(list)| == |multiset(all)| {
          SubMultiset(multiset(list), multiset(all));
        }
      }
      assert |list| == KEPT;
      assert y == h by {
        assert y in multiset(list + [h]);
        assert multiset(list + [h]) == multiset(list) + multiset{h};
      }
      // Something of the old list had to go: y replaced a z with z.value <= y.value.
      var z := Missing(list, next);
      assert multiset(list + [h]) == multiset(list) + multiset{h};
      assert z in multiset(list + [h]) - multiset(next);
      assert x.value <= z.value <= y.value;
    }
  }

  lemma SubMultiset(a: multiset<SlotHeader>, b: multiset<SlotHeader>)
    requires a <= b && |a| == |b|
    ensures a == b
  {
    assert b == a + (b - a);
    assert |b - a| == 0;
  }

  lemma Missing(list: seq<SlotHeader>, next: seq<SlotHeader>) returns (z: SlotHeader)
    requires |next| == |list|
    requires multiset(next) != multiset(list)
    ensures z in list && z in multiset(list) - multiset(next)
  {
    if forall z :: z in multiset(list) ==> multiset(list)[z] <= multiset(next)[z] {
      assert multiset(list) <= multiset(next);
      SubMultiset(multiset(list), multiset(next));
    }
    z :| z in multiset(list) && multiset(list)[z] > multiset(next)[z];
  }

  lemma AddStepKeepsTop(all: seq<SlotHeader>, list: seq<SlotHeader>, h: SlotHeader, next: seq<SlotHeader>)
    requires IsTop(all, list) && AddStep(list, h, next)
    ensures IsTop(all + [h], next)
  {
    var sorted :| IsSortOf(list + [h], sorted) && next == Best(sorted);
    TopStep(all, list, h, sorted);
  }

  lemma NothingIsTop()
    ensures IsTop([], [])
  {
  }

  lemma {:induction false} StreamPrefixIsTop(all: seq<SlotHeader>, lists: seq<seq<SlotHeader>>, i: nat)
    requires IsStream(all, lists) && i <= |all|
    ensures IsTop(all[..i], lists[i])
  {
    hide IsTop, AddStep;
    if i == 0 {
      assert all[..0] == [];
      NothingIsTop();
    } else {
      StreamPrefixIsTop(all, lists, i - 1);
      AddStepKeepsTop(all[..i - 1], lists[i - 1], all[i - 1], lists[i]);
      assert all[..i - 1] + [all[i - 1]] == all[..i];
    }
  }

  /** Whatever the sorts did along the way, what is left is a top list of the whole history. */
  lemma StreamingGivesTop(all: seq<SlotHeader>, list: seq<SlotHeader>)
    requires Possible(all, list)
    ensures IsTop(all, list)
  {
    var lists :| IsStream(all, lists) && lists[|all|] == list;
    StreamPrefixIsTop(all, lists, |all|);
    assert all[..|all|] == all;
  }

  // ---- ... and every reference list can come about ----

  lemma NotKeptFacts(before: seq<SlotHeader>, h: SlotHeader, list: seq<SlotHeader>)
    requires IsTop(before + [h], list) && h !in list
    ensures multiset(list) <= multiset(before) && Sorted(list) && |list| == KEPT && |before| >= KEPT
    ensures forall y :: y in list ==> h.value <= y.value
    ensures forall x, y :: x in multiset(before) - multiset(list) && y in list ==> x.value <= y.value
  {
    var all := before + [h];
    assert multiset(all) == multiset(before) + multiset{h};
    assert h in multiset(all) - multiset(list);
    assert multiset(list) <= multiset(before);
    MultisetSize(multiset(list), multiset(before));
    assert multiset(before) - multiset(list) <= multiset(all) - multiset(list);
  }

  lemma LastNotKept(before: seq<SlotHeader>, h: SlotHeader, list: seq<SlotHeader>)
    requires IsTop(before + [h], list) && h !in list
    ensures IsTop(before, list) && AddStep(list, h, list)
  {
    NotKeptFacts(before, h, list);
    AppendLeast(list, h);
    assert IsSortOf(list + [h], list + [h]) && Best(list + [h]) == list;
  }

  /** The most valuable element of a nonempty multiset. */
  lemma MostValuable(m: multiset<SlotHeader>) returns (z: SlotHeader)
    requires |m| > 0
    ensures z in m && forall x :: x in m ==> x.value <= z.value
    decreases |m|
  {
    z :| z in m;
    if |m| > 1 {
      var rest := MostValuable(m - multiset{z});
      assert forall x :: x in m ==> x == z || x in m - multiset{z};
      if rest.value > z.value {
        z := rest;
      }
    } else {
      assert |m - multiset{z}| == 0;
      assert forall x :: x in m ==> x == z || x in m - multiset{z};
    }
  }

  lemma CutSorted(list: seq<SlotHeader>, i: nat)
    requires i < |list| && Sorted(list)
    ensures Sorted(list[..i] + list[i + 1..])
  {
    var less := list[..i] + list[i + 1..];
    assert forall k :: 0 <= k < |less| ==> less[k] == list[if k < i then k else k + 1];
  }

  /** `list` without one occurrence of h. */
  lemma Without(list: seq<SlotHeader>, h: SlotHeader) returns (less: seq<SlotHeader>)
    requires Sorted(list) && h in list
    ensures Sorted(less) && multiset(list) == multiset(less) + multiset{h} && |less| + 1 == |list|
    ensures forall y :: y in less ==> y in list
  {
    hide Sorted;
    var i :| 0 <= i < |list| && list[i] == h;
    less := list[..i] + list[i + 1..];
    CutCounts(list, i);
    CutSorted(list, i);
  }

  /** Putting a header that is worth no more than any other at the end keeps a list sorted. */
  lemma AppendLeast(list: seq<SlotHeader>, z: SlotHeader)
    requires Sorted(list) && forall y :: y in list ==> z.value <= y.value
    ensures Sorted(list + [z]) && multiset(list + [z]) == multiset(list) + multiset{z}
  {
  }

  lemma LastKeptAll(before: seq<SlotHeader>, h: SlotHeader, list: seq<SlotHeader>, less: seq<SlotHeader>)
    requires IsTop(before + [h], list) && Sorted(less)
    requires multiset(list) == multiset(less) + multiset{h} && |less| + 1 == |list|
    requires multiset(before) == multiset(less)
    ensures IsTop(before, less) && AddStep(less, h, list)
  {
    assert |multiset(before)| == |multiset(less)|;
    assert IsSortOf(less + [h], list) && Best(list) == list;
  }

  lemma LastKeptMore(before: seq<SlotHeader>, h: SlotHeader, list: seq<SlotHeader>, less: seq<SlotHeader>, z: SlotHeader)
    requires IsTop(before + [h], list) && Sorted(less) && |list| == KEPT
    requires multiset(list) == multiset(less) + multiset{h} && |less| + 1 == |list|
    requires forall y :: y in less ==> y in list
    requires multiset(less) <= multiset(before)
    requires z in multiset(before) - multiset(less)
    requires forall x :: x in multiset(before) - multiset(less) ==> x.value <= z.value
    requires forall y :: y in list ==> z.value <= y.value
    ensures IsTop(before, less + [z]) && AddStep(less + [z], h, list)
  {
    assert Sorted(list);
    hide IsTop, Sorted;
    AppendLeast(less, z);
    AppendLeast(list, z);
    TopWithMost(before, less, z);
    assert Best(list + [z]) == list;
    hide Best;
    MakeAddStep(less + [z], h, list + [z], list);
  }

  lemma MakeAddStep(prev: seq<SlotHeader>, h: SlotHeader, sorted: seq<SlotHeader>, list: seq<SlotHeader>)
    requires multiset(sorted) == multiset(prev) + multiset{h} && Sorted(sorted) && list == Best(sorted)
    ensures AddStep(prev, h, list)
  {
    hide Sorted, Best;
    assert IsSortOf(prev + [h], sorted);
  }

  lemma TopWithMost(before: seq<SlotHeader>, less: seq<SlotHeader>, z: SlotHeader)
    requires Sorted(less + [z]) && multiset(less) <= multiset(before) && |less| + 1 == KEPT
    requires z in multiset(before) - multiset(less)
    requires forall x :: x in multiset(before) - multiset(less) ==> x.value <= z.value
    requires forall y :: y in less ==> z.value <= y.value
    ensures IsTop(before, less + [z])
  {
    hide Sorted;
    var prev := less + [z];
    assert multiset(prev) == multiset(less) + multiset{z};
    MultisetSize(multiset(prev), multiset(before));
    forall x, y | x in multiset(before) - multiset(prev) && y in prev
      ensures x.value <= y.value
    {
      assert x in multiset(before) - multiset(less);
      assert y == z || y in less;
    }
  }

  lemma LastKept(before: seq<SlotHeader>, h: SlotHeader, list: seq<SlotHeader>) returns (prev: seq<SlotHeader>)
    requires IsTop(before + [h], list) && h in list
    ensures IsTop(before, prev) && AddStep(prev, h, list)
  {
    hide AddStep;
    var less := Without(list, h);
    assert multiset(before + [h]) == multiset(before) + multiset{h};
    var left := multiset(before) - multiset(less);
    assert left == multiset(before + [h]) - multiset(list);
    assert multiset(before) == multiset(less) + left;
    if |left| == 0 {
      prev := less;
      LastKeptAll(before, h, list, less);
    } else {
      var z := MostValuable(left);
      assert |multiset(before + [h])| == |multiset(list)| + |left|;
      prev := less + [z];
      LastKeptMore(before, h, list, less, z);
    }
  }

  lemma ExtendStream(before: seq<SlotHeader>, lists: seq<seq<SlotHeader>>, h: SlotHeader, list: seq<SlotHeader>)
    requires IsStream(before, lists) && AddStep(lists[|before|], h, list)
    ensures IsStream(before + [h], lists + [list])
  {
    hide AddStep;
    var all, lists' := before + [h], lists + [list];
    forall i | 0 <= i < |all|
      ensures AddStep(lists'[i], all[i], lists'[i + 1])
    {
    }
  }

  lemma {:induction false} BuildStream(all: seq<SlotHeader>, list: seq<SlotHeader>) returns (lists: seq<seq<SlotHeader>>)
    requires IsTop(all, list)
    ensures IsStream(all, lists) && lists[|all|] == list
    decreases |all|
  {
    if all == [] {
      lists := [[]];
    } else {
      hide IsTop, AddStep, IsStream;
      var before, h := all[..|all| - 1], all[|all| - 1];
      assert before + [h] == all;
      var prev := list;
      if h in list {
        prev := LastKept(before, h, list);
      } else {
        LastNotKept(before, h, list);
      }
      var rest := BuildStream(before, prev);
      ExtendStream(before, rest, h, list);
      lists := rest + [list];
    }
  }

  lemma TopIsPossible(all: seq<SlotHeader>, list: seq<SlotHeader>)
    requires IsTop(all, list)
    ensures Possible(all, list)
  {
    var lists := BuildStream(all, list);
  }

  /** The streaming store refines the history, exactly: the lists it can hold are the lists of three
      most valuable headers of everything added, and all of those. */
  lemma StreamingIsTopThree(all: seq<SlotHeader>, list: seq<SlotHeader>)
    ensures Possible(all, list) <==> IsTop(all, list)
  {
    if Possible(all, list) {
      StreamingGivesTop(all, list);
    }
    if IsTop(all, list) {
      TopIsPossible(all, list);
    }
  }

  // ---- the values kept ----

  function Insert(h: SlotHeader, hs: seq<SlotHeader>): seq<SlotHeader> {
    if hs == [] || h.value >= hs[0].value then [h] + hs else [hs[0]] + Insert(h, hs[1..])
  }

  function Sort(hs: seq<SlotHeader>): seq<SlotHeader> {
    if hs == [] then [] else Insert(hs[0], Sort(hs[1..]))
  }

  lemma PrependMost(top: SlotHeader, h: SlotHeader, rest: seq<SlotHeader>, r: seq<SlotHeader>)
    requires IsSortOf([h] + rest, r) && top.value >= h.value && forall x :: x in rest ==> top.value >= x.value
    ensures IsSortOf([h] + ([top] + rest), [top] + r)
  {
    forall k | 0 <= k < |r|
      ensures top.value >= r[k].value
    {
      assert r[k] in multiset(r);
      assert r[k] in multiset([h] + rest);
      assert r[k] in [h] + rest;
    }
    assert multiset([h] + ([top] + rest)) == multiset{top} + multiset([h] + rest);
  }

  lemma {:induction false} InsertSorts(h: SlotHeader, hs: seq<SlotHeader>)
    requires Sorted(hs)
    ensures IsSortOf([h] + hs, Insert(h, hs))
  {
    if hs != [] && h.value < hs[0].value {
      InsertSorts(h, hs[1..]);
      PrependMost(hs[0], h, hs[1..], Insert(h, hs[1..]));
      assert hs == [hs[0]] + hs[1..];
    }
  }

  lemma {:induction false} SortSorts(hs: seq<SlotHeader>)
    ensures IsSortOf(hs, Sort(hs))
  {
    if hs != [] {
      SortSorts(hs[1..]);
      InsertSorts(hs[0], Sort(hs[1..]));
      assert hs == [hs[0]] + hs[1..];
      assert multiset([hs[0]] + Sort(hs[1..])) == multiset{hs[0]} + multiset(hs[1..]);
    }
  }

  /** At most i elements of a sorted list are worth more than its element number i. */
  lemma FewAbove(b: seq<SlotHeader>, i: nat, front: seq<SlotHeader>)
    requires Sorted(b) && i < |b| && multiset(front) <= multiset(b)
    requires forall x :: x in front ==> x.value > b[i].value
    ensures |front| <= i
  {
    assert b == b[..i] + b[i..];
    assert multiset(b) == multiset(b[..i]) + multiset(b[i..]);
    assert forall x :: x in b[i..] ==> x.value <= b[i].value;
    assert multiset(front) <= multiset(b[..i]);
    MultisetSize(multiset(front), multiset(b[..i]));
  }

  lemma DroppedIsBelow(all: seq<SlotHeader>, b: seq<SlotHeader>, i: nat, x: SlotHeader)
    requires IsTop(all, b) && i < |b| && multiset(all)[x] > multiset(b)[x]
    ensures x.value <= b[i].value
  {
    assert x in multiset(all) - multiset(b) && b[i] in b;
  }

  lemma FrontCounts(all: seq<SlotHeader>, a: seq<SlotHeader>, n: nat)
    requires IsTop(all, a) && n <= |a|
    ensures multiset(a[..n]) <= multiset(all)
    ensures forall x :: x in a[..n] ==> n > 0 && x.value >= a[n - 1].value
  {
    assert multiset(a) <= multiset(all) && Sorted(a);
    hide IsTop, Sorted;
    PrefixCounts(a, n);
    forall x | x in a[..n]
      ensures n > 0 && x.value >= a[n - 1].value
    {
      FrontIsAbove(a, n, x);
    }
  }

  lemma PrefixCounts(a: seq<SlotHeader>, n: nat)
    requires n <= |a|
    ensures multiset(a[..n]) <= multiset(a)
  {
    assert a == a[..n] + a[n..];
  }

  lemma FrontIsAbove(a: seq<SlotHeader>, n: nat, x: SlotHeader)
    requires Sorted(a) && n <= |a| && x in a[..n]
    ensures n > 0 && x.value >= a[n - 1].value
  {
    var k :| 0 <= k < n && a[k] == x;
  }

  lemma TopValueAt(all: seq<SlotHeader>, a: seq<SlotHeader>, b: seq<SlotHeader>, i: nat)
    requires IsTop(all, a) && IsTop(all, b) && i < |a|
    ensures a[i].value <= b[i].value
  {
    assert |a| == |b| && Sorted(b);
    hide IsTop, Sorted;
    if a[i].value > b[i].value {
      var front := a[..i + 1];
      FrontCounts(all, a, i + 1);
      forall x | x in front
        ensures multiset(front)[x] <= multiset(b)[x]
      {
        if multiset(front)[x] > multiset(b)[x] {
          DroppedIsBelow(all, b, i, x);
        }
      }
      FewAbove(b, i, front);
    }
  }

  lemma MultisetSize(a: multiset<SlotHeader>, b: multiset<SlotHeader>)
    requires a <= b
    ensures |a| <= |b|
  {
    assert b == a + (b - a);
  }

  /** The values kept do not depend on how ties were sorted: they are the first three of the sorted
      list of everything ever added. */
  lemma KeptValuesAreTheLargest(all: seq<SlotHeader>, list: seq<SlotHeader>)
    requires Possible(all, list)
    ensures |Sort(all)| == |all|
    ensures |list| == (if |all| > 3 then 3 else |all|)
    ensures forall i :: 0 <= i < |list| ==> list[i].value == Sort(all)[i].value
  {
    StreamingGivesTop(all, list);
    SortSorts(all);
    assert |multiset(Sort(all))| == |multiset(all)|;
    BestOfSorted(all, Sort(all));
    forall i | 0 <= i < |list|
      ensures list[i].value == Sort(all)[i].value
    {
      TopValueAt(all, list, Best(Sort(all)), i);
      TopValueAt(all, Best(Sort(all)), list, i);
    }
  }

  // ---- the headers kept ----

  predicate Rivals(h: SlotHeader, x: SlotHeader) {
    x != h && x.value >= h.value
  }

  /** The other headers whose value is at least that of h. */
  function RivalsOf(all: seq<SlotHeader>, h: SlotHeader): seq<SlotHeader> {
    if all == [] then []
    else (if Rivals(h, all[0]) then [all[0]] else []) + RivalsOf(all[1..], h)
  }

  function OthersThan(all: seq<SlotHeader>, h: SlotHeader): seq<SlotHeader> {
    if all == [] then []
    else (if all[0] != h then [all[0]] else []) + OthersThan(all[1..], h)
  }

  lemma {:induction false} RivalsCount(all: seq<SlotHeader>, h: SlotHeader)
    ensures forall x :: multiset(RivalsOf(all, h))[x] == if Rivals(h, x) then multiset(all)[x] else 0
    ensures forall x :: multiset(OthersThan(all, h))[x] == if x != h then multiset(all)[x] else 0
  {
    if all != [] {
      RivalsCount(all[1..], h);
      assert all == [all[0]] + all[1..];
      assert multiset(all) == multiset{all[0]} + multiset(all[1..]);
    }
  }

  lemma FewRivalsKeep(all: seq<SlotHeader>, h: SlotHeader, list: seq<SlotHeader>)
    requires IsTop(all, list) && h in all && h !in list
    ensures |RivalsOf(all, h)| >= KEPT
  {
    assert h in multiset(all) - multiset(list);
    RivalsCount(all, h);
    assert multiset(list) <= multiset(RivalsOf(all, h));
    MultisetSize(multiset(list), multiset(RivalsOf(all, h)));
    if |list| < KEPT {
      assert |multiset(list)| == |multiset(all)|;
      SubMultiset(multiset(list), multiset(all));
      assert false;
    }
  }

  lemma RivalsAreOthers(all: seq<SlotHeader>, h: SlotHeader)
    requires h in all && |RivalsOf(all, h)| >= KEPT
    ensures multiset(RivalsOf(all, h)) <= multiset(OthersThan(all, h)) <= multiset(all)
    ensures |OthersThan(all, h)| >= KEPT && |all| > KEPT
    ensures h !in OthersThan(all, h)
    ensures forall x :: x in multiset(all) && x != h ==> multiset(OthersThan(all, h))[x] == multiset(all)[x]
    ensures forall x :: x in RivalsOf(all, h) ==> x.value >= h.value
  {
    var others, rivals := OthersThan(all, h), RivalsOf(all, h);
    RivalsCount(all, h);
    hide RivalsOf, OthersThan;
    assert multiset(rivals) <= multiset(others);
    MultisetSize(multiset(rivals), multiset(others));
    assert multiset(others)[h] == 0;
    assert multiset(others) <= multiset(all) - multiset{h};
    MultisetSize(multiset(others), multiset(all) - multiset{h});
    forall x | x in rivals
      ensures x.value >= h.value
    {
      assert x in multiset(rivals);
    }
  }

  /** A list that is top among the others is top of all, if h is worth no more than any of it. */
  lemma TopOfOthers(all: seq<SlotHeader>, h: SlotHeader, others: seq<SlotHeader>, list: seq<SlotHeader>)
    requires IsTop(others, list) && |list| == KEPT && |all| > KEPT
    requires multiset(others) <= multiset(all)
    requires forall x :: x in multiset(all) && x != h ==> multiset(others)[x] == multiset(all)[x]
    requires forall y :: y in list ==> h.value <= y.value
    ensures IsTop(all, list)
  {
    hide Sorted;
    forall x, y | x in multiset(all) - multiset(list) && y in list
      ensures x.value <= y.value
    {
      assert x == h || x in multiset(others) - multiset(list);
    }
  }

  lemma ManyRivalsDrop(all: seq<SlotHeader>, h: SlotHeader)
    requires h in all && |RivalsOf(all, h)| >= KEPT
    ensures var list := Best(Sort(OthersThan(all, h))); IsTop(all, list) && h !in list
  {
    var others, rivals := OthersThan(all, h), RivalsOf(all, h);
    RivalsAreOthers(all, h);
    SortSorts(others);
    BestOfSorted(others, Sort(others));
    var list := Best(Sort(others));
    assert |list| == KEPT && multiset(list) <= multiset(others);
    hide OthersThan, RivalsOf, Sort, Best, IsTop;
    forall y | y in list
      ensures h.value <= y.value
    {
      if y.value < h.value {
        RivalsWouldFit(others, h, list, rivals, y);
      }
    }
    TopOfOthers(all, h, others, list);
    assert forall y :: y in list ==> y in multiset(others);
  }

  lemma RivalsWouldFit(others: seq<SlotHeader>, h: SlotHeader, list: seq<SlotHeader>, rivals: seq<SlotHeader>, y: SlotHeader)
    requires IsTop(others, list) && multiset(rivals) <= multiset(others)
    requires y in list && y.value < h.value
    requires forall x :: x in rivals ==> x.value >= h.value
    ensures |rivals| < KEPT
  {
    assert forall x :: x in multiset(rivals) && multiset(rivals)[x] > multiset(list)[x] ==>
      x in multiset(others) - multiset(list) && x in rivals;
    assert multiset(rivals) <= multiset(list) - multiset{y};
    MultisetSize(multiset(rivals), multiset(list) - multiset{y});
  }

  /** A header is kept under every order the sorts may choose if and only if fewer than three other
      headers of its slot are worth at least as much. */
  lemma SurelyKeptIff(all: seq<SlotHeader>, h: SlotHeader)
    requires h in all
    ensures (forall list :: Possible(all, list) ==> h in list) <==> |RivalsOf(all, h)| < 3
  {
    if |RivalsOf(all, h)| < KEPT {
      forall list | Possible(all, list)
        ensures h in list
      {
        StreamingGivesTop(all, list);
        if h !in list {
          FewRivalsKeep(all, h, list);
        }
      }
    } else {
      ManyRivalsDrop(all, h);
      TopIsPossible(all, Best(Sort(OthersThan(all, h))));
    }
  }
}
