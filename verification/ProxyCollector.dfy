/** The external validator proxy asks all its proxies at once. Headers and payloads are collected from
    two channels, one for errors and one for responses, which are read in pairs; a pair need not come
    from one proxy. Status and registration only need one success. */
module ProxyCollector {

  import opened Bags
  import opened Wrappers
  import opened TopThree
  import opened RelayAuction

  // ---- the two channels ----

  /** How a proxy's request ends: on the error path, or with a response that is useful or not. */
  datatype Answer = Errs | Gives(useful: bool)

  /** Both channels as the sequences of proxies that have pushed to them so far; how many pushes each
      goroutine has done; how many values the collector has read, from the two channels in turn. */
  datatype State = State(pushes: seq<nat>, errors: seq<nat>, responses: seq<nat>, taken: nat)

  datatype Action = Push(i: nat) | Read

  /** The error path pushes its error first, the success path its response. */
  predicate PushesError(answers: seq<Answer>, s: State, i: nat)
    requires i < |answers| && i < |s.pushes|
  {
    answers[i].Errs? <==> s.pushes[i] == 0
  }

  /** The values in each channel that have not been read. */
  function InErrors(s: State): int {
    |s.errors| - (s.taken + 1) / 2
  }

  function InResponses(s: State): int {
    |s.responses| - s.taken / 2
  }

  /** A push blocks while its channel is full, a read while it is empty. */
  predicate Enabled(answers: seq<Answer>, s: State, a: Action)
    requires |s.pushes| == |answers|
  {
    match a
    case Push(i) =>
      && i < |answers| && s.pushes[i] < 2
      && if PushesError(answers, s, i) then InErrors(s) < |answers| else InResponses(s) < |answers|
    case Read =>
      && s.taken < 2 * |answers|
      && if s.taken % 2 == 0 then InErrors(s) > 0 else InResponses(s) > 0
  }

  function Next(answers: seq<Answer>, s: State, a: Action): (s': State)
    requires |s.pushes| == |answers| && Enabled(answers, s, a)
    ensures |s'.pushes| == |answers|
  {
    match a
    case Push(i) =>
      var counted := s.(pushes := s.pushes[i := s.pushes[i] + 1]);
      if PushesError(answers, s, i) then counted.(errors := s.errors + [i]) else counted.(responses := s.responses + [i])
    case Read => s.(taken := s.taken + 1)
  }

  function Init(n: nat): State {
    State(seq(n, _ => 0), [], [], 0)
  }

  ghost predicate Legal(answers: seq<Answer>, s: State, run: seq<Action>)
    requires |s.pushes| == |answers|
    decreases |run|
  {
    run == [] || (Enabled(answers, s, run[0]) && Legal(answers, Next(answers, s, run[0]), run[1..]))
  }

  ghost function After(answers: seq<Answer>, s: State, run: seq<Action>): (s': State)
    requires |s.pushes| == |answers| && Legal(answers, s, run)
    ensures |s'.pushes| == |answers|
    decreases |run|
  {
    if run == [] then s else After(answers, Next(answers, s, run[0]), run[1..])
  }

  predicate Finished(answers: seq<Answer>, s: State) {
    s.taken == 2 * |answers| && forall i :: 0 <= i < |s.pushes| ==> s.pushes[i] == 2
  }

  predicate Useful(answers: seq<Answer>, i: nat) {
    i < |answers| && answers[i] == Gives(true)
  }

  predicate Answered(answers: seq<Answer>, i: nat) {
    i < |answers| && answers[i].Gives?
  }

  /** The proxies whose responses are returned: pair k counts when its error is nil and its response useful. */
  function Collected(answers: seq<Answer>, errors: seq<nat>, responses: seq<nat>): seq<nat>
    requires |errors| == |responses|
  {
    if errors == [] then []
    else
      var n := |errors| - 1;
      var before := Collected(answers, errors[..n], responses[..n]);
      if Answered(answers, errors[n]) && Useful(answers, responses[n]) then before + [responses[n]] else before
  }

  // ---- the invariant ----

  predicate HasPushed(answers: seq<Answer>, s: State, i: nat, isError: bool)
    requires i < |answers| == |s.pushes|
  {
    s.pushes[i] >= 2 || (s.pushes[i] == 1 && (answers[i].Errs? <==> isError))
  }

  ghost predicate LogOk(answers: seq<Answer>, s: State, log: seq<nat>, isError: bool)
    requires |answers| == |s.pushes|
  {
    && (forall i: nat :: i < |answers| ==> (i in log <==> HasPushed(answers, s, i, isError)))
    && (forall i :: i in log ==> i < |answers|)
    && (forall j, k :: 0 <= j < k < |log| ==> log[j] != log[k])
  }

  ghost predicate Inv(answers: seq<Answer>, s: State) {
    && |s.pushes| == |answers|
    && LogOk(answers, s, s.errors, true)
    && LogOk(answers, s, s.responses, false)
    && s.taken <= 2 * |answers|
    && InErrors(s) >= 0 && InResponses(s) >= 0
  }

  lemma PushKeepsInv(answers: seq<Answer>, s: State, i: nat)
    requires Inv(answers, s) && Enabled(answers, s, Push(i))
    ensures Inv(answers, Next(answers, s, Push(i)))
  {
    var s' := Next(answers, s, Push(i));
    var isError := PushesError(answers, s, i);
    forall j: nat, e: bool | j < |answers|
      ensures HasPushed(answers, s', j, e) <==> HasPushed(answers, s, j, e) || (j == i && e == isError)
    {
    }
    assert !HasPushed(answers, s, i, isError);
    hide HasPushed, PushesError;
  }

  lemma StepKeepsInv(answers: seq<Answer>, s: State, a: Action)
    requires Inv(answers, s) && Enabled(answers, s, a)
    ensures Inv(answers, Next(answers, s, a))
  {
    if a.Push? {
      PushKeepsInv(answers, s, a.i);
    }
  }

  lemma {:induction false} RunKeepsInv(answers: seq<Answer>, s: State, run: seq<Action>)
    requires Inv(answers, s) && Legal(answers, s, run)
    ensures Inv(answers, After(answers, s, run))
    decreases |run|
  {
    if run != [] {
      StepKeepsInv(answers, s, run[0]);
      RunKeepsInv(answers, Next(answers, s, run[0]), run[1..]);
    }
  }

  lemma InitInv(answers: seq<Answer>)
    ensures Inv(answers, Init(|answers|))
  {
  }

  /** Distinct numbers below n: at most n, and all of them when there are n. */
  lemma {:induction false} DistinctBelow(log: seq<nat>, n: nat)
    requires forall i :: i in log ==> i < n
    requires forall j, k :: 0 <= j < k < |log| ==> log[j] != log[k]
    ensures |log| <= n
    ensures |log| == n <==> forall i: nat :: i < n ==> i in log
  {
    if log == [] {
      assert n > 0 ==> 0 !in log;
    } else {
      assert log[0] in log;
      if n - 1 in log {
        var k :| 0 <= k < |log| && log[k] == n - 1;
        DistinctCut(log, k);
        DistinctBelow(Cut(log, k), n - 1);
      } else {
        forall i | i in log
          ensures i < n - 1
        {
          assert i != n - 1;
        }
        DistinctBelow(log, n - 1);
      }
    }
  }

  lemma DistinctCut(log: seq<nat>, k: nat)
    requires k < |log| && forall i, j :: 0 <= i < j < |log| ==> log[i] != log[j]
    ensures forall i, j :: 0 <= i < j < |log| - 1 ==> Cut(log, k)[i] != Cut(log, k)[j]
    ensures forall x :: x in Cut(log, k) <==> x in log && x != log[k]
  {
    var less := Cut(log, k);
    assert forall j :: 0 <= j < |less| ==> less[j] == log[if j < k then j else j + 1];
    forall x | x in log && x != log[k]
      ensures x in less
    {
      var j :| 0 <= j < |log| && log[j] == x;
      assert less[if j < k then j else j - 1] == x;
    }
  }

  // ---- nobody blocks ----

  /** A goroutine that still has something to push is never blocked, and when all have pushed
      everything the collector is not blocked either until it has read all pairs. */
  lemma NobodyBlocks(answers: seq<Answer>, run: seq<Action>)
    requires Legal(answers, Init(|answers|), run)
    ensures var s := After(answers, Init(|answers|), run);
      && (forall i: nat :: i < |answers| && s.pushes[i] < 2 ==> Enabled(answers, s, Push(i)))
      && ((forall i :: 0 <= i < |answers| ==> s.pushes[i] == 2) && s.taken < 2 * |answers| ==> Enabled(answers, s, Read))
  {
    InitInv(answers);
    RunKeepsInv(answers, Init(|answers|), run);
    NextIsEnabled(answers, After(answers, Init(|answers|), run));
  }

  lemma NextIsEnabled(answers: seq<Answer>, s: State)
    requires Inv(answers, s)
    ensures forall i: nat :: i < |answers| && s.pushes[i] < 2 ==> Enabled(answers, s, Push(i))
    ensures (forall i :: 0 <= i < |answers| ==> s.pushes[i] >= 2) ==> |s.errors| == |answers| == |s.responses|
    ensures (forall i :: 0 <= i < |answers| ==> s.pushes[i] >= 2) && s.taken < 2 * |answers| ==> Enabled(answers, s, Read)
  {
    DistinctBelow(s.errors, |answers|);
    DistinctBelow(s.responses, |answers|);
    forall i: nat | i < |answers| && s.pushes[i] < 2
      ensures Enabled(answers, s, Push(i))
    {
      var isError := PushesError(answers, s, i);
      assert !HasPushed(answers, s, i, isError);
      assert i !in (if isError then s.errors else s.responses);
    }
  }

  function Left(pushes: seq<nat>): nat {
    if pushes == [] then 0 else Left(pushes[..|pushes| - 1]) + if pushes[|pushes| - 1] < 2 then 2 - pushes[|pushes| - 1] else 0
  }

  lemma {:induction false} LeftFalls(pushes: seq<nat>, i: nat)
    requires i < |pushes| && pushes[i] < 2
    ensures Left(pushes[i := pushes[i] + 1]) < Left(pushes)
  {
    var n, updated := |pushes| - 1, pushes[i := pushes[i] + 1];
    if i == n {
      assert updated[..n] == pushes[..n];
    } else {
      assert updated[..n] == pushes[..n][i := pushes[i] + 1];
      LeftFalls(pushes[..n], i);
    }
  }

  /** From wherever they are, goroutines and collector can run to the end; channels only grow. */
  lemma {:induction false} CanFinish(answers: seq<Answer>, s: State) returns (run: seq<Action>)
    requires Inv(answers, s) && forall i :: 0 <= i < |answers| ==> s.pushes[i] <= 2
    ensures Legal(answers, s, run) && Finished(answers, After(answers, s, run))
    ensures s.errors <= After(answers, s, run).errors && s.responses <= After(answers, s, run).responses
    decreases Left(s.pushes), 2 * |answers| - s.taken
  {
    NextIsEnabled(answers, s);
    if Finished(answers, s) {
      run := [];
    } else {
      var a := Read;
      if i: nat :| i < |answers| && s.pushes[i] < 2 {
        a := Push(i);
        LeftFalls(s.pushes, i);
      }
      StepKeepsInv(answers, s, a);
      var rest := CanFinish(answers, Next(answers, s, a));
      run := [a] + rest;
      assert run[1..] == rest;
    }
  }

  // ---- what is returned ----

  /** Everything returned is the useful response of a proxy that did not fail, and none is returned twice. */
  lemma {:induction false} CollectedAreUseful(answers: seq<Answer>, errors: seq<nat>, responses: seq<nat>)
    requires |errors| == |responses|
    requires forall j, k :: 0 <= j < k < |responses| ==> responses[j] != responses[k]
    ensures var c := Collected(answers, errors, responses);
      && (forall i :: i in c ==> Useful(answers, i) && i in responses)
      && (forall j, k :: 0 <= j < k < |c| ==> c[j] != c[k])
  {
    if errors != [] {
      var n := |errors| - 1;
      assert errors == errors[..n] + [errors[n]] && responses == responses[..n] + [responses[n]];
      CollectedAreUseful(answers, errors[..n], responses[..n]);
      assert responses[n] !in responses[..n];
    }
  }

  lemma {:induction false} WithoutErrorsAllAreCollected(answers: seq<Answer>, errors: seq<nat>, responses: seq<nat>, i: nat)
    requires |errors| == |responses|
    requires forall j :: j in errors ==> Answered(answers, j)
    requires i in responses && Useful(answers, i)
    ensures i in Collected(answers, errors, responses)
  {
    var n := |errors| - 1;
    assert errors == errors[..n] + [errors[n]] && responses == responses[..n] + [responses[n]];
    if i != responses[n] {
      WithoutErrorsAllAreCollected(answers, errors[..n], responses[..n], i);
    }
  }

  lemma {:induction false} FirstPairIsDropped(answers: seq<Answer>, errors: seq<nat>, responses: seq<nat>)
    requires |errors| == |responses| > 0
    requires forall j, k :: 0 <= j < k < |responses| ==> responses[j] != responses[k]
    requires errors[0] < |answers| && answers[errors[0]].Errs?
    ensures responses[0] !in Collected(answers, errors, responses)
  {
    var n := |errors| - 1;
    if n > 0 {
      assert errors == errors[..n] + [errors[n]] && responses == responses[..n] + [responses[n]];
      FirstPairIsDropped(answers, errors[..n], responses[..n]);
    }
  }

  /** A finished run of the request. */
  ghost predicate Completes(answers: seq<Answer>, run: seq<Action>) {
    Legal(answers, Init(|answers|), run) && Finished(answers, After(answers, Init(|answers|), run))
  }

  lemma CompleteFacts(answers: seq<Answer>, run: seq<Action>)
    requires Completes(answers, run)
    ensures var s := After(answers, Init(|answers|), run);
      && |s.errors| == |s.responses| == |answers|
      && (forall i :: i in s.errors || i in s.responses ==> i < |answers|)
      && (forall i: nat :: i < |answers| ==> i in s.responses)
      && (forall j, k :: 0 <= j < k < |s.responses| ==> s.responses[j] != s.responses[k])
  {
    InitInv(answers);
    RunKeepsInv(answers, Init(|answers|), run);
    NextIsEnabled(answers, After(answers, Init(|answers|), run));
  }

  ghost function ReturnedBy(answers: seq<Answer>, run: seq<Action>): seq<nat>
    requires Completes(answers, run)
  {
    CompleteFacts(answers, run);
    var s := After(answers, Init(|answers|), run);
    Collected(answers, s.errors, s.responses)
  }

  /** In every interleaving only useful responses are returned, each at most once. */
  lemma OnlyUsefulAreReturned(answers: seq<Answer>, run: seq<Action>)
    requires Completes(answers, run)
    ensures var c := ReturnedBy(answers, run);
      && (forall i :: i in c ==> Useful(answers, i))
      && (forall j, k :: 0 <= j < k < |c| ==> c[j] != c[k])
  {
    CompleteFacts(answers, run);
    var s := After(answers, Init(|answers|), run);
    CollectedAreUseful(answers, s.errors, s.responses);
  }

  ghost predicate ReturnsAll(answers: seq<Answer>, run: seq<Action>)
    requires Completes(answers, run)
  {
    forall i :: Useful(answers, i) ==> i in ReturnedBy(answers, run)
  }

  /** A proxy that fails can take the place of one that answered: its error is read together with the
      other's response, and the response is dropped. */
  lemma LossyRun(answers: seq<Answer>, failing: nat, giving: nat) returns (run: seq<Action>)
    requires failing < |answers| && answers[failing].Errs? && Useful(answers, giving)
    ensures Completes(answers, run) && !ReturnsAll(answers, run)
  {
    var s0 := Init(|answers|);
    InitInv(answers);
    var s1 := Next(answers, s0, Push(giving));
    StepKeepsInv(answers, s0, Push(giving));
    var s2 := Next(answers, s1, Push(failing));
    StepKeepsInv(answers, s1, Push(failing));
    var rest := CanFinish(answers, s2);
    run := [Push(giving), Push(failing)] + rest;
    assert run[1..][1..] == rest && run[1..][0] == Push(failing);
    var s := After(answers, s0, run);
    CompleteFacts(answers, run);
    assert s.errors[0] == failing && s.responses[0] == giving;
    FirstPairIsDropped(answers, s.errors, s.responses);
  }

  /** Every interleaving returns every useful response if and only if no proxy fails or none has
      anything useful. */
  lemma NothingIsLostIff(answers: seq<Answer>)
    ensures (forall run :: Completes(answers, run) ==> ReturnsAll(answers, run))
       <==> (forall i :: 0 <= i < |answers| ==> answers[i].Gives?) || (forall i :: !Useful(answers, i))
  {
    if i, j: nat :| 0 <= i < |answers| && answers[i].Errs? && Useful(answers, j) {
      var run := LossyRun(answers, i, j);
    } else {
      forall run | Completes(answers, run)
        ensures ReturnsAll(answers, run)
      {
        CompleteFacts(answers, run);
        var s := After(answers, Init(|answers|), run);
        forall i | Useful(answers, i)
          ensures i in ReturnedBy(answers, run)
        {
          WithoutErrorsAllAreCollected(answers, s.errors, s.responses, i);
        }
      }
    }
  }

  // ---- the endpoints ----

  const OK: nat := 200

  /** How a header request to one proxy ends. */
  function HeaderAnswer(reply: Reply): Answer {
    if reply.HttpError? then Errs
    else if reply.code != OK && reply.bid.empty then Errs
    else Gives(!reply.bid.empty)
  }

  function Answers(replies: seq<Reply>): seq<Answer> {
    seq(|replies|, i requires 0 <= i < |replies| => HeaderAnswer(replies[i]))
  }

  function BidsOf(replies: seq<Reply>, from: seq<nat>): seq<SignedBid>
    requires forall k :: 0 <= k < |from| ==> Useful(Answers(replies), from[k])
  {
    seq(|from|, k requires 0 <= k < |from| && Useful(Answers(replies), from[k]) => replies[from[k]].bid)
  }

  /** The proxy has sent a header; it has failed. */
  predicate SentHeader(reply: Reply) {
    reply.HttpReply? && !reply.bid.empty
  }

  predicate HasFailed(reply: Reply) {
    reply.HttpError? || (reply.code != 200 && reply.bid.empty)
  }

  lemma AnswersMean(replies: seq<Reply>)
    ensures forall i: nat :: Useful(Answers(replies), i) <==> i < |replies| && SentHeader(replies[i])
    ensures forall i :: 0 <= i < |replies| ==> (Answers(replies)[i].Errs? <==> HasFailed(replies[i]))
  {
  }

  lemma BidsOfMembers(replies: seq<Reply>, from: seq<nat>)
    requires forall k :: 0 <= k < |from| ==> Useful(Answers(replies), from[k])
    ensures forall b :: b in BidsOf(replies, from) <==> exists i :: i in from && i < |replies| && replies[i].bid == b
  {
    hide Useful;
    AnswersMean(replies);
    forall i | i in from
      ensures i < |replies| && replies[i].bid in BidsOf(replies, from)
    {
      var k :| 0 <= k < |from| && from[k] == i;
      assert BidsOf(replies, from)[k] == replies[i].bid;
    }
    forall b | b in BidsOf(replies, from)
      ensures exists i :: i in from && i < |replies| && replies[i].bid == b
    {
      var k :| 0 <= k < |from| && BidsOf(replies, from)[k] == b;
      assert from[k] in from;
    }
  }

  /** The reading loop of a header request. What the goroutines leave in the channels depends on their
      interleaving `run`; the result is what that interleaving lets through, and an error only if
      that is nothing. */
  method GetHeader(replies: seq<Reply>, ghost run: seq<Action>, errors: seq<nat>, responses: seq<nat>)
    returns (r: Result<seq<SignedBid>, string>)
    requires Completes(Answers(replies), run)
    requires errors == After(Answers(replies), Init(|replies|), run).errors
    requires responses == After(Answers(replies), Init(|replies|), run).responses
    ensures forall k :: 0 <= k < |ReturnedBy(Answers(replies), run)| ==> Useful(Answers(replies), ReturnedBy(Answers(replies), run)[k])
    ensures r.Failure? <==> ReturnedBy(Answers(replies), run) == []
    ensures r.Success? ==> r.value == BidsOf(replies, ReturnedBy(Answers(replies), run))
    ensures r.Success? ==> forall b :: b in r.value ==> exists i :: 0 <= i < |replies| && SentHeader(replies[i]) && replies[i].bid == b
    ensures (forall i :: 0 <= i < |replies| ==> !HasFailed(replies[i])) ==>
      forall i :: 0 <= i < |replies| && SentHeader(replies[i]) ==> r.Success? && replies[i].bid in r.value
  {
    HeadersReturned(replies, run);
    ghost var answers := Answers(replies);
    CompleteFacts(answers, run);
    OnlyUsefulAreReturned(answers, run);
    assert ReturnedBy(answers, run) == Collected(answers, errors, responses);
    var res, lastError := ReadPairs(replies, errors, responses);
    if res == [] {
      return Failure(if lastError then "proxy error" else "no header returned");
    }
    return Success(res);
  }

  /** What an interleaving lets through are headers that were sent, and all of them if no proxy failed. */
  lemma HeadersReturned(replies: seq<Reply>, run: seq<Action>)
    requires Completes(Answers(replies), run)
    ensures var c := ReturnedBy(Answers(replies), run);
      && (forall k :: 0 <= k < |c| ==> Useful(Answers(replies), c[k]))
      && (forall b :: b in BidsOf(replies, c) ==> exists i :: 0 <= i < |replies| && SentHeader(replies[i]) && replies[i].bid == b)
      && ((forall i :: 0 <= i < |replies| ==> !HasFailed(replies[i])) ==>
            forall i :: 0 <= i < |replies| && SentHeader(replies[i]) ==> c != [] && replies[i].bid in BidsOf(replies, c))
  {
    hide Useful, Completes, ReturnedBy, SentHeader, HasFailed, BidsOf;
    var answers := Answers(replies);
    OnlyUsefulAreReturned(answers, run);
    AnswersMean(replies);
    var c := ReturnedBy(answers, run);
    BidsOfMembers(replies, c);
    NothingIsLostIff(answers);
    if forall i :: 0 <= i < |replies| ==> !HasFailed(replies[i]) {
      assert ReturnsAll(answers, run);
      forall i | 0 <= i < |replies| && SentHeader(replies[i])
        ensures c != [] && replies[i].bid in BidsOf(replies, c)
      {
        assert i in c;
      }
    }
  }

  method ReadPairs(replies: seq<Reply>, errors: seq<nat>, responses: seq<nat>) returns (res: seq<SignedBid>, lastError: bool)
    requires |errors| == |responses|
    requires forall i :: i in errors || i in responses ==> i < |replies|
    ensures var c := Collected(Answers(replies), errors, responses);
      && (forall k :: 0 <= k < |c| ==> Useful(Answers(replies), c[k]))
      && res == BidsOf(replies, c)
  {
    ghost var answers := Answers(replies);
    res, lastError := [], false;
    for k := 0 to |errors|
      invariant var c := Collected(answers, errors[..k], responses[..k]);
        && (forall j :: 0 <= j < |c| ==> Useful(answers, c[j]))
        && res == BidsOf(replies, c)
    {
      assert errors[k] in errors && responses[k] in responses;
      assert errors[..k + 1][..k] == errors[..k] && responses[..k + 1][..k] == responses[..k];
      ghost var before := Collected(answers, errors[..k], responses[..k]);
      assert Collected(answers, errors[..k + 1], responses[..k + 1])
          == if Answered(answers, errors[k]) && Useful(answers, responses[k]) then before + [responses[k]] else before;
      hide Collected;
      lastError := HeaderAnswer(replies[errors[k]]).Errs?;
      var reply := replies[responses[k]];
      if !lastError && reply.HttpReply? && !reply.bid.empty {
        res := res + [reply.bid];
      }
    }
    assert errors[..|errors|] == errors && responses[..|responses|] == responses;
  }

  /** Status, validator registration, and the relay module's registration: the first success ends the
      request, whatever the order of arrival. It fails only when all of at least one fail. */
  method FirstSuccess(outcomes: seq<Option<string>>) returns (err: Option<string>)
    ensures err.None? <==> outcomes == [] || None in outcomes
    ensures err.Some? ==> err in outcomes
  {
    err := None;
    var todo := outcomes;
    while todo != []
      invariant multiset(todo) <= multiset(outcomes)
      invariant None in outcomes ==> None in todo
      invariant err.Some? ==> err in outcomes
      invariant err.None? ==> todo == outcomes
      decreases |todo|
    {
      var i :| 0 <= i < |todo|;
      CutCounts(todo, i);
      assert todo[i] in multiset(outcomes);
      err := todo[i];
      if err.None? {
        return;
      }
      assert None in outcomes ==> None in multiset(Cut(todo, i));
      todo := Cut(todo, i);
    }
  }
}
