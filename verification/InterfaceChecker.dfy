/** Deciding whether a Go file declares a struct with all methods of an interface, by counting the
    matching methods of one receiver. */
module InterfaceChecker {

  import opened Wrappers

  /** Type expressions of the syntax tree. Of an interface the types of its methods are kept, of a
      function type its parameters, of a struct its fields, in order. */
  datatype Expr =
    | Name(name: string)
    | Selector(x: Expr, sel: string)
    | ArrayType(elt: Expr)
    | MapType(key: Expr)
    | InterfaceType(methods: seq<Expr>)
    | FuncType(params: seq<Expr>)
    | StructType(fields: seq<Expr>)
    | ChanType(elt: Expr)
    | Ellipsis(elt: Expr)
    | Paren(elt: Expr)
    | Pointer(elt: Expr)
    | OtherExpr

  /** The identity of a type: a name with a package prefix, none, or an index or type assertion that
      fails at run time. */
  datatype Identity = Known(name: string, prefix: string) | Unknown | Panics

  function IdentifyAstIdentity(e: Expr): Identity
    decreases e
  {
    match e
    case Name(name) => Known(name, "")
    case Selector(x, sel) => if x.Name? then Known(sel, x.name) else Panics
    case ArrayType(elt) => IdentifyAstIdentity(elt)
    case MapType(key) => IdentifyAstIdentity(key)
    case InterfaceType(methods) =>
      if methods == [] || !methods[0].FuncType? || methods[0].params == [] then Panics
      else IdentifyAstIdentity(methods[0].params[0])
    case FuncType(params) => if params == [] then Panics else IdentifyAstIdentity(params[0])
    case StructType(fields) => if fields == [] then Panics else IdentifyAstIdentity(fields[0])
    case ChanType(elt) => IdentifyAstIdentity(elt)
    case Ellipsis(elt) => IdentifyAstIdentity(elt)
    case Paren(elt) => IdentifyAstIdentity(elt)
    case Pointer(elt) => IdentifyAstIdentity(elt)
    case OtherExpr => Unknown
  }

  /** Receiver types: T, *T (None when what is pointed to is not a plain name), anything else. */
  datatype Receiver = Ident(name: string) | Star(target: Option<string>) | OtherReceiver

  /** A declaration; results is None when the function has no result list at all. */
  datatype Decl =
    | FuncDecl(name: string, recv: Option<seq<Receiver>>, params: seq<Expr>, results: Option<seq<Expr>>)
    | OtherDecl

  datatype Expected = Expected(name: string, pkgPath: string)

  datatype MethodInfo = MethodInfo(name: string, args: seq<Expected>, outcomes: seq<Expected>)

  type Imports = map<string, string>

  /** What comparing can come to; Crash is a run-time panic. */
  datatype Comparison = Same | Different | Crash

  // ---- signatures ----

  function PathOf(imports: Imports, prefix: string): string {
    if prefix in imports then imports[prefix] else ""
  }

  function CompareType(imports: Imports, t: Expr, e: Expected): Comparison {
    match IdentifyAstIdentity(t)
    case Panics => Crash
    case Unknown => Different
    case Known(name, prefix) =>
      if name != e.name then Different
      else if e.pkgPath != "" && prefix == "" then Different
      else if prefix != "" && e.pkgPath != "" && PathOf(imports, prefix) != e.pkgPath then Different
      else Same
  }

  /** The type expression that names a type: what an array, channel, pointer or the like is made of, the key
      of a map, the first parameter of a function or of the first method of an interface, the first field
      of a struct. */
  function Core(e: Expr): Expr
    decreases e
  {
    match e
    case ArrayType(elt) => Core(elt)
    case ChanType(elt) => Core(elt)
    case Ellipsis(elt) => Core(elt)
    case Paren(elt) => Core(elt)
    case Pointer(elt) => Core(elt)
    case MapType(key) => Core(key)
    case FuncType(params) => if params == [] then e else Core(params[0])
    case StructType(fields) => if fields == [] then e else Core(fields[0])
    case InterfaceType(methods) =>
      if methods != [] && methods[0].FuncType? && methods[0].params != [] then Core(methods[0].params[0]) else e
    case _ => e
  }

  /** The type has the expected name, and comes from the expected package if there is one. */
  predicate TypeIs(imports: Imports, t: Expr, e: Expected) {
    match Core(t)
    case Name(name) => name == e.name && e.pkgPath == ""
    case Selector(x, sel) =>
      && x.Name? && sel == e.name
      && (e.pkgPath == "" || (x.name != "" && x.name in imports && imports[x.name] == e.pkgPath))
    case _ => false
  }

  /** Looking for the name runs past an empty list, or meets a selector on something that is no name. */
  predicate HasNoName(t: Expr) {
    match Core(t)
    case Name(_) => false
    case Selector(x, _) => !x.Name?
    case OtherExpr => false
    case _ => true
  }

  lemma {:induction false} IdentityOfCore(t: Expr)
    ensures IdentifyAstIdentity(t) ==
      match Core(t)
      case Name(name) => Known(name, "")
      case Selector(x, sel) => if x.Name? then Known(sel, x.name) else Panics
      case OtherExpr => Unknown
      case _ => Panics
    decreases t
  {
    match t
    case ArrayType(elt) => IdentityOfCore(elt);
    case ChanType(elt) => IdentityOfCore(elt);
    case Ellipsis(elt) => IdentityOfCore(elt);
    case Paren(elt) => IdentityOfCore(elt);
    case Pointer(elt) => IdentityOfCore(elt);
    case MapType(key) => IdentityOfCore(key);
    case FuncType(params) => if params != [] { IdentityOfCore(params[0]); }
    case StructType(fields) => if fields != [] { IdentityOfCore(fields[0]); }
    case InterfaceType(methods) =>
      if methods != [] && methods[0].FuncType? && methods[0].params != [] {
        IdentityOfCore(methods[0].params[0]);
      }
    case _ =>
  }

  /** Comparing one type: it agrees exactly with the expected name and package, and crashes exactly when it
      has no name to compare. */
  lemma CompareTypeMeans(imports: Imports, t: Expr, e: Expected)
    ensures CompareType(imports, t, e) == Same <==> TypeIs(imports, t, e)
    ensures CompareType(imports, t, e) == Crash <==> HasNoName(t)
  {
    IdentityOfCore(t);
  }

  predicate AgreeUpTo(imports: Imports, ts: seq<Expr>, es: seq<Expected>, n: nat)
    requires n <= |ts| == |es|
  {
    forall i :: 0 <= i < n ==> CompareType(imports, ts[i], es[i]) == Same
  }

  /** The lists agree. */
  predicate TypesAgree(imports: Imports, ts: seq<Expr>, es: seq<Expected>) {
    |ts| == |es| && AgreeUpTo(imports, ts, es, |ts|)
  }

  /** The comparison meets a type it cannot identify before it meets one that differs. */
  predicate TypesCrash(imports: Imports, ts: seq<Expr>, es: seq<Expected>) {
    |ts| == |es| &&
    exists i :: 0 <= i < |ts| && CompareType(imports, ts[i], es[i]) == Crash && AgreeUpTo(imports, ts, es, i)
  }

  /** The comparison loop over one list: it stops at the first type that does not agree. */
  method CompareTypes(imports: Imports, ts: seq<Expr>, es: seq<Expected>) returns (c: Comparison)
    ensures c == Same <==> TypesAgree(imports, ts, es)
    ensures c == Crash <==> TypesCrash(imports, ts, es)
    ensures c == Same <==> TypesFit(imports, ts, es)
    ensures c == Crash <==>
      |ts| == |es| && exists i :: 0 <= i < |ts| && HasNoName(ts[i]) && forall j :: 0 <= j < i ==> TypeIs(imports, ts[j], es[j])
  {
    hide CompareType, TypeIs, HasNoName;
    TypesAgreeMeans(imports, ts, es);
    TypesCrashMeans(imports, ts, es);
    if |ts| != |es| {
      return Different;
    }
    for i := 0 to |ts|
      invariant AgreeUpTo(imports, ts, es, i)
    {
      var one := CompareType(imports, ts[i], es[i]);
      if one != Same {
        return one;
      }
    }
    return Same;
  }

  /** Arguments first; then a method without results crashes the comparison. */
  ghost function CompareMethodSignature(imports: Imports, d: Decl, m: MethodInfo): Comparison
    requires d.FuncDecl?
  {
    if TypesCrash(imports, d.params, m.args) then Crash
    else if !TypesAgree(imports, d.params, m.args) then Different
    else if d.results.None? || TypesCrash(imports, d.results.value, m.outcomes) then Crash
    else if TypesAgree(imports, d.results.value, m.outcomes) then Same
    else Different
  }

  method CompareSignatures(imports: Imports, d: Decl, m: MethodInfo) returns (c: Comparison)
    requires d.FuncDecl?
    ensures c == CompareMethodSignature(imports, d, m)
  {
    c := CompareTypes(imports, d.params, m.args);
    if c == Same {
      if d.results.None? {
        return Crash;
      }
      c := CompareTypes(imports, d.results.value, m.outcomes);
    }
  }

  // ---- which method belongs to which receiver ----

  /** The receiver under which a declaration is looked at; None when it is passed over. The inner
      option is None when the receiver has no name. */
  function ReceiverOf(d: Decl): (r: Option<Option<string>>)
    ensures r.Some? ==> d.FuncDecl?
  {
    if !d.FuncDecl? || d.recv.None? || |d.recv.value| != 1 then None
    else
      match d.recv.value[0]
      case Ident(name) => Some(Some(name))
      case Star(target) => Some(target)
      case OtherReceiver => None
  }

  ghost predicate Hit(imports: Imports, d: Decl, m: MethodInfo) {
    ReceiverOf(d).Some? && d.name == m.name && CompareMethodSignature(imports, d, m) == Same
  }

  ghost predicate CrashesOn(imports: Imports, d: Decl, m: MethodInfo) {
    ReceiverOf(d).Some? && d.name == m.name && CompareMethodSignature(imports, d, m) == Crash
  }

  /** The interface methods that declaration d provides. */
  ghost function HitSet(imports: Imports, methods: seq<MethodInfo>, d: Decl): set<nat> {
    set k: nat | k < |methods| && Hit(imports, d, methods[k])
  }

  /** The receivers of the matches that d has among the first k methods, one entry a match. */
  ghost function HitsOf(imports: Imports, methods: seq<MethodInfo>, d: Decl, k: nat): seq<Option<string>>
    requires k <= |methods|
  {
    if k == 0 then []
    else HitsOf(imports, methods, d, k - 1) + if Hit(imports, d, methods[k - 1]) then [ReceiverOf(d).value] else []
  }

  /** ... and those of the first n declarations, in the order of the loops. */
  ghost function Hits(imports: Imports, methods: seq<MethodInfo>, decls: seq<Decl>, n: nat): seq<Option<string>>
    requires n <= |decls|
  {
    if n == 0 then []
    else Hits(imports, methods, decls, n - 1) + HitsOf(imports, methods, decls[n - 1], |methods|)
  }

  function Count(hits: seq<Option<string>>, r: Option<string>): nat {
    multiset(hits)[r]
  }

  /** What the check comes to. Only the receiver of the first match is ever counted. */
  datatype Verdict = Found(receiver: string) | NotFound | Crashed

  ghost predicate ComparesSafely(imports: Imports, methods: seq<MethodInfo>, d: Decl) {
    forall k :: 0 <= k < |methods| ==> !CrashesOn(imports, d, methods[k])
  }

  ghost predicate SomeComparisonCrashes(imports: Imports, methods: seq<MethodInfo>, decls: seq<Decl>) {
    exists i :: 0 <= i < |decls| && !ComparesSafely(imports, methods, decls[i])
  }

  predicate NamelessCrash(methods: seq<MethodInfo>, hits: seq<Option<string>>) {
    None in hits && (|hits| >= 2 || |methods| == 1)
  }

  predicate FirstIsComplete(methods: seq<MethodInfo>, hits: seq<Option<string>>) {
    hits != [] && hits[0].Some? && Count(hits, hits[0]) == |methods|
  }

  lemma {:induction false} HitsOfGrow(imports: Imports, methods: seq<MethodInfo>, d: Decl, k: nat, n: nat)
    requires k <= n <= |methods|
    ensures HitsOf(imports, methods, d, k) <= HitsOf(imports, methods, d, n)
  {
    if k < n {
      HitsOfGrow(imports, methods, d, k, n - 1);
    }
  }

  lemma {:induction false} HitsGrow(imports: Imports, methods: seq<MethodInfo>, decls: seq<Decl>, i: nat, k: nat, n: nat)
    requires i < n <= |decls| && k <= |methods|
    ensures Hits(imports, methods, decls, i) + HitsOf(imports, methods, decls[i], k) <= Hits(imports, methods, decls, n)
  {
    hide HitsOf;
    if i == n - 1 {
      HitsOfGrow(imports, methods, decls[i], k, |methods|);
    } else {
      HitsGrow(imports, methods, decls, i, k, n - 1);
    }
  }

  /** The state of the loops: the map never has more than one key, the receiver of the first match. */
  predicate StateOk(hits: seq<Option<string>>, first: Option<Option<string>>, count: nat) {
    && (first.None? <==> hits == [])
    && (first.Some? ==> hits[0] == first.value && count == Count(hits, first.value))
    && (None in hits ==> |hits| == 1)
  }

  /** The verdict of the check, from the matches it meets. */
  ghost function VerdictOf(imports: Imports, methods: seq<MethodInfo>, decls: seq<Decl>): Verdict {
    var hits := Hits(imports, methods, decls, |decls|);
    if SomeComparisonCrashes(imports, methods, decls) || NamelessCrash(methods, hits) then Crashed
    else if FirstIsComplete(methods, hits) then Found(hits[0].value)
    else NotFound
  }

  /** Receiver r is reported if and only if it implements the interface, owns the first match in the
      file, and nothing crashes on the way: no comparison, and no match of a nameless receiver. */
  method ImplementsInterface(imports: Imports, methods: seq<MethodInfo>, decls: seq<Decl>) returns (v: Verdict)
    ensures v == VerdictOf(imports, methods, decls)
    ensures DistinctDecls(decls) ==>
      forall r :: v == Found(r) <==> Reported(imports, methods, decls, r)
  {
    hide StateOk, NamelessCrash, FirstIsComplete, Count, Hits, SomeComparisonCrashes, Reported, DistinctDecls;
    if DistinctDecls(decls) {
      forall r
        ensures VerdictOf(imports, methods, decls) == Found(r) <==> Reported(imports, methods, decls, r)
      {
        FoundIff(imports, methods, decls, r);
      }
    }
    var crashed, first, count := CheckDecls(imports, methods, decls);
    if crashed {
      return Crashed;
    }
    AllSeen(methods, Hits(imports, methods, decls, |decls|), first, count);
    if first.Some? && count == |methods| {
      return if first.value.None? then Crashed else Found(first.value.value);
    }
    return NotFound;
  }

  /** The outer loop, over the declarations of the file. */
  method CheckDecls(imports: Imports, methods: seq<MethodInfo>, decls: seq<Decl>)
    returns (crashed: bool, first: Option<Option<string>>, count: nat)
    ensures crashed ==>
      SomeComparisonCrashes(imports, methods, decls) || NamelessCrash(methods, Hits(imports, methods, decls, |decls|))
    ensures !crashed ==>
      StateOk(Hits(imports, methods, decls, |decls|), first, count) && !SomeComparisonCrashes(imports, methods, decls)
  {
    hide ComparesSafely, HitsOf, StateOk, NamelessCrash, Hits, SomeComparisonCrashes;
    crashed, first, count := false, None, 0;
    NoHitsYet(imports, methods, decls);
    for i := 0 to |decls|
      invariant !crashed && StateOk(Hits(imports, methods, decls, i), first, count)
      invariant forall j :: 0 <= j < i ==> ComparesSafely(imports, methods, decls[j])
    {
      crashed, first, count := CheckDecl(imports, methods, decls[i], Hits(imports, methods, decls, i), first, count);
      if crashed {
        CrashIsFinal(imports, methods, decls, i);
        return;
      }
      HitsNext(imports, methods, decls, i);
    }
    SafeThroughout(imports, methods, decls);
  }

  lemma NoHitsYet(imports: Imports, methods: seq<MethodInfo>, decls: seq<Decl>)
    ensures StateOk(Hits(imports, methods, decls, 0), None, 0)
  {
  }

  lemma HitsNext(imports: Imports, methods: seq<MethodInfo>, decls: seq<Decl>, i: nat)
    requires i < |decls|
    ensures Hits(imports, methods, decls, i + 1)
         == Hits(imports, methods, decls, i) + HitsOf(imports, methods, decls[i], |methods|)
  {
  }

  lemma SafeThroughout(imports: Imports, methods: seq<MethodInfo>, decls: seq<Decl>)
    requires forall j :: 0 <= j < |decls| ==> ComparesSafely(imports, methods, decls[j])
    ensures !SomeComparisonCrashes(imports, methods, decls)
  {
  }

  /** A crash in declaration i is a crash of the whole check. */
  lemma CrashIsFinal(imports: Imports, methods: seq<MethodInfo>, decls: seq<Decl>, i: nat)
    requires i < |decls|
    requires var hits := Hits(imports, methods, decls, i) + HitsOf(imports, methods, decls[i], |methods|);
      !ComparesSafely(imports, methods, decls[i]) || (None in hits && |hits| >= 2)
    ensures SomeComparisonCrashes(imports, methods, decls) || NamelessCrash(methods, Hits(imports, methods, decls, |decls|))
  {
    hide Hits, HitsOf, ComparesSafely;
    HitsGrow(imports, methods, decls, i, |methods|, |decls|);
    CrashSpreads(methods, Hits(imports, methods, decls, i) + HitsOf(imports, methods, decls[i], |methods|),
                 Hits(imports, methods, decls, |decls|));
  }

  lemma AllSeen(methods: seq<MethodInfo>, hits: seq<Option<string>>, first: Option<Option<string>>, count: nat)
    requires StateOk(hits, first, count)
    ensures NamelessCrash(methods, hits) <==> first == Some(None) && count == |methods|
    ensures FirstIsComplete(methods, hits) <==> first.Some? && first.value.Some? && count == |methods|
    ensures first.Some? ==> hits != [] && hits[0] == first.value
  {
    if None in hits {
      assert hits == [None];
      assert multiset(hits) == multiset{None};
    }
  }

  /** The inner loop, over the interface methods. */
  method CheckDecl(imports: Imports, methods: seq<MethodInfo>, d: Decl, ghost before: seq<Option<string>>,
                   first: Option<Option<string>>, count: nat)
    returns (crashed: bool, newFirst: Option<Option<string>>, newCount: nat)
    requires StateOk(before, first, count)
    ensures var hits := before + HitsOf(imports, methods, d, |methods|);
      if crashed then !ComparesSafely(imports, methods, d) || (None in hits && |hits| >= 2)
      else StateOk(hits, newFirst, newCount) && ComparesSafely(imports, methods, d)
  {
    hide CompareMethodSignature, StateOk;
    crashed, newFirst, newCount := false, first, count;
    assert before + HitsOf(imports, methods, d, 0) == before;
    for k := 0 to |methods|
      invariant !crashed && StateOk(before + HitsOf(imports, methods, d, k), newFirst, newCount)
      invariant forall j :: 0 <= j < k ==> !CrashesOn(imports, d, methods[j])
    {
      ghost var hits := before + HitsOf(imports, methods, d, k);
      if ReceiverOf(d).Some? && d.name == methods[k].name {
        var comparison := CompareSignatures(imports, d, methods[k]);
        if comparison.Crash? {
          assert CrashesOn(imports, d, methods[k]);
          crashed := true;
          return;
        }
        if comparison.Same? {
          var receiver := ReceiverOf(d).value;
          assert before + HitsOf(imports, methods, d, k + 1) == hits + [receiver];
          AnotherHit(hits, newFirst, newCount, receiver);
          if newFirst.None? {
            newFirst, newCount := Some(receiver), 1;
          } else if newFirst.value.None? || receiver.None? {
            HitsOfGrow(imports, methods, d, k + 1, |methods|);
            PrefixKeeps(hits + [receiver], before + HitsOf(imports, methods, d, |methods|));
            crashed := true;
            return;
          } else if newFirst.value == receiver {
            newCount := newCount + 1;
          }
        } else {
          assert before + HitsOf(imports, methods, d, k + 1) == hits;
        }
      } else {
        assert before + HitsOf(imports, methods, d, k + 1) == hits;
      }
    }
  }

  lemma PrefixKeeps(some: seq<Option<string>>, all: seq<Option<string>>)
    requires some <= all
    ensures None in some ==> None in all
  {
    if None in some {
      var i :| 0 <= i < |some| && some[i] == None;
      assert all[i] == None;
    }
  }

  lemma AnotherHit(hits: seq<Option<string>>, first: Option<Option<string>>, count: nat, receiver: Option<string>)
    requires StateOk(hits, first, count)
    ensures first.None? ==> StateOk(hits + [receiver], Some(receiver), 1)
    ensures first.Some? && first.value.Some? && receiver.Some? ==>
      StateOk(hits + [receiver], first, if first.value == receiver then count + 1 else count)
    ensures first.Some? && (first.value.None? || receiver.None?) ==> None in hits + [receiver] && |hits + [receiver]| >= 2
  {
    assert multiset(hits + [receiver]) == multiset(hits) + multiset{receiver};
    if first.Some? && first.value.None? {
      assert (hits + [receiver])[0] == None;
    }
  }

  lemma CrashSpreads(methods: seq<MethodInfo>, some: seq<Option<string>>, all: seq<Option<string>>)
    requires some <= all
    ensures None in some && |some| >= 2 ==> NamelessCrash(methods, all)
  {
    PrefixKeeps(some, all);
  }

  // ---- what counting proves ----

  predicate HasNamedReceiver(d: Decl) {
    ReceiverOf(d).Some? && ReceiverOf(d).value.Some?
  }

  /** No named receiver declares a method twice, as Go demands. */
  ghost predicate DistinctDecls(decls: seq<Decl>) {
    forall i, j :: 0 <= i < j < |decls| && HasNamedReceiver(decls[i]) && ReceiverOf(decls[i]) == ReceiverOf(decls[j]) ==>
      decls[i].name != decls[j].name
  }

  /** The interface methods that receiver r has among the first n declarations. */
  ghost function MatchedBy(imports: Imports, methods: seq<MethodInfo>, decls: seq<Decl>, r: string, n: nat): set<nat>
    requires n <= |decls|
  {
    if n == 0 then {}
    else
      MatchedBy(imports, methods, decls, r, n - 1)
      + if ReceiverOf(decls[n - 1]) == Some(Some(r)) then HitSet(imports, methods, decls[n - 1]) else {}
  }

  /** The declaration is a method of the struct r, on its value or on a pointer to it. */
  predicate IsMethodOf(d: Decl, r: string) {
    d.FuncDecl? && (d.recv == Some([Ident(r)]) || d.recv == Some([Star(Some(r))]))
  }

  predicate TypesFit(imports: Imports, ts: seq<Expr>, es: seq<Expected>) {
    |ts| == |es| && forall i :: 0 <= i < |ts| ==> TypeIs(imports, ts[i], es[i])
  }

  /** The declaration has the name, the parameters and the results of the interface method. */
  predicate Fits(imports: Imports, d: Decl, m: MethodInfo) {
    && d.FuncDecl? && d.name == m.name
    && TypesFit(imports, d.params, m.args)
    && d.results.Some? && TypesFit(imports, d.results.value, m.outcomes)
  }

  ghost predicate HasMethod(imports: Imports, decls: seq<Decl>, r: string, m: MethodInfo) {
    exists d :: d in decls && IsMethodOf(d, r) && Fits(imports, d, m)
  }

  /** Receiver r has a method for every interface method. */
  ghost predicate Implements(imports: Imports, methods: seq<MethodInfo>, decls: seq<Decl>, r: string) {
    forall k :: 0 <= k < |methods| ==> HasMethod(imports, decls, r, methods[k])
  }

  lemma HasMethodMeans(imports: Imports, decls: seq<Decl>, r: string, m: MethodInfo)
    ensures HasMethod(imports, decls, r, m) <==> exists d :: d in decls && ReceiverOf(d) == Some(Some(r)) && Hit(imports, d, m)
  {
    hide Hit, ReceiverOf, Fits, IsMethodOf;
    forall d | d in decls
      ensures ReceiverOf(d) == Some(Some(r)) && Hit(imports, d, m) <==> IsMethodOf(d, r) && Fits(imports, d, m)
    {
      HitMeans(imports, d, m, r);
    }
  }

  lemma TypesAgreeMeans(imports: Imports, ts: seq<Expr>, es: seq<Expected>)
    ensures TypesAgree(imports, ts, es) <==> TypesFit(imports, ts, es)
    ensures TypesAgree(imports, ts, es) ==> !TypesCrash(imports, ts, es)
  {
    hide CompareType, TypeIs;
    if |ts| == |es| {
      forall i | 0 <= i < |ts|
        ensures CompareType(imports, ts[i], es[i]) == Same <==> TypeIs(imports, ts[i], es[i])
      {
        CompareTypeMeans(imports, ts[i], es[i]);
      }
    }
  }

  lemma TypesCrashMeans(imports: Imports, ts: seq<Expr>, es: seq<Expected>)
    ensures TypesCrash(imports, ts, es) <==>
      |ts| == |es| && exists i :: 0 <= i < |ts| && HasNoName(ts[i]) && forall j :: 0 <= j < i ==> TypeIs(imports, ts[j], es[j])
  {
    hide CompareType, TypeIs, HasNoName;
    if |ts| == |es| {
      forall i | 0 <= i < |ts|
        ensures CompareType(imports, ts[i], es[i]) == Same <==> TypeIs(imports, ts[i], es[i])
        ensures CompareType(imports, ts[i], es[i]) == Crash <==> HasNoName(ts[i])
      {
        CompareTypeMeans(imports, ts[i], es[i]);
      }
    }
  }

  lemma HitMeans(imports: Imports, d: Decl, m: MethodInfo, r: string)
    ensures ReceiverOf(d) == Some(Some(r)) <==> IsMethodOf(d, r)
    ensures ReceiverOf(d) == Some(None) <==> d.FuncDecl? && d.recv == Some([Star(None)])
    ensures ReceiverOf(d) == Some(Some(r)) ==> (Hit(imports, d, m) <==> Fits(imports, d, m))
  {
    hide TypesAgree, TypesFit, TypesCrash;
    if d.FuncDecl? {
      TypesAgreeMeans(imports, d.params, m.args);
      if d.results.Some? {
        TypesAgreeMeans(imports, d.results.value, m.outcomes);
      }
      if ReceiverOf(d).Some? {
        assert d.recv.value == [d.recv.value[0]];
      }
    }
  }

  lemma {:induction false} MatchedByMeaning(imports: Imports, methods: seq<MethodInfo>, decls: seq<Decl>, r: string, n: nat, k: nat)
    requires n <= |decls|
    ensures k in MatchedBy(imports, methods, decls, r, n) <==>
      k < |methods| && exists d :: d in decls[..n] && ReceiverOf(d) == Some(Some(r)) && Hit(imports, d, methods[k])
  {
    hide Hit, ReceiverOf;
    if n > 0 {
      MatchedByMeaning(imports, methods, decls, r, n - 1, k);
      assert decls[..n] == decls[..n - 1] + [decls[n - 1]];
      assert decls[n - 1] in decls[..n];
    }
  }

  lemma {:induction false} HitsOfCount(imports: Imports, methods: seq<MethodInfo>, d: Decl, k: nat)
    requires k <= |methods|
    ensures |HitsOf(imports, methods, d, k)| == |HitSet(imports, methods[..k], d)|
    ensures forall h :: h in HitsOf(imports, methods, d, k) ==> ReceiverOf(d) == Some(h)
  {
    hide CompareMethodSignature, ReceiverOf, Hit;
    if k == 0 {
      assert HitSet(imports, methods[..0], d) == {};
    } else {
      HitsOfCount(imports, methods, d, k - 1);
      OneMoreMethod(imports, methods, d, k);
      hide HitSet;
      HitHasReceiver(imports, d, methods[k - 1]);
    }
  }

  lemma HitHasReceiver(imports: Imports, d: Decl, m: MethodInfo)
    ensures Hit(imports, d, m) ==> ReceiverOf(d).Some?
  {
  }

  lemma OneMoreMethod(imports: Imports, methods: seq<MethodInfo>, d: Decl, k: nat)
    requires 0 < k <= |methods|
    ensures |HitSet(imports, methods[..k], d)|
         == |HitSet(imports, methods[..k - 1], d)| + if Hit(imports, d, methods[k - 1]) then 1 else 0
  {
    hide Hit;
    var before, now := HitSet(imports, methods[..k - 1], d), HitSet(imports, methods[..k], d);
    assert k - 1 !in before;
    assert now == before + if Hit(imports, d, methods[k - 1]) then {k - 1} else {};
  }

  /** Two declarations of one receiver have different names, so they match different methods. */
  lemma MatchesAreDisjoint(imports: Imports, methods: seq<MethodInfo>, decls: seq<Decl>, r: string, n: nat)
    requires DistinctDecls(decls) && n < |decls| && ReceiverOf(decls[n]) == Some(Some(r))
    ensures MatchedBy(imports, methods, decls, r, n) !! HitSet(imports, methods, decls[n])
  {
    hide CompareMethodSignature, ReceiverOf;
    forall k | k in MatchedBy(imports, methods, decls, r, n)
      ensures k !in HitSet(imports, methods, decls[n])
    {
      MatchedByMeaning(imports, methods, decls, r, n, k);
      var d :| d in decls[..n] && ReceiverOf(d) == Some(Some(r)) && Hit(imports, d, methods[k]);
      var i :| 0 <= i < n && decls[i] == d;
      assert decls[i].name != decls[n].name;
    }
  }

  /** The count of a receiver is the number of interface methods it has. */
  lemma {:induction false} CountIsExact(imports: Imports, methods: seq<MethodInfo>, decls: seq<Decl>, r: string, n: nat)
    requires DistinctDecls(decls) && n <= |decls|
    ensures Count(Hits(imports, methods, decls, n), Some(r)) == |MatchedBy(imports, methods, decls, r, n)|
  {
    hide HitSet, Hits, MatchedBy, Count, ReceiverOf, DistinctDecls;
    if n == 0 {
      NothingCounted(imports, methods, decls, r);
    } else {
      CountIsExact(imports, methods, decls, r, n - 1);
      CountOneMore(imports, methods, decls, r, n);
      MatchedOneMore(imports, methods, decls, r, n);
    }
  }

  lemma NothingCounted(imports: Imports, methods: seq<MethodInfo>, decls: seq<Decl>, r: string)
    ensures Count(Hits(imports, methods, decls, 0), Some(r)) == 0 && MatchedBy(imports, methods, decls, r, 0) == {}
  {
    assert Hits(imports, methods, decls, 0) == [];
  }

  lemma CountOneMore(imports: Imports, methods: seq<MethodInfo>, decls: seq<Decl>, r: string, n: nat)
    requires 0 < n <= |decls|
    ensures Count(Hits(imports, methods, decls, n), Some(r)) == Count(Hits(imports, methods, decls, n - 1), Some(r))
      + if ReceiverOf(decls[n - 1]) == Some(Some(r)) then |HitSet(imports, methods, decls[n - 1])| else 0
  {
    hide HitSet, HitsOf, ReceiverOf;
    var d := decls[n - 1];
    var before, more := Hits(imports, methods, decls, n - 1), HitsOf(imports, methods, d, |methods|);
    HitsOfCount(imports, methods, d, |methods|);
    assert methods[..|methods|] == methods;
    AllEqualCount(more, Some(r));
    assert multiset(before + more) == multiset(before) + multiset(more);
  }

  lemma MatchedOneMore(imports: Imports, methods: seq<MethodInfo>, decls: seq<Decl>, r: string, n: nat)
    requires DistinctDecls(decls) && 0 < n <= |decls|
    ensures |MatchedBy(imports, methods, decls, r, n)| == |MatchedBy(imports, methods, decls, r, n - 1)|
      + if ReceiverOf(decls[n - 1]) == Some(Some(r)) then |HitSet(imports, methods, decls[n - 1])| else 0
  {
    hide DistinctDecls, HitSet, ReceiverOf;
    if ReceiverOf(decls[n - 1]) == Some(Some(r)) {
      MatchesAreDisjoint(imports, methods, decls, r, n - 1);
    }
  }

  lemma {:induction false} AllEqualCount(hits: seq<Option<string>>, r: Option<string>)
    ensures (forall h :: h in hits ==> h == r) ==> Count(hits, r) == |hits|
    ensures (forall h :: h in hits ==> h != r) ==> Count(hits, r) == 0
  {
    if hits != [] {
      var init, last := hits[..|hits| - 1], hits[|hits| - 1];
      assert hits == init + [last];
      assert multiset(hits) == multiset(init) + multiset{last};
      assert forall h :: h in init ==> h in hits;
      assert last in hits;
      AllEqualCount(init, r);
    }
  }

  lemma {:induction false} FullSet(s: set<nat>, n: nat)
    requires forall k :: k in s ==> k < n
    ensures |s| <= n && (|s| == n <==> forall k: nat :: k < n ==> k in s)
  {
    if n == 0 {
      assert s == {};
    } else {
      assert s - {n - 1} == s || |s - {n - 1}| == |s| - 1;
      FullSet(s - {n - 1}, n - 1);
    }
  }

  lemma CompleteMeansImplements(imports: Imports, methods: seq<MethodInfo>, decls: seq<Decl>, r: string)
    requires DistinctDecls(decls)
    ensures Count(Hits(imports, methods, decls, |decls|), Some(r)) == |methods| <==> Implements(imports, methods, decls, r)
  {
    hide Hit, ReceiverOf, HasMethod, DistinctDecls, Count, Hits, MatchedBy;
    var s := MatchedBy(imports, methods, decls, r, |decls|);
    CountIsExact(imports, methods, decls, r, |decls|);
    assert decls[..|decls|] == decls;
    forall k: nat
      ensures k in s <==> k < |methods| && HasMethod(imports, decls, r, methods[k])
    {
      MatchedByMeaning(imports, methods, decls, r, |decls|, k);
      if k < |methods| {
        HasMethodMeans(imports, decls, r, methods[k]);
      }
    }
    FullSet(s, |methods|);
  }

  ghost predicate OwnsFirstMatch(imports: Imports, methods: seq<MethodInfo>, decls: seq<Decl>, r: string) {
    var hits := Hits(imports, methods, decls, |decls|);
    hits != [] && hits[0] == Some(r)
  }

  ghost predicate ChecksSafely(imports: Imports, methods: seq<MethodInfo>, decls: seq<Decl>) {
    !SomeComparisonCrashes(imports, methods, decls) && None !in Hits(imports, methods, decls, |decls|)
  }

  ghost predicate Reported(imports: Imports, methods: seq<MethodInfo>, decls: seq<Decl>, r: string) {
    && Implements(imports, methods, decls, r)
    && OwnsFirstMatch(imports, methods, decls, r)
    && ChecksSafely(imports, methods, decls)
  }

  /** Sound and complete by counting: the check reports r exactly when r has every method of the
      interface, the first match in the file is one of its own, and nothing crashes. */
  lemma FoundIff(imports: Imports, methods: seq<MethodInfo>, decls: seq<Decl>, r: string)
    requires DistinctDecls(decls)
    ensures VerdictOf(imports, methods, decls) == Found(r) <==> Reported(imports, methods, decls, r)
  {
    hide Implements, DistinctDecls, Hits, SomeComparisonCrashes, Count, NamelessCrash, FirstIsComplete;
    CompleteMeansImplements(imports, methods, decls, r);
    CompleteHits(methods, Hits(imports, methods, decls, |decls|), r);
  }

  lemma CompleteHits(methods: seq<MethodInfo>, hits: seq<Option<string>>, r: string)
    ensures !NamelessCrash(methods, hits) && FirstIsComplete(methods, hits) && hits[0] == Some(r)
       <==> hits != [] && hits[0] == Some(r) && None !in hits && Count(hits, Some(r)) == |methods|
    ensures FirstIsComplete(methods, hits) ==> hits != [] && hits[0].Some?
  {
    hide Count;
    if hits != [] && hits[0] == Some(r) && None in hits {
      var i :| 0 <= i < |hits| && hits[i] == None;
      assert i != 0;
    }
  }

  /** A method that returns the empty interface crashes the check: it has no method to look into. */
  lemma EmptyInterfaceCrashes(imports: Imports, methods: seq<MethodInfo>, decls: seq<Decl>, i: nat, k: nat)
    requires i < |decls| && k < |methods| && ReceiverOf(decls[i]).Some? && decls[i].name == methods[k].name
    requires TypesAgree(imports, decls[i].params, methods[k].args)
    requires decls[i].results == Some([InterfaceType([])]) && |methods[k].outcomes| == 1
    ensures VerdictOf(imports, methods, decls) == Crashed
  {
    var ts, es := [InterfaceType([])], methods[k].outcomes;
    assert CompareType(imports, ts[0], es[0]) == Crash && AgreeUpTo(imports, ts, es, 0);
    assert CrashesOn(imports, decls[i], methods[k]);
    hide CrashesOn;
    assert !ComparesSafely(imports, methods, decls[i]);
  }

  /** When all matching methods of the file belong to one receiver and no comparison crashes, that
      receiver is reported. */
  lemma OneReceiverIsFound(imports: Imports, methods: seq<MethodInfo>, decls: seq<Decl>, r: string)
    requires DistinctDecls(decls) && methods != [] && Implements(imports, methods, decls, r)
    requires forall h :: h in Hits(imports, methods, decls, |decls|) ==> h == Some(r)
    requires !SomeComparisonCrashes(imports, methods, decls)
    ensures VerdictOf(imports, methods, decls) == Found(r)
  {
    var hits := Hits(imports, methods, decls, |decls|);
    CompleteMeansImplements(imports, methods, decls, r);
    FoundIff(imports, methods, decls, r);
    hide Implements, DistinctDecls, Hits, SomeComparisonCrashes, VerdictOf;
    assert Some(r) in multiset(hits);
    assert hits[0] in hits;
    assert None !in hits;
  }

  /** An implementing receiver that is missed: a method of another one matches first. */
  lemma ImplementerIsMissed(q: string, r: string)
    requires q != r
    ensures var m, n := MethodInfo("Name", [], []), MethodInfo("Start", [], []);
      var decls := [Method("Name", q), Method("Name", r), Method("Start", r)];
      && DistinctDecls(decls) && Implements(map[], [m, n], decls, r)
      && VerdictOf(map[], [m, n], decls) != Found(r)
  {
    var m, n := MethodInfo("Name", [], []), MethodInfo("Start", [], []);
    var decls := [Method("Name", q), Method("Name", r), Method("Start", r)];
    MethodHits("Name", q, m);
    MethodHits("Name", r, m);
    MethodHits("Start", r, n);
    hide Hit;
    assert decls[0] in decls && decls[1] in decls && decls[2] in decls;
    FirstHitIsFirst(map[], [m, n], decls);
    hide DistinctDecls, Implements;
    FoundIff(map[], [m, n], decls, r);
  }

  function Method(name: string, receiver: string): Decl {
    FuncDecl(name, Some([Star(Some(receiver))]), [], Some([]))
  }

  lemma MethodHits(name: string, receiver: string, m: MethodInfo)
    requires m == MethodInfo(name, [], [])
    ensures Hit(map[], Method(name, receiver), m)
    ensures ReceiverOf(Method(name, receiver)) == Some(Some(receiver))
  {
  }

  /** A file whose first declaration matches the first method: its receiver owns the first match. */
  lemma FirstHitIsFirst(imports: Imports, methods: seq<MethodInfo>, decls: seq<Decl>)
    requires methods != [] && decls != [] && Hit(imports, decls[0], methods[0])
    ensures var hits := Hits(imports, methods, decls, |decls|);
      hits != [] && ReceiverOf(decls[0]) == Some(hits[0])
  {
    HitHasReceiver(imports, decls[0], methods[0]);
    assert HitsOf(imports, methods, decls[0], 1) == [ReceiverOf(decls[0]).value];
    HitsGrow(imports, methods, decls, 0, 1, |decls|);
    assert Hits(imports, methods, decls, 0) + HitsOf(imports, methods, decls[0], 1) == [ReceiverOf(decls[0]).value];
  }
}
