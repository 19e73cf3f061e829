/** Editing the source file that lists the external modules: adding a module puts an import and a
    service into it, removing one takes them out again. The imports are removed in place, from the
    very slice that is being iterated. */
module ModuleList {

  import opened Bags
  import opened Wrappers
  import Words

  datatype ImportSpec = ImportSpec(name: Option<string>, path: string)

  /** An element of the service list; only calls x.fn() can be matched with an import. In a ChainedCall
      what stands before the last dot is not an identifier, as in a.b.fn(). */
  datatype Element = Call(x: string, fn: string) | ChainedCall(text: string) | OtherExpr(text: string)

  /** The declarations of the file, as far as they matter. The service list of the init function is
      None when it has no assignment to ServiceList. */
  datatype Decl = ImportDecl(specs: seq<ImportSpec>) | InitFunc(services: Option<seq<Element>>) | OtherDecl(text: string)

  type File = seq<Decl>

  datatype Module = Module(importPath: string, generativeFunc: string)

  /** Outcome of an edit: the new file, an error return, or a panic at run time. */
  datatype Edit = Edited(file: File) | Refused(reason: string) | Panics

  // ---- matching ----

  function Lower(c: char): char {
    if 'A' <= c <= 'Z' then c - 'A' + 'a' else c
  }

  /** `strings.EqualFold`, on ASCII. */
  predicate EqualFold(a: string, b: string) {
    |a| == |b| && forall i :: 0 <= i < |a| ==> Lower(a[i]) == Lower(b[i])
  }

  /** The import path without its version. */
  function PkgUrl(importPath: string): string {
    importPath[..Words.IndexOf(importPath, '@')]
  }

  /** What stands before the version, if there is one. */
  predicate IsPackagePath(url: string, importPath: string) {
    '@' !in url && (url == importPath || Words.HasPrefix(importPath, url + "@"))
  }

  lemma PkgUrlIsThePackagePath(importPath: string, url: string)
    ensures IsPackagePath(url, importPath) <==> url == PkgUrl(importPath)
  {
    var i := Words.IndexOf(importPath, '@');
    if i < |importPath| {
      assert importPath[..i + 1] == importPath[..i] + "@";
    }
    if IsPackagePath(url, importPath) && url != importPath {
      assert importPath[..|url + "@"|] == url + "@";
      assert importPath == url + ['@'] + importPath[|url| + 1..];
      Words.FirstSplit(url, importPath[|url| + 1..], '@');
    } else if url == importPath && '@' !in url {
      assert i == |importPath|;
    }
  }

  /** The same character, or the same letter in the other case. */
  predicate SameLetter(a: char, b: char) {
    || a == b
    || ('A' <= a <= 'Z' && b as int == a as int + 32)
    || ('A' <= b <= 'Z' && a as int == b as int + 32)
  }

  /** Paths are compared letter by letter, whatever the case of the letters. */
  lemma FoldingIgnoresCase(a: string, b: string)
    ensures EqualFold(a, b) <==> |a| == |b| && forall i :: 0 <= i < |a| ==> SameLetter(a[i], b[i])
  {
  }

  predicate Matches(spec: ImportSpec, url: string) {
    EqualFold(spec.path, url)
  }

  predicate HasMatch(specs: seq<ImportSpec>, url: string) {
    exists i :: 0 <= i < |specs| && Matches(specs[i], url)
  }

  // ---- removing imports while ranging over them ----

  /** What is left: after a removal the next element slides under the cursor and is not looked at. */
  function Sweep(specs: seq<ImportSpec>, url: string): seq<ImportSpec> {
    if specs == [] then []
    else if !Matches(specs[0], url) then [specs[0]] + Sweep(specs[1..], url)
    else if |specs| == 1 then []
    else [specs[1]] + Sweep(specs[2..], url)
  }

  /** The import that was removed last. */
  function Swept(specs: seq<ImportSpec>, url: string): Option<ImportSpec> {
    if specs == [] then None
    else if !Matches(specs[0], url) then Swept(specs[1..], url)
    else if |specs| == 1 then Some(specs[0])
    else
      var later := Swept(specs[2..], url);
      if later.Some? then later else Some(specs[0])
  }

  /** The loop runs over the old length; behind the end of the shortened slice it sees the old last
      element again. If that one matches, the splice is out of range. */
  predicate Overruns(specs: seq<ImportSpec>, url: string) {
    specs != [] && Matches(specs[|specs| - 1], url) && HasMatch(specs[..|specs| - 1], url)
  }

  /** The intention: everything that does not match. */
  function Kept(specs: seq<ImportSpec>, url: string): seq<ImportSpec> {
    if specs == [] then []
    else if Matches(specs[0], url) then Kept(specs[1..], url)
    else [specs[0]] + Kept(specs[1..], url)
  }

  lemma {:induction false} KeptHasNoMatch(specs: seq<ImportSpec>, url: string)
    ensures forall s :: s in Kept(specs, url) ==> !Matches(s, url)
  {
    if specs != [] {
      KeptHasNoMatch(specs[1..], url);
    }
  }

  predicate AdjacentMatches(specs: seq<ImportSpec>, url: string) {
    exists i :: 0 <= i && i + 1 < |specs| && Matches(specs[i], url) && Matches(specs[i + 1], url)
  }

  /** What is left is everything that does not match exactly when no two matches are neighbours; the
      loop gets to the end exactly when it does not overrun. `RemoveImports` joins the two. */
  lemma {:induction false} SweepIsExactIff(specs: seq<ImportSpec>, url: string)
    ensures Sweep(specs, url) == Kept(specs, url) <==> !AdjacentMatches(specs, url)
  {
    hide Matches;
    if specs == [] {
    } else if !Matches(specs[0], url) {
      SweepIsExactIff(specs[1..], url);
      PrependSame(specs[0], Sweep(specs[1..], url), Kept(specs[1..], url));
      AdjacentShift(specs, 1, url);
    } else if |specs| >= 2 {
      if Matches(specs[1], url) {
        KeptHasNoMatch(specs, url);
        assert Sweep(specs, url)[0] == specs[1] && specs[1] in Sweep(specs, url);
        assert AdjacentMatches(specs, url) by {
          assert Matches(specs[0], url) && Matches(specs[0 + 1], url);
        }
      } else {
        SweepIsExactIff(specs[2..], url);
        assert specs[1..][0] == specs[1] && specs[1..][1..] == specs[2..];
        PrependSame(specs[1], Sweep(specs[2..], url), Kept(specs[2..], url));
        AdjacentShift(specs, 1, url);
        AdjacentShift(specs[1..], 1, url);
      }
    }
  }

  lemma PrependSame(x: ImportSpec, a: seq<ImportSpec>, b: seq<ImportSpec>)
    ensures [x] + a == [x] + b <==> a == b
  {
    assert ([x] + a)[1..] == a && ([x] + b)[1..] == b;
  }

  /** Dropping a first element that forms no pair with the second. */
  lemma AdjacentShift(specs: seq<ImportSpec>, k: nat, url: string)
    requires k == 1 <= |specs|
    requires |specs| >= 2 ==> !Matches(specs[0], url) || !Matches(specs[1], url)
    ensures AdjacentMatches(specs[1..], url) <==> AdjacentMatches(specs, url)
  {
    if i :| 0 <= i && i + 1 < |specs| && Matches(specs[i], url) && Matches(specs[i + 1], url) {
      assert specs[1..][i - 1] == specs[i] && specs[1..][i - 1 + 1] == specs[i + 1];
    }
    if i :| 0 <= i && i + 1 < |specs[1..]| && Matches(specs[1..][i], url) && Matches(specs[1..][i + 1], url) {
      assert specs[i + 1] == specs[1..][i] && specs[i + 1 + 1] == specs[1..][i + 1];
    }
  }

  /** Two neighbouring matches: the second slides under the cursor; as the last import it overruns. */
  lemma NeighboursFail(m: ImportSpec, x: ImportSpec, url: string)
    requires Matches(m, url) && !Matches(x, url)
    ensures Sweep([m, m, x], url) == [m, x] && !Overruns([m, m, x], url) && Kept([m, m, x], url) == [x]
    ensures Overruns([m, m], url)
  {
    hide Matches;
    assert [m, m, x][1..] == [m, x] && [m, m, x][2..] == [x] && [m, x][1..] == [x] && [x][1..] == [];
    assert Sweep([x], url) == [x] + Sweep([], url) == [x] && Kept([x], url) == [x] + Kept([], url) == [x];
    assert Sweep([m, m, x], url) == [[m, m, x][1]] + Sweep([x], url);
    assert Kept([m, x], url) == Kept([x], url) && Kept([m, m, x], url) == Kept([m, x], url);
    assert [m, m][..1] == [m];
    assert HasMatch([m], url) by {
      assert Matches([m][0], url);
    }
  }

  /** Matches that are no neighbours: the sweep itself would be right, but the loop overruns when the
      last import is one of them. */
  lemma LastMatchFails(m: ImportSpec, x: ImportSpec, url: string)
    requires Matches(m, url) && !Matches(x, url)
    ensures !AdjacentMatches([m, x, m], url) && Sweep([m, x, m], url) == Kept([m, x, m], url) == [x]
    ensures Overruns([m, x, m], url)
  {
    hide Matches;
    assert [m, x, m][1..] == [x, m] && [m, x, m][2..] == [m] && [x, m][1..] == [m] && [m][1..] == [];
    assert Kept([m], url) == Kept([], url) == [] && Sweep([m], url) == [];
    assert Sweep([m, x, m], url) == [[m, x, m][1]] + Sweep([m], url);
    assert Kept([x, m], url) == [x] + Kept([m], url) && Kept([m, x, m], url) == Kept([x, m], url);
    assert [m, x, m][..2] == [m, x];
    assert HasMatch([m, x], url) by {
      assert Matches([m, x][0], url);
    }
  }

  /** With one match, that one is removed and returned, and there is no overrun. */
  lemma {:induction false} SingleMatchIsRemoved(specs: seq<ImportSpec>, k: nat, url: string)
    requires k < |specs| && Matches(specs[k], url)
    requires forall i :: 0 <= i < |specs| && i != k ==> !Matches(specs[i], url)
    ensures Sweep(specs, url) == Cut(specs, k) && Swept(specs, url) == Some(specs[k]) && !Overruns(specs, url)
  {
    hide Matches;
    if k == 0 {
      if |specs| >= 2 {
        NothingSwept(specs[2..], url);
        assert [specs[1]] + specs[2..] == Cut(specs, 0);
      }
    } else {
      SingleMatchIsRemoved(specs[1..], k - 1, url);
      assert [specs[0]] + Cut(specs[1..], k - 1) == Cut(specs, k);
    }
  }

  lemma {:induction false} NothingSwept(specs: seq<ImportSpec>, url: string)
    requires !HasMatch(specs, url)
    ensures Sweep(specs, url) == specs && Swept(specs, url).None?
  {
    hide Matches;
    if specs != [] {
      assert !Matches(specs[0], url);
      assert forall i :: 0 <= i < |specs[1..]| ==> specs[1..][i] == specs[i + 1];
      NothingSwept(specs[1..], url);
    }
  }

  /** The array during the loop: behind the cursor the elements that are still to come, shifted by the
      number of removals, with the old last element in the places that have become free. */
  ghost predicate Shifted(specs: seq<ImportSpec>, arr: seq<ImportSpec>, i: nat, removed: nat) {
    && |arr| == |specs|
    && forall k :: i <= k < |arr| ==> arr[k] == (if k + removed < |specs| then specs[k + removed] else specs[|specs| - 1])
  }

  /** Sweep and Swept, with the work before the cursor done. */
  ghost predicate Progress(specs: seq<ImportSpec>, url: string, arr: seq<ImportSpec>, i: nat, len: nat, found: Option<ImportSpec>)
    requires i <= |arr| == |specs| && len <= |specs|
  {
    var next := i + (|specs| - len);
    if next <= |specs| then
      && arr[..i] + Sweep(specs[next..], url) == Sweep(specs, url)
      && (var later := Swept(specs[next..], url); Swept(specs, url) == if later.Some? then later else found)
    else
      len < i && arr[..len] == Sweep(specs, url) && found == Swept(specs, url)
  }

  ghost predicate LoopOk(specs: seq<ImportSpec>, url: string, arr: seq<ImportSpec>, i: nat, len: nat, found: Option<ImportSpec>) {
    && i <= |arr| == |specs| && len <= |specs|
    && Shifted(specs, arr, i, |specs| - len)
    && Progress(specs, url, arr, i, len, found)
    && (len < |specs| <==> found.Some?)
    && (found.None? ==> forall k :: 0 <= k < i ==> !Matches(specs[k], url))
    && (found.Some? && i < |specs| ==> HasMatch(specs[..|specs| - 1], url))
    && (i == |specs| ==> !Overruns(specs, url))
  }

  function Spliced(arr: seq<ImportSpec>, i: nat, len: nat): seq<ImportSpec>
    requires i < len <= |arr|
  {
    arr[..i] + arr[i + 1..len] + arr[len - 1..]
  }

  /** `append(s[:i], s[i+1:]...)` on the backing array of a slice of length len. */
  method Splice(arr: array<ImportSpec>, i: nat, len: nat)
    requires i < len <= arr.Length
    modifies arr
    ensures arr[..] == Spliced(old(arr[..]), i, len)
  {
    forall k | i <= k < len - 1 {
      arr[k] := arr[k + 1];
    }
  }

  /** The loop of the source on the backing array: the slice shrinks, the range does not. All matching
      imports are removed, and nothing else, if and only if no two matches are neighbours and not both
      the last import and an earlier one match. */
  method RemoveImports(arr: array<ImportSpec>, url: string) returns (panics: bool, len: nat, found: Option<ImportSpec>)
    modifies arr
    ensures panics <==> Overruns(old(arr[..]), url)
    ensures !panics ==> len <= arr.Length && arr[..len] == Sweep(old(arr[..]), url) && found == Swept(old(arr[..]), url)
    ensures (!panics && arr[..len] == Kept(old(arr[..]), url))
       <==> !AdjacentMatches(old(arr[..]), url) && !Overruns(old(arr[..]), url)
  {
    SweepIsExactIff(arr[..], url);
    hide AdjacentMatches, Kept, Overruns, Sweep, Swept;
    panics, len, found := RangeOverImports(arr, url);
  }

  method RangeOverImports(arr: array<ImportSpec>, url: string) returns (panics: bool, len: nat, found: Option<ImportSpec>)
    modifies arr
    ensures panics <==> Overruns(old(arr[..]), url)
    ensures !panics ==> len <= arr.Length && arr[..len] == Sweep(old(arr[..]), url) && found == Swept(old(arr[..]), url)
  {
    ghost var specs := arr[..];
    len, found, panics := arr.Length, None, false;
    LoopStarts(specs, url);
    hide LoopOk, Overruns, Sweep, Swept;
    for i := 0 to arr.Length
      invariant !panics && len <= arr.Length
      invariant LoopOk(specs, url, arr[..], i, len, found)
    {
      panics, len, found := VisitImport(specs, arr, url, i, len, found);
      if panics {
        return;
      }
    }
    LoopEnds(specs, url, arr[..], len, found);
    assert arr[..][..len] == arr[..len];
  }

  method VisitImport(ghost specs: seq<ImportSpec>, arr: array<ImportSpec>, url: string, i: nat, len: nat, found: Option<ImportSpec>)
    returns (panics: bool, newLen: nat, newFound: Option<ImportSpec>)
    requires LoopOk(specs, url, arr[..], i, len, found) && i < arr.Length
    modifies arr
    ensures panics ==> Overruns(specs, url)
    ensures !panics ==> newLen <= arr.Length && LoopOk(specs, url, arr[..], i + 1, newLen, newFound)
  {
    ghost var before := arr[..];
    assert i < len + 1 ==> len <= arr.Length;
    hide LoopOk, Overruns, Matches, EqualFold;
    panics, newLen, newFound := false, len, found;
    if Matches(arr[i], url) {
      MatchRead(specs, url, before, i, len, found);
      newFound := Some(arr[i]);
      if i + 1 > len {
        panics := true;
        return;
      }
      Splice(arr, i, len);
      MatchRemoved(specs, url, before, arr[..], i, len, found);
      newLen := len - 1;
    } else {
      OtherRead(specs, url, before, i, len, found);
    }
  }

  lemma LoopStarts(specs: seq<ImportSpec>, url: string)
    ensures LoopOk(specs, url, specs, 0, |specs|, None)
  {
    assert specs[0..] == specs;
  }

  /** A match that is read behind the end of the slice is the old last element, seen twice. */
  lemma MatchRead(specs: seq<ImportSpec>, url: string, arr: seq<ImportSpec>, i: nat, len: nat, found: Option<ImportSpec>)
    requires LoopOk(specs, url, arr, i, len, found) && i < |arr| && Matches(arr[i], url)
    ensures i + 1 > len ==> Overruns(specs, url)
  {
  }

  lemma OtherRead(specs: seq<ImportSpec>, url: string, arr: seq<ImportSpec>, i: nat, len: nat, found: Option<ImportSpec>)
    requires LoopOk(specs, url, arr, i, len, found) && i < |arr| && !Matches(arr[i], url)
    ensures LoopOk(specs, url, arr, i + 1, len, found)
  {
    hide Matches;
    var next := i + (|specs| - len);
    if next < |specs| {
      assert specs[next..][0] == arr[i] && specs[next..][1..] == specs[next + 1..];
      assert arr[..i + 1] == arr[..i] + [arr[i]];
    }
  }

  lemma SplicedAt(arr: seq<ImportSpec>, i: nat, len: nat)
    requires i < len <= |arr|
    ensures |Spliced(arr, i, len)| == |arr| && Spliced(arr, i, len)[..i] == arr[..i]
    ensures forall k :: i <= k < |arr| ==> Spliced(arr, i, len)[k] == if k < len - 1 then arr[k + 1] else arr[k]
  {
  }

  lemma RemovedShifted(specs: seq<ImportSpec>, arr: seq<ImportSpec>, i: nat, len: nat)
    requires i < len <= |arr| == |specs| && Shifted(specs, arr, i, |specs| - len)
    ensures Shifted(specs, Spliced(arr, i, len), i + 1, |specs| - len + 1)
  {
    SplicedAt(arr, i, len);
    hide Spliced;
  }

  lemma RemovedProgress(specs: seq<ImportSpec>, url: string, arr: seq<ImportSpec>, i: nat, len: nat, found: Option<ImportSpec>)
    requires i < len <= |arr| == |specs| && Shifted(specs, arr, i, |specs| - len)
    requires Progress(specs, url, arr, i, len, found) && Matches(arr[i], url)
    ensures |Spliced(arr, i, len)| == |specs|
    ensures Progress(specs, url, Spliced(arr, i, len), i + 1, len - 1, Some(arr[i]))
  {
    SplicedAt(arr, i, len);
    hide Matches, Spliced;
    var n, after := |specs|, Spliced(arr, i, len);
    var next := i + (n - len);
    var rest := specs[next..];
    assert rest[0] == arr[i];
    if next + 1 < n {
      assert rest[1] == specs[next + 1] == after[i];
      assert rest[2..] == specs[next + 2..];
      assert Sweep(rest, url) == [after[i]] + Sweep(specs[next + 2..], url);
      hide Sweep;
      assert after[..i + 1] == arr[..i] + [after[i]];
    } else {
      assert after[..len - 1] == arr[..i];
    }
  }

  lemma MatchRemoved(specs: seq<ImportSpec>, url: string, arr: seq<ImportSpec>, after: seq<ImportSpec>, i: nat, len: nat,
                     found: Option<ImportSpec>)
    requires i < len <= |arr| && after == Spliced(arr, i, len)
    requires LoopOk(specs, url, arr, i, len, found) && Matches(arr[i], url)
    ensures LoopOk(specs, url, after, i + 1, len - 1, Some(arr[i]))
  {
    RemovedShifted(specs, arr, i, len);
    RemovedProgress(specs, url, arr, i, len, found);
    var next := i + (|specs| - len);
    assert specs[next] == arr[i];
    hide Matches, Spliced, Shifted, Progress;
    if next + 1 < |specs| {
      assert specs[..|specs| - 1][next] == specs[next];
    }
  }

  lemma LoopEnds(specs: seq<ImportSpec>, url: string, arr: seq<ImportSpec>, len: nat, found: Option<ImportSpec>)
    requires LoopOk(specs, url, arr, |specs|, len, found)
    ensures arr[..len] == Sweep(specs, url) && found == Swept(specs, url) && !Overruns(specs, url)
  {
  }

  // ---- the edits ----

  function FirstInit(file: File): (i: nat)
    ensures i <= |file| && (i < |file| ==> file[i].InitFunc?)
    ensures forall j :: 0 <= j < i ==> !file[j].InitFunc?
  {
    if file == [] || file[0].InitFunc? then 0 else 1 + FirstInit(file[1..])
  }

  function FirstImport(file: File): (i: nat)
    ensures i <= |file| && (i < |file| ==> file[i].ImportDecl?)
    ensures forall j :: 0 <= j < i ==> !file[j].ImportDecl?
  {
    if file == [] || file[0].ImportDecl? then 0 else 1 + FirstImport(file[1..])
  }

  predicate MatchingImport(d: Decl, url: string) {
    d.ImportDecl? && HasMatch(d.specs, url)
  }

  function FirstMatching(file: File, url: string): (i: nat)
    ensures i <= |file| && (i < |file| ==> MatchingImport(file[i], url))
    ensures forall j :: 0 <= j < i ==> !MatchingImport(file[j], url)
  {
    if file == [] || MatchingImport(file[0], url) then 0 else 1 + FirstMatching(file[1..], url)
  }

  function Listed(services: Option<seq<Element>>): seq<Element> {
    if services.Some? then services.value else []
  }

  /** Adding a module under an alias: its import goes to the end of the first import declaration, its
      service to the front of the list. `several`: more than one external module is known already. */
  function AddTo(file: File, m: Module, alias: string, several: bool): Edit {
    var i, j := FirstImport(file), FirstInit(file);
    if i == |file| then Refused("import statement not found")
    else if j == |file| then Refused("init function not found")
    else if file[j].services.None? && several then Refused("ServiceList initialization not found")
    else
      var spec := ImportSpec(Some(alias), PkgUrl(m.importPath));
      Edited(Changed(file, i, file[i].specs + [spec], j, [Call(alias, m.generativeFunc)] + Listed(file[j].services)))
  }

  /** The file with other imports in declaration i and another service list in declaration j. */
  function Changed(file: File, i: nat, specs: seq<ImportSpec>, j: nat, services: seq<Element>): File
    requires i < |file| && j < |file|
  {
    file[i := ImportDecl(specs)][j := InitFunc(Some(services))]
  }

  predicate CallsOn(e: Element, x: string) {
    e.Call? && e.x == x
  }

  /** The search ends at a call on x, or at a call that makes it panic: the base of every selector is taken
      to be an identifier. */
  predicate EndsSearch(e: Element, x: string) {
    CallsOn(e, x) || e.ChainedCall?
  }

  function SearchEnd(services: seq<Element>, x: string): (i: nat)
    ensures i <= |services| && (i < |services| ==> EndsSearch(services[i], x))
    ensures forall j :: 0 <= j < i ==> !EndsSearch(services[j], x)
  {
    if services == [] || EndsSearch(services[0], x) then 0 else 1 + SearchEnd(services[1..], x)
  }

  /** Removing a module. An import without a name needs the name of the package, which may be unknown. */
  function RemoveFrom(file: File, m: Module, package: Option<string>): Edit {
    var url := PkgUrl(m.importPath);
    var i, j := FirstMatching(file, url), FirstInit(file);
    if i == |file| then Refused("import statement not found")
    else if Overruns(file[i].specs, url) then Panics
    else if j == |file| then Refused("init function not found")
    else
      var removed := Swept(file[i].specs, url);
      var name := CalledAs(removed, package);
      if name.None? then Refused("failed to identify package")
      else if file[j].services.None? then Refused("ServiceList initialization not found")
      else
        var services := file[j].services.value;
        var k := SearchEnd(services, name.value);
        if k == |services| then Refused("module not found in ServiceList to remove")
        else if services[k].ChainedCall? then Panics
        else Edited(Changed(file, i, Sweep(file[i].specs, url), j, Cut(services, k)))
  }

  /** The loop over the service list stops at its first removal. It panics exactly when a chained call
      comes before every call on x. */
  method RemoveService(services: seq<Element>, x: string) returns (removed: bool, panics: bool, left: seq<Element>)
    ensures var k := SearchEnd(services, x);
      && (removed <==> k < |services| && FirstCalledOn(services, x, k))
      && (panics <==> k < |services| && services[k].ChainedCall?)
      && left == if removed then Cut(services, k) else services
    ensures panics <==>
      exists i :: 0 <= i < |services| && services[i].ChainedCall?
                  && forall j :: 0 <= j < i ==> !(services[j].Call? && services[j].x == x)
    ensures !panics ==> (removed <==> exists k :: FirstCalledOn(services, x, k))
  {
    for i := 0 to |services|
      invariant forall k :: 0 <= k < i ==> !EndsSearch(services[k], x)
    {
      if services[i].ChainedCall? {
        return false, true, services;
      }
      if CallsOn(services[i], x) {
        return true, false, Cut(services, i);
      }
    }
    return false, false, services;
  }

  // ---- adding and removing again ----

  /** What the formatter may do to a file: put the imports of a declaration in another order. */
  ghost predicate Reformatted(a: File, b: File) {
    && |a| == |b|
    && forall i :: 0 <= i < |a| ==>
         if a[i].ImportDecl? then b[i].ImportDecl? && multiset(b[i].specs) == multiset(a[i].specs) else b[i] == a[i]
  }

  predicate Imports(file: File, url: string) {
    exists i :: 0 <= i < |file| && MatchingImport(file[i], url)
  }

  lemma HasMatchIsUnordered(a: seq<ImportSpec>, b: seq<ImportSpec>, url: string)
    requires multiset(a) == multiset(b) && HasMatch(a, url)
    ensures HasMatch(b, url)
  {
    var i :| 0 <= i < |a| && Matches(a[i], url);
    assert a[i] in multiset(b);
    var j :| 0 <= j < |b| && b[j] == a[i];
  }

  lemma UrlMatchesItself(url: string, alias: string)
    ensures Matches(ImportSpec(Some(alias), url), url)
  {
  }

  /** In the reformatted declaration the new import is the only one that matches; sweeping takes it out. */
  lemma NewImportIsSwept(specs: seq<ImportSpec>, spec: ImportSpec, shuffled: seq<ImportSpec>, url: string)
    requires !HasMatch(specs, url) && Matches(spec, url)
    requires multiset(shuffled) == multiset(specs + [spec])
    ensures HasMatch(shuffled, url) && !Overruns(shuffled, url) && Swept(shuffled, url) == Some(spec)
    ensures multiset(Sweep(shuffled, url)) == multiset(specs)
  {
    hide Matches, Overruns, Sweep, Swept;
    var k := Permuted(shuffled, specs, spec);
    forall i | 0 <= i < |shuffled| && i != k
      ensures !Matches(shuffled[i], url)
    {
      var less := Cut(shuffled, k);
      assert less[if i < k then i else i - 1] == shuffled[i];
      assert shuffled[i] in multiset(specs);
      var j :| 0 <= j < |specs| && specs[j] == shuffled[i];
    }
    SingleMatchIsRemoved(shuffled, k, url);
  }

  lemma FirstMatchingIs(file: File, url: string, i: nat)
    requires i < |file| && MatchingImport(file[i], url)
    requires forall j :: 0 <= j < |file| && j != i ==> !MatchingImport(file[j], url)
    ensures FirstMatching(file, url) == i
  {
  }

  lemma FirstInitIs(file: File, i: nat)
    requires i < |file| && file[i].InitFunc?
    requires forall j :: 0 <= j < i ==> !file[j].InitFunc?
    ensures FirstInit(file) == i
  {
  }

  /** What adding changes: the first import declaration gets the module's path without its version, under
      the alias, as its last import; the list of the first init function gets the service as its first
      element, or is made. It is refused exactly when there is no such declaration, or when the list is
      missing although there are several modules. */
  lemma AddingEdits(file: File, m: Module, alias: string, several: bool, url: string)
    requires IsPackagePath(url, m.importPath)
    ensures var r, i, j := AddTo(file, m, alias, several), FirstImport(file), FirstInit(file);
      && (r.Edited? <==> i < |file| && j < |file| && (file[j].services.Some? || !several))
      && (r.Edited? ==>
            && i != j && |r.file| == |file| && file[i].ImportDecl? && file[j].InitFunc?
            && r.file[i] == ImportDecl(file[i].specs + [ImportSpec(Some(alias), url)])
            && r.file[j] == InitFunc(Some([Call(alias, m.generativeFunc)]
                                          + if file[j].services.Some? then file[j].services.value else []))
            && forall k :: 0 <= k < |file| && k != i && k != j ==> r.file[k] == file[k])
  {
    hide FirstImport, FirstInit, PkgUrl, Changed, IsPackagePath;
    PkgUrlIsThePackagePath(m.importPath, url);
    var i, j := FirstImport(file), FirstInit(file);
    if i < |file| && j < |file| {
      ChangedShape(file, i, file[i].specs + [ImportSpec(Some(alias), url)], j, [Call(alias, m.generativeFunc)] + Listed(file[j].services));
    }
  }

  /** The name under which the service of the removed import is called: its alias, or that of the package. */
  function CalledAs(removed: Option<ImportSpec>, package: Option<string>): Option<string> {
    if removed.Some? && removed.value.name.Some? then removed.value.name else package
  }

  /** Removing succeeds exactly when there are a matching import, an init function with a list, a name for
      the service, and a call on that name with no chained call before it, and the imports do not overrun.
      Then the first import declaration with a matching path is swept, and
      the first service called under the import's name, or else the package's, leaves the list of the
      first init function. */
  lemma RemovingEdits(file: File, m: Module, package: Option<string>, url: string)
    requires IsPackagePath(url, m.importPath)
    ensures var i, j := FirstMatching(file, url), FirstInit(file);
      RemoveFrom(file, m, package).Edited? <==>
        && i < |file| && j < |file| && !Overruns(file[i].specs, url) && file[j].services.Some?
        && CalledAs(Swept(file[i].specs, url), package).Some?
        && exists k: nat :: Removable(file[j].services.value, CalledAs(Swept(file[i].specs, url), package).value, k)
    ensures var r, i, j := RemoveFrom(file, m, package), FirstMatching(file, url), FirstInit(file);
      r.Edited? ==>
        && i < |file| && j < |file| && i != j && |r.file| == |file| && file[i].ImportDecl? && file[j].InitFunc?
        && !Overruns(file[i].specs, url) && r.file[i] == ImportDecl(Sweep(file[i].specs, url))
        && (!AdjacentMatches(file[i].specs, url) ==> r.file[i] == ImportDecl(Kept(file[i].specs, url)))
        && file[j].services.Some?
        && CalledAs(Swept(file[i].specs, url), package).Some?
        && (exists k :: FirstCalledOn(file[j].services.value, CalledAs(Swept(file[i].specs, url), package).value, k)
                        && r.file[j] == InitFunc(Some(Cut(file[j].services.value, k))))
        && forall k :: 0 <= k < |file| && k != i && k != j ==> r.file[k] == file[k]
  {
    hide FirstMatching, FirstInit, PkgUrl, Changed, Overruns, Sweep, Swept, SearchEnd, IsPackagePath, AdjacentMatches, Kept;
    PkgUrlIsThePackagePath(m.importPath, url);
    var r, i, j := RemoveFrom(file, m, package), FirstMatching(file, url), FirstInit(file);
    if i < |file| && j < |file| && file[j].services.Some? {
      var name := CalledAs(Swept(file[i].specs, url), package);
      if name.Some? {
        RemovableIff(file[j].services.value, name.value);
      }
    }
    if r.Edited? {
      var name := CalledAs(Swept(file[i].specs, url), package);
      var k := SearchEnd(file[j].services.value, name.value);
      assert FirstCalledOn(file[j].services.value, name.value, k);
      SweepIsExactIff(file[i].specs, url);
      ChangedShape(file, i, Sweep(file[i].specs, url), j, Cut(file[j].services.value, k));
    }
  }

  /** Service k is the first that is called on x, and no chained call comes before it. */
  predicate Removable(services: seq<Element>, x: string, k: nat) {
    FirstCalledOn(services, x, k) && forall i :: 0 <= i < k ==> !services[i].ChainedCall?
  }

  lemma RemovableIff(services: seq<Element>, x: string)
    ensures var k := SearchEnd(services, x);
      (k < |services| && !services[k].ChainedCall?) <==> exists n: nat :: Removable(services, x, n)
  {
    var k := SearchEnd(services, x);
    if k < |services| && !services[k].ChainedCall? {
      assert Removable(services, x, k);
    }
    forall n: nat | Removable(services, x, n)
      ensures k == n
    {
      assert EndsSearch(services[n], x);
    }
  }

  /** Service k is the first that is called on x. */
  predicate FirstCalledOn(services: seq<Element>, x: string, k: nat) {
    && k < |services| && services[k].Call? && services[k].x == x
    && forall i :: 0 <= i < k ==> !(services[i].Call? && services[i].x == x)
  }

  lemma ChangedShape(file: File, i: nat, specs: seq<ImportSpec>, j: nat, services: seq<Element>)
    requires i < |file| && j < |file| && i != j
    ensures var r := Changed(file, i, specs, j, services);
      && |r| == |file| && r[i] == ImportDecl(specs) && r[j] == InitFunc(Some(services))
      && forall k :: 0 <= k < |file| && k != i && k != j ==> r[k] == file[k]
  {
  }

  lemma NoMatchIn(file: File, url: string, k: nat)
    requires !Imports(file, url) && k < |file|
    ensures !MatchingImport(file[k], url)
    ensures file[k].ImportDecl? ==> !HasMatch(file[k].specs, url)
  {
  }

  lemma ReformattedDecl(a: File, b: File, k: nat)
    requires Reformatted(a, b) && k < |a|
    ensures |a| == |b|
    ensures if a[k].ImportDecl? then b[k].ImportDecl? && multiset(b[k].specs) == multiset(a[k].specs) else b[k] == a[k]
  {
  }

  lemma NoMatchAfterReformatting(a: Decl, b: Decl, url: string)
    requires if a.ImportDecl? then b.ImportDecl? && multiset(b.specs) == multiset(a.specs) else b == a
    requires !MatchingImport(a, url)
    ensures !MatchingImport(b, url)
  {
    if MatchingImport(b, url) {
      HasMatchIsUnordered(b.specs, a.specs, url);
    }
  }

  /** Only the first import declaration of the new file matches, and it holds the new import. */
  lemma OnlyTheNewImportMatches(file: File, m: Module, alias: string, several: bool, added: File, formatted: File)
    requires AddTo(file, m, alias, several) == Edited(added) && Reformatted(added, formatted)
    requires !Imports(file, PkgUrl(m.importPath))
    ensures var url, i := PkgUrl(m.importPath), FirstImport(file);
      && FirstMatching(formatted, url) == i < |file| == |formatted|
      && formatted[i].ImportDecl? && file[i].ImportDecl? && !Overruns(formatted[i].specs, url)
      && Swept(formatted[i].specs, url) == Some(ImportSpec(Some(alias), url))
      && multiset(Sweep(formatted[i].specs, url)) == multiset(file[i].specs)
  {
    hide PkgUrl, Matches, Overruns, Sweep, Swept, HasMatch, AddTo, Reformatted, FirstImport, FirstInit, FirstMatching, Imports,
      MatchingImport;
    var url, i, j := PkgUrl(m.importPath), FirstImport(file), FirstInit(file);
    var spec := ImportSpec(Some(alias), url);
    PkgUrlIsThePackagePath(m.importPath, url);
    AddingEdits(file, m, alias, several, url);
    UrlMatchesItself(url, alias);
    NoMatchIn(file, url, i);
    ReformattedDecl(added, formatted, i);
    NewImportIsSwept(file[i].specs, spec, formatted[i].specs, url);
    forall k | 0 <= k < |file| && k != i
      ensures !MatchingImport(formatted[k], url)
    {
      NoMatchIn(file, url, k);
      ReformattedDecl(added, formatted, k);
      if k == j {
        InitIsNoImport(formatted[k], url);
      } else {
        NoMatchAfterReformatting(added[k], formatted[k], url);
      }
    }
    ImportMatches(formatted[i], url);
    FirstMatchingIs(formatted, url, i);
  }

  lemma InitIsNoImport(d: Decl, url: string)
    requires d.InitFunc?
    ensures !MatchingImport(d, url)
  {
  }

  lemma ImportMatches(d: Decl, url: string)
    requires d.ImportDecl? && HasMatch(d.specs, url)
    ensures MatchingImport(d, url)
  {
  }

  /** Adding a module whose import path is new, ignoring case, and removing it again gives back the same
      imports up to their order, and the same services. The file as a whole is the same up to that
      order if and only if it had a service list to begin with; otherwise an empty one stays behind. */
  lemma AddThenRemove(file: File, m: Module, alias: string, several: bool, added: File, formatted: File, package: Option<string>)
    requires AddTo(file, m, alias, several) == Edited(added) && Reformatted(added, formatted)
    requires !Imports(file, PkgUrl(m.importPath))
    ensures FirstInit(file) < |file|
    ensures var r, j := RemoveFrom(formatted, m, package), FirstInit(file);
      && r.Edited?
      && Reformatted(file[j := InitFunc(Some(Listed(file[j].services)))], r.file)
      && (Reformatted(file, r.file) <==> file[j].services.Some?)
  {
    var url, i, j := PkgUrl(m.importPath), FirstImport(file), FirstInit(file);
    PkgUrlIsThePackagePath(m.importPath, url);
    AddingEdits(file, m, alias, several, url);
    OnlyTheNewImportMatches(file, m, alias, several, added, formatted);
    ReformattedDecl(added, formatted, j);
    forall k | 0 <= k < |file|
      ensures formatted[k].InitFunc? <==> file[k].InitFunc?
    {
      ReformattedDecl(added, formatted, k);
    }
    FirstInitIs(formatted, j);
    hide PkgUrl, Overruns, Sweep, Swept, Imports, AddTo, FirstMatching, FirstInit, FirstImport;
    var services := [Call(alias, m.generativeFunc)] + Listed(file[j].services);
    assert SearchEnd(services, alias) == 0 && Cut(services, 0) == Listed(file[j].services);
    hide SearchEnd;
    var left := InitFunc(Some(Listed(file[j].services)));
    var back := Changed(formatted, i, Sweep(formatted[i].specs, url), j, Listed(file[j].services));
    ChangedShape(formatted, i, Sweep(formatted[i].specs, url), j, Listed(file[j].services));
    assert RemoveFrom(formatted, m, package) == Edited(back);
    hide RemoveFrom;
    RestoredUpToOrder(file, added, formatted, back, i, j, left);
  }

  lemma RestoredUpToOrder(file: File, added: File, formatted: File, back: File, i: nat, j: nat, left: Decl)
    requires i < |file| == |added| == |formatted| == |back| && j < |file| && i != j
    requires file[i].ImportDecl? && file[j].InitFunc? && left == InitFunc(Some(Listed(file[j].services)))
    requires Reformatted(added, formatted)
    requires forall k :: 0 <= k < |file| && k != i && k != j ==> added[k] == file[k] && back[k] == formatted[k]
    requires back[i].ImportDecl? && multiset(back[i].specs) == multiset(file[i].specs) && back[j] == left
    ensures Reformatted(file[j := left], back)
    ensures Reformatted(file, back) <==> file[j].services.Some?
  {
    forall k | 0 <= k < |file| && k != i && k != j
      ensures if file[k].ImportDecl? then back[k].ImportDecl? && multiset(back[k].specs) == multiset(file[k].specs)
              else back[k] == file[k]
    {
      ReformattedDecl(added, formatted, k);
    }
    assert file[j].services.Some? <==> back[j] == file[j];
  }

  // ---- writing the file ----

  /** How the foreign steps of an edit turn out; a failed write leaves anything in the file. */
  datatype Steps = Steps(
    readOk: bool, formatOk: bool, backupOk: bool, writeOk: bool, torn: File,
    tidyOk: bool, buildOk: bool, restoreOk: bool, tornRestore: File)

  predicate WritesThrough(s: Steps) {
    s.backupOk && s.writeOk && s.tidyOk && s.buildOk
  }

  predicate TearsTheFile(edit: Edit, s: Steps) {
    s.readOk && edit.Edited? && s.formatOk && s.backupOk && !s.writeOk
  }

  class ModuleListFile {
    var content: File
    var backup: Option<File>

    /** The writing part of both operations. Adding registers the restoring of the old file before it
        writes the new one, removing only afterwards (`guarded` false). */
    method Write(edited: File, steps: Steps, guarded: bool) returns (ok: bool)
      modifies this
      ensures ok <==> WritesThrough(steps)
      ensures ok ==> content == edited && backup == Some(old(content))
      ensures !steps.backupOk ==> content == old(content)
      ensures steps.backupOk && !guarded && !steps.writeOk ==> content == steps.torn
      ensures !ok && steps.backupOk && (guarded || steps.writeOk) ==>
        content == if steps.restoreOk then old(content) else steps.tornRestore
    {
      var source := content;
      if !steps.backupOk {
        return false;
      }
      backup := Some(source);
      content := if steps.writeOk then edited else steps.torn;
      if !guarded && !steps.writeOk {
        return false;
      }
      if !steps.writeOk || !steps.tidyOk || !steps.buildOk {
        content := if steps.restoreOk then source else steps.tornRestore;
        if steps.restoreOk {
          backup := None;
        }
        return false;
      }
      return true;
    }

    /** Adding either writes the edited file, or leaves the old one, unless restoring it fails too. */
    method Add(m: Module, alias: string, several: bool, steps: Steps, format: File -> File) returns (ok: bool)
      modifies this
      ensures var edit := AddTo(old(content), m, alias, several);
        && (ok <==> steps.readOk && edit.Edited? && steps.formatOk && WritesThrough(steps))
        && (ok ==> content == format(edit.file) && backup == Some(old(content)))
        && (!ok && steps.restoreOk ==> content == old(content))
    {
      hide AddTo;
      if !steps.readOk {
        return false;
      }
      var edit := AddTo(content, m, alias, several);
      if !edit.Edited? || !steps.formatOk {
        return false;
      }
      ok := Write(format(edit.file), steps, true);
    }

    /** Removing does too, except that a write that fails is not repaired. */
    method Remove(m: Module, package: Option<string>, steps: Steps, format: File -> File) returns (ok: bool, panics: bool)
      modifies this
      ensures var edit := RemoveFrom(old(content), m, package);
        && (panics <==> steps.readOk && edit.Panics?)
        && (ok <==> steps.readOk && edit.Edited? && steps.formatOk && WritesThrough(steps))
        && (ok ==> content == format(edit.file) && backup == Some(old(content)))
        && (!ok && TearsTheFile(edit, steps) ==> content == steps.torn)
        && (!ok && !TearsTheFile(edit, steps) && steps.restoreOk ==> content == old(content))
    {
      hide RemoveFrom;
      ok, panics := false, false;
      if !steps.readOk {
        return;
      }
      var edit := RemoveFrom(content, m, package);
      if edit.Panics? {
        panics := true;
        return;
      }
      if edit.Refused? || !steps.formatOk {
        return;
      }
      ok := Write(format(edit.file), steps, false);
    }
  }
}
