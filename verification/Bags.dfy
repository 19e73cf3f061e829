/** Counting lemmas about multisets and the sequences they come from. */
module Bags {

  lemma Cancel<T>(a: multiset<T>, b: multiset<T>, c: multiset<T>)
    requires a + c == b + c
    ensures a == b
  {
    forall x
      ensures a[x] == b[x]
    {
      assert (a + c)[x] == (b + c)[x];
    }
  }

  lemma AddBoth<T>(a: multiset<T>, b: multiset<T>, c: multiset<T>, d: multiset<T>, e: multiset<T>)
    requires a + b == c + d
    ensures (a + e) + b == (c + e) + d
  {
    forall x
      ensures ((a + e) + b)[x] == ((c + e) + d)[x]
    {
      assert (a + b)[x] == (c + d)[x];
    }
  }

  function Cut<T>(s: seq<T>, i: nat): seq<T>
    requires i < |s|
  {
    s[..i] + s[i + 1..]
  }

  lemma CutCounts<T>(s: seq<T>, i: nat)
    requires i < |s|
    ensures multiset(s) == multiset(Cut(s, i)) + multiset{s[i]}
  {
    assert s == s[..i] + [s[i]] + s[i + 1..];
  }

  /** A permutation of init + [last] is a permutation of init with last put in somewhere. */
  lemma Permuted<T>(s: seq<T>, init: seq<T>, last: T) returns (i: nat)
    requires multiset(s) == multiset(init + [last])
    ensures i < |s| && s[i] == last && multiset(Cut(s, i)) == multiset(init)
  {
    assert multiset(init + [last]) == multiset(init) + multiset{last};
    assert last in multiset(s);
    i :| 0 <= i < |s| && s[i] == last;
    CutCounts(s, i);
    Cancel(multiset(Cut(s, i)), multiset(init), multiset{last});
  }
}
