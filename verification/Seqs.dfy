/** Sequence facts stated as lemmas, so that proofs about long concatenations stay cheap. */
module Seqs {
  import opened Basics

  lemma Assoc<T>(a: seq<T>, b: seq<T>, c: seq<T>)
    ensures (a + b) + c == a + (b + c)
  {}

  lemma Nil<T>(a: seq<T>)
    ensures a + [] == a && [] + a == a
  {}

  lemma HeadTail<T>(a: seq<T>, b: seq<T>)
    requires a != []
    ensures (a + b)[0] == a[0] && (a + b)[1..] == a[1..] + b
  {}

  lemma Uncons<T>(s: seq<T>)
    requires s != []
    ensures [s[0]] + s[1..] == s
  {}

  lemma SplitAt<T>(s: seq<T>, k: nat)
    requires k <= |s|
    ensures s[..k] + s[k..] == s
  {}

  lemma DropAppend<T>(a: seq<T>, b: seq<T>)
    ensures (a + b)[|a|..] == b && (a + b)[..|a|] == a
  {}

  function Last<T>(s: seq<T>): T
    requires s != []
  {
    s[|s| - 1]
  }

  function Front<T>(s: seq<T>): seq<T>
    requires s != []
  {
    s[..|s| - 1]
  }

  lemma FrontLast<T>(s: seq<T>, x: T)
    ensures Front(s + [x]) == s && Last(s + [x]) == x
  {}

  /** Positions in a sequence of length n, in order. */
  ghost predicate Positions(idx: seq<nat>, n: nat) {
    && (forall k :: 0 <= k < |idx| ==> idx[k] < n)
    && (forall j, k :: 0 <= j < k < |idx| ==> idx[j] < idx[k])
  }

  /** `std::string::find(ch, from)`. */
  function Find(s: string, ch: char, from: nat): (p: Option<nat>)
    requires from <= |s|
    ensures p.Some? ==> from <= p.value < |s| && s[p.value] == ch && forall i :: from <= i < p.value ==> s[i] != ch
    ensures p.None? ==> forall i :: from <= i < |s| ==> s[i] != ch
    decreases |s| - from
  {
    if from == |s| then None
    else if s[from] == ch then Some(from)
    else Find(s, ch, from + 1)
  }

  lemma Absent(s: string, ch: char)
    requires ch !in s
    ensures Find(s, ch, 0).None?
  {}

  lemma FirstIs(a: string, ch: char, b: string)
    requires ch !in a
    ensures Find(a + ([ch] + b), ch, 0) == Some(|a|)
  {
    var s := a + ([ch] + b);
    assert s[|a|] == ch;
    assert forall i :: 0 <= i < |a| ==> s[i] == a[i];
  }

  function Sum<T>(s: seq<T>, f: T -> nat): nat {
    if s == [] then 0 else f(s[0]) + Sum(s[1..], f)
  }

  lemma {:induction false} SumUpdate<T>(s: seq<T>, i: nat, x: T, f: T -> nat)
    requires i < |s|
    ensures Sum(s[i := x], f) + f(s[i]) == Sum(s, f) + f(x)
  {
    if i == 0 {
      assert s[0 := x][1..] == s[1..];
    } else {
      assert s[i := x][1..] == s[1..][i - 1 := x];
      SumUpdate(s[1..], i - 1, x, f);
    }
  }
}
