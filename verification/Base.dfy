/** Option values and the standard library's slice search, shared by the other modules. */
module Base {
  datatype Option<+T> = None | Some(value: T)

  const U32: nat := 0x1_0000_0000

  // The source's 32-bit counters; its release build lets them wrap.
  type u32 = x: nat | x < U32

  function Max(a: int, b: int): int { if a < b then b else a }

  function Min(a: int, b: int): int { if a < b then a else b }

  // The last `n` elements of a bounded deque, or all of them.
  function LastN<T>(s: seq<T>, n: nat): seq<T> {
    if |s| <= n then s else s[|s| - n..]
  }

  lemma DropOneMore<T>(s: seq<T>, n: nat)
    requires n < |s|
    ensures s[n..][1..] == s[n + 1..]
  {
  }

  // The source's truncation loops: pop the front while the deque is too long.
  method Truncate<T>(s: seq<T>, n: nat) returns (r: seq<T>)
    ensures r == LastN(s, n)
  {
    r := s;
    while |r| > n
      invariant |r| <= |s| && r == s[|s| - |r|..]
      invariant n <= |r| || r == s
    {
      DropOneMore(s, |s| - |r|);
      r := r[1..];
    }
  }

  // Pushing at the back and popping the surplus at the front keeps the last `n` of everything
  // ever pushed.
  lemma LastNPush<T>(s: seq<T>, x: T, n: nat)
    requires 0 < n
    ensures LastN(LastN(s, n) + [x], n) == LastN(s + [x], n)
  {
    if n < |s| {
      assert LastN(s, n) + [x] == (s + [x])[|s| - n..];
    }
  }

  // Replacing the newest element commutes with the truncation.
  lemma LastNReplace<T>(s: seq<T>, x: T, n: nat)
    requires 0 < n && 0 < |s|
    ensures 0 < |LastN(s, n)|
    ensures LastN(s, n)[|LastN(s, n)| - 1] == s[|s| - 1]
    ensures LastN(s, n)[|LastN(s, n)| - 1 := x] == LastN(s[|s| - 1 := x], n)
  {
  }
}

/**
 `binary_search_by` as the pinned toolchain's standard library computes it. It is modelled step by
 step, so that it has a definite result on slices that are not sorted as well; what it finds on
 sorted ones is `SearchFinds`.
 */
module StdSearch {
  datatype Ordering = Less | Equal | Greater

  datatype Found = Ok(pos: nat) | Err(pos: nat)

  function Narrow<T>(s: seq<T>, cmp: T -> Ordering, base: nat, size: nat): (at: nat)
    requires 1 <= size && base + size <= |s|
    ensures base <= at < base + size
    decreases size
  {
    if size == 1 then base else Narrow(s, cmp, Halved(s, cmp, base, size / 2), size - size / 2)
  }

  function Halved<T>(s: seq<T>, cmp: T -> Ordering, base: nat, half: nat): nat
    requires base + half < |s|
  {
    if cmp(s[base + half]) == Greater then base else base + half
  }

  function BinarySearchBy<T>(s: seq<T>, cmp: T -> Ordering): (r: Found)
    ensures r.Ok? ==> r.pos < |s| && cmp(s[r.pos]) == Equal
    ensures r.Err? ==> r.pos <= |s|
  {
    if |s| == 0 then Err(0)
    else
      var at := Narrow(s, cmp, 0, |s|);
      match cmp(s[at])
      case Equal => Ok(at)
      case Less => Err(at + 1)
      case Greater => Err(at)
  }

  // `cmp` places the elements before, at and after the target in that order.
  ghost predicate Partitioned<T>(s: seq<T>, cmp: T -> Ordering) {
    forall i :: 0 <= i < |s| ==> InOrder(s, cmp, i)
  }

  ghost predicate InOrder<T>(s: seq<T>, cmp: T -> Ordering, i: nat)
    requires i < |s|
  {
    forall j :: i < j < |s| ==>
      (cmp(s[j]) == Less ==> cmp(s[i]) == Less) && (cmp(s[i]) == Greater ==> cmp(s[j]) == Greater)
  }

  ghost predicate AllGreater<T>(s: seq<T>, cmp: T -> Ordering, from: nat) {
    forall i :: from <= i < |s| ==> cmp(s[i]) == Greater
  }

  lemma GreaterFrom<T>(s: seq<T>, cmp: T -> Ordering, m: nat, from: nat)
    requires Partitioned(s, cmp) && m < |s| && cmp(s[m]) == Greater && m <= from
    ensures AllGreater(s, cmp, from)
  {
    assert InOrder(s, cmp, m);
  }

  // What the search keeps: everything from `end` on is past the target, and what stands at `base` is not.
  ghost predicate Within<T>(s: seq<T>, cmp: T -> Ordering, base: nat, end: nat)
    requires base < |s|
  {
    (base == 0 || cmp(s[base]) != Greater) && AllGreater(s, cmp, end)
  }

  lemma HalvedKeeps<T>(s: seq<T>, cmp: T -> Ordering, base: nat, half: nat, end: nat)
    requires Partitioned(s, cmp) && base + half < end <= |s| && base + half <= end - half
    requires Within(s, cmp, base, end)
    ensures var base' := Halved(s, cmp, base, half); Within(s, cmp, base', base' + (end - base - half))
  {
    if cmp(s[base + half]) == Greater {
      GreaterFrom(s, cmp, base + half, end - half);
    }
  }

  lemma {:induction false} NarrowFinds<T>(s: seq<T>, cmp: T -> Ordering, base: nat, size: nat)
    requires Partitioned(s, cmp) && 1 <= size && base + size <= |s|
    requires Within(s, cmp, base, base + size)
    ensures Within(s, cmp, Narrow(s, cmp, base, size), Narrow(s, cmp, base, size) + 1)
    decreases size
  {
    if size > 1 {
      HalvedKeeps(s, cmp, base, size / 2, base + size);
      NarrowFinds(s, cmp, Halved(s, cmp, base, size / 2), size - size / 2);
    }
  }

  lemma SearchFinds<T>(s: seq<T>, cmp: T -> Ordering)
    requires Partitioned(s, cmp)
    requires forall i, j :: 0 <= i < j < |s| && cmp(s[i]) == Equal ==> cmp(s[j]) == Greater
    ensures match BinarySearchBy(s, cmp)
            case Ok(pos) =>
              && cmp(s[pos]) == Equal
              && (forall i :: 0 <= i < pos ==> cmp(s[i]) == Less)
              && (forall i :: pos < i < |s| ==> cmp(s[i]) == Greater)
            case Err(pos) =>
              && (forall i :: 0 <= i < pos ==> cmp(s[i]) == Less)
              && (forall i :: pos <= i < |s| ==> cmp(s[i]) == Greater)
  {
    if |s| > 0 {
      NarrowFinds(s, cmp, 0, |s|);
      var at := Narrow(s, cmp, 0, |s|);
      forall i | 0 <= i < at && cmp(s[at]) != Greater
        ensures cmp(s[i]) == Less
      {
        assert InOrder(s, cmp, i) && cmp(s[i]) != Equal;
      }
    }
  }
}
