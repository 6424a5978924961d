/** Ordered insertion sorts, and a directory of numbered entries has one sorted listing. */
module Sorting {
  import opened CText
  import opened StrList

  ghost predicate Sorted(ord: (string, string) -> int, xs: seq<string>) {
    forall i, j :: 0 <= i < j < |xs| ==> ord(xs[i], xs[j]) <= 0
  }

  lemma {:induction false} InsertOrdMultiset(ord: (string, string) -> int, xs: seq<string>, x: string)
    ensures multiset(InsertOrd(ord, xs, x)) == multiset(xs) + multiset{x}
  {
    if xs != [] && ord(x, xs[0]) > 0 {
      InsertOrdMultiset(ord, xs[1..], x);
      assert xs == [xs[0]] + xs[1..];
    }
  }

  lemma ConsSorted(ord: (string, string) -> int, x: string, ys: seq<string>)
    requires Sorted(ord, ys) && forall y :: y in multiset(ys) ==> ord(x, y) <= 0
    ensures Sorted(ord, [x] + ys)
  {
    assert forall j :: 0 <= j < |ys| ==> ys[j] in multiset(ys);
  }

  lemma BelowHead(ord: (string, string) -> int, xs: seq<string>, x: string, y: string)
    requires TotalOrder(ord) && Sorted(ord, xs) && xs != [] && ord(x, xs[0]) <= 0
    requires y in multiset(xs)
    ensures ord(x, y) <= 0
  {
    var k :| 0 <= k < |xs| && xs[k] == y;
  }

  lemma AboveHead(ord: (string, string) -> int, xs: seq<string>, x: string, y: string)
    requires TotalOrder(ord) && Sorted(ord, xs) && xs != [] && ord(x, xs[0]) > 0
    requires y == x || y in multiset(xs[1..])
    ensures ord(xs[0], y) <= 0
  {
    if y != x {
      var k :| 0 <= k < |xs| - 1 && xs[1..][k] == y;
    }
  }

  /** Inserting into a sorted list leaves it sorted, with exactly one more occurrence of `x`. */
  lemma {:induction false} InsertOrdSorted(ord: (string, string) -> int, xs: seq<string>, x: string)
    requires TotalOrder(ord) && Sorted(ord, xs)
    ensures Sorted(ord, InsertOrd(ord, xs, x))
    ensures multiset(InsertOrd(ord, xs, x)) == multiset(xs) + multiset{x}
  {
    InsertOrdMultiset(ord, xs, x);
    if xs != [] && ord(x, xs[0]) > 0 {
      InsertOrdSorted(ord, xs[1..], x);
      var ys := InsertOrd(ord, xs[1..], x);
      forall y | y in multiset(ys) ensures ord(xs[0], y) <= 0 {
        AboveHead(ord, xs, x, y);
      }
      ConsSorted(ord, xs[0], ys);
    } else if xs != [] {
      forall y | y in multiset(xs) ensures ord(x, y) <= 0 {
        BelowHead(ord, xs, x, y);
      }
      ConsSorted(ord, x, xs);
    }
  }

  lemma InsertStrcmp(xs: seq<string>, x: string)
    requires Sorted(Strcmp, xs)
    ensures Sorted(Strcmp, InsertOrd(Strcmp, xs, x))
    ensures multiset(InsertOrd(Strcmp, xs, x)) == multiset(xs) + multiset{x}
  {
    StrcmpTotalOrder();
    InsertOrdSorted(Strcmp, xs, x);
  }

  lemma HeadLeast(xs: seq<string>, y: string)
    requires Sorted(Strcmp, xs) && y in multiset(xs)
    ensures Strcmp(xs[0], y) <= 0
  {
    var k :| 0 <= k < |xs| && xs[k] == y;
    StrcmpAntisymmetric(xs[0], xs[0]);
  }

  lemma TailMultiset(xs: seq<string>)
    requires xs != []
    ensures multiset(xs[1..]) == multiset(xs) - multiset{xs[0]}
  {
    assert xs == [xs[0]] + xs[1..];
  }

  /** Two `strcmp`-sorted lists with the same elements are the same list. */
  lemma {:induction false} SortedUnique(xs: seq<string>, ys: seq<string>)
    requires Sorted(Strcmp, xs) && Sorted(Strcmp, ys) && multiset(xs) == multiset(ys)
    ensures xs == ys
  {
    assert |xs| == |multiset(xs)| == |multiset(ys)| == |ys|;
    if xs != [] {
      assert xs[0] in multiset(xs) && ys[0] in multiset(ys);
      HeadLeast(xs, ys[0]);
      HeadLeast(ys, xs[0]);
      StrcmpAntisymmetric(xs[0], ys[0]);
      StrcmpAntisymmetric(ys[0], xs[0]);
      TailMultiset(xs);
      TailMultiset(ys);
      SortedUnique(xs[1..], ys[1..]);
    }
  }

  /** What ordered insertion builds from names that arrive as `xs`. */
  function InsertAll(xs: seq<string>): seq<string> {
    if xs == [] then [] else InsertOrd(Strcmp, InsertAll(xs[..|xs| - 1]), xs[|xs| - 1])
  }

  lemma InsertAllStep(xs: seq<string>, x: string)
    ensures InsertAll(xs + [x]) == InsertOrd(Strcmp, InsertAll(xs), x)
  {
    assert (xs + [x])[..|xs|] == xs;
  }

  lemma LastOne(xs: seq<string>)
    requires xs != []
    ensures multiset(xs) == multiset(xs[..|xs| - 1]) + multiset{xs[|xs| - 1]}
  {
    assert xs == xs[..|xs| - 1] + [xs[|xs| - 1]];
  }

  /** It builds a sorted permutation. */
  lemma {:induction false} InsertAllSorts(xs: seq<string>)
    ensures Sorted(Strcmp, InsertAll(xs)) && multiset(InsertAll(xs)) == multiset(xs)
  {
    if xs != [] {
      var some, last := xs[..|xs| - 1], xs[|xs| - 1];
      InsertAllSorts(some);
      InsertStrcmp(InsertAll(some), last);
      LastOne(xs);
    }
  }

  /** The order in which `readdir` yields the names does not matter. */
  lemma ArrivalOrderIrrelevant(xs: seq<string>, ys: seq<string>)
    requires multiset(xs) == multiset(ys)
    ensures InsertAll(xs) == InsertAll(ys)
  {
    InsertAllSorts(xs);
    InsertAllSorts(ys);
    SortedUnique(InsertAll(xs), InsertAll(ys));
  }

  // ---- numbered directories ----

  /** The names of entries 1..n printed with a minimum width. */
  function Ids(width: nat, n: nat): set<string> {
    set i | 1 <= i <= n :: Dec(width, i)
  }

  function IdSeq(width: nat, n: nat): seq<string> {
    seq(n, i requires 0 <= i < n => Dec(width, i + 1))
  }

  lemma IdsStep(width: nat, n: nat)
    ensures Ids(width, n + 1) == Ids(width, n) + {Dec(width, n + 1)}
    ensures Dec(width, n + 1) !in Ids(width, n)
  {
    forall i | 1 <= i <= n ensures Dec(width, i) != Dec(width, n + 1) {
      assert Value(Dec(width, i)) == i;
    }
  }

  lemma IdSeqStep(width: nat, n: nat)
    ensures IdSeq(width, n + 1) == IdSeq(width, n) + [Dec(width, n + 1)]
  {
  }

  lemma AddBoth(xs: seq<string>, s: set<string>, x: string)
    requires multiset(xs) == multiset(s) && x !in s
    ensures multiset(xs + [x]) == multiset(s + {x}) && |s + {x}| == |s| + 1
  {
  }

  /** Counting the entries of a gap-free directory gives its largest id. */
  lemma {:induction false} IdsCount(width: nat, n: nat)
    ensures multiset(IdSeq(width, n)) == multiset(Ids(width, n))
    ensures |Ids(width, n)| == n
  {
    if n > 0 {
      IdsCount(width, n - 1);
      IdsStep(width, n - 1);
      IdSeqStep(width, n - 1);
      AddBoth(IdSeq(width, n - 1), Ids(width, n - 1), Dec(width, n));
    }
  }

  lemma IdPair(width: nat, n: nat, i: nat, j: nat)
    requires 1 <= width && i < j < n < Pow10(width)
    ensures Strcmp(IdSeq(width, n)[i], IdSeq(width, n)[j]) <= 0
  {
    DecOrder(width, i + 1, j + 1);
  }

  lemma IdSeqSorted(width: nat, n: nat)
    requires 1 <= width && n < Pow10(width)
    ensures Sorted(Strcmp, IdSeq(width, n))
  {
    forall i, j | 0 <= i < j < n
      ensures Strcmp(IdSeq(width, n)[i], IdSeq(width, n)[j]) <= 0
    {
      IdPair(width, n, i, j);
    }
  }

  /** Directory order is numeric order: `xs` sorts the names 1..n only as 1, 2, .., n. */
  lemma NumericListing(width: nat, n: nat, xs: seq<string>)
    requires 1 <= width && n < Pow10(width)
    requires Sorted(Strcmp, xs) && multiset(xs) == multiset(Ids(width, n))
    ensures xs == IdSeq(width, n)
    ensures forall i :: 0 <= i < n ==> Atoi(xs[i]) == i + 1
  {
    IdSeqSorted(width, n);
    IdsCount(width, n);
    SortedUnique(xs, IdSeq(width, n));
    forall i | 0 <= i < n ensures Atoi(xs[i]) == i + 1 {
      assert xs[i] == Dec(width, i + 1);
      AtoiDec(width, i + 1);
    }
  }
}
