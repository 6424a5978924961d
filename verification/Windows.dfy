/** The window of at most 20 messages that one `retrieve` announces and delivers. */
module Windows {
  import opened CText
  import opened Wire

  const WINDOW := 20

  /** The records of the messages `mid`, `mid` + 1, .. of a log, at most 20 of them. */
  function Window(log: seq<Post>, mid: nat): (rs: seq<Record>)
    requires 1 <= mid
    ensures |rs| == Announced(|log|, mid)
  {
    seq(Announced(|log|, mid), j requires 0 <= j < Announced(|log|, mid) =>
      Record(Dec(4, mid + j), log[mid - 1 + j]))
  }

  /** The count `retrieve` announces for `n` listed messages (none past the end). */
  function Announced(n: nat, mid: nat): (k: nat)
    requires 1 <= mid
    ensures mid + k <= n + 1 || k == 0
  {
    if mid > n then 0 else if WINDOW < n - mid + 1 then WINDOW else n - mid + 1
  }

  function AllRecords(log: seq<Post>): (rs: seq<Record>)
    ensures |rs| == |log|
  {
    seq(|log|, i requires 0 <= i < |log| => Record(Dec(4, i + 1), log[i]))
  }

  /** The client asking for `mid`, `mid` + 20, .. until there is nothing more. */
  function Successive(log: seq<Post>, mid: nat): seq<Record>
    requires 1 <= mid
    decreases |log| + 1 - mid
  {
    if mid > |log| then [] else Window(log, mid) + Successive(log, mid + 20)
  }

  /** Successive windows deliver every message of the log once, in order. */
  lemma {:induction false} WindowsCover(log: seq<Post>, mid: nat)
    requires 1 <= mid <= |log| + 1
    ensures Successive(log, mid) == AllRecords(log)[mid - 1..]
    decreases |log| + 1 - mid
  {
    if mid <= |log| {
      var w := Window(log, mid);
      assert w == AllRecords(log)[mid - 1..mid - 1 + |w|];
      if mid + 20 <= |log| + 1 {
        WindowsCover(log, mid + 20);
        assert AllRecords(log)[mid - 1..] == w + AllRecords(log)[mid + 19..];
      } else {
        assert w == AllRecords(log)[mid - 1..];
      }
    }
  }

  // ---- a listing that is not gap-free ----

  /** The ids `retrieve` writes records for, out of those it has listed. */
  function Written(ids: set<nat>, mid: nat): set<nat> {
    set x | x in ids && mid <= x < mid + WINDOW
  }

  lemma {:induction false} RangeSize(ids: set<nat>, lo: nat, hi: nat)
    requires lo <= hi && forall x :: x in ids ==> lo <= x < hi
    ensures |ids| <= hi - lo
    decreases hi
  {
    if lo == hi {
      assert ids == {};
    } else {
      RangeSize(ids - {hi - 1}, lo, hi - 1);
      assert |ids| <= |ids - {hi - 1}| + 1;
    }
  }

  function Range(lo: nat, hi: nat): (r: set<nat>)
    requires lo <= hi + 1
    ensures |r| == hi + 1 - lo
    ensures forall x :: x in r <==> lo <= x <= hi
    decreases hi + 1 - lo
  {
    if lo == hi + 1 then {} else Range(lo + 1, hi) + {lo}
  }

  /** Without gaps the count is right, and the records are exactly those of the window. */
  lemma GapFreeCount(n: nat, mid: nat)
    requires 1 <= mid <= n
    ensures Written(Range(1, n), mid) == Range(mid, mid + Announced(n, mid) - 1)
    ensures |Written(Range(1, n), mid)| == Announced(n, mid)
  {
  }

  /** What a scan may list that begins with messages 1 to `m` and ends with 1 to `n`. */
  ghost predicate Scan(m: nat, n: nat, ids: set<nat>) {
    Range(1, m) <= ids <= Range(1, n)
  }

  /** Every such scan that reaches `mid` announces as many records as are written. */
  ghost predicate CountsRight(m: nat, n: nat, mid: nat)
    requires 1 <= mid
  {
    forall ids :: Scan(m, n, ids) && mid <= |ids| ==> Announced(|ids|, mid) == |Written(ids, mid)|
  }

  /** Known when the scan begins and ends: at most one message came, or the gap cannot matter. */
  predicate GapsHarmless(m: nat, n: nat, mid: nat) {
    || n <= m + 1 || mid + 20 <= m + 1
    || (mid <= m + 1 && n < mid + 20)
    || (mid > m + 1 && n <= mid)
  }

  lemma OneMore(some: set<nat>, x: nat, ids: set<nat>)
    requires some <= ids <= some + {x}
    ensures ids == some || ids == some + {x}
  {
  }

  lemma RangeUpTo(m: nat, n: nat)
    requires n <= m + 1
    ensures Range(1, n) <= Range(1, m) + {m + 1}
    ensures Range(1, m) + {m + 1} == Range(1, m + 1)
  {
    SameRange(Range(1, m) + {m + 1}, 1, m + 1);
  }

  lemma SameRange(ids: set<nat>, lo: nat, hi: nat)
    requires lo <= hi + 1 && forall x :: x in ids <==> lo <= x <= hi
    ensures ids == Range(lo, hi)
  {
  }

  lemma NoRoomForGap(m: nat, n: nat, ids: set<nat>)
    requires Scan(m, n, ids) && n <= m + 1
    ensures ids == Range(1, |ids|)
  {
    RangeUpTo(m, n);
    OneMore(Range(1, m), m + 1, ids);
    assert |Range(1, m)| == m && |Range(1, m + 1)| == m + 1;
  }

  /** Every message from `mid` on falls into the window, and none is missing before it. */
  lemma AllInWindow(m: nat, n: nat, mid: nat, ids: set<nat>)
    requires Scan(m, n, ids) && 1 <= mid <= m + 1 && n < mid + WINDOW && mid <= |ids|
    ensures Announced(|ids|, mid) == |Written(ids, mid)|
  {
    assert ids == Range(1, mid - 1) + Written(ids, mid);
    RangeSize(Written(ids, mid), mid, mid + WINDOW);
  }

  lemma WholeRange(n: nat, ids: set<nat>)
    requires ids <= Range(1, n) && n <= |ids|
    ensures ids == Range(1, n)
  {
    assert Range(1, n) == ids + (Range(1, n) - ids);
  }

  lemma HarmlessIsRight(m: nat, n: nat, mid: nat)
    requires 1 <= mid && GapsHarmless(m, n, mid)
    ensures CountsRight(m, n, mid)
  {
    forall ids | Scan(m, n, ids) && mid <= |ids| ensures Announced(|ids|, mid) == |Written(ids, mid)| {
      if n <= m + 1 {
        NoRoomForGap(m, n, ids);
        GapFreeCount(|ids|, mid);
      } else if mid + WINDOW <= m + 1 {
        FullWindowIsSafe(ids, m, mid);
      } else if mid <= m + 1 {
        AllInWindow(m, n, mid, ids);
      } else {
        assert |ids| <= |Range(1, n)| by {
          assert Range(1, n) == ids + (Range(1, n) - ids);
        }
        WholeRange(n, ids);
        GapFreeCount(n, mid);
      }
    }
  }

  /** The scan that goes wrong: message `m` + 1 is missed. */
  function Missed(m: nat, last: nat): set<nat>
    requires m + 1 <= last
  {
    Range(1, last) - {m + 1}
  }

  lemma MissedIsScan(m: nat, n: nat, last: nat)
    requires m + 1 <= last <= n
    ensures Scan(m, n, Missed(m, last)) && |Missed(m, last)| == last - 1
  {
    assert Range(1, last) == Missed(m, last) + {m + 1};
  }

  /** The window is full, but its hole is not filled. */
  lemma HoleInWindow(m: nat, n: nat, mid: nat)
    requires 1 <= mid <= m + 1 < mid + WINDOW <= n
    ensures var ids := Missed(m, n);
      Announced(|ids|, mid) == WINDOW && |Written(ids, mid)| == WINDOW - 1
  {
    var ids := Missed(m, n);
    MissedIsScan(m, n, n);
    var written := Written(ids, mid);
    SameRange(written + {m + 1}, mid, mid + WINDOW - 1);
    assert |written + {m + 1}| == |written| + 1;
  }

  /** One message is missed before the window, and two are in it. */
  lemma HoleBeforeWindow(m: nat, mid: nat)
    requires m + 1 < mid
    ensures var ids := Missed(m, mid + 1);
      Announced(|ids|, mid) == 1 && |Written(ids, mid)| == 2
  {
    var ids := Missed(m, mid + 1);
    MissedIsScan(m, mid + 1, mid + 1);
    assert |ids| == mid;
    TwoWritten(m, mid);
  }

  lemma TwoWritten(m: nat, mid: nat)
    requires m + 1 < mid
    ensures |Written(Missed(m, mid + 1), mid)| == 2
  {
    assert Written(Missed(m, mid + 1), mid) == {mid, mid + 1};
  }

  lemma HarmfulIsWrong(m: nat, n: nat, mid: nat)
    requires 1 <= mid && !GapsHarmless(m, n, mid)
    ensures !CountsRight(m, n, mid)
  {
    if mid <= m + 1 {
      HoleInWindow(m, n, mid);
      MissedIsScan(m, n, n);
    } else {
      HoleBeforeWindow(m, mid);
      MissedIsScan(m, n, mid + 1);
    }
  }

  /** The announced count is sure to be right exactly when the gaps a scan may have are harmless. */
  lemma CountsRightIff(m: nat, n: nat, mid: nat)
    requires 1 <= mid
    ensures CountsRight(m, n, mid) <==> GapsHarmless(m, n, mid)
  {
    if GapsHarmless(m, n, mid) {
      HarmlessIsRight(m, n, mid);
    } else {
      HarmfulIsWrong(m, n, mid);
    }
  }

  /**
   * A scan that sees at least 1 to `m`, and any of the messages made while it runs, still
   * announces and delivers a full window that ends by `m`.
   */
  lemma FullWindowIsSafe(ids: set<nat>, m: nat, mid: nat)
    requires 0 !in ids && 1 <= mid && mid + WINDOW <= m + 1 && Range(1, m) <= ids
    ensures Announced(|ids|, mid) == WINDOW == |Written(ids, mid)|
    ensures Written(ids, mid) == Range(mid, mid + WINDOW - 1)
  {
    assert ids == Range(1, m) + (ids - Range(1, m));
    forall x | mid <= x < mid + WINDOW ensures x in ids {
      assert x in Range(1, m);
    }
    assert Written(ids, mid) == Range(mid, mid + WINDOW - 1);
  }
}
