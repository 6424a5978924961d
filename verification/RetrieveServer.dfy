/** The server's side of `retrieve`, a forked child among all the other processes. */
module RetrieveServer {
  import opened CText
  import opened StrList
  import opened Sorting
  import opened Tree
  import opened ByteStream
  import opened Wire
  import opened Messages
  import opened Windows
  import opened PostProtocol
  import opened PostTheorems
  import opened Host
  import opened Retrieve
  import opened RetrieveRecord

  // ---- the ids of a listing ----

  ghost predicate Rising(ids: seq<nat>) {
    forall i, j :: 0 <= i < j < |ids| ==> ids[i] < ids[j]
  }

  /** The names of a listing, and the numbers they stand for, in ascending order. */
  ghost predicate IdList(xs: seq<string>, ids: seq<nat>) {
    && |xs| == |ids|
    && (forall i :: 0 <= i < |ids| ==> 1 <= ids[i] && xs[i] == Mid(ids[i]))
    && Rising(ids)
  }

  function SetOf(ids: seq<nat>): set<nat> {
    set id | id in ids
  }

  lemma MidIsId(x: string, n: nat) returns (id: nat)
    requires x in Ids(4, n)
    ensures 1 <= id <= n && x == Mid(id) && AllDigits(x) && Value(x) == id
  {
    id :| 1 <= id <= n && x == Dec(4, id);
  }

  lemma Ascend(a: nat, b: nat)
    requires Strcmp(Mid(a), Mid(b)) <= 0 && a != b && a <= MAX_MID && b <= MAX_MID
    ensures a < b
  {
    assert Pow10(4) == 10000 by {
      assert Pow10(2) == 100;
    }
    DecOrder(4, a, b);
    StrcmpAntisymmetric(Mid(a), Mid(b));
    assert Value(Mid(a)) == a && Value(Mid(b)) == b;
  }

  lemma Twice(xs: seq<string>, i: nat, j: nat)
    requires i < j < |xs| && xs[i] == xs[j]
    ensures multiset(xs)[xs[i]] >= 2
  {
    assert xs == xs[..i] + [xs[i]] + xs[i + 1..j] + [xs[j]] + xs[j + 1..];
  }

  lemma OnceEach(xs: seq<string>, seen: set<string>, i: nat, j: nat)
    requires multiset(xs) == multiset(seen) && i < j < |xs|
    ensures xs[i] != xs[j] && xs[i] in seen
  {
    assert xs[i] in multiset(xs);
    if xs[i] == xs[j] {
      Twice(xs, i, j);
    }
  }

  /** A sorted listing of message directories is an ascending list of ids. */
  lemma ListedIds(xs: seq<string>, seen: set<string>, n: nat) returns (ids: seq<nat>)
    requires Sorted(Strcmp, xs) && multiset(xs) == multiset(seen) && seen <= Ids(4, n) && n <= MAX_MID
    ensures IdList(xs, ids) && forall i :: 0 <= i < |ids| ==> 1 <= ids[i] <= n
  {
    forall i | 0 <= i < |xs| ensures xs[i] in Ids(4, n) && AllDigits(xs[i]) {
      assert xs[i] in multiset(xs);
      var id := MidIsId(xs[i], n);
    }
    ids := seq(|xs|, i requires 0 <= i < |xs| => Value(xs[i]));
    forall i | 0 <= i < |xs| ensures 1 <= ids[i] <= n && xs[i] == Mid(ids[i]) {
      var id := MidIsId(xs[i], n);
    }
    forall i, j | 0 <= i < j < |ids| ensures ids[i] < ids[j] {
      OnceEach(xs, seen, i, j);
      Ascend(ids[i], ids[j]);
    }
  }

  lemma ListedScan(xs: seq<string>, ids: seq<nat>, seen: set<string>, m: nat, n: nat)
    requires IdList(xs, ids) && multiset(xs) == multiset(seen) && Ids(4, m) <= seen
    requires forall i :: 0 <= i < |ids| ==> ids[i] <= n
    ensures Scan(m, n, SetOf(ids))
  {
    forall id | id in Range(1, m) ensures id in SetOf(ids) {
      assert Mid(id) in Ids(4, m) && Mid(id) in multiset(xs);
      var i :| 0 <= i < |xs| && xs[i] == Mid(id);
      assert Value(Mid(ids[i])) == ids[i] && Value(Mid(id)) == id;
    }
    forall id | id in SetOf(ids) ensures id in Range(1, n) {
      var i :| 0 <= i < |ids| && ids[i] == id;
    }
  }

  lemma {:induction false} AscendingSize(ids: seq<nat>)
    requires Rising(ids)
    ensures |SetOf(ids)| == |ids|
  {
    if ids != [] {
      var rest, last := ids[..|ids| - 1], ids[|ids| - 1];
      AscendingSize(rest);
      assert SetOf(ids) == SetOf(rest) + {last};
      assert last !in SetOf(rest);
    }
  }

  /** The ids for which the loop writes a record. */
  function Wanted(ids: seq<nat>, mid: nat): seq<nat> {
    if ids == [] then []
    else
      var last := ids[|ids| - 1];
      Wanted(ids[..|ids| - 1], mid) + if mid <= last < mid + WINDOW then [last] else []
  }

  lemma WantedStep(ids: seq<nat>, mid: nat, i: nat)
    requires i < |ids|
    ensures Wanted(ids[..i + 1], mid)
         == Wanted(ids[..i], mid) + if mid <= ids[i] < mid + WINDOW then [ids[i]] else []
  {
    assert ids[..i + 1][..i] == ids[..i];
  }

  /** Once an id is past the window, all that follow are. */
  lemma WantedEnds(ids: seq<nat>, mid: nat, i: nat)
    requires Rising(ids)
    requires i < |ids| && mid + WINDOW <= ids[i]
    ensures Wanted(ids, mid) == Wanted(ids[..i], mid)
  {
    var k := |ids|;
    assert ids[..k] == ids;
    while k > i
      invariant i <= k <= |ids| && Wanted(ids[..k], mid) == Wanted(ids, mid)
    {
      WantedStep(ids, mid, k - 1);
      k := k - 1;
    }
  }

  lemma {:induction false} WantedPrefix(ids: seq<nat>, mid: nat, i: nat)
    requires i <= |ids|
    ensures Wanted(ids[..i], mid) <= Wanted(ids, mid)
    decreases |ids|
  {
    if i == |ids| {
      assert ids[..i] == ids;
    } else {
      var rest := ids[..|ids| - 1];
      WantedPrefix(rest, mid, i);
      assert rest[..i] == ids[..i];
    }
  }

  lemma {:induction false} WantedIn(ids: seq<nat>, mid: nat)
    ensures forall id :: id in Wanted(ids, mid) <==> id in ids && mid <= id < mid + WINDOW
  {
    if ids != [] {
      WantedIn(ids[..|ids| - 1], mid);
      assert ids == ids[..|ids| - 1] + [ids[|ids| - 1]];
    }
  }

  lemma {:induction false} WantedAscends(ids: seq<nat>, mid: nat)
    requires Rising(ids)
    ensures Rising(Wanted(ids, mid))
  {
    if ids != [] {
      var rest, w := ids[..|ids| - 1], Wanted(ids, mid);
      WantedAscends(rest, mid);
      WantedIn(rest, mid);
      forall i, j | 0 <= i < j < |w| ensures w[i] < w[j] {
        assert w[i] in Wanted(rest, mid);
      }
    }
  }

  lemma WantedIsWritten(ids: seq<nat>, mid: nat)
    requires Rising(ids)
    ensures SetOf(Wanted(ids, mid)) == Written(SetOf(ids), mid)
    ensures |Wanted(ids, mid)| == |Written(SetOf(ids), mid)|
  {
    WantedIn(ids, mid);
    WantedAscends(ids, mid);
    AscendingSize(Wanted(ids, mid));
  }

  // ---- the loop ----

  /** What the loop did with message `id`: the post it was sent as, and the stages it was met at. */
  datatype Visit = Visit(id: nat, post: Post, met: Met)

  function VisitIds(vs: seq<Visit>): seq<nat> {
    seq(|vs|, i requires 0 <= i < |vs| => vs[i].id)
  }

  predicate Survived(v: Visit) {
    Survives(v.post, v.met)
  }

  predicate AllSurvive(vs: seq<Visit>) {
    forall i :: 0 <= i < |vs| ==> Survived(vs[i])
  }

  /** Only the last visit can have been fatal. */
  predicate UpToFatal(vs: seq<Visit>) {
    forall i :: 0 <= i < |vs| - 1 ==> Survived(vs[i])
  }

  datatype Facet = OfPost | OfStages

  ghost predicate FacetOk(s: Sys, s': Sys, gid: string, v: Visit, facet: Facet) {
    match facet
    case OfPost => 1 <= v.id <= |LogOf(s, gid)| && Owner(s, gid, v.id).req.post == v.post && ValidPost(v.post)
    case OfStages =>
      MetOk(v.post, v.met) && InOrder(Owner(s, gid, v.id).pc, v.met, Owner(s', gid, v.id).pc)
  }

  /** A visit, between the states `s` and `s'`. */
  ghost predicate VisitOk(s: Sys, s': Sys, gid: string, v: Visit) {
    forall facet: Facet :: FacetOk(s, s', gid, v, facet)
  }

  lemma Facets(s: Sys, s': Sys, gid: string, v: Visit)
    requires VisitOk(s, s', gid, v)
    ensures 1 <= v.id <= |LogOf(s, gid)| && Owner(s, gid, v.id).req.post == v.post && ValidPost(v.post)
    ensures MetOk(v.post, v.met) && InOrder(Owner(s, gid, v.id).pc, v.met, Owner(s', gid, v.id).pc)
  {
    assert FacetOk(s, s', gid, v, OfPost) && FacetOk(s, s', gid, v, OfStages);
  }

  lemma PostVisited(s: Sys, s': Sys, gid: string, v: Visit)
    requires VisitOk(s, s', gid, v)
    ensures Owner(s, gid, v.id).req.post == v.post && 1 <= v.id <= |LogOf(s, gid)|
  {
    Facets(s, s', gid, v);
  }

  lemma VisitMade(s: Sys, s': Sys, gid: string, v: Visit)
    requires 1 <= v.id <= |LogOf(s, gid)| && Owner(s, gid, v.id).req.post == v.post && ValidPost(v.post)
    requires MetOk(v.post, v.met) && InOrder(Owner(s, gid, v.id).pc, v.met, Owner(s', gid, v.id).pc)
    ensures VisitOk(s, s', gid, v)
  {
    forall facet ensures FacetOk(s, s', gid, v, facet) {
      match facet
      case OfPost =>
      case OfStages =>
    }
  }

  ghost predicate Visited(s: Sys, s': Sys, gid: string, v: Visit) {
    Reaches(s, s', false) && VisitOk(s, s', gid, v)
  }

  /** The visits are made one after the other, on the way from `s` to `s'`. */
  ghost predicate Toured(s: Sys, s': Sys, gid: string, vs: seq<Visit>)
    decreases |vs|, 0
  {
    if vs == [] then Reaches(s, s', false) else TouredAnd(s, s', gid, vs[..|vs| - 1], vs[|vs| - 1])
  }

  ghost predicate TouredAnd(s: Sys, s': Sys, gid: string, first: seq<Visit>, last: Visit)
    decreases |first|, 1
  {
    exists s1 :: Toured(s, s1, gid, first) && Visited(s1, s', gid, last)
  }

  lemma TourStep(s: Sys, s1: Sys, s': Sys, gid: string, vs: seq<Visit>, v: Visit)
    requires Toured(s, s1, gid, vs) && Visited(s1, s', gid, v)
    ensures Toured(s, s', gid, vs + [v])
  {
    assert (vs + [v])[..|vs|] == vs && (vs + [v])[|vs|] == v;
    TourEnds(s, s1, s', gid, vs + [v]);
  }

  lemma TourEnds(s: Sys, s1: Sys, s': Sys, gid: string, vs: seq<Visit>)
    requires vs != [] && Toured(s, s1, gid, vs[..|vs| - 1]) && Visited(s1, s', gid, vs[|vs| - 1])
    ensures Toured(s, s', gid, vs)
  {
    assert TouredAnd(s, s', gid, vs[..|vs| - 1], vs[|vs| - 1]);
  }

  lemma LaterItself(s: Sys)
    ensures Later(s, s)
  {
  }

  /** Sooner before, and later after: a visit is still between the two. */
  lemma VisitWidens(s0: Sys, s: Sys, s': Sys, s'': Sys, gid: string, v: Visit)
    requires VisitOk(s, s', gid, v) && PostsOk(s0) && PostsOk(s') && v.id <= |LogOf(s0, gid)|
    requires Later(s0, s) && Later(s, s') && Later(s', s'')
    ensures VisitOk(s0, s'', gid, v)
  {
    Facets(s, s', gid, v);
    OwnerOf(s0, gid, v.id);
    OwnerLater(s0, s, gid, v.id);
    assert LogOf(s, gid) <= LogOf(s', gid);
    OwnerOf(s', gid, v.id);
    OwnerLater(s', s'', gid, v.id);
    WidenOrder(Owner(s0, gid, v.id).pc, Owner(s, gid, v.id).pc, v.met, Owner(s', gid, v.id).pc,
               Owner(s'', gid, v.id).pc);
    VisitMade(s0, s'', gid, v);
  }

  lemma WidenOrder(from0: Pc, from: Pc, met: Met, to: Pc, to': Pc)
    requires InOrder(from, met, to) && NotBefore(from0, from) && NotBefore(to, to')
    ensures InOrder(from0, met, to')
  {
  }

  ghost predicate IdsUpTo(vs: seq<Visit>, n: nat) {
    forall v :: v in vs ==> v.id <= n
  }

  lemma IdsFirst(vs: seq<Visit>, n: nat)
    requires vs != [] && IdsUpTo(vs, n)
    ensures IdsUpTo(vs[..|vs| - 1], n) && vs == vs[..|vs| - 1] + [vs[|vs| - 1]]
  {
  }

  ghost predicate VisitsOk(s: Sys, s': Sys, gid: string, vs: seq<Visit>) {
    forall v :: v in vs ==> VisitOk(s, s', gid, v)
  }

  /** All visits of a tour are between its ends. */
  lemma {:induction false} TourVisits(s: Sys, s': Sys, gid: string, vs: seq<Visit>)
    requires Inv(s) && Toured(s, s', gid, vs) && IdsUpTo(vs, |LogOf(s, gid)|)
    ensures Inv(s') && Later(s, s') && VisitsOk(s, s', gid, vs)
    decreases |vs|
  {
    if vs == [] {
      ReachesLater(s, s', false);
    } else {
      var first, last := vs[..|vs| - 1], vs[|vs| - 1];
      assert TouredAnd(s, s', gid, first, last);
      var s1 :| Toured(s, s1, gid, first) && Visited(s1, s', gid, last);
      IdsFirst(vs, |LogOf(s, gid)|);
      TourVisits(s, s1, gid, first);
      LastVisit(s, s1, s', gid, first, last, vs);
    }
  }

  lemma LastVisit(s: Sys, s1: Sys, s': Sys, gid: string, first: seq<Visit>, last: Visit, vs: seq<Visit>)
    requires Inv(s) && Inv(s1) && Later(s, s1) && VisitsOk(s, s1, gid, first) && Visited(s1, s', gid, last)
    requires vs == first + [last] && IdsUpTo(vs, |LogOf(s, gid)|)
    ensures Inv(s') && Later(s, s') && VisitsOk(s, s', gid, vs)
  {
    ReachesLater(s1, s', false);
    LaterTransitive(s, s1, s');
    LaterItself(s);
    LaterItself(s');
    forall v | v in vs ensures VisitOk(s, s', gid, v) {
      if v in first {
        VisitWidens(s, s, s1, s', gid, v);
      } else {
        VisitWidens(s, s1, s', s', gid, v);
      }
    }
  }

  function VisitSent(v: Visit): string {
    Sent(Mid(v.id), v.post, v.met)
  }

  /** What the loop has sent for the messages visited. */
  function VisitsText(vs: seq<Visit>): string {
    if vs == [] then "" else VisitSent(vs[0]) + VisitsText(vs[1..])
  }

  lemma {:induction false} VisitsTextStep(vs: seq<Visit>, v: Visit)
    ensures VisitsText(vs + [v]) == VisitsText(vs) + VisitSent(v)
  {
    if vs == [] {
      assert [] + [v] == [v] && VisitSent(v) + "" == VisitSent(v);
    } else {
      VisitsTextStep(vs[1..], v);
      assert (vs + [v])[1..] == vs[1..] + [v];
      Assoc(VisitSent(vs[0]), VisitsText(vs[1..]), VisitSent(v));
    }
  }

  function RecordOf(v: Visit): Record {
    Record(Mid(v.id), Printed(v.post, v.met))
  }

  /** The records of the messages visited. */
  function RecordsOf(vs: seq<Visit>): (rs: seq<Record>)
    ensures |rs| == |vs|
    ensures forall i :: 0 <= i < |vs| ==> rs[i] == RecordOf(vs[i])
  {
    seq(|vs|, i requires 0 <= i < |vs| => RecordOf(vs[i]))
  }

  /** As far as no visit was fatal, records are sent, whatever follows them. */
  lemma {:induction false} RecordsAreSent(vs: seq<Visit>, j: nat, tail: string)
    requires j <= |vs| && forall i :: 0 <= i < j ==> Survived(vs[i])
    ensures VisitsText(vs) + tail == RecordsThen(RecordsOf(vs[..j]), VisitsText(vs[j..]) + tail)
    decreases j
  {
    if j == 0 {
      assert vs[0..] == vs;
    } else {
      var rs := RecordsOf(vs[..j]);
      RecordsAreSent(vs[1..], j - 1, tail);
      RecordsUnfold(rs, VisitsText(vs[j..]) + tail);
      assert vs[1..][j - 1..] == vs[j..] && rs[1..] == RecordsOf(vs[1..][..j - 1]);
      Assoc(VisitSent(vs[0]), VisitsText(vs[1..]), tail);
    }
  }

  /** One record, as a visit. */
  method WriteVisit(m: Machine, fd: Socket, gid: string, mid: string, ghost id: nat)
      returns (ok: bool, ghost v: Visit)
    requires m.Valid() && 1 <= id <= |LogOf(m.sys, gid)| && mid == Mid(id)
    modifies m, m.fs, fd`sent
    ensures m.Valid() && Visited(old(m.sys), m.sys, gid, v) && v.id == id && (ok <==> Survived(v))
    ensures fd.sent == old(fd.sent) + VisitSent(v)
  {
    ghost var p := Owner(m.sys, gid, id).req.post;
    OwnerOk(m.sys, gid, id);
    ghost var met := Met(Check, Check, "", Check, Check, Check, Check, Check);
    ok, met := WriteRecord(m, fd, gid, mid, id);
    v := Visit(id, p, met);
    VisitMade(old(m.sys), m.sys, gid, v);
  }

  const NO_VISIT := Visit(0, NOTHING.post, Met(Check, Check, "", Check, Check, Check, Check, Check))

  /** One turn of the loop: `continue` before the window, `break` after it, a record in it. */
  method Turn(m: Machine, fd: Socket, gid: string, mid: nat, str: string,
              ghost ids: seq<nat>, ghost i: nat) returns (stop: bool, ok: bool, ghost vs: seq<Visit>)
    requires m.Valid() && Rising(ids) && i < |ids| && str == Mid(ids[i])
    requires 1 <= ids[i] <= |LogOf(m.sys, gid)|
    modifies m, m.fs, fd`sent
    ensures m.Valid() && |vs| <= 1 && (ok <==> AllSurvive(vs))
    ensures (stop <==> ids[i] >= mid + 20) && (vs != [] <==> mid <= ids[i] < mid + 20)
    ensures if vs == [] then m.sys == old(m.sys) else Visited(old(m.sys), m.sys, gid, vs[0])
    ensures if stop then vs == [] && Wanted(ids, mid) == Wanted(ids[..i], mid)
            else Wanted(ids[..i + 1], mid) == Wanted(ids[..i], mid) + VisitIds(vs)
    ensures fd.sent == old(fd.sent) + if vs == [] then "" else VisitSent(vs[0])
  {
    AtoiDec(4, ids[i]);
    WantedStep(ids, mid, i);
    assert fd.sent + "" == fd.sent && VisitIds([]) == [];
    var current := Atoi(str);
    if current < mid {
      return false, true, [];
    }
    if current >= mid + 20 {
      WantedEnds(ids, mid, i);
      return true, true, [];
    }
    ghost var v := NO_VISIT;
    ok, v := WriteVisit(m, fd, gid, str, ids[i]);
    stop, vs := false, [v];
    OneVisit(v);
  }

  lemma OneVisit(v: Visit)
    ensures [v][0] == v && VisitIds([v]) == [v.id] && (AllSurvive([v]) <==> Survived(v))
  {
    assert [v][0] == v;
  }

  /** The ids are those of messages already claimed. */
  ghost predicate Claimed(s: Sys, gid: string, ids: seq<nat>) {
    forall i :: 0 <= i < |ids| ==> 1 <= ids[i] <= |LogOf(s, gid)|
  }

  lemma ClaimedLater(s: Sys, s': Sys, gid: string, ids: seq<nat>, i: nat)
    requires Claimed(s, gid, ids) && Later(s, s') && i < |ids|
    ensures 1 <= ids[i] <= |LogOf(s', gid)|
  {
    assert LogOf(s, gid) <= LogOf(s', gid);
  }

  lemma VisitsGrow(before: string, vs: seq<Visit>, v: Visit)
    requires AllSurvive(vs)
    ensures VisitIds(vs + [v]) == VisitIds(vs) + [v.id] && UpToFatal(vs + [v])
    ensures AllSurvive(vs + [v]) <==> Survived(v)
    ensures before + VisitsText(vs) + VisitSent(v) == before + VisitsText(vs + [v])
  {
    VisitsTextStep(vs, v);
    Assoc(before, VisitsText(vs), VisitSent(v));
    OneMoreVisit(vs, v);
  }

  lemma OneMoreVisit(vs: seq<Visit>, v: Visit)
    requires AllSurvive(vs)
    ensures VisitIds(vs + [v]) == VisitIds(vs) + [v.id] && UpToFatal(vs + [v])
    ensures AllSurvive(vs + [v]) <==> Survived(v)
  {
    assert (vs + [v])[|vs|] == v;
    assert forall i :: 0 <= i < |vs| ==> (vs + [v])[i] == vs[i];
  }

  /** The loop has come to the state `s`, and made the visits `vs` on the way. */
  ghost predicate SoFar(s0: Sys, s: Sys, gid: string, vs: seq<Visit>) {
    Toured(s0, s, gid, vs) && Reaches(s0, s, false) && Later(s0, s) && UpToFatal(vs)
  }

  lemma NothingSoFar(s: Sys, gid: string)
    ensures SoFar(s, s, gid, []) && VisitIds([]) == [] && AllSurvive([])
  {
    ReachesItself(s, false);
  }

  lemma FurtherSoFar(s0: Sys, s: Sys, s': Sys, gid: string, vs: seq<Visit>, v: Visit)
    requires Inv(s) && SoFar(s0, s, gid, vs) && Visited(s, s', gid, v) && UpToFatal(vs + [v])
    ensures SoFar(s0, s', gid, vs + [v])
  {
    TourStep(s0, s, s', gid, vs, v);
    ReachesLater(s, s', false);
    LaterTransitive(s0, s, s');
    ReachesTransitive(s0, s, s', false);
  }

  lemma AfterTurn(s0: Sys, s: Sys, s': Sys, gid: string, vs: seq<Visit>, more: seq<Visit>, before: string)
    requires Inv(s) && SoFar(s0, s, gid, vs) && AllSurvive(vs) && |more| <= 1
    requires if more == [] then s' == s else Visited(s, s', gid, more[0])
    ensures SoFar(s0, s', gid, vs + more) && (AllSurvive(vs + more) <==> AllSurvive(more))
    ensures VisitIds(vs + more) == VisitIds(vs) + VisitIds(more)
    ensures before + VisitsText(vs) + (if more == [] then "" else VisitSent(more[0]))
         == before + VisitsText(vs + more)
  {
    if more == [] {
      assert vs + more == vs && VisitIds(vs) + VisitIds([]) == VisitIds(vs);
      assert before + VisitsText(vs) + "" == before + VisitsText(vs);
    } else {
      OneVisit(more[0]);
      assert more == [more[0]];
      VisitsGrow(before, vs, more[0]);
      FurtherSoFar(s0, s, s', gid, vs, more[0]);
    }
  }

  /** One more turn, after the visits `vs`. */
  method NextTurn(m: Machine, fd: Socket, gid: string, mid: nat, str: string, ghost ids: seq<nat>, ghost i: nat,
                  ghost s0: Sys, ghost vs: seq<Visit>, ghost before: string)
      returns (stop: bool, ok: bool, ghost all: seq<Visit>)
    requires m.Valid() && Rising(ids) && i < |ids| && str == Mid(ids[i]) && Claimed(s0, gid, ids)
    requires SoFar(s0, m.sys, gid, vs) && AllSurvive(vs) && VisitIds(vs) == Wanted(ids[..i], mid)
    requires fd.sent == before + VisitsText(vs)
    modifies m, m.fs, fd`sent
    ensures m.Valid() && SoFar(s0, m.sys, gid, all) && (ok <==> AllSurvive(all))
    ensures VisitIds(all) == if stop then Wanted(ids, mid) else Wanted(ids[..i + 1], mid)
    ensures fd.sent == before + VisitsText(all)
  {
    ghost var s, more := m.sys, [];
    ClaimedLater(s0, s, gid, ids, i);
    stop, ok, more := Turn(m, fd, gid, mid, str, ids, i);
    AfterTurn(s0, s, m.sys, gid, vs, more, before);
    all := vs + more;
  }

  /** The turn for a node of the list, which stays as it is. */
  method NodeTurn(m: Machine, fd: Socket, gid: string, mid: nat, node: Node, ghost xs: seq<string>,
                  ghost left: set<Node>, ghost ids: seq<nat>, ghost i: nat,
                  ghost s0: Sys, ghost vs: seq<Visit>, ghost before: string)
      returns (stop: bool, ok: bool, ghost all: seq<Visit>)
    requires m.Valid() && IdList(xs, ids) && i <= |ids| && Claimed(s0, gid, ids)
    requires Holds(node, xs[i..], left)
    requires SoFar(s0, m.sys, gid, vs) && AllSurvive(vs) && VisitIds(vs) == Wanted(ids[..i], mid)
    requires fd.sent == before + VisitsText(vs)
    modifies m, m.fs, fd`sent
    ensures i < |ids| && Holds(node.next, xs[i + 1..], left - {node})
    ensures m.Valid() && SoFar(s0, m.sys, gid, all) && (ok <==> AllSurvive(all))
    ensures VisitIds(all) == if stop then Wanted(ids, mid) else Wanted(ids[..i + 1], mid)
    ensures fd.sent == before + VisitsText(all)
  {
    HoldsFrom(node, xs, i, left);
    stop, ok, all := NextTurn(m, fd, gid, mid, node.str, ids, i, s0, vs, before);
  }

  /** The loop, while others run: the messages of the window, each once, until one is fatal. */
  method WriteWindow(m: Machine, fd: Socket, gid: string, mid: nat, list: Node?, ghost xs: seq<string>,
                     ghost repr: set<Node>, ghost ids: seq<nat>) returns (ok: bool, ghost vs: seq<Visit>)
    requires m.Valid() && Holds(list, xs, repr) && IdList(xs, ids) && Claimed(m.sys, gid, ids)
    modifies m, m.fs, fd`sent
    ensures m.Valid() && SoFar(old(m.sys), m.sys, gid, vs) && (ok <==> AllSurvive(vs))
    ensures VisitIds(vs) <= Wanted(ids, mid) && (ok ==> VisitIds(vs) == Wanted(ids, mid))
    ensures fd.sent == old(fd.sent) + VisitsText(vs)
  {
    ghost var s0, i, left := m.sys, 0, repr;
    NothingSoFar(s0, gid);
    vs := [];
    assert ids[..0] == [] && fd.sent + "" == fd.sent;
    var aux := list;
    while aux != null
      invariant i <= |xs| && Holds(aux, xs[i..], left)
      invariant m.Valid() && SoFar(s0, m.sys, gid, vs)
      invariant AllSurvive(vs) && VisitIds(vs) == Wanted(ids[..i], mid)
      invariant fd.sent == old(fd.sent) + VisitsText(vs)
      decreases |xs| - i
    {
      var stop;
      stop, ok, vs := NodeTurn(m, fd, gid, mid, aux, xs, left, ids, i, s0, vs, old(fd.sent));
      if !ok || stop {
        WantedPrefix(ids, mid, i + 1);
        return;
      }
      left := left - {aux};
      aux := aux.next;
      i := i + 1;
    }
    assert ids[..i] == ids;
    ok := true;
  }

  // ---- the whole command ----

  predicate ValidMid(s: string) {
    |s| == 4 && AllDigits(s) && Atoi(s) != 0
  }

  /** The three words of the request, whatever they are, as long as they fit their buffers. */
  method ParseRtv(fd: Socket) returns (uid: string, gid: string, mid: int, ok: bool)
    requires |WordOf(fd.rest)| < 6 && |WordOf(AfterWord(fd.rest))| < 3
    requires |WordOf(AfterWord(AfterWord(fd.rest)))| < 5
    modifies fd`rest
    ensures uid == WordOf(old(fd.rest)) && gid == WordOf(AfterWord(old(fd.rest)))
    ensures ok <==> ValidUid(uid) && ValidGid(gid) && ValidMid(WordOf(AfterWord(AfterWord(old(fd.rest)))))
    ensures mid == Atoi(WordOf(AfterWord(AfterWord(old(fd.rest)))))
  {
    uid := ReadWord(fd, 6);
    gid := ReadWord(fd, 3);
    var midStr := ReadWord(fd, 5);
    ok := ValidUid(uid) && ValidGid(gid) && ValidMid(midStr);
    mid := Atoi(midStr);
  }

  /** What a whole `retrieve` went through after its group was found. */
  datatype Trace = Trace(start: Sys, end: Sys, ids: seq<nat>, visits: seq<Visit>)

  datatype Phase = PhaseScan | PhaseList | PhaseVisit

  ghost predicate PhaseOk(s: Sys, s': Sys, gid: string, mid: nat, t: Trace, phase: Phase) {
    match phase
    case PhaseScan =>
      && Reaches(s, t.start, false) && Reaches(t.start, t.end, false)
      && Scan(|LogOf(t.start, gid)|, |LogOf(t.end, gid)|, SetOf(t.ids))
    case PhaseList =>
      && Rising(t.ids) && UpToFatal(t.visits)
      && if mid > |t.ids| then t.visits == []
         else VisitIds(t.visits) <= Wanted(t.ids, mid)
              && (AllSurvive(t.visits) ==> VisitIds(t.visits) == Wanted(t.ids, mid))
    case PhaseVisit => Toured(t.end, s', gid, t.visits)
  }

  /**
   * MSG was scanned between `start` and `end`, then the messages listed for the window were
   * visited in order, one after the other, up to the first one that is fatal.
   */
  ghost predicate TraceOk(s: Sys, s': Sys, gid: string, mid: nat, t: Trace) {
    forall phase: Phase :: PhaseOk(s, s', gid, mid, t, phase)
  }

  lemma TraceMade(s: Sys, s': Sys, gid: string, mid: nat, t: Trace)
    requires PhaseOk(s, s', gid, mid, t, PhaseScan) && PhaseOk(s, s', gid, mid, t, PhaseList)
    requires PhaseOk(s, s', gid, mid, t, PhaseVisit)
    ensures TraceOk(s, s', gid, mid, t)
  {
    forall phase ensures PhaseOk(s, s', gid, mid, t, phase) {
      match phase
      case PhaseScan =>
      case PhaseList =>
      case PhaseVisit =>
    }
  }

  /** The reply of a child that survives. */
  function AnswerOf(mid: nat, t: Trace): Answer
    requires 1 <= mid
  {
    if mid > |t.ids| then NoMessages else Messages(Announced(|t.ids|, mid), RecordsOf(t.visits))
  }

  /** What has been sent when a message is fatal. */
  function CutOff(mid: nat, t: Trace): string
    requires 1 <= mid
  {
    "RRT OK " + Dec(1, Announced(|t.ids|, mid)) + VisitsText(t.visits)
  }

  /** All that the child sends. */
  function Stream(mid: nat, t: Trace): string
    requires 1 <= mid
  {
    if AllSurvive(t.visits) then PrintAnswer(AnswerOf(mid, t)) else CutOff(mid, t)
  }

  /** What was read of MSG, as a list of ids. */
  method SortedIds(es: set<Dirent>, ghost a: nat, ghost b: nat)
      returns (list: Node?, ghost xs: seq<string>, ghost repr: set<Node>, ghost ids: seq<nat>)
    requires Ids(4, a) <= DirsIn(es) <= Ids(4, b) && b <= MAX_MID
    ensures fresh(repr) && Holds(list, xs, repr) && IdList(xs, ids)
    ensures Scan(a, b, SetOf(ids)) && forall i :: 0 <= i < |ids| ==> 1 <= ids[i] <= b
  {
    list, xs, repr := ListDirsOrd(es);
    ids := ListedIds(xs, DirsIn(es), b);
    ListedScan(xs, ids, DirsIn(es), a, b);
  }

  /** `list_subdirectories_ord` on MSG, while others run. */
  method ListMessages(m: Machine, gid: string, ghost main: bool)
      returns (list: Node?, ghost xs: seq<string>, ghost repr: set<Node>, ghost ids: seq<nat>)
    requires m.Valid()
    modifies m, m.fs
    ensures m.Valid() && Reaches(old(m.sys), m.sys, main)
    ensures Holds(list, xs, repr) && IdList(xs, ids) && Claimed(m.sys, gid, ids)
    ensures Scan(|LogOf(old(m.sys), gid)|, |LogOf(m.sys, gid)|, SetOf(ids))
  {
    ghost var a := |LogOf(m.sys, gid)|;
    var es := ScanMessages(m, gid, main);
    list, xs, repr, ids := SortedIds(es, a, |LogOf(m.sys, gid)|);
  }

  /**
   * The server's side of `retrieve` on a valid request, with other processes between any two
   * looks at the tree. The child ends early exactly when a message it visits is fatal.
   */
  method ServerRetrieve(m: Machine, fd: Socket, gid: string, mid: nat) returns (ok: bool, ghost t: Trace)
    requires m.Valid() && 1 <= mid
    modifies m, m.fs, fd`sent
    ensures m.Valid()
    ensures !IsDir(old(m.sys).tree, GroupDir(gid)) ==> ok && fd.sent == old(fd.sent) + PrintAnswer(Refused)
    ensures IsDir(old(m.sys).tree, GroupDir(gid)) ==>
      && TraceOk(old(m.sys), m.sys, gid, mid, t) && (ok <==> AllSurvive(t.visits))
      && fd.sent == old(fd.sent) + Stream(mid, t)
  {
    t := Trace(m.sys, m.sys, [], []);
    if !IsDir(m.fs.tree, GroupDir(gid)) {
      fd.Write("RRT NOK\n");
      ShortAnswers();
      return true, t;
    }
    m.Others(false);
    ghost var start, xs, repr, ids, visits := m.sys, [], {}, [], [];
    var list;
    list, xs, repr, ids := ListMessages(m, gid, false);
    var n := Size(list, xs, repr);
    ghost var end := m.sys;
    if mid > n {
      fd.Write("RRT EOF 0\n");
      ShortAnswers();
      ok := true;
      NothingSoFar(end, gid);
    } else {
      ok, visits := SendWindow(m, fd, gid, mid, n, list, xs, repr, ids);
    }
    t := Trace(start, end, ids, visits);
    TraceMade(old(m.sys), m.sys, gid, mid, t);
  }

  /** The count, and the window it announces. */
  method SendWindow(m: Machine, fd: Socket, gid: string, mid: nat, n: nat, list: Node?, ghost xs: seq<string>,
                    ghost repr: set<Node>, ghost ids: seq<nat>) returns (ok: bool, ghost visits: seq<Visit>)
    requires m.Valid() && Holds(list, xs, repr) && IdList(xs, ids) && Claimed(m.sys, gid, ids)
    requires 1 <= mid <= n == |ids|
    modifies m, m.fs, fd`sent
    ensures m.Valid() && SoFar(old(m.sys), m.sys, gid, visits) && (ok <==> AllSurvive(visits))
    ensures VisitIds(visits) <= Wanted(ids, mid) && (ok ==> VisitIds(visits) == Wanted(ids, mid))
    ensures fd.sent == old(fd.sent) +
              if ok then PrintAnswer(Messages(Announced(n, mid), RecordsOf(visits)))
              else "RRT OK " + Dec(1, Announced(n, mid)) + VisitsText(visits)
  {
    var newMsgs := n - mid + 1;
    var count := if 20 < newMsgs then 20 else newMsgs;
    fd.Write("RRT OK " + Dec(1, count));
    ok, visits := WriteWindow(m, fd, gid, mid, list, xs, repr, ids);
    Assoc(old(fd.sent), "RRT OK " + Dec(1, count), VisitsText(visits));
    if ok {
      fd.Write("\n");
      AllAreSent(old(fd.sent), count, visits);
    }
  }

  lemma ShortAnswers()
    ensures PrintAnswer(Refused) == "RRT NOK\n" && PrintAnswer(NoMessages) == "RRT EOF 0\n"
  {
    assert "RRT " + ("EOF " + "0\n") == "RRT EOF 0\n";
  }

  lemma AllAreSent(before: string, count: nat, vs: seq<Visit>)
    requires AllSurvive(vs)
    ensures before + ("RRT OK " + Dec(1, count)) + VisitsText(vs) + "\n"
         == before + PrintAnswer(Messages(count, RecordsOf(vs)))
  {
    RecordsAreSent(vs, |vs|, "\n");
    assert vs[..|vs|] == vs && "" + "\n" == "\n";
    AnswerText(before, count, VisitsText(vs));
  }

  lemma AnswerText(before: string, count: nat, records: string)
    ensures before + ("RRT OK " + Dec(1, count)) + records + "\n"
         == before + ("RRT " + ("OK " + (Dec(1, count) + (records + "\n"))))
  {
    assert "RRT OK " + Dec(1, count) == "RRT " + ("OK " + Dec(1, count));
    assert "RRT " + ("OK " + Dec(1, count)) + (records + "\n") == "RRT " + ("OK " + (Dec(1, count) + (records + "\n")));
  }
}
