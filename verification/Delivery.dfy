/** What a client is sure to be shown by a `retrieve`, whatever the other processes do meanwhile. */
module Delivery {
  import opened CText
  import opened ByteStream
  import opened Wire
  import opened Windows
  import opened PostProtocol
  import opened PostSafety
  import opened PostTheorems
  import opened Host
  import opened Retrieve
  import opened RetrieveRecord
  import opened RetrieveServer

  // ---- which messages a window visits ----

  lemma {:induction false} Consecutive(w: seq<nat>, mid: nat, k: nat)
    requires Rising(w) && (forall i :: 0 <= i < |w| ==> mid <= w[i])
    requires forall id :: mid <= id < mid + k ==> id in w
    ensures k <= |w| && forall j :: 0 <= j < k ==> w[j] == mid + j
  {
    if k > 0 {
      Consecutive(w, mid, k - 1);
      assert mid + (k - 1) in w;
      var i :| 0 <= i < |w| && w[i] == mid + (k - 1);
      if i < k - 1 {
        assert false;
      }
      assert k > 1 ==> w[k - 2] < w[k - 1];
      assert w[k - 1] <= w[i];
    }
  }

  lemma WantedFrom(ids: seq<nat>, m: nat, mid: nat, k: nat)
    requires Rising(ids) && Range(1, m) <= SetOf(ids) && 1 <= mid && mid + k <= m + 1 && k <= WINDOW
    ensures k <= |Wanted(ids, mid)| && m <= |ids|
    ensures forall j :: 0 <= j < k ==> Wanted(ids, mid)[j] == mid + j
  {
    var w := Wanted(ids, mid);
    WantedIn(ids, mid);
    WantedAscends(ids, mid);
    AscendingSize(ids);
    assert SetOf(ids) == Range(1, m) + (SetOf(ids) - Range(1, m));
    forall i | 0 <= i < |w| ensures mid <= w[i] {
      assert w[i] in w;
    }
    forall id | mid <= id < mid + k ensures id in w {
      assert id in Range(1, m);
      assert id in SetOf(ids);
    }
    Consecutive(w, mid, k);
  }

  lemma WholeRangeSize(ids: set<nat>, n: nat)
    requires ids <= Range(1, n)
    ensures |ids| <= n
  {
    assert Range(1, n) == ids + (Range(1, n) - ids);
  }

  /** The messages a trace visits had been claimed when the scan of MSG ended. */
  lemma VisitsListed(mid: nat, t: Trace, n: nat)
    requires SetOf(t.ids) <= Range(1, n)
    requires if mid > |t.ids| then t.visits == [] else VisitIds(t.visits) <= Wanted(t.ids, mid)
    ensures IdsUpTo(t.visits, n)
  {
    WantedIn(t.ids, mid);
    forall v | v in t.visits ensures v.id <= n {
      var i :| 0 <= i < |t.visits| && t.visits[i] == v;
      assert VisitIds(t.visits)[i] == v.id && v.id in Wanted(t.ids, mid);
      assert v.id in SetOf(t.ids);
    }
  }

  /** What a trace has come through. */
  ghost predicate Through(s: Sys, s': Sys, gid: string, t: Trace) {
    && Inv(t.start) && Inv(t.end) && Inv(s') && Later(s, t.start) && Later(s, t.end) && Later(t.end, s')
    && |LogOf(s, gid)| <= |LogOf(t.start, gid)| <= |LogOf(t.end, gid)| <= MAX_MID && |t.ids| <= MAX_MID
    && VisitsOk(t.end, s', gid, t.visits)
  }

  /** What a trace lists and visits, when `m` messages were there at the start of the scan. */
  ghost predicate Lists(mid: nat, t: Trace, m: nat) {
    && Rising(t.ids) && Range(1, m) <= SetOf(t.ids) && UpToFatal(t.visits)
    && if mid > |t.ids| then t.visits == []
       else VisitIds(t.visits) <= Wanted(t.ids, mid)
            && (AllSurvive(t.visits) ==> VisitIds(t.visits) == Wanted(t.ids, mid))
  }

  lemma TraceThrough(s: Sys, s': Sys, gid: string, mid: nat, t: Trace)
    requires Inv(s) && TraceOk(s, s', gid, mid, t)
    ensures Through(s, s', gid, t) && Lists(mid, t, |LogOf(t.start, gid)|)
  {
    assert PhaseOk(s, s', gid, mid, t, PhaseScan) && PhaseOk(s, s', gid, mid, t, PhaseList);
    assert PhaseOk(s, s', gid, mid, t, PhaseVisit);
    ReachesLater(s, t.start, false);
    ReachesLater(t.start, t.end, false);
    LaterTransitive(s, t.start, t.end);
    assert LogOf(s, gid) <= LogOf(t.start, gid) && LogOf(t.start, gid) <= LogOf(t.end, gid);
    MsgsOk(t.end, gid);
    VisitsListed(mid, t, |LogOf(t.end, gid)|);
    TourVisits(t.end, s', gid, t.visits);
    AscendingSize(t.ids);
    WholeRangeSize(SetOf(t.ids), |LogOf(t.end, gid)|);
  }

  // ---- what the client makes of the stream of a trace ----

  function ShownBy(got: Received): seq<Record> {
    match got
    case Shown(rs) => rs
    case Stuck(rs) => rs
    case _ => []
  }

  /** The client is shown message `id` as `p`, in its place. */
  predicate Shows(got: Received, mid: nat, id: nat, p: Post)
    requires mid <= id
  {
    id - mid < |ShownBy(got)| && ShownBy(got)[id - mid] == Record(Mid(id), p)
  }

  /** `got` is what the client makes of the stream. */
  predicate Sees(mid: nat, t: Trace, got: Received)
    requires 1 <= mid
  {
    got == ClientReads(Stream(mid, t)).got
  }

  /** The client is shown message `id` as `p`. */
  ghost predicate ShownIn(mid: nat, t: Trace, id: nat, p: Post)
    requires 1 <= mid <= id
  {
    forall got :: Sees(mid, t, got) ==> Shows(got, mid, id, p)
  }

  /** What is sent after the first `j` visits. */
  function SentAfter(vs: seq<Visit>, j: nat): string
    requires j <= |vs|
  {
    VisitsText(vs[j..]) + if AllSurvive(vs) then "\n" else ""
  }

  lemma StreamSplit(mid: nat, t: Trace, j: nat)
    requires 1 <= mid <= |t.ids| && j <= |t.visits| && forall i :: 0 <= i < j ==> Survived(t.visits[i])
    ensures Stream(mid, t) == Counted(Announced(|t.ids|, mid), RecordsOf(t.visits[..j]), SentAfter(t.visits, j))
  {
    var end := if AllSurvive(t.visits) then "\n" else "";
    RecordsAreSent(t.visits, j, end);
    StreamText(mid, t, end);
  }

  lemma StreamText(mid: nat, t: Trace, end: string)
    requires 1 <= mid <= |t.ids| && end == if AllSurvive(t.visits) then "\n" else ""
    ensures Stream(mid, t) == "RRT " + ("OK " + (Dec(1, Announced(|t.ids|, mid)) + (VisitsText(t.visits) + end)))
  {
    var count := Announced(|t.ids|, mid);
    if AllSurvive(t.visits) {
      RecordsAreSent(t.visits, |t.visits|, "\n");
      assert t.visits[..|t.visits|] == t.visits && "" + "\n" == "\n";
    } else {
      CutText(Dec(1, count), VisitsText(t.visits));
    }
  }

  lemma CutText(count: string, records: string)
    ensures "RRT OK " + count + records == "RRT " + ("OK " + (count + (records + "")))
  {
    assert records + "" == records;
    assert "RRT OK " == "RRT " + "OK ";
    Assoc("RRT ", "OK ", count);
    Assoc("RRT ", "OK " + count, records);
    Assoc("OK ", count, records);
  }

  /** Whatever is sent for a message starts with its id. */
  lemma HeaderFollows(mid: string, p: Post, tail: string)
    requires |mid| == 4 && AllDigits(mid)
    ensures CanFollow(Header(mid, p) + tail)
  {
    var size := Dec(1, |p.text|);
    var z := " " + (p.uid + (" " + size));
    Flatten(" ", mid, " ", p.uid, " ", size);
    Assoc(" " + (mid + z), " ", tail);
    Assoc(" ", mid + z, " " + tail);
    Assoc(mid, z, " " + tail);
    Assoc(" ", p.uid + (" " + size), " " + tail);
    WordThen(mid, ' ', p.uid + (" " + size) + (" " + tail));
  }

  lemma SentHeader(v: Visit) returns (tail: string)
    requires VisitSent(v) != ""
    ensures VisitSent(v) == Header(Mid(v.id), Printed(v.post, v.met)) + tail
  {
    var p := Printed(v.post, v.met);
    HeaderThen(Mid(v.id), p);
    tail := if Survived(v) then p.text + FilePart(p.file, "") else "";
    assert Header(Mid(v.id), p) + "" == Header(Mid(v.id), p);
  }

  lemma SentOrFatal(v: Visit)
    ensures VisitSent(v) == "" ==> !Survived(v)
  {
    HeaderThen(Mid(v.id), Printed(v.post, v.met));
  }

  lemma RestFollows(vs: seq<Visit>, j: nat)
    requires UpToFatal(vs) && j <= |vs| && forall v :: v in vs ==> |Mid(v.id)| == 4
    ensures CanFollow(SentAfter(vs, j))
  {
    if j == |vs| {
      assert vs[j..] == [] && "" + "\n" == "\n";
    } else if VisitSent(vs[j]) == "" {
      SentOrFatal(vs[j]);
      assert !AllSurvive(vs) && vs[j..] == [vs[j]] && [vs[j]][1..] == [];
      assert VisitsText([vs[j]]) == "";
    } else {
      var end := if AllSurvive(vs) then "\n" else "";
      var tail := SentHeader(vs[j]);
      var header := Header(Mid(vs[j].id), Printed(vs[j].post, vs[j].met));
      HeaderFollows(Mid(vs[j].id), Printed(vs[j].post, vs[j].met), tail + VisitsText(vs[j + 1..]) + end);
      assert vs[j..][0] == vs[j] && vs[j..][1..] == vs[j + 1..];
      Assoc(header, tail, VisitsText(vs[j + 1..]));
      Assoc(header, tail + VisitsText(vs[j + 1..]), end);
    }
  }

  lemma ReadsCounted(stream: string, count: nat, m: nat, rs: seq<Record>, tail: string)
    requires stream == Counted(count, rs, tail) && AllReadable(rs) && CanFollow(tail) && count == |rs| + m <= INT_MAX
    ensures ShownBy(ClientReads(stream).got) == rs + ShownBy(TurnsFrom(m, tail).got)
  {
    ReadsRecords(count, m, rs, tail);
    ShownFirst(rs, TurnsFrom(m, tail));
  }

  lemma ShownFirst(rs: seq<Record>, r: Reading)
    requires r.got.Shown? || r.got.Stuck?
    ensures ShownBy(Prepend(rs, r).got) == rs + ShownBy(r.got)
  {
  }

  /** After the first `k` records, the client shows `more`. */
  ghost predicate ShownAfter(mid: nat, t: Trace, k: nat, more: seq<Record>)
    requires 1 <= mid && k <= |t.visits|
  {
    forall got :: Sees(mid, t, got) ==> ShownBy(got) == RecordsOf(t.visits[..k]) + more
  }

  /** The records up to a fatal message are shown, and then what the client makes of the rest. */
  lemma SeenFrom(mid: nat, t: Trace, j: nat, m: nat)
    requires 1 <= mid <= |t.ids| && UpToFatal(t.visits) && j <= |t.visits|
    requires Announced(|t.ids|, mid) == j + m <= INT_MAX
    requires forall v :: v in t.visits ==> |Mid(v.id)| == 4
    requires forall i :: 0 <= i < j ==> Survived(t.visits[i]) && Readable(RecordOf(t.visits[i]))
    ensures ShownAfter(mid, t, j, ShownBy(TurnsFrom(m, SentAfter(t.visits, j)).got))
  {
    var rs := RecordsOf(t.visits[..j]);
    StreamSplit(mid, t, j);
    RestFollows(t.visits, j);
    ReadsCounted(Stream(mid, t), j + m, m, rs, SentAfter(t.visits, j));
  }

  /** The first visits of the trace are sent as records that can be read, the `k`-th with `p`. */
  ghost predicate Sends(mid: nat, t: Trace, k: nat, id: nat, p: Post) {
    forall i: nat :: SendsAt(mid, t, k, id, p, i)
  }

  ghost predicate SendsAt(mid: nat, t: Trace, k: nat, id: nat, p: Post, i: nat) {
    && id == mid + k && 1 <= mid <= |t.ids| <= MAX_MID && UpToFatal(t.visits)
    && k < |t.visits| && k < Announced(|t.ids|, mid)
    && RecordOf(t.visits[k]) == Record(Mid(id), p)
    && (i < |t.visits| ==> |Mid(t.visits[i].id)| == 4)
    && (i <= k ==> Survived(t.visits[i]) && Readable(RecordOf(t.visits[i])))
  }

  lemma SendsMade(mid: nat, t: Trace, k: nat, id: nat, p: Post)
    requires 1 <= mid <= |t.ids| <= MAX_MID && UpToFatal(t.visits) && k < |t.visits| && k < Announced(|t.ids|, mid)
    requires id == mid + k && RecordOf(t.visits[k]) == Record(Mid(id), p)
    requires forall v :: v in t.visits ==> |Mid(v.id)| == 4
    requires forall i :: 0 <= i <= k ==> Survived(t.visits[i]) && Readable(RecordOf(t.visits[i]))
    ensures Sends(mid, t, k, id, p)
  {
    forall i: nat ensures SendsAt(mid, t, k, id, p, i) {
      if i < |t.visits| {
        assert t.visits[i] in t.visits;
      }
    }
  }

  lemma SeenAt(mid: nat, t: Trace, k: nat, id: nat, p: Post)
    requires 1 <= mid <= id && Sends(mid, t, k, id, p)
    ensures ShownIn(mid, t, id, p)
  {
    assert SendsAt(mid, t, k, id, p, k);
    forall v | v in t.visits ensures |Mid(v.id)| == 4 {
      var i :| 0 <= i < |t.visits| && t.visits[i] == v;
      assert SendsAt(mid, t, k, id, p, i);
    }
    forall i | 0 <= i <= k ensures Survived(t.visits[i]) && Readable(RecordOf(t.visits[i])) {
      assert SendsAt(mid, t, k, id, p, i);
    }
    var m := Announced(|t.ids|, mid) - (k + 1);
    SeenFrom(mid, t, k + 1, m);
    PlaceShown(mid, t, k, id, p, ShownBy(TurnsFrom(m, SentAfter(t.visits, k + 1)).got));
  }

  lemma PlaceShown(mid: nat, t: Trace, k: nat, id: nat, p: Post, more: seq<Record>)
    requires 1 <= mid && id == mid + k && k < |t.visits| && RecordOf(t.visits[k]) == Record(Mid(id), p)
    requires ShownAfter(mid, t, k + 1, more)
    ensures ShownIn(mid, t, id, p)
  {
    forall got | Sees(mid, t, got) ensures Shows(got, mid, id, p) {
      InPlace(got, mid, k, id, p, RecordsOf(t.visits[..k + 1]), more);
    }
  }

  lemma InPlace(got: Received, mid: nat, k: nat, id: nat, p: Post, rs: seq<Record>, more: seq<Record>)
    requires ShownBy(got) == rs + more && id == mid + k && k < |rs| && rs[k] == Record(Mid(id), p)
    ensures Shows(got, mid, id, p)
  {
  }

  lemma MidSize(id: nat)
    requires id <= MAX_MID
    ensures |Mid(id)| == 4
  {
    assert Pow10(4) == 10000 by {
      assert Pow10(2) == 100;
    }
    DecLength(4, id, 4);
  }

  lemma {:induction false} CStringSize(s: string)
    ensures |CString(s)| <= |s|
  {
    if s != [] && s[0] != '\0' {
      CStringSize(s[1..]);
    }
  }

  /** What a child prints the client can read, if the author is one word. */
  lemma LegibleRecord(s: Sys, s': Sys, gid: string, v: Visit)
    requires VisitOk(s, s', gid, v) && v.id <= MAX_MID && Legible(v.post, v.met)
    ensures Readable(RecordOf(v))
  {
    Facets(s, s', gid, v);
    MidSize(v.id);
    CStringSize(AuthorSoFar(v.post, v.met.uid) + v.met.junk);
    assert AllDigits(Mid(v.id));
  }

  /** The visit is neither fatal, nor does it garble what follows. */
  predicate Clear(v: Visit) {
    Survived(v) && Legible(v.post, v.met)
  }

  // ---- which messages can end the child ----

  /** A child that comes to the message from now on may end there. */
  predicate Risky(c: Proc) {
    RiskyAt(c.req.post, c.pc)
  }

  predicate RiskyAt(p: Post, pc: Pc) {
    match pc
    case Author(_) => true
    case AuthorOpen(_, _) => true
    case Text(_) => true
    case TextOpen(_, _) => p.file.Some?
    case Peek(_) => p.file.Some?
    case Data(_) => true
    case _ => false
  }

  lemma SafeLater(p: Post, pc: Pc, pc': Pc)
    requires !RiskyAt(p, pc) && StageOk(p, pc) && StageOk(p, pc') && NotBefore(pc, pc')
    ensures !RiskyAt(p, pc') && TextThere(pc') && !pc'.Author? && !pc'.Data? && AuthorSoFar(p, pc') == p.uid
  {
  }

  lemma SafeMet(p: Post, pc: Pc, met: Met, to: Pc)
    requires !RiskyAt(p, pc) && StageOk(p, pc) && ValidPost(p) && MetOk(p, met) && InOrder(pc, met, to)
    ensures Survives(p, met) && Legible(p, met)
  {
    SafeLater(p, pc, met.author);
    SafeLater(p, met.author, met.uid);
    SafeLater(p, met.uid, met.text);
    SafeLater(p, met.text, met.size);
    SafeLater(p, met.size, met.dir);
    SafeLater(p, met.dir, met.list);
    WholeAuthor(p, met.junk);
  }

  lemma CompleteIsSafe(c: Proc)
    requires Complete(c)
    ensures !Risky(c)
  {
  }

  /** A visit to a message that was safe before. */
  lemma SafeVisit(s0: Sys, s: Sys, s': Sys, gid: string, v: Visit)
    requires PostsOk(s0) && Later(s0, s) && VisitOk(s, s', gid, v)
    requires v.id <= |LogOf(s0, gid)| && !Risky(Owner(s0, gid, v.id))
    ensures Clear(v) && v.post == Owner(s0, gid, v.id).req.post
    ensures Complete(Owner(s0, gid, v.id)) ==> Printed(v.post, v.met) == v.post
  {
    var c, pc' := Owner(s0, gid, v.id), Owner(s', gid, v.id).pc;
    Facets(s, s', gid, v);
    OwnerOk(s0, gid, v.id);
    OwnerOf(s0, gid, v.id);
    OwnerLater(s0, s, gid, v.id);
    WidenOrder(c.pc, Owner(s, gid, v.id).pc, v.met, pc', pc');
    SafeMet(c.req.post, c.pc, v.met, pc');
    if Complete(c) {
      CompleteIsPrinted(c, v.met, pc');
    }
  }

  // ---- what is sure to be shown ----

  /** All of message `id` had been stored. */
  ghost predicate CompleteAt(s: Sys, gid: string, id: nat) {
    1 <= id <= |LogOf(s, gid)| && Complete(Owner(s, gid, id))
  }

  lemma VisitPlace(mid: nat, t: Trace, m: nat, k: nat)
    requires Lists(mid, t, m) && 1 <= mid && mid + k <= m && k < WINDOW
    ensures mid <= |t.ids| && k < Announced(|t.ids|, mid) && k < |Wanted(t.ids, mid)|
    ensures forall i :: 0 <= i <= k && i < |t.visits| ==> t.visits[i].id == mid + i
  {
    WantedFrom(t.ids, m, mid, k + 1);
    forall i | 0 <= i <= k && i < |t.visits| ensures t.visits[i].id == mid + i {
      assert VisitIds(t.visits)[i] == t.visits[i].id;
    }
  }

  /** No visit before the `k`-th is fatal, or garbles what follows. */
  predicate ClearBefore(vs: seq<Visit>, k: nat) {
    forall i :: 0 <= i < k && i < |vs| ==> Clear(vs[i])
  }

  /** A child gets as far as the `k`-th message of its window, if none before it is fatal. */
  lemma GetsSoFar(mid: nat, t: Trace, m: nat, k: nat)
    requires Lists(mid, t, m) && 1 <= mid && mid + k <= m && k < WINDOW && ClearBefore(t.visits, k)
    ensures mid <= |t.ids| && k < Announced(|t.ids|, mid) && k < |t.visits| && t.visits[k].id == mid + k
  {
    VisitPlace(mid, t, m, k);
    assert |VisitIds(t.visits)| == |t.visits|;
    if |t.visits| <= k {
      assert AllSurvive(t.visits);
    }
  }

  /**
   * What was complete before is shown in its place, if no message before it is fatal or garbled;
   * whatever happens to those behind it.
   */
  lemma CompleteIsShown(s: Sys, s': Sys, gid: string, mid: nat, id: nat, t: Trace)
    requires Inv(s) && TraceOk(s, s', gid, mid, t) && 1 <= mid <= id < mid + 20 && CompleteAt(s, gid, id)
    requires ClearBefore(t.visits, id - mid)
    ensures ShownIn(mid, t, id, Owner(s, gid, id).req.post)
  {
    TraceSends(s, s', gid, mid, id - mid, id, t);
    SeenAt(mid, t, id - mid, id, Owner(s, gid, id).req.post);
  }

  lemma TraceSends(s: Sys, s': Sys, gid: string, mid: nat, k: nat, id: nat, t: Trace)
    requires Inv(s) && TraceOk(s, s', gid, mid, t) && 1 <= mid && k < WINDOW && id == mid + k
    requires CompleteAt(s, gid, id) && ClearBefore(t.visits, k)
    ensures Sends(mid, t, k, id, Owner(s, gid, id).req.post)
  {
    TraceThrough(s, s', gid, mid, t);
    CompleteIsSent(s, s', gid, mid, k, id, t);
  }

  lemma CompleteIsSent(s: Sys, s': Sys, gid: string, mid: nat, k: nat, id: nat, t: Trace)
    requires PostsOk(s) && Through(s, s', gid, t) && Lists(mid, t, |LogOf(t.start, gid)|)
    requires 1 <= mid && k < WINDOW && id == mid + k && CompleteAt(s, gid, id) && ClearBefore(t.visits, k)
    ensures Sends(mid, t, k, id, Owner(s, gid, id).req.post)
  {
    GetsSoFar(mid, t, |LogOf(t.start, gid)|, k);
    CompleteVisit(s, s', gid, t, k, id);
    ReadableIsSent(s, s', gid, mid, t, k, id, Owner(s, gid, id).req.post);
  }

  lemma CompleteVisit(s: Sys, s': Sys, gid: string, t: Trace, k: nat, id: nat)
    requires PostsOk(s) && Through(s, s', gid, t) && CompleteAt(s, gid, id)
    requires k < |t.visits| && t.visits[k].id == id
    ensures Clear(t.visits[k]) && RecordOf(t.visits[k]) == Record(Mid(id), Owner(s, gid, id).req.post)
  {
    assert t.visits[k] in t.visits;
    CompleteIsSafe(Owner(s, gid, id));
    SafeVisit(s, t.end, s', gid, t.visits[k]);
  }

  lemma ReadableIsSent(s: Sys, s': Sys, gid: string, mid: nat, t: Trace, k: nat, id: nat, p: Post)
    requires Through(s, s', gid, t) && UpToFatal(t.visits)
    requires 1 <= mid <= |t.ids| && k < |t.visits| && k < Announced(|t.ids|, mid)
    requires Clear(t.visits[k]) && ClearBefore(t.visits, k)
    requires id == mid + k && RecordOf(t.visits[k]) == Record(Mid(id), p)
    ensures Sends(mid, t, k, id, p)
  {
    MidSizes(s, s', gid, t);
    ClearAreReadable(s, s', gid, t, k);
    SendsMade(mid, t, k, id, p);
  }

  lemma ClearAreReadable(s: Sys, s': Sys, gid: string, t: Trace, k: nat)
    requires Through(s, s', gid, t) && k < |t.visits| && Clear(t.visits[k]) && ClearBefore(t.visits, k)
    ensures forall i :: 0 <= i <= k ==> Survived(t.visits[i]) && Readable(RecordOf(t.visits[i]))
  {
    forall i | 0 <= i <= k ensures Survived(t.visits[i]) && Readable(RecordOf(t.visits[i])) {
      VisitSends(s, s', gid, t, i);
    }
  }

  lemma MidSizes(s: Sys, s': Sys, gid: string, t: Trace)
    requires Through(s, s', gid, t)
    ensures forall v :: v in t.visits ==> |Mid(v.id)| == 4
  {
    forall v | v in t.visits ensures |Mid(v.id)| == 4 {
      Facets(t.end, s', gid, v);
      MidSize(v.id);
    }
  }

  lemma VisitSends(s: Sys, s': Sys, gid: string, t: Trace, i: nat)
    requires Through(s, s', gid, t) && i < |t.visits| && Clear(t.visits[i])
    ensures Readable(RecordOf(t.visits[i]))
  {
    Facets(t.end, s', gid, t.visits[i]);
    LegibleRecord(t.end, s', gid, t.visits[i]);
  }

  /** Whatever the trace, the client is shown message `id`, in its place and as it was sent. */
  ghost predicate SureToShow(s: Sys, gid: string, mid: nat, id: nat)
    requires 1 <= mid <= id
  {
    forall s', t :: TraceOk(s, s', gid, mid, t) ==> ShownIn(mid, t, id, Owner(s, gid, id).req.post)
  }

  /** No message from `mid` up to `id` can end the child. */
  ghost predicate SafeBefore(s: Sys, gid: string, mid: nat, id: nat) {
    forall i :: mid <= i < id ==> !Risky(Owner(s, gid, i))
  }

  lemma SafeIsClear(s: Sys, s': Sys, gid: string, mid: nat, k: nat, t: Trace)
    requires PostsOk(s) && Through(s, s', gid, t) && Lists(mid, t, |LogOf(t.start, gid)|)
    requires 1 <= mid && mid + k <= |LogOf(s, gid)| && k < WINDOW && SafeBefore(s, gid, mid, mid + k)
    ensures ClearBefore(t.visits, k)
  {
    VisitPlace(mid, t, |LogOf(t.start, gid)|, k);
    forall i | 0 <= i < k && i < |t.visits| ensures Clear(t.visits[i]) {
      SafeVisit(s, t.end, s', gid, t.visits[i]);
    }
  }

  lemma SafeIsShown(s: Sys, s': Sys, gid: string, mid: nat, id: nat, t: Trace)
    requires Inv(s) && TraceOk(s, s', gid, mid, t) && 1 <= mid <= id < mid + 20
    requires CompleteAt(s, gid, id) && SafeBefore(s, gid, mid, id)
    ensures ShownIn(mid, t, id, Owner(s, gid, id).req.post)
  {
    SafeSends(s, s', gid, mid, id - mid, id, t);
    SeenAt(mid, t, id - mid, id, Owner(s, gid, id).req.post);
  }

  lemma SafeSends(s: Sys, s': Sys, gid: string, mid: nat, k: nat, id: nat, t: Trace)
    requires Inv(s) && TraceOk(s, s', gid, mid, t) && 1 <= mid && k < WINDOW && id == mid + k
    requires CompleteAt(s, gid, id) && SafeBefore(s, gid, mid, id)
    ensures Sends(mid, t, k, id, Owner(s, gid, id).req.post)
  {
    TraceThrough(s, s', gid, mid, t);
    SafeIsClear(s, s', gid, mid, k, t);
    CompleteIsSent(s, s', gid, mid, k, id, t);
  }

  // ---- a whole window ----

  /** All messages up to `n` that fall into the window from `mid` had been stored. */
  ghost predicate Settled(s: Sys, gid: string, mid: nat, n: nat) {
    forall id :: mid <= id < mid + 20 && id <= n ==> CompleteAt(s, gid, id)
  }

  /** What a scan lists of a window that it cannot see in part only. */
  lemma SettledIds(ids: seq<nat>, m: nat, n: nat, mid: nat)
    requires Rising(ids) && Scan(m, n, SetOf(ids)) && 1 <= mid <= n
    requires mid + WINDOW <= m + 1 || m == n
    ensures mid <= |ids| && Announced(|ids|, mid) == |Wanted(ids, mid)| == Announced(n, mid)
    ensures forall j :: 0 <= j < Announced(n, mid) ==> Wanted(ids, mid)[j] == mid + j
  {
    WantedIsWritten(ids, mid);
    AscendingSize(ids);
    if m == n {
      assert SetOf(ids) == Range(1, n);
      GapFreeCount(n, mid);
    } else {
      FullWindowIsSafe(SetOf(ids), m, mid);
      WholeRangeSize(SetOf(ids), n);
    }
    WantedFrom(ids, m, mid, Announced(n, mid));
  }

  lemma WindowBounds(s: Sys, gid: string, mid: nat, l: nat, m: nat, n: nat)
    requires Settled(s, gid, mid, n) && l == |LogOf(s, gid)| <= m <= n && 1 <= mid <= n
    ensures mid + WINDOW <= m + 1 || m == n
  {
    var last := if mid + WINDOW <= n + 1 then mid + WINDOW - 1 else n;
    assert CompleteAt(s, gid, last);
  }

  lemma VisitWanted(mid: nat, t: Trace, m: nat, i: nat)
    requires Lists(mid, t, m) && i < |t.visits|
    ensures i < |Wanted(t.ids, mid)| && t.visits[i].id == Wanted(t.ids, mid)[i]
    ensures mid <= t.visits[i].id < mid + WINDOW
  {
    WantedIn(t.ids, mid);
    assert VisitIds(t.visits)[i] == t.visits[i].id;
    assert Wanted(t.ids, mid)[i] in Wanted(t.ids, mid);
  }

  /** What has been visited of a settled window, and so printed. */
  ghost predicate PrintsLog(gid: string, t: Trace) {
    forall i :: 0 <= i < |t.visits| ==>
      && Clear(t.visits[i]) && 1 <= t.visits[i].id <= |LogOf(t.end, gid)|
      && RecordOf(t.visits[i]) == Record(Mid(t.visits[i].id), PostsOf(t.end, gid)[t.visits[i].id - 1])
  }

  lemma SettledVisit(s: Sys, s': Sys, gid: string, mid: nat, t: Trace, i: nat)
    requires PostsOk(s) && Through(s, s', gid, t) && i < |t.visits|
    requires mid <= t.visits[i].id < mid + WINDOW && Settled(s, gid, mid, |LogOf(t.end, gid)|)
    ensures Clear(t.visits[i]) && 1 <= t.visits[i].id <= |LogOf(t.end, gid)|
    ensures RecordOf(t.visits[i]) == Record(Mid(t.visits[i].id), PostsOf(t.end, gid)[t.visits[i].id - 1])
  {
    var id := t.visits[i].id;
    PostVisited(t.end, s', gid, t.visits[i]);
    assert CompleteAt(s, gid, id);
    CompleteVisit(s, s', gid, t, i, id);
    OwnerLater(s, t.end, gid, id);
  }

  lemma SettledPrints(s: Sys, s': Sys, gid: string, mid: nat, t: Trace)
    requires PostsOk(s) && Through(s, s', gid, t) && Lists(mid, t, |LogOf(t.start, gid)|)
    requires Settled(s, gid, mid, |LogOf(t.end, gid)|)
    ensures PrintsLog(gid, t)
  {
    forall i | 0 <= i < |t.visits|
      ensures Clear(t.visits[i]) && 1 <= t.visits[i].id <= |LogOf(t.end, gid)|
      ensures RecordOf(t.visits[i]) == Record(Mid(t.visits[i].id), PostsOf(t.end, gid)[t.visits[i].id - 1])
    {
      VisitWanted(mid, t, |LogOf(t.start, gid)|, i);
      SettledVisit(s, s', gid, mid, t, i);
    }
  }

  /** What `retrieve` answers when all of the window had been stored before. */
  ghost function WindowAnswer(log: seq<Post>, mid: nat): Answer
    requires 1 <= mid
  {
    if mid > |log| then NoMessages else Messages(Announced(|log|, mid), Window(log, mid))
  }

  lemma PrintedWindow(gid: string, mid: nat, t: Trace)
    requires 1 <= mid <= |LogOf(t.end, gid)| && PrintsLog(gid, t)
    requires |t.visits| == Announced(|LogOf(t.end, gid)|, mid)
    requires forall i :: 0 <= i < |t.visits| ==> t.visits[i].id == mid + i
    ensures RecordsOf(t.visits) == Window(PostsOf(t.end, gid), mid)
  {
    var rs, w := RecordsOf(t.visits), Window(PostsOf(t.end, gid), mid);
    forall i | 0 <= i < |rs| ensures rs[i] == w[i] {
      assert t.visits[i].id == mid + i;
    }
  }

  lemma SettledAnswer(gid: string, mid: nat, t: Trace, m: nat, n: nat)
    requires Lists(mid, t, m) && PrintsLog(gid, t) && n == |LogOf(t.end, gid)| && 1 <= mid
    requires Scan(m, n, SetOf(t.ids)) && (mid <= n ==> mid + WINDOW <= m + 1 || m == n)
    ensures AllSurvive(t.visits) && AnswerOf(mid, t) == WindowAnswer(PostsOf(t.end, gid), mid)
  {
    AscendingSize(t.ids);
    WholeRangeSize(SetOf(t.ids), n);
    if mid <= n {
      SettledIds(t.ids, m, n, mid);
      assert |VisitIds(t.visits)| == |t.visits|;
      forall i | 0 <= i < |t.visits| ensures t.visits[i].id == mid + i {
        VisitWanted(mid, t, m, i);
      }
      PrintedWindow(gid, mid, t);
    }
  }

  predicate AllClear(vs: seq<Visit>) {
    forall i :: 0 <= i < |vs| ==> Clear(vs[i])
  }

  /** If no visit is fatal or garbled, the client makes of the stream what was meant. */
  lemma AnswerSeen(s: Sys, s': Sys, gid: string, mid: nat, t: Trace)
    requires Inv(s) && TraceOk(s, s', gid, mid, t) && AllClear(t.visits) && 1 <= mid
    ensures Sees(mid, t, Display(AnswerOf(mid, t)))
  {
    TraceThrough(s, s', gid, mid, t);
    forall i | 0 <= i < |t.visits| ensures Readable(RecordsOf(t.visits)[i]) {
      VisitSends(s, s', gid, t, i);
    }
    ReadsAnswer(AnswerOf(mid, t));
  }

  /**
   * A window whose messages had all been stored before is shown as the log has it, however the
   * scan and the visits were interleaved with other processes.
   */
  lemma SettledWindow(s: Sys, s': Sys, gid: string, mid: nat, t: Trace)
    requires Inv(s) && 1 <= mid && TraceOk(s, s', gid, mid, t)
    requires Settled(s, gid, mid, |LogOf(t.end, gid)|)
    ensures AllSurvive(t.visits) && Sees(mid, t, Display(WindowAnswer(PostsOf(t.end, gid), mid)))
  {
    SettledTrace(s, s', gid, mid, t);
    AnswerSeen(s, s', gid, mid, t);
  }

  /**
   * The client is shown messages `mid`, `mid` + 1, .. of the log under their ids, 20 of them or all
   * there are; past the end of the log, that there is nothing.
   */
  predicate ShowsLog(got: Received, log: seq<Post>, mid: nat)
    requires 1 <= mid
  {
    if mid > |log| then got == Nothing
    else
      && got.Shown? && |got.records| == (if |log| - mid + 1 < 20 then |log| - mid + 1 else 20)
      && forall j :: 0 <= j < |got.records| ==> got.records[j] == Record(Dec(4, mid + j), log[mid - 1 + j])
  }

  lemma WindowShown(log: seq<Post>, mid: nat)
    requires 1 <= mid
    ensures ShowsLog(Display(WindowAnswer(log, mid)), log, mid)
  {
    if mid <= |log| {
      assert Display(WindowAnswer(log, mid)) == Shown(Window(log, mid));
      WindowSize(log, mid);
    }
  }

  lemma WindowSize(log: seq<Post>, mid: nat)
    requires 1 <= mid <= |log|
    ensures |Window(log, mid)| == if |log| - mid + 1 < 20 then |log| - mid + 1 else 20
  {
  }

  /** Up to 20 messages from `mid` on that had all been stored before are all shown, and no others. */
  lemma SettledShown(s: Sys, s': Sys, gid: string, mid: nat, t: Trace)
    requires Inv(s) && 1 <= mid && TraceOk(s, s', gid, mid, t)
    requires forall id :: mid <= id < mid + 20 && id <= |LogOf(t.end, gid)| ==> CompleteAt(s, gid, id)
    ensures forall got :: Sees(mid, t, got) ==> ShowsLog(got, PostsOf(t.end, gid), mid)
  {
    SettledWindow(s, s', gid, mid, t);
    WindowShown(PostsOf(t.end, gid), mid);
  }

  /** If there were 20 of them, it does not matter what has been posted since. */
  lemma TwentyShown(s: Sys, s': Sys, gid: string, mid: nat, t: Trace)
    requires Inv(s) && 1 <= mid && TraceOk(s, s', gid, mid, t)
    requires mid + 19 <= |LogOf(s, gid)| && forall id :: mid <= id < mid + 20 ==> CompleteAt(s, gid, id)
    ensures forall got :: Sees(mid, t, got) ==> ShowsLog(got, PostsOf(s, gid), mid)
  {
    SettledShown(s, s', gid, mid, t);
    TraceThrough(s, s', gid, mid, t);
    PostsLater(s, t.end, gid);
    forall got | Sees(mid, t, got) ensures ShowsLog(got, PostsOf(s, gid), mid) {
      SameTwenty(got, PostsOf(s, gid), PostsOf(t.end, gid), mid);
    }
  }

  lemma PostsLater(s: Sys, s': Sys, gid: string)
    requires PostsOk(s) && Later(s, s')
    ensures PostsOf(s, gid) <= PostsOf(s', gid)
  {
    assert LogOf(s, gid) <= LogOf(s', gid);
    forall i | 0 <= i < |LogOf(s, gid)| ensures PostsOf(s, gid)[i] == PostsOf(s', gid)[i] {
      OwnerLater(s, s', gid, i + 1);
    }
  }

  lemma SameTwenty(got: Received, log: seq<Post>, log': seq<Post>, mid: nat)
    requires 1 <= mid && ShowsLog(got, log', mid) && mid + 19 <= |log| && log <= log'
    ensures ShowsLog(got, log, mid)
  {
    assert |got.records| == 20;
    forall j | 0 <= j < 20 ensures got.records[j] == Record(Dec(4, mid + j), log[mid - 1 + j]) {
      assert log'[mid - 1 + j] == log[mid - 1 + j];
    }
  }

  lemma {:induction false} TurnsShow(n: nat, mid: string, s: string)
    ensures |ShownBy(Turns(n, mid, s).got)| <= n
  {
    var turn := TurnOf(mid, s);
    if n == 0 || turn.Lost? {
      NoTurn(n, mid, s);
    } else {
      TurnsShow(n - 1, turn.word, turn.rest);
      TurnFirst(n, mid, s, turn, Turns(n - 1, turn.word, turn.rest));
    }
  }

  lemma NoTurn(n: nat, mid: string, s: string)
    requires n == 0 || TurnOf(mid, s).Lost?
    ensures ShownBy(Turns(n, mid, s).got) == []
  {
  }

  lemma TurnFirst(n: nat, mid: string, s: string, turn: Turn, r: Reading)
    requires n > 0 && turn == TurnOf(mid, s) && turn.Turn? && r == Turns(n - 1, turn.word, turn.rest)
    ensures |ShownBy(Turns(n, mid, s).got)| == 1 + |ShownBy(r.got)|
  {
    ShownFirst([turn.record], r);
  }

  /** Whatever the others do, the client is never shown more than 20. */
  lemma NoMoreThanTwenty(s: Sys, s': Sys, gid: string, mid: nat, t: Trace)
    requires Inv(s) && 1 <= mid && TraceOk(s, s', gid, mid, t)
    ensures forall got :: Sees(mid, t, got) ==> |ShownBy(got)| <= 20
  {
    TraceThrough(s, s', gid, mid, t);
    if mid > |t.ids| {
      ReadsAnswer(NoMessages);
    } else {
      var n := Announced(|t.ids|, mid);
      MidSizes(s, s', gid, t);
      SeenFrom(mid, t, 0, n);
      TurnsShow(n, WordOf(Drop(SentAfter(t.visits, 0), 1)), AfterWord(Drop(SentAfter(t.visits, 0), 1)));
      assert RecordsOf(t.visits[..0]) == [];
    }
  }

  lemma SettledTrace(s: Sys, s': Sys, gid: string, mid: nat, t: Trace)
    requires Inv(s) && 1 <= mid && TraceOk(s, s', gid, mid, t)
    requires Settled(s, gid, mid, |LogOf(t.end, gid)|)
    ensures AllClear(t.visits) && AllSurvive(t.visits) && AnswerOf(mid, t) == WindowAnswer(PostsOf(t.end, gid), mid)
  {
    var m, n := |LogOf(t.start, gid)|, |LogOf(t.end, gid)|;
    TraceThrough(s, s', gid, mid, t);
    SettledPrints(s, s', gid, mid, t);
    if mid <= n {
      WindowBounds(s, gid, mid, |LogOf(s, gid)|, m, n);
    }
    assert PhaseOk(s, s', gid, mid, t, PhaseScan);
    SettledAnswer(gid, mid, t, m, n);
  }

  /**
   * The count is that of the records sent, unless posts to the group came while MSG was read and
   * a gap they left could matter; `CountGoesWrong` shows that it then does.
   */
  lemma CountsAgree(s: Sys, s': Sys, gid: string, mid: nat, t: Trace)
    requires Inv(s) && 1 <= mid <= |t.ids| && TraceOk(s, s', gid, mid, t) && AllClear(t.visits)
    requires GapsHarmless(|LogOf(t.start, gid)|, |LogOf(t.end, gid)|, mid)
    ensures Announced(|t.ids|, mid) == |t.visits| && Sees(mid, t, Shown(RecordsOf(t.visits)))
  {
    TraceCount(s, s', gid, mid, t);
    AnswerSeen(s, s', gid, mid, t);
  }

  lemma TraceCount(s: Sys, s': Sys, gid: string, mid: nat, t: Trace)
    requires 1 <= mid <= |t.ids| && TraceOk(s, s', gid, mid, t) && AllClear(t.visits)
    requires GapsHarmless(|LogOf(t.start, gid)|, |LogOf(t.end, gid)|, mid)
    ensures Announced(|t.ids|, mid) == |t.visits|
  {
    assert PhaseOk(s, s', gid, mid, t, PhaseScan) && PhaseOk(s, s', gid, mid, t, PhaseList);
    CountsRightIff(|LogOf(t.start, gid)|, |LogOf(t.end, gid)|, mid);
    AscendingSize(t.ids);
    WantedIsWritten(t.ids, mid);
    assert AllSurvive(t.visits) && |VisitIds(t.visits)| == |t.visits|;
  }
}
