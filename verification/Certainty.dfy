/** What may go wrong with a `retrieve`, and so exactly when a client is sure to be shown a message. */
module Certainty {
  import opened CText
  import opened Tree
  import opened ByteStream
  import opened Wire
  import opened Messages
  import opened Windows
  import opened PostProtocol
  import opened PostSafety
  import opened PostTheorems
  import opened Host
  import opened Retrieve
  import opened RetrieveRecord
  import opened RetrieveServer
  import opened Delivery
  import opened Reachable

  // ---- a retrieve that nobody disturbs ----

  /** A message looked at when nobody else is running; the buffer for the author held zeros. */
  function MetNow(p: Post, pc: Pc): Met {
    Met(pc, pc, Drop("00000", |AuthorSoFar(p, pc)|), pc, pc, pc, pc, pc)
  }

  ghost function VisitNow(s: Sys, gid: string, id: nat): Visit {
    Visit(id, Owner(s, gid, id).req.post, MetNow(Owner(s, gid, id).req.post, Owner(s, gid, id).pc))
  }

  lemma NowOk(s: Sys, gid: string, id: nat)
    requires PostsOk(s) && 1 <= id <= |LogOf(s, gid)|
    ensures Visited(s, s, gid, VisitNow(s, gid, id))
  {
    ReachesItself(s, false);
    OwnerOk(s, gid, id);
    VisitMade(s, s, gid, VisitNow(s, gid, id));
  }

  /** `k` messages from `lo` on, looked at one after the other when nobody else is running. */
  ghost function VisitsNow(s: Sys, gid: string, lo: nat, k: nat): (vs: seq<Visit>)
    ensures |vs| == k && forall i :: 0 <= i < k ==> vs[i] == VisitNow(s, gid, lo + i)
  {
    seq(k, i requires 0 <= i < k => VisitNow(s, gid, lo + i))
  }

  lemma {:induction false} AllAtOnce(s: Sys, gid: string, vs: seq<Visit>)
    requires forall i :: 0 <= i < |vs| ==> Visited(s, s, gid, vs[i])
    ensures Toured(s, s, gid, vs)
    decreases |vs|
  {
    if vs == [] {
      ReachesItself(s, false);
    } else {
      AllAtOnce(s, gid, vs[..|vs| - 1]);
      TourEnds(s, s, s, gid, vs);
    }
  }

  lemma TourNow(s: Sys, gid: string, lo: nat, k: nat)
    requires PostsOk(s) && 1 <= lo && lo + k <= |LogOf(s, gid)| + 1
    ensures Toured(s, s, gid, VisitsNow(s, gid, lo, k))
  {
    var vs := VisitsNow(s, gid, lo, k);
    forall i | 0 <= i < |vs| ensures Visited(s, s, gid, vs[i]) {
      NowOk(s, gid, lo + i);
    }
    AllAtOnce(s, gid, vs);
  }

  function FirstIds(n: nat): seq<nat> {
    seq(n, i requires 0 <= i < n => i + 1)
  }

  lemma FirstIdsSet(n: nat)
    ensures Rising(FirstIds(n)) && SetOf(FirstIds(n)) == Range(1, n) && |FirstIds(n)| == n
  {
    forall id ensures id in SetOf(FirstIds(n)) <==> id in Range(1, n) {
      if id in Range(1, n) {
        assert FirstIds(n)[id - 1] == id;
      }
    }
  }

  /** A retrieve whose scan is undisturbed. */
  ghost function TraceNow(s: Sys, gid: string, vs: seq<Visit>): Trace {
    Trace(s, s, FirstIds(|LogOf(s, gid)|), vs)
  }

  lemma WantedNow(n: nat, mid: nat, vs: seq<Visit>)
    requires 1 <= mid <= n && |vs| <= Announced(n, mid) && forall i :: 0 <= i < |vs| ==> vs[i].id == mid + i
    ensures VisitIds(vs) <= Wanted(FirstIds(n), mid)
    ensures |vs| == Announced(n, mid) ==> VisitIds(vs) == Wanted(FirstIds(n), mid)
  {
    FirstIdsSet(n);
    SettledIds(FirstIds(n), n, n, mid);
    forall i | 0 <= i < |vs| ensures VisitIds(vs)[i] == Wanted(FirstIds(n), mid)[i] {
      assert VisitIds(vs)[i] == vs[i].id;
    }
  }

  lemma TraceNowOk(s: Sys, s': Sys, gid: string, mid: nat, vs: seq<Visit>)
    requires Toured(s, s', gid, vs) && UpToFatal(vs) && 1 <= mid <= |LogOf(s, gid)|
    requires |vs| <= Announced(|LogOf(s, gid)|, mid) && forall i :: 0 <= i < |vs| ==> vs[i].id == mid + i
    requires AllSurvive(vs) ==> |vs| == Announced(|LogOf(s, gid)|, mid)
    ensures TraceOk(s, s', gid, mid, TraceNow(s, gid, vs))
  {
    ReachesItself(s, false);
    FirstIdsSet(|LogOf(s, gid)|);
    WantedNow(|LogOf(s, gid)|, mid, vs);
    TraceMade(s, s', gid, mid, TraceNow(s, gid, vs));
  }

  // ---- a stream that is cut off ----

  lemma HeaderWords(mid: string, p: Post)
    requires |mid| == 4 && AllDigits(mid) && NoDelim(p.uid)
    ensures var s := Drop(Header(mid, p), 1); var t := AfterWord(s);
      WordOf(s) == mid && WordOf(t) == p.uid && AfterWord(t) == Dec(1, |p.text|) + " "
  {
    var size := Dec(1, |p.text|);
    Flatten(" ", mid, " ", p.uid, " ", size);
    Assoc(" ", mid + (" " + (p.uid + (" " + size))), " ");
    Assoc(mid, " " + (p.uid + (" " + size)), " ");
    Assoc(" ", p.uid + (" " + size), " ");
    Assoc(p.uid, " " + size, " ");
    Assoc(" ", size, " ");
    WordThen(mid, ' ', p.uid + (" " + (size + " ")));
    WordThen(p.uid, ' ', size + " ");
  }

  /** After a header and no more, the client waits for the text, unless that is empty. */
  lemma HeaderTurn(mid: string, p: Post)
    requires |mid| == 4 && AllDigits(mid) && NoDelim(p.uid) && |p.uid| <= 5 && |p.text| <= INT_MAX
    ensures var s := Drop(Header(mid, p), 1);
      TurnOf(mid, AfterWord(s)) == if p.text == "" then Turn(Record(mid, Post(p.uid, "", None)), "", "") else Lost
  {
    HeaderWords(mid, p);
    SizeDigits(|p.text|);
    DecWord(1, |p.text|);
    AtoiDec(1, |p.text|);
    assert Dec(1, |p.text|) + " " == Dec(1, |p.text|) + ([' '] + "");
    WordThen(Dec(1, |p.text|), ' ', "");
    assert FileOf("") == Ending(None, "", "");
  }

  /** What the client shows of the message that was fatal, and behind it: nothing that is a post. */
  predicate Hollow(rs: seq<Record>, v: Visit) {
    forall i :: 0 <= i < |rs| ==> rs[i].mid == "" || (i == 0 && rs[i].post.file.None? && v.post.file.Some?)
  }

  lemma CutTurns(n: nat, v: Visit)
    requires !Survived(v) && |Mid(v.id)| == 4 && ValidPost(v.post) && MetOk(v.post, v.met)
    requires TextThere(v.met.text) ==> Legible(v.post, v.met)
    ensures Hollow(ShownBy(TurnsFrom(n, VisitSent(v)).got), v)
  {
    if VisitSent(v) == "" {
      EmptyTurns(n);
    } else {
      CStringSize(AuthorSoFar(v.post, v.met.uid) + v.met.junk);
      HeaderTurns(n, Mid(v.id), Printed(v.post, v.met));
    }
  }

  lemma HeaderTurns(n: nat, mid: string, p: Post)
    requires |mid| == 4 && AllDigits(mid) && NoDelim(p.uid) && |p.uid| <= 5 && |p.text| <= INT_MAX
    ensures var rs := ShownBy(TurnsFrom(n, Header(mid, p)).got);
      forall i :: 0 <= i < |rs| ==> rs[i] == if i == 0 then Record(mid, Post(p.uid, "", None)) else NOTHING
  {
    HeaderWords(mid, p);
    HeaderTurn(mid, p);
    LastTurn(n, Header(mid, p), Record(mid, Post(p.uid, "", None)));
  }

  lemma LastTurn(n: nat, s: string, r: Record)
    requires var turn := TurnOf(WordOf(Drop(s, 1)), AfterWord(Drop(s, 1))); turn == Lost || turn == Turn(r, "", "")
    ensures var rs := ShownBy(TurnsFrom(n, s).got);
      forall i :: 0 <= i < |rs| ==> rs[i] == if i == 0 then r else NOTHING
  {
    if n > 0 && TurnOf(WordOf(Drop(s, 1)), AfterWord(Drop(s, 1))) == Turn(r, "", "") {
      EmptyTurns(n - 1);
      ShownFirst([r], Turns(n - 1, "", ""));
    }
  }

  lemma FatalShows(mid: nat, t: Trace, k: nat) returns (more: seq<Record>)
    requires 1 <= mid <= |t.ids| <= MAX_MID && UpToFatal(t.visits) && |t.visits| == k + 1 <= Announced(|t.ids|, mid)
    requires !Survived(t.visits[k]) && forall v :: v in t.visits ==> |Mid(v.id)| == 4
    requires forall i :: 0 <= i < k ==> Readable(RecordOf(t.visits[i]))
    requires ValidPost(t.visits[k].post) && MetOk(t.visits[k].post, t.visits[k].met)
    requires TextThere(t.visits[k].met.text) ==> Legible(t.visits[k].post, t.visits[k].met)
    ensures ShownAfter(mid, t, k, more) && Hollow(more, t.visits[k])
  {
    var m := Announced(|t.ids|, mid) - k;
    more := ShownBy(TurnsFrom(m, VisitSent(t.visits[k])).got);
    LastSent(t.visits, k);
    SeenFrom(mid, t, k, m);
    CutTurns(m, t.visits[k]);
  }

  lemma FatalHides(mid: nat, t: Trace, k: nat, id: nat, p: Post, more: seq<Record>)
    requires 1 <= mid && k < |t.visits| && ShownAfter(mid, t, k, more) && Hollow(more, t.visits[k])
    requires mid + k <= id && (mid + k == id ==> p == t.visits[k].post)
    ensures !ShownIn(mid, t, id, p)
  {
    var got := ClientReads(Stream(mid, t)).got;
    assert Sees(mid, t, got);
    NotHollow(got, mid, k, id, p, RecordsOf(t.visits[..k]), more, t.visits[k]);
  }

  lemma LastSent(vs: seq<Visit>, k: nat)
    requires |vs| == k + 1 && !Survived(vs[k])
    ensures SentAfter(vs, k) == VisitSent(vs[k])
  {
    var v := vs[k];
    assert vs[k..] == [v] && [v][0] == v && [v][1..] == [] && !AllSurvive(vs);
    assert VisitsText([v]) == VisitSent(v) + VisitsText([]);
    assert VisitSent(v) + "" == VisitSent(v);
  }

  lemma NotHollow(got: Received, mid: nat, k: nat, id: nat, p: Post, rs: seq<Record>, more: seq<Record>, v: Visit)
    requires ShownBy(got) == rs + more && |rs| == k && Hollow(more, v) && mid + k <= id
    requires mid + k == id ==> p == v.post
    ensures !Shows(got, mid, id, p)
  {
    if id - mid < |ShownBy(got)| {
      assert ShownBy(got)[id - mid] == more[id - mid - k];
      assert Mid(id) != "";
    }
  }

  // ---- messages that end the child, or are not shown as they were sent ----

  lemma NowSurvives(s: Sys, gid: string, id: nat)
    requires PostsOk(s) && 1 <= id <= |LogOf(s, gid)|
    ensures var pc, v := Owner(s, gid, id).pc, VisitNow(s, gid, id);
      && (Survived(v) <==> TextThere(pc) && !pc.Data?)
      && (TextThere(pc) ==> Legible(v.post, v.met)) && (!Risky(Owner(s, gid, id)) ==> Clear(v))
  {
    var c := Owner(s, gid, id);
    OwnerOk(s, gid, id);
    if TextThere(c.pc) {
      WholeAuthor(c.req.post, MetNow(c.req.post, c.pc).junk);
    }
  }

  /** The owner has more to store, and a child that comes now is not ended, but gets only a part. */
  lemma PartNow(c: Proc)
    requires !Complete(c) && !Risky(c) && StageOk(c.req.post, c.pc)
    ensures Printed(c.req.post, MetNow(c.req.post, c.pc)) != c.req.post
  {
  }

  /** The first messages of the window are clear, the next is `v`, and the rest as they are now. */
  lemma TraceNowThrough(s: Sys, s': Sys, gid: string, mid: nat, vs: seq<Visit>)
    requires Inv(s) && 1 <= mid <= |LogOf(s, gid)| && |vs| <= Announced(|LogOf(s, gid)|, mid)
    requires forall i :: 0 <= i < |vs| ==> vs[i].id == mid + i
    ensures var t := TraceNow(s, gid, vs);
      1 <= mid <= |t.ids| <= MAX_MID && forall v :: v in t.visits ==> |Mid(v.id)| == 4
  {
    MsgsOk(s, gid);
    FirstIdsSet(|LogOf(s, gid)|);
    forall v | v in vs ensures |Mid(v.id)| == 4 {
      var i :| 0 <= i < |vs| && vs[i] == v;
      MidSize(v.id);
    }
  }

  /** All messages from `mid` on are safe, but the visit `v` to message `at` is fatal. */
  ghost predicate FatalAt(s: Sys, s': Sys, gid: string, mid: nat, at: nat, v: Visit) {
    && 1 <= mid <= at <= |LogOf(s, gid)| && at < mid + WINDOW && SafeBefore(s, gid, mid, at)
    && Visited(s, s', gid, v) && v.id == at && !Survived(v)
    && (TextThere(v.met.text) ==> Legible(v.post, v.met))
  }

  lemma SafeNow(s: Sys, gid: string, id: nat)
    requires PostsOk(s) && 1 <= id <= |LogOf(s, gid)| && !Risky(Owner(s, gid, id))
    ensures Survived(VisitNow(s, gid, id)) && Readable(RecordOf(VisitNow(s, gid, id)))
  {
    MsgsOk(s, gid);
    NowOk(s, gid, id);
    NowSurvives(s, gid, id);
    LegibleRecord(s, s, gid, VisitNow(s, gid, id));
  }

  /** These visits are sent as records that can be read, for the messages from `mid` on. */
  ghost predicate SentFrom(mid: nat, vs: seq<Visit>) {
    forall i :: 0 <= i < |vs| ==> Survived(vs[i]) && Readable(RecordOf(vs[i])) && vs[i].id == mid + i
  }

  lemma SentNow(s: Sys, gid: string, mid: nat, at: nat)
    requires PostsOk(s) && 1 <= mid <= at <= |LogOf(s, gid)| + 1 && SafeBefore(s, gid, mid, at)
    ensures SentFrom(mid, VisitsNow(s, gid, mid, at - mid))
  {
    var vs := VisitsNow(s, gid, mid, at - mid);
    forall i | 0 <= i < |vs| ensures Survived(vs[i]) && Readable(RecordOf(vs[i])) && vs[i].id == mid + i {
      SafeNow(s, gid, mid + i);
    }
  }

  /** Then a retrieve may end there, and the client is not shown this message, nor one behind it. */
  lemma FatalHappens(s: Sys, s': Sys, gid: string, mid: nat, at: nat, v: Visit, id: nat) returns (t: Trace)
    requires Inv(s) && FatalAt(s, s', gid, mid, at, v) && at <= id
    ensures TraceOk(s, s', gid, mid, t) && !ShownIn(mid, t, id, Owner(s, gid, id).req.post)
  {
    var first := VisitsNow(s, gid, mid, at - mid);
    SentNow(s, gid, mid, at);
    FatalTrace(s, s', gid, mid, at, first, v);
    FatalHidden(s, s', gid, mid, at, first, v, id);
    t := TraceNow(s, gid, first + [v]);
  }

  lemma FatalHidden(s: Sys, s': Sys, gid: string, mid: nat, at: nat, first: seq<Visit>, v: Visit, id: nat)
    requires Inv(s) && FatalAt(s, s', gid, mid, at, v) && SentFrom(mid, first) && |first| == at - mid && at <= id
    ensures !ShownIn(mid, TraceNow(s, gid, first + [v]), id, Owner(s, gid, id).req.post)
  {
    var p, t := Owner(s, gid, id).req.post, TraceNow(s, gid, first + [v]);
    assert mid + |first| == id ==> p == v.post by {
      PostVisited(s, s', gid, v);
    }
    var more := FatalLast(s, s', gid, mid, at, first, v);
    FatalHides(mid, t, |first|, id, p, more);
  }

  lemma FatalLast(s: Sys, s': Sys, gid: string, mid: nat, at: nat, first: seq<Visit>, v: Visit)
      returns (more: seq<Record>)
    requires Inv(s) && FatalAt(s, s', gid, mid, at, v) && SentFrom(mid, first) && |first| == at - mid
    ensures var t := TraceNow(s, gid, first + [v]);
      |first| < |t.visits| && ShownAfter(mid, t, |first|, more) && Hollow(more, v) && t.visits[|first|] == v
  {
    var t := TraceNow(s, gid, first + [v]);
    Facets(s, s', gid, v);
    LastOf(mid, first, v);
    TraceNowThrough(s, s', gid, mid, first + [v]);
    more := FatalShows(mid, t, |first|);
  }

  lemma LastOf(mid: nat, first: seq<Visit>, v: Visit)
    requires SentFrom(mid, first) && !Survived(v) && v.id == mid + |first|
    ensures UpToFatal(first + [v]) && !AllSurvive(first + [v]) && (first + [v])[|first|] == v
    ensures forall i :: 0 <= i < |first| ==> Readable(RecordOf((first + [v])[i]))
    ensures forall i :: 0 <= i <= |first| ==> (first + [v])[i].id == mid + i
  {
    assert !Survived((first + [v])[|first|]);
  }

  lemma FatalTrace(s: Sys, s': Sys, gid: string, mid: nat, at: nat, first: seq<Visit>, v: Visit)
    requires PostsOk(s) && FatalAt(s, s', gid, mid, at, v)
    requires first == VisitsNow(s, gid, mid, at - mid) && SentFrom(mid, first)
    ensures TraceOk(s, s', gid, mid, TraceNow(s, gid, first + [v]))
  {
    TourNow(s, gid, mid, at - mid);
    TourStep(s, s, s', gid, first, v);
    LastOf(mid, first, v);
    TraceNowOk(s, s', gid, mid, first + [v]);
  }

  /** It has been caught before both files are there, or before FILE has an entry. */
  lemma FatalNow(s: Sys, gid: string, mid: nat, at: nat)
    requires Inv(s) && 1 <= mid <= at <= |LogOf(s, gid)| && at < mid + WINDOW && SafeBefore(s, gid, mid, at)
    requires !TextThere(Owner(s, gid, at).pc) || Owner(s, gid, at).pc.Data?
    ensures FatalAt(s, s, gid, mid, at, VisitNow(s, gid, at))
  {
    NowOk(s, gid, at);
    NowSurvives(s, gid, at);
  }

  /** The owner makes FILE, which is still empty. */
  lemma OwnerMakesFile(s: Sys, gid: string, id: nat) returns (s': Sys)
    requires Inv(s) && 1 <= id <= |LogOf(s, gid)| && Owner(s, gid, id).req.post.file.Some?
    requires Owner(s, gid, id).pc.TextOpen? || Owner(s, gid, id).pc.Peek?
    ensures OwnerGoes(s, s', gid, id, Data(id))
  {
    if Owner(s, gid, id).pc.Peek? {
      s' := OwnerReadsByte(s, gid, id);
    } else {
      var s1 := OwnerEnds(s, gid, id);
      OwnerOf(s, gid, id);
      s' := OwnerReadsByte(s1, gid, id);
      GoesAndGoes(s, s1, s', gid, id, Peek(id), Data(id));
    }
  }

  /** The text is read in time, and FILE is listed when it is there but empty. */
  lemma FatalSoon(s: Sys, gid: string, mid: nat, at: nat) returns (s': Sys, v: Visit)
    requires Inv(s) && 1 <= mid <= at <= |LogOf(s, gid)| && at < mid + WINDOW && SafeBefore(s, gid, mid, at)
    requires Owner(s, gid, at).req.post.file.Some?
    requires Owner(s, gid, at).pc.TextOpen? || Owner(s, gid, at).pc.Peek?
    ensures FatalAt(s, s', gid, mid, at, v)
  {
    var c := Owner(s, gid, at);
    OwnerOk(s, gid, at);
    s' := OwnerMakesFile(s, gid, at);
    v := Visit(at, c.req.post, MetNow(c.req.post, c.pc).(dir := Data(at), list := Data(at), data := Data(at)));
    WholeAuthor(c.req.post, v.met.junk);
    VisitMade(s, s', gid, v);
  }

  /** A risky message can end a retrieve that begins now. */
  lemma RiskyIsFatal(s: Sys, gid: string, mid: nat, at: nat) returns (s': Sys, v: Visit)
    requires Inv(s) && 1 <= mid <= at <= |LogOf(s, gid)| && at < mid + WINDOW && SafeBefore(s, gid, mid, at)
    requires Risky(Owner(s, gid, at))
    ensures FatalAt(s, s', gid, mid, at, v)
  {
    var c := Owner(s, gid, at);
    if c.pc.TextOpen? || c.pc.Peek? {
      s', v := FatalSoon(s, gid, mid, at);
    } else {
      FatalNow(s, gid, mid, at);
      s', v := s, VisitNow(s, gid, at);
    }
  }

  // ---- a message that is shown in part ----

  ghost predicate SurviveNow(s: Sys, gid: string, lo: nat, hi: nat) {
    forall id :: lo <= id < hi ==> Survived(VisitNow(s, gid, id))
  }

  lemma FirstFatal(s: Sys, gid: string, lo: nat, end: nat) returns (h: nat)
    requires lo <= end
    ensures lo <= h <= end && SurviveNow(s, gid, lo, h) && (h < end ==> !Survived(VisitNow(s, gid, h)))
  {
    h := lo;
    while h < end && Survived(VisitNow(s, gid, h))
      invariant lo <= h <= end && SurviveNow(s, gid, lo, h)
    {
      h := h + 1;
    }
  }

  /** The visits from `mid` up to the first that is fatal now, or to the end of the window. */
  ghost predicate WholeNow(s: Sys, gid: string, mid: nat, vs: seq<Visit>) {
    && 1 <= mid <= |LogOf(s, gid)| && vs == VisitsNow(s, gid, mid, |vs|) && UpToFatal(vs)
    && |vs| <= Announced(|LogOf(s, gid)|, mid)
    && (AllSurvive(vs) ==> |vs| == Announced(|LogOf(s, gid)|, mid))
  }

  lemma VisitWindow(s: Sys, gid: string, mid: nat, id: nat) returns (vs: seq<Visit>)
    requires PostsOk(s) && 1 <= mid <= id <= |LogOf(s, gid)| && id < mid + WINDOW
    requires SafeBefore(s, gid, mid, id) && !Risky(Owner(s, gid, id))
    ensures WholeNow(s, gid, mid, vs) && id - mid < |vs|
  {
    var count := Announced(|LogOf(s, gid)|, mid);
    var h := FirstFatal(s, gid, mid, mid + count);
    if h <= id {
      NowSurvives(s, gid, h);
      assert false;
    }
    var k := if h < mid + count then h - mid + 1 else count;
    vs := VisitsNow(s, gid, mid, k);
    NowUpTo(s, gid, mid, k, h);
    if h < mid + count {
      assert vs[k - 1] == VisitNow(s, gid, h);
    }
  }

  lemma NowUpTo(s: Sys, gid: string, mid: nat, k: nat, h: nat)
    requires SurviveNow(s, gid, mid, h)
    ensures forall i :: 0 <= i < k && mid + i < h ==> Survived(VisitsNow(s, gid, mid, k)[i])
  {
  }

  lemma WindowTrace(s: Sys, gid: string, mid: nat, vs: seq<Visit>)
    requires Inv(s) && WholeNow(s, gid, mid, vs)
    ensures TraceOk(s, s, gid, mid, TraceNow(s, gid, vs))
  {
    TourNow(s, gid, mid, |vs|);
    TraceNowOk(s, s, gid, mid, vs);
  }

  lemma WindowSends(s: Sys, gid: string, mid: nat, vs: seq<Visit>, id: nat)
    requires Inv(s) && WholeNow(s, gid, mid, vs) && mid <= id <= |LogOf(s, gid)| && id - mid < |vs|
    requires SafeBefore(s, gid, mid, id) && !Risky(Owner(s, gid, id))
    ensures Sends(mid, TraceNow(s, gid, vs), id - mid, id, RecordOf(VisitNow(s, gid, id)).post)
  {
    TraceNowThrough(s, s, gid, mid, vs);
    WindowFirst(s, gid, mid, vs, id - mid);
    assert vs[id - mid] == VisitNow(s, gid, id);
    SendsMade(mid, TraceNow(s, gid, vs), id - mid, id, RecordOf(VisitNow(s, gid, id)).post);
  }

  lemma WindowFirst(s: Sys, gid: string, mid: nat, vs: seq<Visit>, k: nat)
    requires PostsOk(s) && 1 <= mid && mid + k <= |LogOf(s, gid)| && k < |vs| && vs == VisitsNow(s, gid, mid, |vs|)
    requires SafeBefore(s, gid, mid, mid + k) && !Risky(Owner(s, gid, mid + k))
    ensures forall i :: 0 <= i <= k ==> Survived(vs[i]) && Readable(RecordOf(vs[i]))
  {
    forall i | 0 <= i <= k ensures Survived(vs[i]) && Readable(RecordOf(vs[i])) {
      SafeNow(s, gid, mid + i);
    }
  }

  lemma ShownOtherwise(mid: nat, t: Trace, id: nat, p: Post, q: Post)
    requires 1 <= mid <= id && ShownIn(mid, t, id, q) && p != q
    ensures !ShownIn(mid, t, id, p)
  {
    assert Sees(mid, t, ClientReads(Stream(mid, t)).got);
  }

  /** A retrieve that comes now shows a part of the message. */
  lemma PartHappens(s: Sys, gid: string, mid: nat, id: nat) returns (t: Trace)
    requires Inv(s) && 1 <= mid <= id <= |LogOf(s, gid)| && id < mid + WINDOW && SafeBefore(s, gid, mid, id)
    requires !Complete(Owner(s, gid, id)) && !Risky(Owner(s, gid, id))
    ensures TraceOk(s, s, gid, mid, t) && !ShownIn(mid, t, id, Owner(s, gid, id).req.post)
  {
    var vs := VisitWindow(s, gid, mid, id);
    t := TraceNow(s, gid, vs);
    WindowTrace(s, gid, mid, vs);
    WindowSends(s, gid, mid, vs, id);
    SeenAt(mid, t, id - mid, id, RecordOf(VisitNow(s, gid, id)).post);
    OwnerOk(s, gid, id);
    PartNow(Owner(s, gid, id));
    ShownOtherwise(mid, t, id, Owner(s, gid, id).req.post, RecordOf(VisitNow(s, gid, id)).post);
  }

  // ---- the exact condition ----

  lemma FirstRisky(s: Sys, gid: string, mid: nat, id: nat) returns (at: nat)
    requires mid <= id
    ensures mid <= at <= id && SafeBefore(s, gid, mid, at) && (at < id ==> Risky(Owner(s, gid, at)))
  {
    at := mid;
    while at < id && !Risky(Owner(s, gid, at))
      invariant mid <= at <= id && SafeBefore(s, gid, mid, at)
    {
      at := at + 1;
    }
  }

  lemma NotSure(s: Sys, gid: string, mid: nat, id: nat) returns (s': Sys, t: Trace)
    requires Inv(s) && 1 <= mid <= id <= |LogOf(s, gid)| && id < mid + WINDOW
    requires !CompleteAt(s, gid, id) || !SafeBefore(s, gid, mid, id)
    ensures TraceOk(s, s', gid, mid, t) && !ShownIn(mid, t, id, Owner(s, gid, id).req.post)
  {
    var at := FirstRisky(s, gid, mid, id);
    if Risky(Owner(s, gid, at)) {
      var v;
      s', v := RiskyIsFatal(s, gid, mid, at);
      t := FatalHappens(s, s', gid, mid, at, v, id);
    } else {
      t := PartHappens(s, gid, mid, id);
      s' := s;
    }
  }

  /**
   * A client that asks from `mid` is sure to be shown message `id`, in its place and as it was
   * sent, exactly when it is complete and no message before it in the window can be fatal.
   */
  lemma SureIff(s: Sys, gid: string, mid: nat, id: nat)
    requires Inv(s) && 1 <= mid <= id <= |LogOf(s, gid)| && id < mid + 20
    ensures SureToShow(s, gid, mid, id) <==> CompleteAt(s, gid, id) && SafeBefore(s, gid, mid, id)
  {
    if CompleteAt(s, gid, id) && SafeBefore(s, gid, mid, id) {
      forall s', t | TraceOk(s, s', gid, mid, t) ensures ShownIn(mid, t, id, Owner(s, gid, id).req.post) {
        SafeIsShown(s, s', gid, mid, id, t);
      }
    } else {
      var s', t := NotSure(s, gid, mid, id);
    }
  }

  // ---- a count that is wrong ----

  lemma {:induction false} SortedList(ids: set<nat>, n: nat) returns (w: seq<nat>)
    requires ids <= Range(1, n)
    ensures Rising(w) && SetOf(w) == ids
  {
    if n == 0 {
      w := [];
      assert SetOf(w) == ids;
    } else {
      WithoutLast(ids, n);
      w := SortedList(ids - {n}, n - 1);
      if n in ids {
        w := OneMoreId(w, n);
      }
    }
  }

  lemma WithoutLast(ids: set<nat>, n: nat)
    requires n > 0 && ids <= Range(1, n)
    ensures ids - {n} <= Range(1, n - 1) && ids == if n in ids then ids - {n} + {n} else ids - {n}
  {
    forall id | id in ids - {n} ensures id in Range(1, n - 1) {
      assert id in Range(1, n);
    }
  }

  lemma OneMoreId(w: seq<nat>, n: nat) returns (more: seq<nat>)
    requires n > 0 && Rising(w) && SetOf(w) <= Range(1, n - 1)
    ensures Rising(more) && SetOf(more) == SetOf(w) + {n}
  {
    more := w + [n];
    forall i, j | 0 <= i < j < |more| ensures more[i] < more[j] {
      assert more[i] in w && more[i] in SetOf(w) && more[i] in Range(1, n - 1);
    }
  }

  ghost function VisitsTo(s: Sys, gid: string, w: seq<nat>): (vs: seq<Visit>)
    ensures |vs| == |w| && forall i :: 0 <= i < |vs| ==> vs[i] == VisitNow(s, gid, w[i])
  {
    seq(|w|, i requires 0 <= i < |w| => VisitNow(s, gid, w[i]))
  }

  /** When all messages have been answered, each of them is clear. */
  lemma DoneIsClear(s: Sys, gid: string, w: seq<nat>)
    requires PostsOk(s) && AllDone(s, gid) && forall i :: 0 <= i < |w| ==> 1 <= w[i] <= |LogOf(s, gid)|
    ensures AllClear(VisitsTo(s, gid, w)) && VisitIds(VisitsTo(s, gid, w)) == w
    ensures Toured(s, s, gid, VisitsTo(s, gid, w))
  {
    var vs := VisitsTo(s, gid, w);
    forall i | 0 <= i < |vs| ensures Clear(vs[i]) && Visited(s, s, gid, vs[i]) {
      NowSurvives(s, gid, w[i]);
      NowOk(s, gid, w[i]);
    }
    AllAtOnce(s, gid, vs);
  }

  lemma WantedClaimed(ids: seq<nat>, mid: nat, n: nat)
    requires SetOf(ids) <= Range(1, n)
    ensures forall i :: 0 <= i < |Wanted(ids, mid)| ==> 1 <= Wanted(ids, mid)[i] <= n
  {
    WantedIn(ids, mid);
    forall i | 0 <= i < |Wanted(ids, mid)| ensures 1 <= Wanted(ids, mid)[i] <= n {
      assert Wanted(ids, mid)[i] in Wanted(ids, mid);
      assert Wanted(ids, mid)[i] in SetOf(ids);
    }
  }

  /** A retrieve whose scan takes from `s` to `s'`, when all is answered by then. */
  ghost function ScanTrace(s: Sys, s': Sys, gid: string, mid: nat, ids: seq<nat>): Trace {
    Trace(s, s', ids, VisitsTo(s', gid, Wanted(ids, mid)))
  }

  lemma ScanTraceOk(s: Sys, s': Sys, gid: string, mid: nat, ids: seq<nat>)
    requires Reaches(s, s', false) && Inv(s') && AllDone(s', gid) && Rising(ids) && mid <= |ids|
    requires Scan(|LogOf(s, gid)|, |LogOf(s', gid)|, SetOf(ids))
    ensures TraceOk(s, s', gid, mid, ScanTrace(s, s', gid, mid, ids))
    ensures AllClear(ScanTrace(s, s', gid, mid, ids).visits)
  {
    ReachesItself(s, false);
    WantedClaimed(ids, mid, |LogOf(s', gid)|);
    DoneIsClear(s', gid, Wanted(ids, mid));
    TraceMade(s, s', gid, mid, ScanTrace(s, s', gid, mid, ids));
  }

  /** If the count is not that of the records, the client does not show the records. */
  lemma WrongCount(s: Sys, s': Sys, gid: string, mid: nat, t: Trace)
    requires Inv(s) && TraceOk(s, s', gid, mid, t) && AllClear(t.visits) && 1 <= mid <= |t.ids|
    requires Announced(|t.ids|, mid) != |t.visits|
    ensures !Sees(mid, t, Shown(RecordsOf(t.visits)))
  {
    AnswerSeen(s, s', gid, mid, t);
    assert |FirstOf(Announced(|t.ids|, mid), RecordsOf(t.visits))| != |RecordsOf(t.visits)|;
  }

  /** What goes wrong, from `s` on: the scan, and what the client is shown. */
  ghost predicate GoesWrong(s: Sys, gid: string, mid: nat, scan: seq<Action>, t: Trace)
    requires 1 <= mid
  {
    && IsRun(s, scan) && t.start == s && t.end == After(s, scan)
    && Scanned(s, scan, MsgsDir(gid), EntriesOf(SetOf(t.ids)))
    && TraceOk(s, t.end, gid, mid, t) && AllClear(t.visits) && mid <= |t.ids|
    && !Sees(mid, t, Shown(RecordsOf(t.visits)))
  }

  lemma ScanGoesWrong(s: Sys, s': Sys, gid: string, mid: nat, ids: set<nat>) returns (scan: seq<Action>, t: Trace)
    requires Inv(s) && Reaches(s, s', false) && Inv(s') && AllDone(s', gid) && 1 <= mid <= |ids|
    requires Scan(|LogOf(s, gid)|, |LogOf(s', gid)|, ids) && IsDir(s.tree, MsgsDir(gid))
    requires Announced(|ids|, mid) != |Written(ids, mid)|
    ensures GoesWrong(s, gid, mid, scan, t) && t.end == s'
  {
    scan :| IsRun(s, scan) && After(s, scan) == s';
    ScanAllowed(s, scan, gid, ids);
    var w := SortedList(ids, |LogOf(s', gid)|);
    AscendingSize(w);
    WantedIsWritten(w, mid);
    t := ScanTrace(s, s', gid, mid, w);
    ScanTraceOk(s, s', gid, mid, w);
    WrongCount(s, s', gid, mid, t);
  }

  /**
   * Whenever a gap is not harmless, it happens: after some run from the start with `m` messages,
   * a scan during which they become `n` makes a client show too few records, or empty ones,
   * although every message of the window is sent as it was posted.
   */
  lemma CountGoesWrong(m: nat, n: nat, mid: nat) returns (first: seq<Action>, scan: seq<Action>, t: Trace)
    requires 1 <= mid && m <= n <= MAX_MID && !GapsHarmless(m, n, mid)
    ensures IsRun(START, first) && GoesWrong(After(START, first), "01", mid, scan, t)
    ensures |LogOf(t.start, "01")| == m && |LogOf(t.end, "01")| == n
  {
    var s;
    first, s := ReachesLength(m);
    var s' := LogGrowsTo(s, "01", n);
    CountsRightIff(m, n, mid);
    var ids :| Scan(m, n, ids) && mid <= |ids| && Announced(|ids|, mid) != |Written(ids, mid)|;
    GroupThere(s, "01");
    scan, t := ScanGoesWrong(s, s', "01", mid, ids);
  }

  /** From the start to a group with so many messages. */
  lemma ReachesLength(m: nat) returns (first: seq<Action>, s: Sys)
    requires m <= MAX_MID
    ensures IsRun(START, first) && After(START, first) == s && Inv(s) && Idle(s)
    ensures ValidGid("01") && "01" in s.server.groups && AllDone(s, "01") && |LogOf(s, "01")| == m
  {
    OneIsTwoDigits();
    var begin := FirstGroup();
    s := LogGrowsTo(After(START, begin), "01", m);
    var grow :| IsRun(After(START, begin), grow) && After(After(START, begin), grow) == s;
    RunAppend(START, begin, grow);
    first := begin + grow;
  }
}
