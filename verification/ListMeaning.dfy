/** What the group lists say about the message logs, in every state of every run. */
module ListMeaning {
  import opened CText
  import opened Sorting
  import opened Tree
  import opened ByteStream
  import opened Wire
  import opened Messages
  import Server
  import opened ServerTree
  import opened PostProtocol
  import opened PostSafety
  import opened PostTheorems
  import opened Host
  import opened Tokenizer
  import opened GroupLists
  import opened ListServer
  import opened Requests
  import opened MainProcess
  import Outcomes

  lemma LargestMid(s: Sys, gid: string)
    requires PostsOk(s)
    ensures var mid := |PostsOf(s, gid)|;
      && mid == |SubDirs(s.tree, MsgsDir(gid))| <= MAX_MID
      && (mid > 0 ==> Mid(mid) in SubDirs(s.tree, MsgsDir(gid)))
      && forall name :: name in Names(s.tree, MsgsDir(gid)) ==> 1 <= Atoi(name) <= mid
  {
    DirectoryExact(s, gid);
    var m := |SubDirs(s.tree, MsgsDir(gid))|;
    MsgsOk(s, gid);
    IdsCount(4, |LogOf(s, gid)|);
    forall name | name in Names(s.tree, MsgsDir(gid)) ensures 1 <= Atoi(name) <= m {
      var i :| 1 <= i <= m && name == Dec(4, i);
      AtoiDec(4, i);
    }
  }

  /** The directory count a group is listed with is the largest message id of the group. */
  lemma ListedMid(s: Sys, gid: string)
    requires PostsOk(s) && gid in s.server.groups
    ensures var mid := LineOf(s.tree, s.server, gid).mid;
      && mid == |PostsOf(s, gid)| <= MAX_MID
      && (mid > 0 ==> Mid(mid) in SubDirs(s.tree, MsgsDir(gid)))
      && forall name :: name in Names(s.tree, MsgsDir(gid)) ==> 1 <= Atoi(name) <= mid
  {
    LargestMid(s, gid);
  }

  lemma GroupNumber(s: Server.State, i: nat)
    requires Server.Inv(s) && i < |s.groups|
    ensures Dec(2, i + 1) in s.groups && |s.groups| <= Server.MAX_GROUPS
  {
    Server.Clauses(s);
    assert Dec(2, i + 1) in Ids(2, |s.groups|);
  }

  lemma NumberOf(s: Server.State, gid: string) returns (i: nat)
    requires Server.Inv(s) && gid in s.groups
    ensures i < |s.groups| && gid == Dec(2, i + 1)
  {
    Server.Clauses(s);
    var k :| 1 <= k <= |s.groups| && gid == Dec(2, k);
    i := k - 1;
  }

  /** What the client holds after parsing a list: three C strings a group. */
  ghost predicate Shows(buf: string, id: nat, name: nat, mid: nat, g: GroupLine) {
    StringAt(buf, id, g.gid) && StringAt(buf, name, g.name) && StringAt(buf, mid, Dec(4, g.mid))
  }

  lemma TagsAreWords()
    ensures NoDelim("RGL") && NoDelim("RGM")
  {
  }

  /** A reply put into the client's buffer by `recvfrom`, and its first two words. */
  method ReceiveReply(msg: string, ghost ws: seq<string>)
      returns (buf: array<char>, second: string, str: Option<nat>, ghost starts: seq<nat>)
    requires Words(ws) && |ws| >= 2 && msg == Line(ws) && |msg| + 1 <= 50 * BUFFER_SIZE
    ensures fresh(buf) && second == ws[1] && |starts| == 2 && Cut(buf[..], str, ws, starts)
  {
    buf := new char[50 * BUFFER_SIZE];
    Receive(buf, msg);
    buf[|msg|] := '\0';
    assert buf[0..|msg|] == msg;
    second, str, starts := ReadHeader(buf, ws);
  }

  /** The full list is the groups 01, 02, ... in order, each with its name and its log's length. */
  lemma ListedAs(s: Sys, i: nat)
    requires Inv(s) && i < |s.server.groups|
    ensures Dec(2, i + 1) in s.server.groups
    ensures LinesOf(s.tree, s.server)[i]
         == GroupLine(Dec(2, i + 1), s.server.groups[Dec(2, i + 1)].name, |PostsOf(s, Dec(2, i + 1))|)
  {
    GroupNumber(s.server, i);
    assert LinesOf(s.tree, s.server)[i] == LineOf(s.tree, s.server, Dec(2, i + 1));
    ListedMid(s, Dec(2, i + 1));
  }

  lemma MineFits(mine: seq<GroupLine>)
    requires |mine| <= 99 && forall g :: g in mine ==> ValidLine(g)
    ensures |Listing("RGM", mine)| + 1 <= 50 * BUFFER_SIZE
  {
    ListingText("RGM", mine);
    TextSize(mine);
    CountSize(|mine|);
  }

  /** A line of the full list, in terms of the log. */
  ghost predicate InList(s: Sys, g: GroupLine) {
    && g.gid in s.server.groups
    && g == GroupLine(g.gid, s.server.groups[g.gid].name, |PostsOf(s, g.gid)|)
  }

  lemma ListHolds(s: Sys, g: GroupLine)
    requires Inv(s)
    ensures g in LinesOf(s.tree, s.server) <==> InList(s, g)
  {
    var gs := LinesOf(s.tree, s.server);
    if g in gs {
      var i :| 0 <= i < |gs| && gs[i] == g;
      GroupNumber(s.server, i);
      ListedMid(s, Dec(2, i + 1));
    }
    if InList(s, g) {
      var i := NumberOf(s.server, g.gid);
      ListedMid(s, g.gid);
      assert gs[i] == LineOf(s.tree, s.server, Dec(2, i + 1));
    }
  }

  /** The lines of a user's groups. */
  function MyLines(s: Sys, uid: string): seq<GroupLine> {
    Mine(s.server, uid, LinesOf(s.tree, s.server))
  }

  /** RGM is RGL with the groups left out to which the user does not subscribe. */
  lemma MineHolds(s: Sys, uid: string)
    requires Inv(s)
    ensures forall g :: g in MyLines(s, uid) <==> InList(s, g) && uid in s.server.groups[g.gid].subs
  {
    forall g ensures g in MyLines(s, uid) <==> InList(s, g) && uid in s.server.groups[g.gid].subs {
      ListHolds(s, g);
    }
  }

  /** Who has left a group is shown all lists as before, but without it. */
  lemma LeftIsNotMine(s: Server.State, uid: string, gid: string, gs: seq<GroupLine>)
    requires ReplyTo(s, Server.Gur(uid, gid)) == Some("RGU OK\n")
    ensures forall g ::
      g in Mine(Server.Exec(s, Server.Gur(uid, gid)).0, uid, gs) <==> g in Mine(s, uid, gs) && g.gid != gid
  {
    if s.up {
      Outcomes.Unsubscribing(s, uid, gid);
      var s' := Server.Exec(s, Server.Gur(uid, gid)).0;
      assert "RGU OK\n"[4] == 'O' && "RGU E_USR\n"[4] == "RGU E_GRP\n"[4] == 'E';
      forall g ensures Subscribes(s', uid, g) <==> Subscribes(s, uid, g) && g != gid {
        assert g in s'.groups.Keys <==> g in s.groups.Keys;
      }
    }
  }

  /** Nobody else's list of the group's users names a user who has left, until the main process goes on. */
  lemma {:induction false} LeftIsNotSeen(s: Sys, run: seq<Action>, gid: string, uid: string)
    requires IsRun(s, run) && ByChildren(run) && uid !in SubsOf(s, gid)
    ensures !OnceIn(s, run, gid, uid)
    decreases |run|
  {
    if run != [] {
      assert run[0] in run;
      forall a | a in run[1..] ensures !Serial(a) && !a.Fork? {
        assert a in run;
      }
      ChildLeavesServer(s, run[0]);
      LeftIsNotSeen(Next(s, run[0]), run[1..], gid, uid);
    }
  }

  ghost predicate Ascending(ids: seq<string>) {
    forall i, j :: 0 <= i < j < |ids| ==> Strcmp(ids[i], ids[j]) < 0
  }

  lemma IdsAscend(i: nat, j: nat)
    requires i < j <= 99
    ensures Strcmp(Dec(2, i), Dec(2, j)) < 0
  {
    assert Pow10(2) == 100 by {
      assert Pow10(1) == 10;
    }
    DecOrder(2, i, j);
  }

  lemma AllAscending(n: nat)
    requires n <= 99
    ensures Ascending(IdSeq(2, n))
  {
    forall i, j | 0 <= i < j < n ensures Strcmp(IdSeq(2, n)[i], IdSeq(2, n)[j]) < 0 {
      IdsAscend(i + 1, j + 1);
    }
  }

  lemma {:induction false} SubscribedIn(s: Server.State, uid: string, xs: seq<string>)
    ensures forall x :: x in SubscribedOf(s, uid, xs) <==> x in xs && x in s.groups && uid in s.groups[x].subs
  {
    if xs != [] {
      var rest := xs[..|xs| - 1];
      SubscribedIn(s, uid, rest);
      assert xs == rest + [xs[|xs| - 1]];
    }
  }

  /** Leaving groups out keeps the order. */
  lemma {:induction false} SubscribedAscending(s: Server.State, uid: string, xs: seq<string>)
    requires Ascending(xs)
    ensures Ascending(SubscribedOf(s, uid, xs))
  {
    if xs != [] {
      var rest, last := xs[..|xs| - 1], xs[|xs| - 1];
      var r := SubscribedOf(s, uid, rest);
      SubscribedAscending(s, uid, rest);
      SubscribedIn(s, uid, rest);
      forall i | 0 <= i < |r| ensures Strcmp(r[i], last) < 0 {
        assert r[i] in r && r[i] in rest;
        var k :| 0 <= k < |rest| && rest[k] == r[i];
      }
      assert SubscribedOf(s, uid, xs) == r || SubscribedOf(s, uid, xs) == r + [last];
    }
  }

  lemma InIdSeq(n: nat, x: string)
    ensures x in IdSeq(2, n) <==> x in Ids(2, n)
  {
    if x in Ids(2, n) {
      var i :| 1 <= i <= n && x == Dec(2, i);
      assert IdSeq(2, n)[i - 1] == x;
    }
  }

  /** A user's list has each group to which the user subscribes, once, by ascending id. */
  lemma MineAscending(s: Sys, s': Sys, uid: string, gs: seq<GroupLine>, spans: seq<Span>)
    requires Server.Inv(s.server) && MyLinesOk(s, s', uid, IdSeq(2, |s.server.groups|), gs, spans)
    ensures Ascending(Gids(gs))
    ensures forall gid :: gid in Gids(gs) <==> gid in s.server.groups && uid in s.server.groups[gid].subs
  {
    var n := |s.server.groups|;
    Server.Clauses(s.server);
    AllAscending(n);
    SubscribedAscending(s.server, uid, IdSeq(2, n));
    SubscribedIn(s.server, uid, IdSeq(2, n));
    forall gid ensures gid in Gids(gs) <==> gid in s.server.groups && uid in s.server.groups[gid].subs {
      InIdSeq(n, gid);
    }
  }

  // ---- while posts go on ----

  lemma LineValid(s: Sys, s': Sys, g: GroupLine, span: Span)
    requires Server.Inv(s.server) && LineOk(s, s', g, span)
    ensures ValidLine(g)
  {
    Server.Clauses(s.server);
    GidOfGroup(s.server, g.gid);
  }

  lemma LinesValid(s: Sys, s': Sys, gs: seq<GroupLine>, spans: seq<Span>)
    requires Server.Inv(s.server) && LinesOk(s, s', gs, spans)
    ensures forall g :: g in gs ==> ValidLine(g)
  {
    forall g | g in gs ensures ValidLine(g) {
      var i :| 0 <= i < |gs| && gs[i] == g;
      LineValid(s, s', gs[i], spans[i]);
    }
  }

  lemma SpanLater(s: Sys, s': Sys, gid: string, span: Span)
    requires Inv(s) && Within(s, span, s')
    ensures Inv(span.start) && Inv(span.end) && Inv(s')
    ensures LogOf(s, gid) <= LogOf(span.start, gid) && LogOf(span.start, gid) <= LogOf(span.end, gid)
    ensures LogOf(span.end, gid) <= LogOf(s', gid)
  {
    ReachesLater(s, span.start, true);
    ReachesLater(span.start, span.end, true);
    ReachesLater(span.end, s', true);
  }

  /**
   * If no message of the group was claimed while its MSG was open, the MID it is listed with is
   * the length of its log, and the largest MID there is.
   */
  lemma UndisturbedLine(s: Sys, s': Sys, g: GroupLine, span: Span)
    requires Inv(s) && LineOk(s, s', g, span) && LogOf(span.start, g.gid) == LogOf(span.end, g.gid)
    ensures g.mid == |PostsOf(span.start, g.gid)|
    ensures g.mid > 0 ==> Mid(g.mid) in SubDirs(span.start.tree, MsgsDir(g.gid))
    ensures forall name :: name in Names(span.start.tree, MsgsDir(g.gid)) ==> 1 <= Atoi(name) <= g.mid
  {
    SpanLater(s, s', g.gid, span);
    LargestMid(span.start, g.gid);
  }

  lemma QuietLine(s: Sys, s': Sys, g: GroupLine, span: Span)
    requires Inv(s) && LineOk(s, s', g, span) && LogOf(s, g.gid) == LogOf(s', g.gid)
    ensures g == LineOf(s.tree, s.server, g.gid)
  {
    SpanLater(s, s', g.gid, span);
    ListedMid(s, g.gid);
  }

  /** Without any post meanwhile, the full list is that of the tree. */
  lemma QuietList(s: Sys, s': Sys, gs: seq<GroupLine>, spans: seq<Span>)
    requires Inv(s) && LinesOk(s, s', gs, spans) && Gids(gs) == IdSeq(2, |s.server.groups|)
    requires forall gid :: LogOf(s, gid) == LogOf(s', gid)
    ensures gs == LinesOf(s.tree, s.server)
  {
    var lines := LinesOf(s.tree, s.server);
    forall i | 0 <= i < |gs| ensures gs[i] == lines[i] {
      QuietLine(s, s', gs[i], spans[i]);
      assert Gids(gs)[i] == gs[i].gid == Dec(2, i + 1);
    }
  }

  lemma {:induction false} MineGids(s: Server.State, uid: string, gs: seq<GroupLine>)
    ensures Gids(Mine(s, uid, gs)) == SubscribedOf(s, uid, Gids(gs))
  {
    if gs != [] {
      var rest, g := gs[..|gs| - 1], gs[|gs| - 1];
      assert g in gs;
      MineGids(s, uid, rest);
      assert Gids(gs)[..|gs| - 1] == Gids(rest) && Gids(gs)[|gs| - 1] == g.gid;
      if Subscribes(s, uid, g.gid) {
        assert Gids(Mine(s, uid, rest) + [g]) == Gids(Mine(s, uid, rest)) + [g.gid];
      }
    }
  }

  /** Nor is the list of a user's groups different; `MineHolds` says what its lines are. */
  lemma QuietMine(s: Sys, s': Sys, uid: string, gs: seq<GroupLine>, spans: seq<Span>)
    requires Inv(s) && MyLinesOk(s, s', uid, IdSeq(2, |s.server.groups|), gs, spans)
    requires forall gid :: LogOf(s, gid) == LogOf(s', gid)
    ensures gs == MyLines(s, uid)
  {
    var mine := MyLines(s, uid);
    MyLinesAre(s, uid);
    forall i | 0 <= i < |gs| ensures gs[i] == mine[i] {
      QuietLine(s, s', gs[i], spans[i]);
      assert gs[i].gid == Gids(gs)[i] == Gids(mine)[i] == mine[i].gid;
    }
  }

  lemma AllGids(t: Tree, s: Server.State)
    ensures Gids(LinesOf(t, s)) == IdSeq(2, |s.groups|)
  {
    var gs := LinesOf(t, s);
    forall i | 0 <= i < |gs| ensures gs[i].gid == Dec(2, i + 1) {
      assert gs[i] == LineOf(t, s, Dec(2, i + 1));
    }
  }

  lemma AllAreLines(t: Tree, s: Server.State, g: GroupLine)
    requires Server.Inv(s) && g in LinesOf(t, s)
    ensures g.gid in s.groups && g == LineOf(t, s, g.gid)
  {
    var gs := LinesOf(t, s);
    var i :| 0 <= i < |gs| && gs[i] == g;
    GroupNumber(s, i);
    assert gs[i] == LineOf(t, s, Dec(2, i + 1));
  }

  lemma MyLinesAre(s: Sys, uid: string)
    requires Inv(s)
    ensures Gids(MyLines(s, uid)) == SubscribedOf(s.server, uid, IdSeq(2, |s.server.groups|))
    ensures forall i :: 0 <= i < |MyLines(s, uid)| ==>
              var g := MyLines(s, uid)[i]; g.gid in s.server.groups && g == LineOf(s.tree, s.server, g.gid)
  {
    var mine, all := MyLines(s, uid), LinesOf(s.tree, s.server);
    AllGids(s.tree, s.server);
    MineGids(s.server, uid, all);
    forall i | 0 <= i < |mine|
      ensures mine[i].gid in s.server.groups && mine[i] == LineOf(s.tree, s.server, mine[i].gid)
    {
      assert mine[i] in all;
      AllAreLines(s.tree, s.server, mine[i]);
    }
  }

  lemma GidOfGroup(s: Server.State, gid: string)
    requires Server.Inv(s) && gid in s.groups
    ensures ValidGid(gid)
  {
    var i := NumberOf(s, gid);
    GroupNumber(s, i);
    NewIdIsWord(i + 1);
  }

  // ---- the client ----

  /** The pointers the client keeps for each group. */
  datatype Rows = Rows(n: int, ids: seq<nat>, names: seq<nat>, mids: seq<nat>)

  ghost predicate ShowsAll(buf: string, gs: seq<GroupLine>, rows: Rows) {
    && rows.n == |gs| == |rows.ids| == |rows.names| == |rows.mids|
    && forall i :: 0 <= i < |gs| ==> Shows(buf, rows.ids[i], rows.names[i], rows.mids[i], gs[i])
  }

  /** A list fits the client's buffer, and can be cut into words. */
  lemma ListReceivable(tag: string, gs: seq<GroupLine>)
    requires (tag == "RGL" || tag == "RGM") && |gs| <= 99 && forall g :: g in gs ==> ValidLine(g)
    ensures Words(AllWords(tag, gs)) && Listing(tag, gs) == Line(AllWords(tag, gs))
    ensures |Listing(tag, gs)| + 1 <= 50 * BUFFER_SIZE
  {
    TagsAreWords();
    ListingWords(tag, gs);
    if tag == "RGL" {
      RglFits(gs);
    } else {
      MineFits(gs);
    }
  }

  method ReceiveList(msg: string, ghost tag: string, ghost gs: seq<GroupLine>)
      returns (buf: array<char>, rows: Rows)
    requires (tag == "RGL" || tag == "RGM") && |gs| <= 99 && (forall g :: g in gs ==> ValidLine(g))
    requires msg == Listing(tag, gs)
    ensures ShowsAll(buf[..], gs, rows)
  {
    ListReceivable(tag, gs);
    var count, str;
    ghost var starts := [];
    buf, count, str, starts := ReceiveReply(msg, AllWords(tag, gs));
    var n, ids, names, mids := ReadGroups(buf, str, count, tag, gs, starts);
    rows := Rows(n, ids, names, mids);
  }

  /** In every reachable state, the reply with its NUL fits the buffer the client reads it into. */
  lemma ListFits(run: seq<Action>, s': Sys, gs: seq<GroupLine>, spans: seq<Span>)
    requires IsRun(START, run) && LinesOk(After(START, run), s', gs, spans)
    requires |gs| <= |After(START, run).server.groups|
    ensures |Listing("RGL", gs)| + 1 <= 50 * BUFFER_SIZE && |Listing("RGM", gs)| + 1 <= 50 * BUFFER_SIZE
  {
    StartInv();
    RunKeepsInv(START, run);
    Few(After(START, run), s', gs, spans);
    ListReceivable("RGL", gs);
    ListReceivable("RGM", gs);
  }

  method SendTo(wire: array<char>, ws: seq<string>)
    requires |Line(ws)| <= wire.Length
    modifies wire
    ensures TextAt(wire[..], 0, Line(ws))
  {
    Receive(wire, Line(ws));
    assert wire[0..|Line(ws)|] == Line(ws);
  }

  lemma Few(s: Sys, s': Sys, gs: seq<GroupLine>, spans: seq<Span>)
    requires Inv(s) && LinesOk(s, s', gs, spans) && |gs| <= |s.server.groups|
    ensures |gs| <= 99 && forall g :: g in gs ==> ValidLine(g)
  {
    Server.Clauses(s.server);
    LinesValid(s, s', gs, spans);
  }

  /**
   * `groups`, from the client's datagram to its pointers: the groups 01, 02, .. in order, each
   * with its name and a MID that `LineOk` bounds. There is no answer if the main process has ended.
   */
  method AskGroups(m: Machine, up: bool, wire: array<char>)
      returns (buf: array<char>, got: Option<Rows>, ghost gs: seq<GroupLine>, ghost spans: seq<Span>)
    requires m.Valid() && m.sys.making.None? && up == m.sys.server.up && wire.Length == BUFFER_SIZE
    modifies m, m.fs, wire
    ensures m.Valid() && (got.Some? <==> up)
    ensures up ==>
      && LinesOk(old(m.sys), m.sys, gs, spans) && Gids(gs) == IdSeq(2, |old(m.sys).server.groups|)
      && ShowsAll(buf[..], gs, got.value)
  {
    ghost var s := m.sys;
    buf := wire;
    assert Line(["GLS"]) == "GLS\n";
    SendTo(wire, ["GLS"]);
    var reply;
    reply, gs, spans := Dispatch(m, up, wire, AllGroups);
    if reply.None? {
      return buf, None, gs, spans;
    }
    Few(s, m.sys, gs, spans);
    var rows;
    buf, rows := ReceiveList(reply.value, "RGL", gs);
    got := Some(rows);
  }

  function MineWords(logged: bool, gs: seq<GroupLine>): seq<string> {
    if logged then AllWords("RGM", gs) else ["RGS", "E_USR"]
  }

  lemma MineReceivable(logged: bool, gs: seq<GroupLine>, reply: string)
    requires logged ==> |gs| <= 99 && forall g :: g in gs ==> ValidLine(g)
    requires reply == if logged then Listing("RGM", gs) else "RGS E_USR\n"
    ensures var ws := MineWords(logged, gs);
      && Words(ws) && reply == Line(ws) && |reply| + 1 <= 50 * BUFFER_SIZE
      && (ws[1] == "E_USR" <==> !logged)
  {
    if logged {
      ListReceivable("RGM", gs);
      assert IsDigit(Dec(1, |gs|)[0]);
    } else {
      assert ["RGS", "E_USR"][1..] == ["E_USR"];
      assert Line(["E_USR"]) == "E_USR\n";
    }
  }

  lemma UidIsWord(uid: string)
    requires ValidUid(uid)
    ensures Words(["GLM", uid]) && |Line(["GLM", uid])| == 10
  {
    assert ["GLM", uid][1..] == [uid];
    assert Line([uid]) == uid + "\n";
  }

  /**
   * `my_groups`, from the client's datagram to its pointers: the groups of a logged-in user, in the
   * same order. The reply to anybody else has the tag of another command, but is understood.
   */
  method AskMine(m: Machine, up: bool, wire: array<char>, uid: string)
      returns (buf: array<char>, got: Option<Rows>, rejected: bool, ghost gs: seq<GroupLine>, ghost spans: seq<Span>)
    requires m.Valid() && m.sys.making.None? && up == m.sys.server.up && wire.Length == BUFFER_SIZE
    requires ValidUid(uid)
    modifies m, m.fs, wire
    ensures m.Valid() && (rejected <==> up && uid !in old(m.sys).server.logged)
    ensures got.Some? <==> up && uid in old(m.sys).server.logged
    ensures got.Some? ==>
      && MyLinesOk(old(m.sys), m.sys, uid, IdSeq(2, |old(m.sys).server.groups|), gs, spans)
      && ShowsAll(buf[..], gs, got.value)
  {
    ghost var s, logged := m.sys, uid in m.sys.server.logged;
    buf, rejected := wire, false;
    UidIsWord(uid);
    SendTo(wire, ["GLM", uid]);
    var reply;
    reply, gs, spans := Dispatch(m, up, wire, GroupsOf(uid));
    if reply.None? {
      return buf, None, rejected, gs, spans;
    }
    if logged {
      FewMine(s, m.sys, uid, gs, spans);
    }
    MineReceivable(logged, gs, reply.value);
    var second, str;
    ghost var starts := [];
    buf, second, str, starts := ReceiveReply(reply.value, MineWords(logged, gs));
    if second == "E_USR" {
      return buf, None, true, gs, spans;
    }
    var n, ids, names, mids := ReadGroups(buf, str, second, "RGM", gs, starts);
    got := Some(Rows(n, ids, names, mids));
  }

  lemma FewMine(s: Sys, s': Sys, uid: string, gs: seq<GroupLine>, spans: seq<Span>)
    requires Inv(s) && MyLinesOk(s, s', uid, IdSeq(2, |s.server.groups|), gs, spans)
    ensures |gs| <= 99 && forall g :: g in gs ==> ValidLine(g)
  {
    Server.Clauses(s.server);
    FewSubscribed(s.server, uid, IdSeq(2, |s.server.groups|));
    Few(s, s', gs, spans);
  }

  lemma {:induction false} FewSubscribed(s: Server.State, uid: string, xs: seq<string>)
    ensures |SubscribedOf(s, uid, xs)| <= |xs|
  {
    if xs != [] {
      FewSubscribed(s, uid, xs[..|xs| - 1]);
    }
  }

  /** What is read of a name is one word, unless nothing was there yet. */
  lemma NameReadable(s: Sys, gid: string, name: string)
    requires TreeOk(s) && NameRead(s, gid, name) && NameIn(s, gid).value != ""
    ensures 0 < |name| < BUFFER_SIZE && NoDelim(name)
  {
    NamePrefix(s, gid);
  }

  lemma UsersReadable(s: Sys, s': Sys, gid: string, scan: UserScan, users: seq<string>)
    requires UsersOk(s, s', gid, scan, users)
    ensures forall u :: u in users ==> ValidUid(u)
  {
    forall u | u in users ensures ValidUid(u) {
      assert u in set x | x in users;
    }
  }

  /** What the server has sent, by the way `ulist` went. */
  ghost function UserReplyOf(s: Sys, gid: string, scan: UserScan, users: seq<string>): UserReply {
    if !Known(s, gid) then NotFound
    else if NameIn(scan.named, gid).Some? then Listed(scan.name, users)
    else NoReply
  }

  lemma ReplyReadable(s: Sys, s': Sys, gid: string, scan: UserScan, users: seq<string>)
    requires Inv(s) && UsersOk(s, s', gid, scan, users) && NameIn(scan.read, gid) != Some("")
    ensures 0 < |scan.name| < BUFFER_SIZE && NoDelim(scan.name) && forall u :: u in users ==> ValidUid(u)
  {
    ReachesLater(s, scan.named, false);
    ReachesLater(scan.named, scan.read, false);
    NameReadable(scan.read, gid, scan.name);
    UsersReadable(s, s', gid, scan, users);
  }

  /**
   * `ulist`, from the server's tree to the client's screen: the group's name as far as it was
   * there, then all who subscribe throughout the scan and only such as subscribe at some time
   * during it, each once. The loop also shows the empty word that ends it. A group that still
   * lacks `name.txt` looks to the client as if it did not exist; if that is still empty, the
   * client takes what was in the server's buffer for the name.
   */
  method AskUsers(m: Machine, gid: string)
      returns (got: UserList, ghost scan: UserScan, ghost users: seq<string>)
    requires m.Valid() && ValidGid(gid)
    modifies m, m.fs
    ensures m.Valid() && (Known(old(m.sys), gid) ==> Reaches(old(m.sys), scan.named, false))
    ensures !Known(old(m.sys), gid) || NameIn(scan.named, gid).None? ==> got == NoGroup
    ensures Known(old(m.sys), gid) && NameIn(scan.named, gid).Some? ==>
      && UsersOk(old(m.sys), m.sys, gid, scan, users) && got == ClientUsers(PrintUsers(scan.name, users))
      && (NameIn(scan.read, gid) != Some("") ==>
            NameIn(scan.read, gid) == Some(scan.name) && got == Users(scan.name, users + [""]))
  {
    ghost var s := m.sys;
    var server := new Socket(gid + "\n");
    assert server.rest[..2] == gid;
    var g, size;
    ghost var ok;
    g, size, ok, scan, users := Ulist(m, server);
    ghost var r := UserReplyOf(s, gid, scan, users);
    assert "" + PrintReply(r) == PrintReply(r);
    var client := new Socket(server.sent);
    got := ReadUsers(client);
    if r.Listed? && NameIn(scan.read, gid) != Some("") {
      ReplyReadable(s, m.sys, gid, scan, users);
    }
    if !r.Listed? || NameIn(scan.read, gid) != Some("") {
      ReadsUsers(r);
    }
  }
}
