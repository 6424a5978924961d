/** The server's side of the group lists and the user list, beside all the other processes. */
module ListServer {
  import opened CText
  import opened StrList
  import opened Sorting
  import opened Tree
  import opened ByteStream
  import opened Wire
  import opened Messages
  import Server
  import opened ServerTree
  import opened PostProtocol
  import opened PostSafety
  import opened PostTheorems
  import opened Host
  import opened GroupLists

  // ---- what is found of a group ----

  /** The group is there, or at least on its way. */
  predicate Known(s: Sys, gid: string) {
    gid in s.server.groups || (s.making.Some? && s.making.value.gid == gid)
  }

  /** While a group is being made, the others look as the state says. */
  lemma OtherGroup(s: Sys, gid: string, q: Path)
    requires s.making.Some? && gid != s.making.value.gid && InGroup(gid, q)
    ensures q in s.tree <==> q in Without(s.tree, GroupDir(s.making.value.gid))
  {
    InGroupIsBelow(s.making.value.gid, q);
  }

  lemma GroupDirIff(s: Sys, gid: string)
    requires TreeOk(s)
    ensures IsDir(s.tree, GroupDir(gid)) <==> Known(s, gid)
  {
    if s.making.None? || s.making.value.stage.Named? {
      GroupDirOf(s.tree, s.server, gid);
    } else {
      var t := Without(s.tree, GroupDir(s.making.value.gid));
      GroupDirOf(t, s.server, gid);
      if gid != s.making.value.gid {
        OtherGroup(s, gid, GroupDir(gid));
      }
    }
  }

  /** What `name.txt` of the group holds; None if it is not there. */
  function NameIn(s: Sys, gid: string): Option<string> {
    if gid in s.server.groups then Some(s.server.groups[gid].name)
    else if s.making.Some? && s.making.value.gid == gid then NameSoFar(s.making.value)
    else None
  }

  function NameFile(gid: string): Path {
    GroupEntry(gid, "name.txt")
  }

  lemma NameOfGroup(t: Tree, s: Server.State, gid: string)
    requires Represents(t, s)
    ensures NameFile(gid) in t <==> gid in s.groups
    ensures gid in s.groups ==> t[NameFile(gid)] == File(s.groups[gid].name)
  {
    NameOf(t, s, gid);
    Matches(t, s);
  }

  /** `name.txt` is there, and holds so much. */
  lemma NameThere(s: Sys, gid: string)
    requires TreeOk(s)
    ensures NameFile(gid) in s.tree <==> NameIn(s, gid).Some?
    ensures NameIn(s, gid).Some? ==> s.tree[NameFile(gid)] == File(NameIn(s, gid).value)
  {
    if s.making.None? || s.making.value.stage.Named? {
      NameOfGroup(s.tree, s.server, gid);
    } else {
      NameOfGroup(Without(s.tree, GroupDir(s.making.value.gid)), s.server, gid);
      if gid != s.making.value.gid {
        OtherGroup(s, gid, NameFile(gid));
      }
    }
  }

  function SubsOf(s: Sys, gid: string): set<string> {
    if gid in s.server.groups then s.server.groups[gid].subs else {}
  }

  lemma GroupHolds(t: Tree, s: Server.State, gid: string)
    requires Represents(t, s) && Server.Inv(s) && gid in s.groups
    ensures Files(t, GroupDir(gid)) == {"name.txt"} + s.groups[gid].subs
    ensures forall u :: u in s.groups[gid].subs ==> ValidUid(u)
  {
    Matches(t, s);
    Server.Clauses(s);
    GroupFiles(t, s, gid);
  }

  lemma FilesOfHalf(s: Sys, m: Making)
    requires s.making == Some(m) && MakingOk(s, m) && m.stage.Naming?
    ensures Files(s.tree, GroupDir(m.gid)) == {"name.txt"}
  {
    forall x ensures x in Files(s.tree, GroupDir(m.gid)) <==> x == "name.txt" {
      assert GroupDir(m.gid) + [x] == GroupEntry(m.gid, x);
    }
  }

  /** The plain files of a group that has its `name.txt`: that, and one for each subscriber. */
  lemma FilesOfGroup(s: Sys, gid: string)
    requires TreeOk(s) && NameIn(s, gid).Some?
    ensures Files(s.tree, GroupDir(gid)) == {"name.txt"} + SubsOf(s, gid)
    ensures forall u :: u in SubsOf(s, gid) ==> ValidUid(u)
  {
    if s.making.None? || s.making.value.stage.Named? {
      GroupHolds(s.tree, s.server, gid);
    } else if gid != s.making.value.gid {
      GroupHolds(Without(s.tree, GroupDir(s.making.value.gid)), s.server, gid);
      SameFiles(s, gid);
    } else {
      FilesOfHalf(s, s.making.value);
    }
  }

  lemma SameFiles(s: Sys, gid: string)
    requires s.making.Some? && gid != s.making.value.gid
    ensures Files(s.tree, GroupDir(gid)) == Files(Without(s.tree, GroupDir(s.making.value.gid)), GroupDir(gid))
  {
    OtherGroup(s, gid, GroupDir(gid));
    forall x ensures x in Files(s.tree, GroupDir(gid))
                <==> x in Files(Without(s.tree, GroupDir(s.making.value.gid)), GroupDir(gid)) {
      assert GroupDir(gid) + [x] == GroupEntry(gid, x);
      OtherGroup(s, gid, GroupEntry(gid, x));
    }
  }

  lemma NameKept(s: Server.State, c: Server.Command, gid: string)
    requires gid in s.groups && Server.Inv(s)
    ensures gid in Server.Exec(s, c).0.groups && Server.Exec(s, c).0.groups[gid].name == s.groups[gid].name
  {
    Server.FreeIds(s);
  }

  /** What is there of a name stays, and is only added to. */
  ghost predicate NameStays(name: Option<string>, name': Option<string>) {
    name.Some? ==> name'.Some? && name.value <= name'.value
  }

  /** The group is still there, or on its way, with as much of its name. */
  ghost predicate GroupKept(s: Sys, s': Sys, gid: string) {
    (Known(s, gid) ==> Known(s', gid)) && NameStays(NameIn(s, gid), NameIn(s', gid))
  }

  lemma ServeKeepsGroup(s: Sys, a: Action, gid: string)
    requires TreeOk(s) && a.Serve? && Enabled(s, a)
    ensures GroupKept(s, Next(s, a), gid)
  {
    if gid in s.server.groups {
      NameKept(s.server, a.command, gid);
    }
  }

  lemma BeginKeepsGroup(s: Sys, a: Action, gid: string)
    requires (a.BeginGroup? || a.AddMsgs?) && Enabled(s, a)
    ensures GroupKept(s, Next(s, a), gid)
  {
  }

  lemma SubscribedKept(s: Server.State, u: string, g: string, gid: string)
    requires g in s.groups && gid in s.groups
    ensures var s' := Server.Subscribed(s, u, g); gid in s'.groups && s'.groups[gid].name == s.groups[gid].name
  {
  }

  lemma FirstSubKeepsGroup(s: Sys, a: Action, gid: string)
    requires TreeOk(s) && a.AddFirstSub? && Enabled(s, a)
    ensures GroupKept(s, Next(s, a), gid)
  {
    SubscribedKeepsGroup(s, Next(s, a), s.making.value, gid);
  }

  lemma SubscribedKeepsGroup(s: Sys, s': Sys, m: Making, gid: string)
    requires s.making == Some(m) && m.gid in s.server.groups
    requires s'.making.None? && s'.server == Server.Subscribed(s.server, m.uid, m.gid)
    ensures GroupKept(s, s', gid)
  {
    if gid in s.server.groups {
      SubscribedKept(s.server, m.uid, m.gid, gid);
    }
  }

  lemma NamingKeepsGroup(s: Sys, a: Action, gid: string)
    requires (a.AddName? || a.WriteName?) && Enabled(s, a)
    ensures GroupKept(s, Next(s, a), gid)
  {
    if a.WriteName? {
      TakeMore(s.making.value.gname, s.making.value.stage.n, a.n);
    }
  }

  lemma NamedKeepsGroup(s: Sys, a: Action, gid: string)
    requires TreeOk(s) && a.CloseName? && Enabled(s, a)
    ensures GroupKept(s, Next(s, a), gid)
  {
    TakeMore(s.making.value.gname, s.making.value.stage.n, |s.making.value.gname|);
  }

  lemma TakeMore(s: string, n: nat, k: nat)
    requires n <= k <= |s|
    ensures Take(s, n) <= Take(s, k) == s[..k] && (k == |s| ==> Take(s, k) == s)
  {
  }

  /** No group goes, and none is renamed. */
  lemma StepKeepsGroup(s: Sys, a: Action, gid: string)
    requires TreeOk(s) && Enabled(s, a)
    ensures GroupKept(s, Next(s, a), gid)
  {
    if !Serial(a) {
      ChildLeavesServer(s, a);
    } else if a.Serve? {
      ServeKeepsGroup(s, a, gid);
    } else if a.BeginGroup? || a.AddMsgs? {
      BeginKeepsGroup(s, a, gid);
    } else if a.AddFirstSub? {
      FirstSubKeepsGroup(s, a, gid);
    } else if a.CloseName? {
      NamedKeepsGroup(s, a, gid);
    } else {
      NamingKeepsGroup(s, a, gid);
    }
  }

  // ---- scanning GROUPS ----

  lemma GroupEntryListed(s: Sys, gid: string)
    requires TreeOk(s) && s.making.None?
    ensures Dirent(gid, true) in Entries(s.tree, GROUPS) && !Hidden(gid) <==> gid in s.server.groups
  {
    Matches(s.tree, s.server);
    Server.Clauses(s.server);
    GroupListing(s.tree, s.server);
    EntryListed(s.tree, GROUPS, gid);
  }

  lemma ChildStepFrom(s: Sys, run: seq<Action>)
    requires Inv(s) && IsRun(s, run) && ByChildren(run) && run != []
    ensures Inv(Next(s, run[0])) && IsRun(Next(s, run[0]), run[1..]) && ByChildren(run[1..])
    ensures Next(s, run[0]).server == s.server && Next(s, run[0]).making == s.making
  {
    assert run[0] in run;
    StepKeepsInv(s, run[0]);
    ChildLeavesServer(s, run[0]);
  }

  lemma {:induction false} GroupThroughout(s: Sys, run: seq<Action>, gid: string)
    requires Inv(s) && s.making.None? && IsRun(s, run) && ByChildren(run) && gid in s.server.groups
    ensures Throughout(s, run, GROUPS, Dirent(gid, true)) && !Hidden(gid)
    decreases |run|
  {
    GroupEntryListed(s, gid);
    if run != [] {
      ChildStepFrom(s, run);
      GroupThroughout(Next(s, run[0]), run[1..], gid);
    }
  }

  lemma {:induction false} GroupSometime(s: Sys, run: seq<Action>, gid: string)
    requires Inv(s) && s.making.None? && IsRun(s, run) && ByChildren(run) && !Hidden(gid)
    requires Sometime(s, run, GROUPS, Dirent(gid, true))
    ensures gid in s.server.groups
    decreases |run|
  {
    GroupEntryListed(s, gid);
    if run != [] && gid !in s.server.groups {
      ChildStepFrom(s, run);
      GroupSometime(Next(s, run[0]), run[1..], gid);
    }
  }

  /** Children do not change what a scan of GROUPS yields. */
  lemma GroupsScanned(s: Sys, run: seq<Action>, es: set<Dirent>)
    requires Inv(s) && s.making.None? && IsRun(s, run) && ByChildren(run) && Scanned(s, run, GROUPS, es)
    ensures DirsIn(es) == s.server.groups.Keys
  {
    forall gid | gid in s.server.groups ensures gid in DirsIn(es) {
      GroupThroughout(s, run, gid);
    }
    forall gid | gid in DirsIn(es) ensures gid in s.server.groups {
      assert Dirent(gid, true) in es;
      GroupSometime(s, run, gid);
    }
  }

  /** The sorted list of all groups. */
  method ScanGroups(m: Machine) returns (es: set<Dirent>)
    requires m.Valid() && m.sys.making.None?
    modifies m, m.fs
    ensures m.Valid() && Reaches(old(m.sys), m.sys, true) && m.sys.server == old(m.sys).server
    ensures DirsIn(es) == Ids(2, |m.sys.server.groups|) && |m.sys.server.groups| <= Server.MAX_GROUPS
  {
    ghost var s, run := m.sys, [];
    es, run := m.ReadDir(GROUPS, true);
    GroupsScanned(s, run, es);
    ReachesLater(s, m.sys, true);
    Server.Clauses(s.server);
  }

  method SortedGroups(es: set<Dirent>, ghost n: nat)
      returns (list: Node?, ghost xs: seq<string>, ghost repr: set<Node>, size: nat)
    requires DirsIn(es) == Ids(2, n) && n <= Server.MAX_GROUPS
    ensures fresh(repr) && Holds(list, xs, repr) && xs == IdSeq(2, n) && size == n
  {
    list, xs, repr := ListDirsOrd(es);
    assert n < Pow10(2) by {
      assert Pow10(2) == 100;
    }
    NumericListing(2, n, xs);
    size := Size(list, xs, repr);
  }

  // ---- one line ----

  /** From the opening of a MSG directory to its closing. */
  datatype Span = Span(start: Sys, end: Sys)

  ghost predicate Within(s: Sys, span: Span, s': Sys) {
    Reaches(s, span.start, true) && Reaches(span.start, span.end, true) && Reaches(span.end, s', true)
  }

  /** The MID of a line lies between the lengths of the log at the opening and the closing of MSG. */
  ghost predicate LineOk(s: Sys, s': Sys, g: GroupLine, span: Span) {
    && Within(s, span, s')
    && g.gid in s.server.groups && g.name == s.server.groups[g.gid].name
    && |LogOf(span.start, g.gid)| <= g.mid <= |LogOf(span.end, g.gid)| <= MAX_MID
  }

  /** MSG is listed and counted, while children run. */
  method CountMessages(m: Machine, gid: string) returns (n: nat)
    requires m.Valid()
    modifies m, m.fs
    ensures m.Valid() && Reaches(old(m.sys), m.sys, true)
    ensures |LogOf(old(m.sys), gid)| <= n <= |LogOf(m.sys, gid)| <= MAX_MID
  {
    ghost var a := |LogOf(m.sys, gid)|;
    var es := ScanMessages(m, gid, true);
    n := CountDirs(es, a, |LogOf(m.sys, gid)|);
  }

  method CountDirs(es: set<Dirent>, ghost a: nat, ghost b: nat) returns (n: nat)
    requires Ids(4, a) <= DirsIn(es) <= Ids(4, b)
    ensures a <= n <= b
  {
    var list, xs, repr := ListDirs(es);
    n := Size(list, xs, repr);
    assert n == |multiset(xs)| == |DirsIn(es)|;
    IdsCount(4, a);
    IdsCount(4, b);
    Subset(Ids(4, a), DirsIn(es));
    Subset(DirsIn(es), Ids(4, b));
  }

  lemma Subset(a: set<string>, b: set<string>)
    requires a <= b
    ensures |a| <= |b|
  {
    assert b == a + (b - a);
  }

  /** One turn of the loops of `groups` and `my_groups`. */
  method GroupText(m: Machine, gid: string) returns (text: string, ghost g: GroupLine, ghost span: Span)
    requires m.Valid() && gid in m.sys.server.groups
    modifies m, m.fs
    ensures m.Valid() && Reaches(old(m.sys), m.sys, true)
    ensures LineOk(old(m.sys), m.sys, g, span) && g.gid == gid && text == LineText(g)
  {
    ghost var s := m.sys;
    m.Others(true);
    ghost var start := m.sys;
    var n := CountMessages(m, gid);
    ghost var end := m.sys;
    m.Others(true);
    span := Span(start, end);
    SpanMade(s, span, m.sys);
    NameThere(m.sys, gid);
    var name := m.fs.tree[NameFile(gid)].data;
    g := GroupLine(gid, name, n);
    text := " " + gid + " " + name + " " + Dec(4, n);
  }

  lemma SpanMade(s: Sys, span: Span, s': Sys)
    requires Inv(s) && Within(s, span, s')
    ensures Inv(s') && Reaches(s, s', true) && s'.server == s.server && s'.making == s.making
  {
    ReachesTransitive(s, span.start, span.end, true);
    ReachesTransitive(s, span.end, s', true);
    ReachesLater(s, s', true);
  }

  // ---- the loops ----

  function Gids(gs: seq<GroupLine>): (r: seq<string>)
    ensures |r| == |gs| && forall i :: 0 <= i < |gs| ==> r[i] == gs[i].gid
  {
    seq(|gs|, i requires 0 <= i < |gs| => gs[i].gid)
  }

  /** The lines made on the way from `s` to `s'`, each with its span. */
  ghost predicate LinesOk(s: Sys, s': Sys, gs: seq<GroupLine>, spans: seq<Span>) {
    && Reaches(s, s', true) && |gs| == |spans|
    && forall i :: 0 <= i < |gs| ==> LineOk(s, s', gs[i], spans[i])
  }

  lemma NoLines(s: Sys)
    ensures LinesOk(s, s, [], []) && Gids([]) == []
  {
    ReachesItself(s, true);
  }

  lemma LineLater(s0: Sys, s: Sys, s': Sys, s'': Sys, g: GroupLine, span: Span)
    requires LineOk(s, s', g, span) && Reaches(s0, s, true) && Reaches(s', s'', true)
    requires s0.server == s.server
    ensures LineOk(s0, s'', g, span)
  {
    ReachesTransitive(s0, s, span.start, true);
    ReachesTransitive(span.end, s', s'', true);
  }

  lemma LinesLater(s0: Sys, s: Sys, s': Sys, gs: seq<GroupLine>, spans: seq<Span>)
    requires LinesOk(s0, s, gs, spans) && Reaches(s, s', true)
    ensures LinesOk(s0, s', gs, spans)
  {
    ReachesTransitive(s0, s, s', true);
    ReachesItself(s0, true);
    forall i | 0 <= i < |gs| ensures LineOk(s0, s', gs[i], spans[i]) {
      LineLater(s0, s0, s, s', gs[i], spans[i]);
    }
  }

  lemma OneMoreLine(s0: Sys, s: Sys, s': Sys, gs: seq<GroupLine>, spans: seq<Span>, g: GroupLine, span: Span)
    requires LinesOk(s0, s, gs, spans) && Reaches(s, s', true) && s0.server == s.server && LineOk(s, s', g, span)
    ensures LinesOk(s0, s', gs + [g], spans + [span]) && Gids(gs + [g]) == Gids(gs) + [g.gid]
  {
    LinesLater(s0, s, s', gs, spans);
    ReachesItself(s', true);
    LineLater(s0, s, s', s', g, span);
  }

  lemma ShiftOne(done: seq<string>, rest: seq<string>)
    requires rest != []
    ensures done + [rest[0]] + rest[1..] == done + rest && (done + rest)[|done|] == rest[0]
  {
  }

  /** The line for a node of the list, which stays as it is. */
  method NodeText(m: Machine, node: Node, ghost rest: seq<string>, ghost left: set<Node>)
      returns (text: string, ghost g: GroupLine, ghost span: Span)
    requires m.Valid() && Holds(node, rest, left) && rest[0] in m.sys.server.groups
    modifies m, m.fs
    ensures node.next == old(node.next)
    ensures Holds(node.next, rest[1..], left - {node}) == old(Holds(node.next, rest[1..], left - {node}))
    ensures m.Valid() && Reaches(old(m.sys), m.sys, true)
    ensures LineOk(old(m.sys), m.sys, g, span) && g.gid == rest[0] && text == LineText(g)
  {
    label Before:
    text, g, span := GroupText(m, node.str);
    assert unchanged@Before(left);
  }

  lemma NextLine(s0: Sys, s: Sys, s': Sys, gs: seq<GroupLine>, spans: seq<Span>, g: GroupLine, span: Span,
                 rest: seq<string>, start: string)
    requires Inv(s0) && LinesOk(s0, s, gs, spans) && Reaches(s, s', true) && LineOk(s, s', g, span)
    requires rest != [] && g.gid == rest[0]
    ensures LinesOk(s0, s', gs + [g], spans + [span]) && Gids(gs + [g]) + rest[1..] == Gids(gs) + rest
    ensures start + LinesText(gs + [g]) == start + LinesText(gs) + LineText(g)
  {
    ReachesLater(s0, s, true);
    OneMoreLine(s0, s, s', gs, spans, g, span);
    TextStep(start, gs, g);
    ShiftOne(Gids(gs), rest);
  }

  lemma StillThere(s0: Sys, s: Sys, done: seq<string>, rest: seq<string>, xs: seq<string>)
    requires Inv(s0) && Reaches(s0, s, true) && done + rest == xs && rest != []
    requires forall j :: 0 <= j < |xs| ==> xs[j] in s0.server.groups
    ensures s.server == s0.server && s.making == s0.making && rest[0] in s.server.groups
    ensures done + [rest[0]] + rest[1..] == xs
  {
    ReachesLater(s0, s, true);
    ShiftOne(done, rest);
  }

  /** The loop of `groups`. */
  method GroupsLoop(m: Machine, list: Node?, start: string, ghost xs: seq<string>, ghost repr: set<Node>)
      returns (msg: string, ghost gs: seq<GroupLine>, ghost spans: seq<Span>)
    requires m.Valid() && Holds(list, xs, repr)
    requires forall j :: 0 <= j < |xs| ==> xs[j] in m.sys.server.groups
    modifies m, m.fs
    ensures m.Valid() && LinesOk(old(m.sys), m.sys, gs, spans) && Gids(gs) == xs
    ensures msg == start + LinesText(gs)
  {
    ghost var s0, rest, left := m.sys, xs, repr;
    NoLines(s0);
    msg, gs, spans := start, [], [];
    assert start + LinesText([]) == start && Gids([]) + rest == xs;
    var aux := list;
    while aux != null
      invariant Holds(aux, rest, left) && Gids(gs) + rest == xs
      invariant m.Valid() && LinesOk(s0, m.sys, gs, spans)
      invariant msg == start + LinesText(gs)
      decreases |rest|
    {
      ghost var s, g, span := m.sys, GroupLine("", "", 0), Span(s0, s0);
      StillThere(s0, s, Gids(gs), rest, xs);
      var text;
      text, g, span := NodeText(m, aux, rest, left);
      NextLine(s0, s, m.sys, gs, spans, g, span, rest, start);
      gs, spans, msg := gs + [g], spans + [span], msg + text;
      left, rest := left - {aux}, rest[1..];
      aux := aux.next;
    }
    assert Gids(gs) + [] == Gids(gs);
  }

  /** `groups`: every group in the order of its id. */
  method Groups(m: Machine) returns (msg: string, ghost gs: seq<GroupLine>, ghost spans: seq<Span>)
    requires m.Valid() && m.sys.making.None?
    modifies m, m.fs
    ensures m.Valid() && LinesOk(old(m.sys), m.sys, gs, spans)
    ensures Gids(gs) == IdSeq(2, |m.sys.server.groups|) && msg == Listing("RGL", gs)
  {
    ghost var s0, n := m.sys, |m.sys.server.groups|;
    var es := ScanGroups(m);
    ghost var s, xs, repr := m.sys, [], {};
    ReachesLater(s0, s, true);
    var list, size;
    list, xs, repr, size := SortedGroups(es, n);
    InGroups(s.server, xs);
    EmptyListing();
    msg, gs, spans := GroupsLoop(m, list, "RGL " + Dec(1, size), xs, repr);
    msg := msg + "\n";
    ListingText("RGL", gs);
    LinesSooner(s0, s, m.sys, gs, spans);
    ReachesLater(s0, m.sys, true);
  }

  lemma InGroups(s: Server.State, xs: seq<string>)
    requires Server.Inv(s) && xs == IdSeq(2, |s.groups|)
    ensures forall j :: 0 <= j < |xs| ==> xs[j] in s.groups
  {
    Server.Clauses(s);
  }

  lemma LinesSooner(s0: Sys, s: Sys, s': Sys, gs: seq<GroupLine>, spans: seq<Span>)
    requires Reaches(s0, s, true) && s0.server == s.server && LinesOk(s, s', gs, spans)
    ensures LinesOk(s0, s', gs, spans)
  {
    ReachesTransitive(s0, s, s', true);
    ReachesItself(s', true);
    forall i | 0 <= i < |gs| ensures LineOk(s0, s', gs[i], spans[i]) {
      LineLater(s0, s, s', s', gs[i], spans[i]);
    }
  }

  // ---- the groups of a user ----

  /** The groups of `xs` to which the user subscribes. */
  function SubscribedOf(s: Server.State, uid: string, xs: seq<string>): seq<string> {
    if xs == [] then []
    else
      var x := xs[|xs| - 1];
      SubscribedOf(s, uid, xs[..|xs| - 1]) + if x in s.groups && uid in s.groups[x].subs then [x] else []
  }

  lemma SubscribedStep(s: Server.State, uid: string, done: seq<string>, x: string)
    ensures SubscribedOf(s, uid, done + [x])
         == SubscribedOf(s, uid, done) + if x in s.groups && uid in s.groups[x].subs then [x] else []
  {
    assert (done + [x])[..|done|] == done;
  }

  /** A group directory holds the user's file iff the user subscribes. */
  lemma EntryIsSubscription(s: Sys, gid: string, uid: string)
    requires TreeOk(s) && s.making.None? && gid in s.server.groups && ValidUid(uid)
    ensures GroupEntry(gid, uid) in s.tree <==> uid in s.server.groups[gid].subs
  {
    Matches(s.tree, s.server);
  }

  /** One turn of the loop of `my_groups`: a line for a group that holds the user's file. */
  method MyTurn(m: Machine, node: Node, uid: string, ghost rest: seq<string>, ghost left: set<Node>)
      returns (found: bool, text: string, ghost g: GroupLine, ghost span: Span)
    requires m.Valid() && m.sys.making.None? && ValidUid(uid)
    requires Holds(node, rest, left) && rest[0] in m.sys.server.groups
    modifies m, m.fs
    ensures node.next == old(node.next)
    ensures Holds(node.next, rest[1..], left - {node}) == old(Holds(node.next, rest[1..], left - {node}))
    ensures m.Valid() && Reaches(old(m.sys), m.sys, true)
    ensures found <==> uid in old(m.sys).server.groups[rest[0]].subs
    ensures if found then LineOk(old(m.sys), m.sys, g, span) && g.gid == rest[0] && text == LineText(g)
            else text == ""
  {
    EntryIsSubscription(m.sys, rest[0], uid);
    g, span := GroupLine("", "", 0), Span(m.sys, m.sys);
    found, text := GroupEntry(node.str, uid) in m.fs.tree, "";
    if found {
      text, g, span := NodeText(m, node, rest, left);
    } else {
      ReachesItself(m.sys, true);
    }
  }

  /** The lines after the groups `done`. */
  ghost predicate MyLinesOk(s0: Sys, s: Sys, uid: string, done: seq<string>, gs: seq<GroupLine>, spans: seq<Span>) {
    LinesOk(s0, s, gs, spans) && Gids(gs) == SubscribedOf(s0.server, uid, done)
  }

  lemma MyNextLine(s0: Sys, s: Sys, s': Sys, uid: string, done: seq<string>, gid: string,
                   gs: seq<GroupLine>, spans: seq<Span>, g: GroupLine, span: Span)
    requires Inv(s0) && MyLinesOk(s0, s, uid, done, gs, spans) && Reaches(s, s', true) && LineOk(s, s', g, span)
    requires g.gid == gid && gid in s0.server.groups && uid in s0.server.groups[gid].subs
    ensures MyLinesOk(s0, s', uid, done + [gid], gs + [g], spans + [span])
    ensures LinesText(gs + [g]) == LinesText(gs) + LineText(g)
  {
    ReachesLater(s0, s, true);
    OneMoreLine(s0, s, s', gs, spans, g, span);
    SubscribedStep(s0.server, uid, done, gid);
    TextStep("", gs, g);
  }

  lemma MyNoLine(s0: Sys, s: Sys, s': Sys, uid: string, done: seq<string>, gid: string,
                 gs: seq<GroupLine>, spans: seq<Span>)
    requires MyLinesOk(s0, s, uid, done, gs, spans) && Reaches(s, s', true)
    requires gid in s0.server.groups && uid !in s0.server.groups[gid].subs
    ensures MyLinesOk(s0, s', uid, done + [gid], gs, spans)
  {
    LinesLater(s0, s, s', gs, spans);
    SubscribedStep(s0.server, uid, done, gid);
    assert Gids(gs) + [] == Gids(gs);
  }

  function More<T>(found: bool, xs: seq<T>, x: T): seq<T> {
    if found then xs + [x] else xs
  }

  lemma MyTurnDone(s0: Sys, s: Sys, s': Sys, uid: string, done: seq<string>, gid: string,
                   gs: seq<GroupLine>, spans: seq<Span>, found: bool, text: string, g: GroupLine, span: Span)
    requires Inv(s0) && MyLinesOk(s0, s, uid, done, gs, spans) && Reaches(s, s', true)
    requires gid in s0.server.groups && (found <==> uid in s0.server.groups[gid].subs)
    requires if found then LineOk(s, s', g, span) && g.gid == gid && text == LineText(g) else text == ""
    ensures MyLinesOk(s0, s', uid, done + [gid], More(found, gs, g), More(found, spans, span))
    ensures |More(found, gs, g)| == |gs| + if found then 1 else 0
    ensures LinesText(More(found, gs, g)) == LinesText(gs) + text
  {
    assert LinesText(gs) + "" == LinesText(gs);
    if found {
      MyNextLine(s0, s, s', uid, done, gid, gs, spans, g, span);
    } else {
      MyNoLine(s0, s, s', uid, done, gid, gs, spans);
    }
  }

  /** The same turn, with the lines it adds to those made before. */
  method MyStep(m: Machine, node: Node, uid: string, ghost rest: seq<string>, ghost left: set<Node>, ghost s0: Sys,
                ghost done: seq<string>, ghost xs: seq<string>, ghost gs: seq<GroupLine>, ghost spans: seq<Span>)
      returns (found: bool, text: string, ghost gs': seq<GroupLine>, ghost spans': seq<Span>)
    requires m.Valid() && Inv(s0) && s0.making.None? && ValidUid(uid) && MyLinesOk(s0, m.sys, uid, done, gs, spans)
    requires Holds(node, rest, left) && done + rest == xs
    requires forall j :: 0 <= j < |xs| ==> xs[j] in s0.server.groups
    modifies m, m.fs
    ensures node.next == old(node.next)
    ensures Holds(node.next, rest[1..], left - {node}) == old(Holds(node.next, rest[1..], left - {node}))
    ensures m.Valid() && MyLinesOk(s0, m.sys, uid, done + [rest[0]], gs', spans')
    ensures if found then |gs'| == |gs| + 1 && LinesText(gs') == LinesText(gs) + text
            else |gs'| == |gs| && LinesText(gs') == LinesText(gs)
    ensures done + [rest[0]] + rest[1..] == xs
  {
    ghost var s, g, span := m.sys, GroupLine("", "", 0), Span(s0, s0);
    StillThere(s0, s, done, rest, xs);
    found, text, g, span := MyTurn(m, node, uid, rest, left);
    MyTurnDone(s0, s, m.sys, uid, done, rest[0], gs, spans, found, text, g, span);
    gs', spans' := More(found, gs, g), More(found, spans, span);
  }

  /** The loop of `my_groups`: the groups that hold the user's file, and how many they are. */
  method MyGroupsLoop(m: Machine, list: Node?, uid: string, ghost xs: seq<string>, ghost repr: set<Node>)
      returns (text: string, n: nat, ghost gs: seq<GroupLine>, ghost spans: seq<Span>)
    requires m.Valid() && m.sys.making.None? && ValidUid(uid) && Holds(list, xs, repr)
    requires forall j :: 0 <= j < |xs| ==> xs[j] in m.sys.server.groups
    modifies m, m.fs
    ensures m.Valid() && MyLinesOk(old(m.sys), m.sys, uid, xs, gs, spans)
    ensures n == |gs| && text == LinesText(gs)
  {
    ghost var s0, done, rest, left := m.sys, [], xs, repr;
    NoLines(s0);
    text, n, gs, spans := "", 0, [], [];
    assert [] + xs == xs;
    var aux := list;
    while aux != null
      invariant Holds(aux, rest, left) && done + rest == xs
      invariant m.Valid() && MyLinesOk(s0, m.sys, uid, done, gs, spans)
      invariant n == |gs| && text == LinesText(gs)
      decreases |rest|
    {
      var found, line;
      found, line, gs, spans := MyStep(m, aux, uid, rest, left, s0, done, xs, gs, spans);
      if found {
        n := n + 1;
        text := text + line;
      }
      left, done, rest := left - {aux}, done + [rest[0]], rest[1..];
      aux := aux.next;
    }
    assert rest == [] && done + [] == done;
  }

  /** `my_groups`: the same list, of the groups to which a logged-in user subscribes. */
  method MyGroups(m: Machine, uid: string) returns (msg: string, ghost gs: seq<GroupLine>, ghost spans: seq<Span>)
    requires m.Valid() && m.sys.making.None?
    modifies m, m.fs
    ensures m.Valid() && Reaches(old(m.sys), m.sys, true)
    ensures msg == if !ValidUid(uid) then "RGM E_USR\n"
                   else if uid !in m.sys.server.logged then "RGS E_USR\n"
                   else Listing("RGM", gs)
    ensures ValidUid(uid) && uid in m.sys.server.logged ==>
      MyLinesOk(old(m.sys), m.sys, uid, IdSeq(2, |m.sys.server.groups|), gs, spans)
  {
    gs, spans := [], [];
    ReachesItself(m.sys, true);
    if !ValidUid(uid) {
      return "RGM E_USR\n", gs, spans;
    }
    UserIsLogged(m.sys, uid);
    if !IsDir(m.fs.tree, UserDir(uid)) || UserEntry(uid, "login") !in m.fs.tree {
      return "RGS E_USR\n", gs, spans;
    }
    msg, gs, spans := ListMine(m, uid);
  }

  lemma UserIsLogged(s: Sys, uid: string)
    requires TreeOk(s) && s.making.None?
    ensures IsDir(s.tree, UserDir(uid)) && UserEntry(uid, "login") in s.tree <==> uid in s.server.logged
  {
    Matches(s.tree, s.server);
    Server.Clauses(s.server);
  }

  method ListMine(m: Machine, uid: string) returns (msg: string, ghost gs: seq<GroupLine>, ghost spans: seq<Span>)
    requires m.Valid() && m.sys.making.None? && ValidUid(uid)
    modifies m, m.fs
    ensures m.Valid() && m.sys.server == old(m.sys).server && msg == Listing("RGM", gs)
    ensures MyLinesOk(old(m.sys), m.sys, uid, IdSeq(2, |m.sys.server.groups|), gs, spans)
  {
    ghost var s0, n := m.sys, |m.sys.server.groups|;
    var es := ScanGroups(m);
    ghost var s, xs, repr := m.sys, [], {};
    ReachesLater(s0, s, true);
    var list, size, count, text;
    list, xs, repr, size := SortedGroups(es, n);
    InGroups(s.server, xs);
    text, count, gs, spans := MyGroupsLoop(m, list, uid, xs, repr);
    MineSooner(s0, s, m.sys, uid, xs, gs, spans);
    ListingText("RGM", gs);
    EmptyListing();
    if count == 0 {
      return "RGM 0\n", gs, spans;
    }
    msg := "RGM " + Dec(1, count) + text + "\n";
  }

  lemma MineSooner(s0: Sys, s: Sys, s': Sys, uid: string, xs: seq<string>, gs: seq<GroupLine>, spans: seq<Span>)
    requires Inv(s0) && Reaches(s0, s, true) && s0.server == s.server && MyLinesOk(s, s', uid, xs, gs, spans)
    ensures MyLinesOk(s0, s', uid, xs, gs, spans) && s'.server == s0.server
  {
    LinesSooner(s0, s, s', gs, spans);
    ReachesLater(s0, s', true);
  }

  // ---- the users of a group ----

  /** `u` subscribes to the group in every state of the run. */
  ghost predicate AlwaysIn(s: Sys, run: seq<Action>, gid: string, u: string)
    requires IsRun(s, run)
    decreases |run|
  {
    u in SubsOf(s, gid) && (run != [] ==> AlwaysIn(Next(s, run[0]), run[1..], gid, u))
  }

  /** `u` subscribes to the group in some state of the run. */
  ghost predicate OnceIn(s: Sys, run: seq<Action>, gid: string, u: string)
    requires IsRun(s, run)
    decreases |run|
  {
    u in SubsOf(s, gid) || (run != [] && OnceIn(Next(s, run[0]), run[1..], gid, u))
  }

  lemma FileListed(s: Sys, gid: string, x: string)
    requires TreeOk(s) && NameIn(s, gid).Some?
    ensures Dirent(x, false) in Entries(s.tree, GroupDir(gid)) <==> x == "name.txt" || x in SubsOf(s, gid)
    ensures IsDir(s.tree, GroupDir(gid))
  {
    FilesOfGroup(s, gid);
    GroupDirIff(s, gid);
    EntryListed(s.tree, GroupDir(gid), x);
  }

  lemma StepFrom(s: Sys, run: seq<Action>, gid: string)
    requires Inv(s) && IsRun(s, run) && run != [] && NameIn(s, gid).Some?
    ensures Inv(Next(s, run[0])) && IsRun(Next(s, run[0]), run[1..]) && NameIn(Next(s, run[0]), gid).Some?
  {
    StepKeepsInv(s, run[0]);
    StepKeepsGroup(s, run[0], gid);
  }

  lemma {:induction false} FileThroughout(s: Sys, run: seq<Action>, gid: string, x: string)
    requires Inv(s) && IsRun(s, run) && NameIn(s, gid).Some?
    requires x == "name.txt" || AlwaysIn(s, run, gid, x)
    ensures Throughout(s, run, GroupDir(gid), Dirent(x, false))
    decreases |run|
  {
    FileListed(s, gid, x);
    if run != [] {
      StepFrom(s, run, gid);
      FileThroughout(Next(s, run[0]), run[1..], gid, x);
    }
  }

  lemma {:induction false} FileSometime(s: Sys, run: seq<Action>, gid: string, x: string)
    requires Inv(s) && IsRun(s, run) && NameIn(s, gid).Some?
    requires Sometime(s, run, GroupDir(gid), Dirent(x, false))
    ensures x == "name.txt" || OnceIn(s, run, gid, x)
    decreases |run|
  {
    FileListed(s, gid, x);
    if run != [] && x != "name.txt" && x !in SubsOf(s, gid) {
      StepFrom(s, run, gid);
      FileSometime(Next(s, run[0]), run[1..], gid, x);
    }
  }

  lemma {:induction false} OnceInIsUser(s: Sys, run: seq<Action>, gid: string, u: string)
    requires Inv(s) && IsRun(s, run) && NameIn(s, gid).Some? && OnceIn(s, run, gid, u)
    ensures ValidUid(u)
    decreases |run|
  {
    FilesOfGroup(s, gid);
    if u !in SubsOf(s, gid) {
      StepFrom(s, run, gid);
      OnceInIsUser(Next(s, run[0]), run[1..], gid, u);
    }
  }

  /** The names were those of subscribers, and no lasting subscriber is missing. */
  ghost predicate UsersSeen(s: Sys, run: seq<Action>, gid: string, users: set<string>)
    requires IsRun(s, run)
  {
    && (forall u :: AlwaysIn(s, run, gid, u) ==> u in users)
    && (forall u :: u in users ==> OnceIn(s, run, gid, u) && ValidUid(u))
  }

  lemma FileSeen(s: Sys, run: seq<Action>, gid: string, es: set<Dirent>, x: string)
    requires Inv(s) && IsRun(s, run) && NameIn(s, gid).Some? && Scanned(s, run, GroupDir(gid), es)
    requires x == "name.txt" || AlwaysIn(s, run, gid, x)
    ensures x in FilesIn(es) && (AlwaysIn(s, run, gid, x) ==> x != "name.txt")
  {
    FileListed(s, gid, x);
    FilesOfGroup(s, gid);
    FileThroughout(s, run, gid, x);
    assert Dirent(x, false) in es;
  }

  lemma FileWasThere(s: Sys, run: seq<Action>, gid: string, es: set<Dirent>, x: string)
    requires Inv(s) && IsRun(s, run) && NameIn(s, gid).Some? && Scanned(s, run, GroupDir(gid), es)
    requires x in FilesIn(es) && x != "name.txt"
    ensures OnceIn(s, run, gid, x) && ValidUid(x)
  {
    FileListed(s, gid, x);
    assert Dirent(x, false) in es;
    FileSometime(s, run, gid, x);
    OnceInIsUser(s, run, gid, x);
  }

  lemma FilesScanned(s: Sys, run: seq<Action>, gid: string, es: set<Dirent>)
    requires Inv(s) && IsRun(s, run) && NameIn(s, gid).Some? && Scanned(s, run, GroupDir(gid), es)
    ensures "name.txt" in FilesIn(es) && UsersSeen(s, run, gid, FilesIn(es) - {"name.txt"})
  {
    FileSeen(s, run, gid, es, "name.txt");
    forall u | AlwaysIn(s, run, gid, u) ensures u in FilesIn(es) - {"name.txt"} {
      FileSeen(s, run, gid, es, u);
    }
    forall u | u in FilesIn(es) - {"name.txt"} ensures OnceIn(s, run, gid, u) && ValidUid(u) {
      FileWasThere(s, run, gid, es, u);
    }
  }

  /** The group directory is opened and read to its end, while others run. */
  method ScanFiles(m: Machine, gid: string) returns (es: set<Dirent>, ghost run: seq<Action>)
    requires m.Valid() && NameIn(m.sys, gid).Some?
    modifies m, m.fs
    ensures m.Valid() && IsRun(old(m.sys), run) && m.sys == After(old(m.sys), run)
    ensures "name.txt" in FilesIn(es) && UsersSeen(old(m.sys), run, gid, FilesIn(es) - {"name.txt"})
  {
    ghost var s := m.sys;
    es, run := m.ReadDir(GroupDir(gid), false);
    FilesScanned(s, run, gid, es);
  }

  /** The text for what was read, within the buffer allocated for it. */
  method UsersText(es: set<Dirent>, name: string) returns (msg: string, size: int, ghost users: seq<string>)
    requires "name.txt" in FilesIn(es) && forall u :: u in FilesIn(es) && u != "name.txt" ==> ValidUid(u)
    ensures msg == PrintUsers(name, users) && multiset(users) == multiset(FilesIn(es) - {"name.txt"})
    ensures size == |users| && |msg| + 1 <= 11 + |name| + size * 6
  {
    ghost var subs := FilesIn(es) - {"name.txt"};
    var list, xs, repr := ListFilesOf(es);
    assert FilesIn(es) == {"name.txt"} + subs;
    UsersCount(xs, subs);
    size := Size(list, xs, repr);
    size := size - 1;
    users := WithoutName(xs);
    msg := UlistLoop(list, "RUL OK " + name + " ", xs, repr);
    msg := msg + "\n";
    UsersAppend(users, "", "\n");
    PrintedUsers(name, UsersThen(users, ""), UsersThen(users, "\n"));
    forall u | u in users ensures |u| == 5 {
      assert u in multiset(users);
    }
    UsersSize(users);
  }

  /**
   * What `ulist` goes through: when `name.txt` is opened, when it is read, and then the scan of
   * the directory. `name` is what is then in the buffer for the name.
   */
  datatype UserScan = UserScan(named: Sys, read: Sys, name: string, start: Sys, run: seq<Action>)

  /** An empty file leaves in the buffer what was there before. */
  ghost predicate NameRead(s: Sys, gid: string, name: string) {
    NameIn(s, gid).Some? && (NameIn(s, gid).value != "" ==> name == NameIn(s, gid).value)
  }

  ghost predicate UsersOk(s: Sys, s': Sys, gid: string, scan: UserScan, users: seq<string>) {
    && Reaches(s, scan.named, false) && Reaches(scan.named, scan.read, false)
    && Reaches(scan.read, scan.start, false) && NameRead(scan.read, gid, scan.name)
    && IsRun(scan.start, scan.run) && s' == After(scan.start, scan.run)
    && UsersSeen(scan.start, scan.run, gid, set u | u in users)
    && forall u :: u in users ==> multiset(users)[u] == 1
  }

  lemma {:induction false} KnownStays(s: Sys, run: seq<Action>, gid: string)
    requires Inv(s) && IsRun(s, run)
    ensures GroupKept(s, After(s, run), gid)
    decreases |run|
  {
    if run != [] {
      StepKeepsInv(s, run[0]);
      StepKeepsGroup(s, run[0], gid);
      KnownStays(Next(s, run[0]), run[1..], gid);
    }
  }

  lemma GroupStays(s: Sys, s': Sys, gid: string)
    requires Inv(s) && Reaches(s, s', false)
    ensures GroupKept(s, s', gid)
  {
    var run :| IsRun(s, run) && After(s, run) == s';
    KnownStays(s, run, gid);
  }

  lemma UsersGathered(s: Sys, run: seq<Action>, gid: string, seen: set<string>, users: seq<string>)
    requires IsRun(s, run) && UsersSeen(s, run, gid, seen) && multiset(users) == multiset(seen)
    ensures UsersSeen(s, run, gid, set u | u in users) && forall u :: u in users ==> multiset(users)[u] == 1
  {
    assert (set u | u in users) == seen by {
      forall u ensures u in users <==> u in seen {
        assert u in multiset(users) <==> u in multiset(seen);
      }
    }
    forall u | u in users ensures multiset(users)[u] == 1 {
      assert u in multiset(seen);
    }
  }

  /** `name.txt` is opened, which is a null stream if it is not there yet. */
  method OpenName(m: Machine, gid: string) returns (found: bool)
    requires m.Valid()
    modifies m, m.fs
    ensures m.Valid() && Reaches(old(m.sys), m.sys, false) && (found <==> NameIn(m.sys, gid).Some?)
  {
    m.Others(false);
    NameThere(m.sys, gid);
    found := NameFile(gid) in m.fs.tree;
  }

  /** `fscanf` reads it later on, into a buffer with whatever was in it. */
  method ReadName(m: Machine, gid: string) returns (name: string)
    requires m.Valid() && NameIn(m.sys, gid).Some?
    modifies m, m.fs
    ensures m.Valid() && Reaches(old(m.sys), m.sys, false) && NameRead(m.sys, gid, name)
  {
    ghost var s := m.sys;
    m.Others(false);
    GroupStays(s, m.sys, gid);
    NameThere(m.sys, gid);
    name := m.fs.tree[NameFile(gid)].data;
    if name == "" {
      var stale := new char[25];
      name := CString(stale[..]);
    }
  }

  /** The directory is scanned, later on. */
  method ReadFiles(m: Machine, gid: string) returns (es: set<Dirent>, ghost start: Sys, ghost run: seq<Action>)
    requires m.Valid() && NameIn(m.sys, gid).Some?
    modifies m, m.fs
    ensures m.Valid() && Reaches(old(m.sys), start, false) && IsRun(start, run) && m.sys == After(start, run)
    ensures "name.txt" in FilesIn(es) && UsersSeen(start, run, gid, FilesIn(es) - {"name.txt"})
  {
    ghost var s := m.sys;
    m.Others(false);
    start := m.sys;
    GroupStays(s, start, gid);
    es, run := ScanFiles(m, gid);
  }

  /** The name is read, then the users; the child ends if there is no `name.txt` to read. */
  method UserList(m: Machine, gid: string)
      returns (msg: Option<string>, size: int, ghost scan: UserScan, ghost users: seq<string>)
    requires m.Valid()
    modifies m, m.fs
    ensures m.Valid() && Inv(scan.named) && Reaches(old(m.sys), scan.named, false)
    ensures msg.Some? <==> NameIn(scan.named, gid).Some?
    ensures msg.Some? ==>
      && UsersOk(old(m.sys), m.sys, gid, scan, users)
      && msg.value == PrintUsers(scan.name, users)
      && size == |users| && |msg.value| + 1 <= 11 + |scan.name| + size * 6
  {
    var found := OpenName(m, gid);
    ghost var named, start, run := m.sys, m.sys, [];
    if !found {
      return None, 0, UserScan(named, named, "", named, []), [];
    }
    var name := ReadName(m, gid);
    ghost var read := m.sys;
    var es, text;
    es, start, run := ReadFiles(m, gid);
    text, size, users := UsersText(es, name);
    scan := UserScan(named, read, name, start, run);
    UsersGathered(start, run, gid, FilesIn(es) - {"name.txt"}, users);
    msg := Some(text);
  }

  /**
   * `ulist`, a forked child beside `register`, `subscribe` and the rest. It ends without a reply
   * exactly when it opens `name.txt` of the group before that is there.
   */
  method Ulist(m: Machine, fd: Socket)
      returns (gid: string, size: int, ghost ok: bool, ghost scan: UserScan, ghost users: seq<string>)
    requires m.Valid() && 2 <= |fd.rest|
    modifies m, m.fs, fd
    ensures m.Valid() && gid == old(fd.rest)[..2]
    ensures !ValidGid(gid) ==> fd.sent == old(fd.sent) + "ERR\n"
    ensures ValidGid(gid) && !Known(old(m.sys), gid) ==> fd.sent == old(fd.sent) + "RUL NOK\n"
    ensures ValidGid(gid) && Known(old(m.sys), gid) ==>
      && Inv(scan.named) && Reaches(old(m.sys), scan.named, false)
      && (ok <==> NameIn(scan.named, gid).Some?) && (!ok ==> fd.sent == old(fd.sent))
      && (ok ==> UsersOk(old(m.sys), m.sys, gid, scan, users) && size == |users|
                 && fd.sent == old(fd.sent) + PrintUsers(scan.name, users))
  {
    size, ok, scan, users := 0, true, UserScan(m.sys, m.sys, "", m.sys, []), [];
    gid := ReadBytes(fd, 2);
    if !ValidGid(gid) {
      fd.Write("ERR\n");
      return;
    }
    GroupDirIff(m.sys, gid);
    if !IsDir(m.fs.tree, GroupDir(gid)) {
      fd.Write("RUL NOK\n");
      return;
    }
    var msg;
    msg, size, scan, users := UserList(m, gid);
    ok := msg.Some?;
    if msg.Some? {
      fd.Write(msg.value);
    }
  }

  /** Exactly a group whose directory is there, but no `name.txt` yet, ends the child. */
  lemma NamelessIff(s: Sys, s': Sys, gid: string)
    requires Inv(s) && Known(s, gid) && Reaches(s, s', false)
    ensures NameIn(s', gid).None? <==>
      && s'.making.Some? && s'.making.value.gid == gid
      && (s'.making.value.stage.Bare? || s'.making.value.stage.WithMsgs?)
  {
    GroupStays(s, s', gid);
    ReachesLater(s, s', false);
  }

  /** What is read of the name is a first part of it, of which nothing or all may be missing. */
  lemma NamePrefix(s: Sys, gid: string)
    requires TreeOk(s) && NameIn(s, gid).Some?
    ensures ValidGname(NameIn(s, gid).value)
    ensures gid in s.server.groups ==> NameIn(s, gid).value == s.server.groups[gid].name != ""
    ensures gid !in s.server.groups ==> s.making.Some? && NameIn(s, gid).value <= s.making.value.gname
  {
    Server.Clauses(s.server);
  }
}
