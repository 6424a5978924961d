/** Runs from the start that reach any log, any scan of it, and so the states where things go wrong. */
module Reachable {
  import opened CText
  import opened Sorting
  import opened Tree
  import opened Wire
  import opened Messages
  import Server
  import opened ServerTree
  import opened Windows
  import opened PostProtocol
  import opened PostSafety
  import opened PostTheorems
  import opened Host

  // ---- a user, and a group ----

  function FirstTree(uid: string, pass: string): Tree {
    INITIAL_TREE[UserDir(uid) := Dir][UserEntry(uid, "pass.txt") := File(pass)]
  }

  function FirstUser(uid: string, pass: string): Action {
    Serve(Server.Reg(uid, pass), FirstTree(uid, pass))
  }

  lemma UserRegistered(uid: string, pass: string)
    requires ValidUid(uid) && ValidPass(pass)
    ensures Enabled(START, FirstUser(uid, pass))
    ensures var s := Next(START, FirstUser(uid, pass));
      && s.server == Server.State(true, map[uid := pass], {}, map[]) && s.making.None?
      && s.procs == map[] && s.log == map[]
  {
    InitialRepresents();
    AddUser(INITIAL_TREE, Server.INITIAL, uid, pass);
    assert Server.INITIAL.users[uid := pass] == map[uid := pass];
  }

  /** The steps of the main process that make a new group; the name is written in one piece. */
  function MakeGroup(uid: string, gname: string): seq<Action> {
    [BeginGroup(uid, gname)] + ([AddMsgs] + NameGroup(gname))
  }

  function NameGroup(gname: string): seq<Action> {
    [AddName] + ([WriteName(|gname|)] + ([CloseName] + [AddFirstSub]))
  }

  lemma Began(s: Sys, uid: string, gname: string)
    requires Enabled(s, BeginGroup(uid, gname))
    ensures var gid := Dec(2, |s.server.groups| + 1);
      Next(s, BeginGroup(uid, gname))
      == s.(tree := s.tree[GroupDir(gid) := Dir], making := Some(Making(gid, gname, uid, Bare)))
  {
  }

  lemma MsgsAdded(s: Sys, m: Making)
    requires s.making == Some(m) && m.stage.Bare?
    ensures Enabled(s, AddMsgs)
    ensures Next(s, AddMsgs) == s.(tree := s.tree[MsgsDir(m.gid) := Dir], making := Some(m.(stage := WithMsgs)))
  {
  }

  lemma NameAdded(s: Sys, m: Making)
    requires s.making == Some(m) && m.stage.WithMsgs?
    ensures Enabled(s, AddName)
    ensures Next(s, AddName)
         == s.(tree := s.tree[GroupEntry(m.gid, "name.txt") := File("")], making := Some(m.(stage := Naming(0))))
  {
  }

  lemma NameWritten(s: Sys, m: Making)
    requires s.making == Some(m) && m.stage == Naming(0)
    ensures Enabled(s, WriteName(|m.gname|))
    ensures Next(s, WriteName(|m.gname|))
         == s.(tree := s.tree[GroupEntry(m.gid, "name.txt") := File(m.gname)],
               making := Some(m.(stage := Naming(|m.gname|))))
  {
    assert m.gname[..|m.gname|] == m.gname;
  }

  lemma NameClosed(s: Sys, m: Making)
    requires s.making == Some(m) && m.stage == Naming(|m.gname|)
    ensures Enabled(s, CloseName)
    ensures Next(s, CloseName)
         == s.(server := Server.NewGroup(s.server, m.gid, m.gname), making := Some(m.(stage := Named)))
  {
  }

  lemma FirstSubAdded(s: Sys, m: Making)
    requires s.making == Some(m) && m.stage.Named? && m.gid in s.server.groups
    ensures Enabled(s, AddFirstSub)
    ensures Next(s, AddFirstSub)
         == s.(tree := s.tree[GroupEntry(m.gid, m.uid) := File("")],
               server := Server.Subscribed(s.server, m.uid, m.gid), making := None)
  {
  }

  lemma Subscribes(s: Sys, m: Making)
    requires s.making == Some(m) && m.stage == Naming(|m.gname|)
    ensures var run := [CloseName] + [AddFirstSub];
      && IsRun(s, run)
      && After(s, run) == s.(
           tree := s.tree[GroupEntry(m.gid, m.uid) := File("")],
           server := Server.Subscribed(Server.NewGroup(s.server, m.gid, m.gname), m.uid, m.gid), making := None)
  {
    NameClosed(s, m);
    var s1 := Next(s, CloseName);
    FirstSubAdded(s1, m.(stage := Named));
    RunOf(s1, AddFirstSub, []);
    assert [AddFirstSub] + [] == [AddFirstSub];
    RunOf(s, CloseName, [AddFirstSub]);
  }

  /** The tree and the state when the group has its name and its first subscriber. */
  function Finished(s: Sys, m: Making): Sys
    requires m.gid in Server.NewGroup(s.server, m.gid, m.gname).groups
  {
    s.(tree := s.tree[GroupEntry(m.gid, "name.txt") := File(m.gname)][GroupEntry(m.gid, m.uid) := File("")],
       server := Server.Subscribed(Server.NewGroup(s.server, m.gid, m.gname), m.uid, m.gid), making := None)
  }

  lemma Finishes(s: Sys, m: Making)
    requires s.making == Some(m) && m.stage.WithMsgs?
    ensures m.gid in Server.NewGroup(s.server, m.gid, m.gname).groups
    ensures IsRun(s, NameGroup(m.gname)) && After(s, NameGroup(m.gname)) == Finished(s, m)
  {
    NameAdded(s, m);
    var s1 := Next(s, AddName);
    NameWritten(s1, m.(stage := Naming(0)));
    var s2 := Next(s1, WriteName(|m.gname|));
    Subscribes(s2, m.(stage := Naming(|m.gname|)));
    WrittenOver(s.tree, GroupEntry(m.gid, "name.txt"), m.gname);
    RunOf(s1, WriteName(|m.gname|), [CloseName] + [AddFirstSub]);
    RunOf(s, AddName, [WriteName(|m.gname|)] + ([CloseName] + [AddFirstSub]));
  }

  lemma WrittenOver(t: Tree, q: Path, data: string)
    ensures t[q := File("")][q := File(data)] == t[q := File(data)]
  {
  }

  /** Together these steps do what `subscribe` does for a new group. */
  lemma GroupMade(s: Sys, uid: string, gname: string)
    requires Enabled(s, BeginGroup(uid, gname))
    ensures IsRun(s, MakeGroup(uid, gname))
    ensures var gid := Dec(2, |s.server.groups| + 1);
      After(s, MakeGroup(uid, gname)) == s.(
        tree := WithGroup(s.tree, gid, gname)[GroupEntry(gid, uid) := File("")],
        server := Server.Exec(s.server, Server.Gsr(uid, "00", gname)).0, making := None)
  {
    Server.NewOutcome(s.server, Server.Gsr(uid, "00", gname));
    Began(s, uid, gname);
    var s1 := Next(s, BeginGroup(uid, gname));
    MsgsAdded(s1, s1.making.value);
    var s2 := Next(s1, AddMsgs);
    Finishes(s2, s2.making.value);
    RunOf(s1, AddMsgs, NameGroup(gname));
    RunOf(s, BeginGroup(uid, gname), [AddMsgs] + NameGroup(gname));
  }

  // ---- posts ----

  /** All is as in `s0`, but that a child has got as far as `pc`. */
  ghost predicate Posting(s0: Sys, s: Sys, p: Pid, gid: string, pc: Pc) {
    && s == s0.(procs := s.procs)
    && p in s.procs && s.procs[p].gid == gid && s.procs[p].pc == pc
  }

  function PostSteps(p: Pid, req: Request, base: set<string>): seq<Action> {
    [Fork(p, req)] + ([CheckGroup(p)] + ([OpenDir(p)] + ([CloseDir(p, base)] + [Mkdir(p)])))
  }

  lemma NextIsFree(s: Sys, gid: string)
    requires PostsOk(s)
    ensures |SubDirs(s.tree, MsgsDir(gid))| == |LogOf(s, gid)|
    ensures MsgDir(gid, Mid(|LogOf(s, gid)| + 1)) !in s.tree
  {
    var n := |LogOf(s, gid)|;
    MsgsOk(s, gid);
    IdsCount(4, n);
    IdsMember(n + 1, n);
    assert MsgsDir(gid) + [Mid(n + 1)] == MsgDir(gid, Mid(n + 1));
  }

  lemma Claims(s: Sys, p: Pid, gid: string, base: set<string>)
    requires |LogOf(s, gid)| < MAX_MID && |base| == |LogOf(s, gid)|
    requires IsDir(s.tree, MsgsDir(gid)) && MsgDir(gid, Mid(|LogOf(s, gid)| + 1)) !in s.tree
    requires p in s.procs && s.procs[p].gid == gid && s.procs[p].pc == Claim(|base| + 1, base)
    ensures IsRun(s, [Mkdir(p)])
    ensures var s' := After(s, [Mkdir(p)]);
      LogOf(s', gid) == LogOf(s, gid) + [p] && s'.server == s.server && s'.making == s.making
  {
    var a := Mkdir(p);
    assert Enabled(s, a) && MkdirSucceeds(s, s.procs[p]);
    StepLog(s, a, gid);
    RunOf(s, a, []);
    assert [a] + [] == [a];
    ChildLeavesServer(s, a);
  }

  lemma Counts(s0: Sys, s: Sys, p: Pid, gid: string)
    requires Posting(s0, s, p, gid, Open) && IsDir(s.tree, MsgsDir(gid))
    ensures var base := SubDirs(s0.tree, MsgsDir(gid)); var run := [OpenDir(p)] + [CloseDir(p, base)];
      IsRun(s, run) && Posting(s0, After(s, run), p, gid, Claim(|base| + 1, base))
  {
    var base := SubDirs(s0.tree, MsgsDir(gid));
    var s1 := Next(s, OpenDir(p));
    assert Posting(s0, s1, p, gid, Scanning(base, true));
    assert Enabled(s1, CloseDir(p, base));
    RunOf(s1, CloseDir(p, base), []);
    assert [CloseDir(p, base)] + [] == [CloseDir(p, base)];
    RunOf(s, OpenDir(p), [CloseDir(p, base)]);
  }

  lemma Forked(s: Sys, p: Pid, req: Request)
    requires Enabled(s, Fork(p, req)) && IsDir(s.tree, GroupDir(req.gid))
    ensures var run := [Fork(p, req)] + [CheckGroup(p)];
      IsRun(s, run) && Posting(s, After(s, run), p, req.gid, Open)
  {
    ForkedEarly(s, p, req);
    var s1 := Next(s, Fork(p, req));
    assert Posting(s, s1, p, req.gid, Check) && Enabled(s1, CheckGroup(p));
    RunOf(s1, CheckGroup(p), []);
    assert [CheckGroup(p)] + [] == [CheckGroup(p)];
    RunOf(s, Fork(p, req), [CheckGroup(p)]);
  }

  lemma ClaimsAsCounted(s0: Sys, s: Sys, p: Pid, gid: string)
    requires PostsOk(s0) && |LogOf(s0, gid)| < MAX_MID && IsDir(s0.tree, MsgsDir(gid))
    requires var base := SubDirs(s0.tree, MsgsDir(gid)); Posting(s0, s, p, gid, Claim(|base| + 1, base))
    ensures IsRun(s, [Mkdir(p)])
    ensures var s' := After(s, [Mkdir(p)]);
      LogOf(s', gid) == LogOf(s0, gid) + [p] && s'.server == s0.server && s'.making == s0.making
  {
    NextIsFree(s0, gid);
    Claims(s, p, gid, SubDirs(s0.tree, MsgsDir(gid)));
  }

  lemma CountsAndClaims(s0: Sys, s: Sys, p: Pid, gid: string)
    requires PostsOk(s0) && |LogOf(s0, gid)| < MAX_MID && IsDir(s0.tree, MsgsDir(gid))
    requires Posting(s0, s, p, gid, Open)
    ensures var run := [OpenDir(p)] + ([CloseDir(p, SubDirs(s0.tree, MsgsDir(gid)))] + [Mkdir(p)]);
      && IsRun(s, run) && LogOf(After(s, run), gid) == LogOf(s0, gid) + [p]
      && After(s, run).server == s0.server && After(s, run).making == s0.making
  {
    var base := SubDirs(s0.tree, MsgsDir(gid));
    var open, close := [OpenDir(p)], [CloseDir(p, base)];
    Counts(s0, s, p, gid);
    ClaimsAsCounted(s0, After(s, open + close), p, gid);
    RunAppend(s, open + close, [Mkdir(p)]);
    Grouped(open, close, [Mkdir(p)]);
  }

  lemma Grouped(a: seq<Action>, b: seq<Action>, c: seq<Action>)
    ensures a + b + c == a + (b + c)
  {
  }

  lemma GroupThere(s: Sys, gid: string)
    requires TreeOk(s) && Idle(s) && gid in s.server.groups
    ensures IsDir(s.tree, GroupDir(gid)) && IsDir(s.tree, MsgsDir(gid))
  {
    Matches(s.tree, s.server);
  }

  /** One more post can always be made, until the ids run out. */
  lemma OnePost(s: Sys, p: Pid, req: Request)
    requires Inv(s) && Enabled(s, Fork(p, req)) && req.gid in s.server.groups && |LogOf(s, req.gid)| < MAX_MID
    ensures var run := PostSteps(p, req, SubDirs(s.tree, MsgsDir(req.gid)));
      && IsRun(s, run) && LogOf(After(s, run), req.gid) == LogOf(s, req.gid) + [p]
      && After(s, run).server == s.server && After(s, run).making == s.making
  {
    var gid, base := req.gid, SubDirs(s.tree, MsgsDir(req.gid));
    var ready, rest := [Fork(p, req)] + [CheckGroup(p)], [OpenDir(p)] + ([CloseDir(p, base)] + [Mkdir(p)]);
    GroupThere(s, gid);
    Forked(s, p, req);
    CountsAndClaims(s, After(s, ready), p, gid);
    RunAppend(s, ready, rest);
    TwoParts(p, req, base);
  }

  lemma TwoParts(p: Pid, req: Request, base: set<string>)
    ensures [Fork(p, req)] + [CheckGroup(p)] + ([OpenDir(p)] + ([CloseDir(p, base)] + [Mkdir(p)]))
         == PostSteps(p, req, base)
  {
  }

  lemma {:induction false} FreshPid(pids: set<Pid>) returns (p: Pid)
    ensures forall q :: q in pids ==> q < p
  {
    p := 0;
    if pids != {} {
      var q :| q in pids;
      var rest := FreshPid(pids - {q});
      p := if rest <= q then q + 1 else rest;
      forall x | x in pids ensures x < p {
        assert x == q || x in pids - {q};
      }
    }
  }

  lemma CanFork(s: Sys, p: Pid, req: Request)
    requires Idle(s) && p !in s.procs && ValidGid(req.gid) && ValidPost(req.post)
    ensures Enabled(s, Fork(p, req))
  {
  }

  // ---- an owner can go on to the end ----

  /** The owner of message `id` has gone on to the stage `pc`. */
  ghost predicate OwnerGoes(s: Sys, s': Sys, gid: string, id: nat, pc: Pc) {
    && Inv(s') && Reaches(s, s', false) && 1 <= id <= |LogOf(s', gid)| == |LogOf(s, gid)|
    && Owner(s', gid, id).req == Owner(s, gid, id).req && Owner(s', gid, id).pc == pc
    && s'.server == s.server && s'.making == s.making
  }

  lemma GoesAndGoes(s: Sys, s': Sys, s'': Sys, gid: string, id: nat, pc: Pc, pc': Pc)
    requires OwnerGoes(s, s', gid, id, pc) && OwnerGoes(s', s'', gid, id, pc')
    ensures OwnerGoes(s, s'', gid, id, pc')
  {
    ReachesTransitive(s, s', s'', false);
  }

  lemma OwnerStep(s: Sys, a: Action, gid: string, id: nat)
    requires PostsOk(s) && 1 <= id <= |LogOf(s, gid)| && !Serial(a) && !a.Fork? && !a.Mkdir?
    requires a.pid == LogOf(s, gid)[id - 1] && Enabled(s, a)
    ensures a.pid in Next(s, a).procs && LogOf(Next(s, a), gid) == LogOf(s, gid)
    ensures Owner(Next(s, a), gid, id) == Next(s, a).procs[a.pid]
    ensures Owner(Next(s, a), gid, id).req == Owner(s, gid, id).req
  {
    StepLog(s, a, gid);
    OwnerOf(s, gid, id);
    StepKeepsRequest(s, a, a.pid);
  }

  /** The child that owns the message takes the step `a`. */
  lemma OwnerActs(s: Sys, a: Action, gid: string, id: nat, pc: Pc)
    requires Inv(s) && 1 <= id <= |LogOf(s, gid)| && !a.Mkdir? && Takes(s, a, Owner(s, gid, id))
    requires a.pid == LogOf(s, gid)[id - 1] && NextAt(s, a, Owner(s, gid, id)).procs[a.pid].pc == pc
    ensures OwnerGoes(s, Next(s, a), gid, id, pc)
  {
    OwnerStep(s, a, gid, id);
    StepKeepsInv(s, a);
    ReachesNext(s, a);
    ChildLeavesServer(s, a);
  }

  lemma OwnerStoresAuthor(s: Sys, gid: string, id: nat) returns (s': Sys)
    requires Inv(s) && 1 <= id <= |LogOf(s, gid)| && Owner(s, gid, id).pc.Author?
    ensures OwnerGoes(s, s', gid, id, AuthorOpen(id, 0))
  {
    var a := StoreAuthor(LogOf(s, gid)[id - 1]);
    OwnerOf(s, gid, id);
    StoreAuthorStep(s, a, Owner(s, gid, id));
    OwnerActs(s, a, gid, id, AuthorOpen(id, 0));
    s' := Next(s, a);
  }

  lemma OwnerStoresText(s: Sys, gid: string, id: nat) returns (s': Sys)
    requires Inv(s) && 1 <= id <= |LogOf(s, gid)| && Owner(s, gid, id).pc.Text?
    ensures OwnerGoes(s, s', gid, id, TextOpen(id, 0))
  {
    var a := StoreText(LogOf(s, gid)[id - 1]);
    OwnerOf(s, gid, id);
    StoreTextStep(s, a, Owner(s, gid, id));
    OwnerActs(s, a, gid, id, TextOpen(id, 0));
    s' := Next(s, a);
  }

  /** The owner writes all there is to write. */
  lemma OwnerFills(s: Sys, gid: string, id: nat) returns (s': Sys)
    requires Inv(s) && 1 <= id <= |LogOf(s, gid)| && Filling(Owner(s, gid, id).pc)
    ensures var c := Owner(s, gid, id); OwnerGoes(s, s', gid, id, Filled(c.pc, |Content(c)|))
  {
    var c := Owner(s, gid, id);
    var a := Write(LogOf(s, gid)[id - 1], |Content(c)|);
    OwnerOf(s, gid, id);
    WriteStep(s, a, c);
    OwnerActs(s, a, gid, id, Filled(c.pc, |Content(c)|));
    s' := Next(s, a);
  }

  lemma OwnerCloses(s: Sys, gid: string, id: nat) returns (s': Sys)
    requires Inv(s) && 1 <= id <= |LogOf(s, gid)| && Filling(Owner(s, gid, id).pc)
    requires Owner(s, gid, id).pc.n == |Content(Owner(s, gid, id))|
    ensures OwnerGoes(s, s', gid, id, Closed(Owner(s, gid, id).pc))
  {
    var c := Owner(s, gid, id);
    var a := Close(LogOf(s, gid)[id - 1]);
    OwnerOf(s, gid, id);
    CloseStep(s, a, c);
    OwnerActs(s, a, gid, id, Closed(c.pc));
    s' := Next(s, a);
  }

  lemma SameContent(c: Proc, c': Proc, n: nat)
    requires ParsedOk(c) && ParsedOk(c') && c'.req == c.req && Filling(c.pc) && c'.pc == Filled(c.pc, n)
    ensures Content(c') == Content(c) && Closed(c'.pc) == Closed(c.pc)
  {
    OpenFile(c);
    OpenFile(c');
  }

  /** The file that is open is written and closed. */
  lemma OwnerEnds(s: Sys, gid: string, id: nat) returns (s': Sys)
    requires Inv(s) && 1 <= id <= |LogOf(s, gid)| && Filling(Owner(s, gid, id).pc)
    ensures OwnerGoes(s, s', gid, id, Closed(Owner(s, gid, id).pc))
  {
    var c := Owner(s, gid, id);
    var n := |Content(c)|;
    var s1 := OwnerFills(s, gid, id);
    OwnerOf(s, gid, id);
    OwnerOf(s1, gid, id);
    SameContent(c, Owner(s1, gid, id), n);
    s' := OwnerCloses(s1, gid, id);
    GoesAndGoes(s, s1, s', gid, id, Filled(c.pc, n), Closed(c.pc));
  }

  lemma OwnerReadsByte(s: Sys, gid: string, id: nat) returns (s': Sys)
    requires Inv(s) && 1 <= id <= |LogOf(s, gid)| && Owner(s, gid, id).pc.Peek?
    ensures OwnerGoes(s, s', gid, id, if Owner(s, gid, id).req.post.file.Some? then Data(id) else Answer(id))
  {
    var c := Owner(s, gid, id);
    var a := ReadByte(LogOf(s, gid)[id - 1]);
    OwnerOf(s, gid, id);
    ReadByteStep(s, a, c);
    OwnerActs(s, a, gid, id, if c.req.post.file.Some? then Data(id) else Answer(id));
    s' := Next(s, a);
  }

  lemma OwnerStoresFile(s: Sys, gid: string, id: nat) returns (s': Sys)
    requires Inv(s) && 1 <= id <= |LogOf(s, gid)| && Owner(s, gid, id).pc.Data?
    ensures OwnerGoes(s, s', gid, id, DataOpen(id, 0))
  {
    var c := Owner(s, gid, id);
    var a := StoreFile(LogOf(s, gid)[id - 1]);
    OwnerOf(s, gid, id);
    PstTailRoundTrip(c.req.post.file);
    StoreFileStep(s, a, c);
    OwnerActs(s, a, gid, id, DataOpen(id, 0));
    s' := Next(s, a);
  }

  lemma OwnerAnswers(s: Sys, gid: string, id: nat) returns (s': Sys)
    requires Inv(s) && 1 <= id <= |LogOf(s, gid)| && Owner(s, gid, id).pc.Answer?
    ensures OwnerGoes(s, s', gid, id, Done(id))
  {
    var a := Respond(LogOf(s, gid)[id - 1]);
    OwnerOf(s, gid, id);
    OwnerActs(s, a, gid, id, Done(id));
    s' := Next(s, a);
  }

  /** One stage further, until the post is answered. */
  lemma OwnerGoesOn(s: Sys, gid: string, id: nat) returns (s': Sys)
    requires Inv(s) && 1 <= id <= |LogOf(s, gid)| && !Owner(s, gid, id).pc.Done?
    ensures OwnerGoes(s, s', gid, id, Owner(s', gid, id).pc)
    ensures Progress(Owner(s', gid, id).pc) > Progress(Owner(s, gid, id).pc)
  {
    var pc := Owner(s, gid, id).pc;
    OwnerOf(s, gid, id);
    if pc.Author? || pc.Text? {
      s' := OwnerStores(s, gid, id);
    } else if Filling(pc) {
      s' := OwnerEnds(s, gid, id);
    } else {
      s' := OwnerHasText(s, gid, id);
    }
  }

  lemma OwnerStores(s: Sys, gid: string, id: nat) returns (s': Sys)
    requires Inv(s) && 1 <= id <= |LogOf(s, gid)|
    requires Owner(s, gid, id).pc.Author? || Owner(s, gid, id).pc.Text?
    ensures OwnerGoes(s, s', gid, id, Owner(s', gid, id).pc)
    ensures Progress(Owner(s', gid, id).pc) > Progress(Owner(s, gid, id).pc)
  {
    if Owner(s, gid, id).pc.Author? {
      s' := OwnerStoresAuthor(s, gid, id);
    } else {
      s' := OwnerStoresText(s, gid, id);
    }
  }

  lemma OwnerHasText(s: Sys, gid: string, id: nat) returns (s': Sys)
    requires Inv(s) && 1 <= id <= |LogOf(s, gid)|
    requires var pc := Owner(s, gid, id).pc; pc.Peek? || pc.Data? || pc.Answer?
    ensures OwnerGoes(s, s', gid, id, Owner(s', gid, id).pc)
    ensures Progress(Owner(s', gid, id).pc) > Progress(Owner(s, gid, id).pc)
  {
    if Owner(s, gid, id).pc.Peek? {
      s' := OwnerReadsByte(s, gid, id);
    } else if Owner(s, gid, id).pc.Data? {
      s' := OwnerStoresFile(s, gid, id);
    } else {
      s' := OwnerAnswers(s, gid, id);
    }
  }

  /** Progress: a post that has claimed an id can always be stored and answered. */
  lemma {:induction false} OwnerFinishes(s: Sys, gid: string, id: nat) returns (s': Sys)
    requires Inv(s) && 1 <= id <= |LogOf(s, gid)|
    ensures OwnerGoes(s, s', gid, id, Done(id))
    decreases 9 - Progress(Owner(s, gid, id).pc)
  {
    OwnerOf(s, gid, id);
    if Owner(s, gid, id).pc.Done? {
      ReachesItself(s, false);
      s' := s;
    } else {
      var s1 := OwnerGoesOn(s, gid, id);
      s' := OwnerFinishes(s1, gid, id);
      GoesAndGoes(s, s1, s', gid, id, Owner(s1, gid, id).pc, Done(id));
    }
  }

  // ---- a log of any length ----

  /** All messages of the group have been answered. */
  ghost predicate AllDone(s: Sys, gid: string) {
    forall id :: 1 <= id <= |LogOf(s, gid)| ==> Owner(s, gid, id).pc.Done?
  }

  lemma DoneLater(s: Sys, s': Sys, gid: string, id: nat)
    requires PostsOk(s) && Later(s, s') && 1 <= id <= |LogOf(s, gid)| && Owner(s, gid, id).pc.Done?
    requires PostsOk(s')
    ensures Owner(s', gid, id).pc.Done?
  {
    OwnerLater(s, s', gid, id);
    OwnerOf(s, gid, id);
  }

  /** What stays over a run that makes a post: the server goes on as before, and all is answered. */
  ghost predicate Posted(s: Sys, s': Sys, gid: string) {
    && Inv(s') && Reaches(s, s', false) && s'.server == s.server && s'.making == s.making
    && AllDone(s', gid)
  }

  lemma NextClaim(s: Sys, gid: string) returns (s': Sys)
    requires Inv(s) && Idle(s) && ValidGid(gid) && gid in s.server.groups && |LogOf(s, gid)| < MAX_MID
    ensures Inv(s') && Reaches(s, s', false) && |LogOf(s', gid)| == |LogOf(s, gid)| + 1
    ensures s'.server == s.server && s'.making == s.making
  {
    var p := FreshPid(s.procs.Keys);
    var req := Request(gid, Post("00000", "", None));
    CanFork(s, p, req);
    var run := PostSteps(p, req, SubDirs(s.tree, MsgsDir(gid)));
    OnePost(s, p, req);
    RunKeepsInv(s, run);
    s' := After(s, run);
  }

  lemma NextPost(s: Sys, gid: string) returns (s': Sys)
    requires Inv(s) && Idle(s) && ValidGid(gid) && gid in s.server.groups && |LogOf(s, gid)| < MAX_MID
    requires AllDone(s, gid)
    ensures Posted(s, s', gid) && |LogOf(s', gid)| == |LogOf(s, gid)| + 1
  {
    var n := |LogOf(s, gid)| + 1;
    var s1 := NextClaim(s, gid);
    s' := OwnerFinishes(s1, gid, n);
    ReachesTransitive(s, s1, s', false);
    ReachesLater(s, s', false);
    AllDoneLater(s, s', gid);
  }

  lemma AllDoneLater(s: Sys, s': Sys, gid: string)
    requires PostsOk(s) && PostsOk(s') && Later(s, s') && AllDone(s, gid)
    requires |LogOf(s', gid)| == |LogOf(s, gid)| + 1 && Owner(s', gid, |LogOf(s, gid)| + 1).pc.Done?
    ensures AllDone(s', gid)
  {
    forall id | 1 <= id <= |LogOf(s, gid)| ensures Owner(s', gid, id).pc.Done? {
      DoneLater(s, s', gid, id);
    }
  }

  /** A log can grow to any length that ids allow, with every post stored and answered. */
  lemma {:induction false} LogGrowsTo(s: Sys, gid: string, n: nat) returns (s': Sys)
    requires Inv(s) && Idle(s) && ValidGid(gid) && gid in s.server.groups && AllDone(s, gid)
    requires |LogOf(s, gid)| <= n <= 9999
    ensures Posted(s, s', gid) && |LogOf(s', gid)| == n
    decreases n - |LogOf(s, gid)|
  {
    if |LogOf(s, gid)| == n {
      ReachesItself(s, false);
      s' := s;
    } else {
      var s1 := NextPost(s, gid);
      s' := LogGrowsTo(s1, gid, n);
      ReachesTransitive(s, s1, s', false);
    }
  }

  /** A group to which anything can be posted. */
  lemma FirstGroup() returns (run: seq<Action>)
    ensures IsRun(START, run)
    ensures var s := After(START, run); Inv(s) && Idle(s) && "01" in s.server.groups && LogOf(s, "01") == []
  {
    var a := FirstUser("00000", "abcdefgh");
    UserRegistered("00000", "abcdefgh");
    var s := Next(START, a);
    NextGroup(s, "00000", "x");
    RunOf(START, a, MakeGroup("00000", "x"));
    run := [a] + MakeGroup("00000", "x");
    StartInv();
    RunKeepsInv(START, run);
  }

  lemma FirstNew(s: Server.State, uid: string, gname: string)
    requires s.up && s.groups == map[] && uid in s.users && ValidUid(uid) && ValidGname(gname)
    ensures var (s', r) := Server.Exec(s, Server.Gsr(uid, "00", gname));
      r == Server.New("01") && "01" in s'.groups && s'.up
  {
    OneIsTwoDigits();
    assert ValidGid("00");
  }

  lemma NextGroup(s: Sys, uid: string, gname: string)
    requires Idle(s) && s.server.groups == map[] && uid in s.server.users
    requires ValidUid(uid) && ValidGname(gname) && gname != ""
    ensures IsRun(s, MakeGroup(uid, gname))
    ensures var s' := After(s, MakeGroup(uid, gname));
      Idle(s') && "01" in s'.server.groups && s'.log == s.log && s'.procs == s.procs
  {
    OneIsTwoDigits();
    FirstNew(s.server, uid, gname);
    GroupMade(s, uid, gname);
  }

  lemma OneIsTwoDigits()
    ensures Dec(2, 1) == "01" && ValidGid("01")
  {
    assert Dec(1, 0) == "0";
  }

  // ---- scans ----

  /** The entries of MSG when it holds the messages `ids`. */
  function EntriesOf(ids: set<nat>): set<Dirent> {
    (set id | id in ids :: Dirent(Mid(id), true)) + {Dirent(".", true), Dirent("..", true)}
  }

  function NamesOf(ids: set<nat>): set<string> {
    set id | id in ids :: Mid(id)
  }

  lemma NotHidden(id: nat)
    ensures !Hidden(Mid(id)) && Mid(id) != "." && Mid(id) != ".."
  {
    assert IsDigit(Mid(id)[0]);
  }

  lemma DirsOfIds(ids: set<nat>)
    ensures DirsIn(EntriesOf(ids)) == NamesOf(ids)
  {
    forall id | id in ids ensures Mid(id) in DirsIn(EntriesOf(ids)) {
      NotHidden(id);
      assert Dirent(Mid(id), true) in EntriesOf(ids);
    }
  }

  lemma {:induction false} AtTheEnd(s: Sys, run: seq<Action>, path: Path, e: Dirent)
    requires IsRun(s, run) && e in Entries(After(s, run).tree, path)
    ensures Sometime(s, run, path, e)
    decreases |run|
  {
    if run != [] {
      AtTheEnd(Next(s, run[0]), run[1..], path, e);
    }
  }

  lemma MsgEntry(s: Sys, gid: string, e: Dirent)
    requires PostsOk(s) && IsDir(s.tree, MsgsDir(gid))
    ensures e in Entries(s.tree, MsgsDir(gid)) <==>
      || e == Dirent(".", true) || e == Dirent("..", true)
      || exists id :: 1 <= id <= |LogOf(s, gid)| && e == Dirent(Mid(id), true)
  {
    MsgsOk(s, gid);
    var n := |LogOf(s, gid)|;
    if e in Entries(s.tree, MsgsDir(gid)) && e != Dirent(".", true) && e != Dirent("..", true) {
      assert e.name in Ids(4, n);
      var id :| 1 <= id <= n && Dec(4, id) == e.name;
      EntryListed(s.tree, MsgsDir(gid), e.name);
      assert e == Dirent(Mid(id), true);
    }
    forall id | 1 <= id <= n ensures Dirent(Mid(id), true) in Entries(s.tree, MsgsDir(gid)) {
      assert Dec(4, id) in Ids(4, n);
      EntryListed(s.tree, MsgsDir(gid), Mid(id));
    }
  }

  lemma SeesEnough(s: Sys, gid: string, ids: set<nat>, e: Dirent)
    requires PostsOk(s) && IsDir(s.tree, MsgsDir(gid)) && e in Entries(s.tree, MsgsDir(gid))
    requires Range(1, |LogOf(s, gid)|) <= ids
    ensures e in EntriesOf(ids)
  {
    MsgEntry(s, gid, e);
    if e != Dirent(".", true) && e != Dirent("..", true) {
      var id :| 1 <= id <= |LogOf(s, gid)| && e == Dirent(Mid(id), true);
      assert id in Range(1, |LogOf(s, gid)|);
    }
  }

  lemma SeesNoMore(s: Sys, run: seq<Action>, gid: string, ids: set<nat>, e: Dirent)
    requires PostsOk(s) && IsRun(s, run) && PostsOk(After(s, run)) && IsDir(s.tree, MsgsDir(gid))
    requires ids <= Range(1, |LogOf(After(s, run), gid)|) && e in EntriesOf(ids)
    ensures Sometime(s, run, MsgsDir(gid), e)
  {
    var s' := After(s, run);
    if e == Dirent(".", true) || e == Dirent("..", true) {
      MsgEntry(s, gid, e);
      Entered(s, run, MsgsDir(gid), e);
    } else {
      var id :| id in ids && e == Dirent(Mid(id), true);
      assert id in Range(1, |LogOf(s', gid)|);
      MessageThere(s', gid, id);
      MsgEntry(s', gid, e);
      AtTheEnd(s, run, MsgsDir(gid), e);
    }
  }

  /** Whatever the bounds allow can be the outcome of a scan that takes as long as the run. */
  lemma ScanAllowed(s: Sys, run: seq<Action>, gid: string, ids: set<nat>)
    requires Inv(s) && IsRun(s, run) && IsDir(s.tree, MsgsDir(gid))
    requires Scan(|LogOf(s, gid)|, |LogOf(After(s, run), gid)|, ids)
    ensures Scanned(s, run, MsgsDir(gid), EntriesOf(ids)) && DirsIn(EntriesOf(ids)) == NamesOf(ids)
  {
    DirsOfIds(ids);
    RunLater(s, run);
    forall e | Throughout(s, run, MsgsDir(gid), e) ensures e in EntriesOf(ids) {
      SeesEnough(s, gid, ids, e);
    }
    forall e | e in EntriesOf(ids) ensures Sometime(s, run, MsgsDir(gid), e) {
      SeesNoMore(s, run, gid, ids, e);
    }
  }

  lemma Entered(s: Sys, run: seq<Action>, path: Path, e: Dirent)
    requires IsRun(s, run) && e in Entries(s.tree, path)
    ensures Sometime(s, run, path, e)
  {
  }

  lemma MessageThere(s: Sys, gid: string, id: nat)
    requires PostsOk(s) && 1 <= id <= |LogOf(s, gid)|
    ensures IsDir(s.tree, MsgsDir(gid))
  {
    MsgsOk(s, gid);
    assert Dec(4, id) in Ids(4, |LogOf(s, gid)|);
  }

  /** The post has failed, although nobody has claimed anything in its group. */
  ghost predicate RefusedForNone(s: Sys, p: Pid, req: Request) {
    && p in s.procs && s.procs[p].pc == Failed && s.procs[p].req == req
    && LogOf(s, req.gid) == [] && forall q :: !HeldByAnother(s, q, req.gid, 1)
  }

  lemma RefusedFrom(s: Sys, p: Pid, post: Post)
    requires Inv(s) && Idle(s) && s.server.groups == map[] && "00000" in s.server.users && s.procs == map[]
    requires ValidPost(post)
    ensures var run := EarlyPost(p, Request("01", post), "00000", "x");
      IsRun(s, run) && RefusedForNone(After(s, run), p, Request("01", post))
  {
    EarlyPossible(s, p, post, "00000", "x");
    EarlyPostRefused(s, p, Request("01", post), "00000", "x");
  }

  /** The first post to the first group can be refused; see `EarlyPostRefused`. */
  lemma FirstPostRefused(p: Pid, post: Post) returns (run: seq<Action>)
    requires ValidPost(post)
    ensures IsRun(START, run) && RefusedForNone(After(START, run), p, Request("01", post))
  {
    var a, early := FirstUser("00000", "abcdefgh"), EarlyPost(p, Request("01", post), "00000", "x");
    UserRegistered("00000", "abcdefgh");
    StartInv();
    StepKeepsInv(START, a);
    RefusedFrom(Next(START, a), p, post);
    RunOf(START, a, early);
    run := [a] + early;
  }

  lemma EarlyPossible(s: Sys, p: Pid, post: Post, uid: string, gname: string)
    requires Idle(s) && s.server.groups == map[] && uid in s.server.users && s.procs == map[]
    requires ValidUid(uid) && ValidGname(gname) && gname != "" && ValidPost(post)
    ensures "01" == Dec(2, |s.server.groups| + 1)
    ensures Enabled(s, Fork(p, Request("01", post))) && Enabled(s, BeginGroup(uid, gname))
  {
    OneIsTwoDigits();
  }
}
