/** Every interleaving keeps the invariant of PostProtocol. */
module PostSafety {
  import opened CText
  import opened Sorting
  import opened Tree
  import opened Wire
  import opened Messages
  import Server
  import opened ServerTree
  import opened PostProtocol

  // ---- what one new entry of a message directory changes ----

  lemma GroupsShallow(t: Tree, t': Tree, s: Server.State)
    requires GroupsMatch(t, s)
    requires forall p :: |p| <= 3 ==> (p in t <==> p in t') && (p in t ==> t[p] == t'[p])
    requires forall p :: p in t' && |p| > 3 && p[0] == "GROUPS" ==> p[2] == "MSG"
    ensures GroupsMatch(t', s)
  {
  }

  lemma GroupsDeep(t: Tree, s: Server.State, q: Path, e: Entry)
    requires GroupsMatch(t, s) && InMessages(q)
    ensures GroupsMatch(t[q := e], s)
  {
    var t' := t[q := e];
    forall p | |p| <= 3 ensures (p in t <==> p in t') && (p in t ==> t[p] == t'[p]) {
      assert p != q;
    }
    GroupsShallow(t, t', s);
  }

  lemma PostKeepsRepresents(t: Tree, s: Server.State, q: Path, e: Entry)
    requires Represents(t, s) && InMessages(q) && IsDir(t, Parent(q)) && !IsDir(t, q)
    ensures Represents(t[q := e], s)
  {
    Matches(t, s);
    RootedAdd(t, q, e);
    UsersFrame(t, t[q := e], s, s);
    GroupsDeep(t, s, q, e);
    Represented(t[q := e], s);
  }

  lemma BelowMsgDir(gid: string, mid: string, gid': string, mid': string, q: Path)
    requires Below(MsgDir(gid, mid), q) && Below(MsgDir(gid', mid'), q)
    ensures gid == gid' && mid == mid'
  {
    assert q[1] == MsgDir(gid, mid)[1] && q[3] == MsgDir(gid, mid)[3];
    assert q[1] == MsgDir(gid', mid')[1] && q[3] == MsgDir(gid', mid')[3];
  }

  lemma BelowIsInMessages(gid: string, mid: string, q: Path)
    requires Below(MsgDir(gid, mid), q)
    ensures InMessages(q) && q[1] == gid && q[3] == mid
  {
    var d := MsgDir(gid, mid);
    assert q[0] == d[0] && q[1] == d[1] && q[2] == d[2] && q[3] == d[3];
  }

  /** Nothing lies below a name that is free. */
  lemma {:induction false} NothingBelow(t: Tree, d: Path, q: Path)
    requires Rooted(t) && d !in t && Below(d, q)
    ensures q !in t
    decreases |q|
  {
    if |q| > |d| {
      var up := Parent(q);
      assert up[..|d|] == q[..|d|];
      NothingBelow(t, d, up);
      assert q in t ==> IsDir(t, up);
    } else {
      assert q == q[..|d|] == d;
    }
  }

  /** An entry inside a message directory does not show in any listing of MSG. */
  lemma DeepEntryUnlisted(t: Tree, q: Path, e: Entry, gid: string)
    requires |q| > 4
    ensures SubDirs(t[q := e], MsgsDir(gid)) == SubDirs(t, MsgsDir(gid))
    ensures Names(t[q := e], MsgsDir(gid)) == Names(t, MsgsDir(gid))
    ensures IsDir(t, GroupDir(gid)) ==> IsDir(t[q := e], GroupDir(gid))
  {
    forall x ensures MsgsDir(gid) + [x] != q {
    }
  }

  lemma ServeUnlisted(t: Tree, t': Tree, gid: string)
    requires Rooted(t) && AreaKept(t, t')
    ensures SubDirs(t', MsgsDir(gid)) == SubDirs(t, MsgsDir(gid))
    ensures Names(t', MsgsDir(gid)) == Names(t, MsgsDir(gid))
  {
    var d := MsgsDir(gid);
    forall x ensures d + [x] in t' <==> d + [x] in t {
      assert InMessages(d + [x]);
    }
    forall x ensures x in SubDirs(t', d) <==> x in SubDirs(t, d) {
      var q := d + [x];
      assert InMessages(q);
      assert Parent(q) == d;
    }
  }

  lemma ServeSub(t: Tree, t': Tree, gid: string, mid: string)
    requires AreaKept(t, t')
    ensures Sub(t', MsgDir(gid, mid)) == Sub(t, MsgDir(gid, mid))
  {
    forall q | Below(MsgDir(gid, mid), q) ensures InMessages(q) {
      BelowIsInMessages(gid, mid, q);
    }
  }

  // ---- the parts of the invariant ----

  /** Claims and listings only grow. */
  ghost predicate Grows(s: Sys, s': Sys) {
    forall gid ::
      && LogOf(s, gid) <= LogOf(s', gid)
      && SubDirs(s.tree, MsgsDir(gid)) <= SubDirs(s'.tree, MsgsDir(gid))
      && (IsDir(s.tree, GroupDir(gid)) ==> IsDir(s'.tree, GroupDir(gid)))
  }

  ghost predicate SameListings(s: Sys, s': Sys) {
    forall gid ::
      && SubDirs(s'.tree, MsgsDir(gid)) == SubDirs(s.tree, MsgsDir(gid))
      && Names(s'.tree, MsgsDir(gid)) == Names(s.tree, MsgsDir(gid))
      && (IsDir(s.tree, GroupDir(gid)) ==> IsDir(s'.tree, GroupDir(gid)))
  }

  lemma DirsFrame(s: Sys, s': Sys)
    requires DirsOk(s) && s'.log == s.log && SameListings(s, s')
    ensures DirsOk(s') && Grows(s, s')
  {
    forall gid ensures DirectoryOk(s', gid) {
      assert DirectoryOk(s, gid);
    }
  }

  lemma ProcFrame(s: Sys, s': Sys, pid: Pid, c: Proc)
    requires ProcOk(s, pid, c) && Grows(s, s')
    ensures ProcOk(s', pid, c)
  {
    assert LogOf(s, c.gid) <= LogOf(s', c.gid);
  }

  lemma ProcsFrame(s: Sys, s': Sys, pid: Pid, c: Proc)
    requires ProcsOk(s) && Grows(s, s') && s'.procs == s.procs[pid := c] && ProcOk(s', pid, c)
    ensures ProcsOk(s')
  {
    forall p | p in s'.procs ensures ProcOk(s', p, s'.procs[p]) {
      if p != pid {
        ProcFrame(s, s', p, s.procs[p]);
      }
    }
  }

  /** A message is as its owner left it, when neither its directory nor its owner changes. */
  lemma OwnedFrame(s: Sys, s': Sys, gid: string, i: nat)
    requires i < |LogOf(s, gid)| && OwnedOk(s, gid, i) && LogOf(s, gid) <= LogOf(s', gid)
    requires var pid := LogOf(s, gid)[i]; pid in s'.procs && s'.procs[pid] == s.procs[pid]
    requires Sub(s'.tree, MsgDir(gid, Mid(i + 1))) == Sub(s.tree, MsgDir(gid, Mid(i + 1)))
    ensures OwnedOk(s', gid, i)
  {
    assert LogOf(s', gid)[i] == LogOf(s, gid)[i];
  }

  // ---- the steps ----

  lemma ServeKeepsPosts(s: Sys, s': Sys)
    requires Rooted(s.tree) && PostsOk(s)
    requires AreaKept(s.tree, s'.tree) && s'.procs == s.procs && s'.log == s.log
    ensures PostsOk(s')
  {
    Parts(s);
    forall gid ensures SubDirs(s'.tree, MsgsDir(gid)) == SubDirs(s.tree, MsgsDir(gid))
                       && Names(s'.tree, MsgsDir(gid)) == Names(s.tree, MsgsDir(gid)) {
      ServeUnlisted(s.tree, s'.tree, gid);
    }
    DirsFrame(s, s');
    forall pid | pid in s.procs ensures ProcOk(s', pid, s.procs[pid]) {
      ProcFrame(s, s', pid, s.procs[pid]);
    }
    forall gid, i | 0 <= i < |LogOf(s', gid)| ensures OwnedOk(s', gid, i) {
      assert OwnedOk(s, gid, i);
      ServeSub(s.tree, s'.tree, gid, Mid(i + 1));
      OwnedFrame(s, s', gid, i);
    }
  }

  /** A step that changes one child and neither the tree nor the log. */
  lemma ControlKeepsPosts(s: Sys, pid: Pid, c: Proc)
    requires PostsOk(s) && ProcOk(s, pid, c)
    requires pid in s.procs ==> c == s.procs[pid].(pc := c.pc) && Owned(c.pc) == Owned(s.procs[pid].pc)
    requires pid in s.procs && Owned(c.pc).Some? ==> forall d ::
               Image(d, c.req.post, c.pc) == Image(d, c.req.post, s.procs[pid].pc)
    ensures PostsOk(s.(procs := s.procs[pid := c]))
  {
    var s' := s.(procs := s.procs[pid := c]);
    Parts(s);
    DirsFrame(s, s');
    ProcFrame(s, s', pid, c);
    ProcsFrame(s, s', pid, c);
    forall gid, i | 0 <= i < |LogOf(s', gid)| ensures OwnedOk(s', gid, i) {
      assert OwnedOk(s, gid, i);
      if LogOf(s, gid)[i] != pid {
        OwnedFrame(s, s', gid, i);
      }
    }
  }

  lemma StoreListings(s: Sys, s': Sys, d: Path, q: Path, e: Entry)
    requires InMessages(q) && |d| == 4 && Below(d, q) && q != d
    requires s'.tree == s.tree[q := e] && s'.log == s.log
    ensures SameListings(s, s')
  {
    forall gid ensures SubDirs(s'.tree, MsgsDir(gid)) == SubDirs(s.tree, MsgsDir(gid))
                       && Names(s'.tree, MsgsDir(gid)) == Names(s.tree, MsgsDir(gid))
                       && (IsDir(s.tree, GroupDir(gid)) ==> IsDir(s'.tree, GroupDir(gid))) {
      DeepEntryUnlisted(s.tree, q, e, gid);
    }
  }

  /** A step that stores one more entry of the child's own message. */
  lemma StoreKeepsPosts(s: Sys, s': Sys, pid: Pid, id: nat, q: Path, e: Entry, c: Proc)
    requires PostsOk(s) && pid in s.procs
    requires Owned(s.procs[pid].pc) == Owned(c.pc) == Some(id) && c == s.procs[pid].(pc := c.pc)
    requires Below(DirOf(c, id), q) && q != DirOf(c, id)
    requires Image(DirOf(c, id), c.req.post, c.pc)
          == Image(DirOf(c, id), c.req.post, s.procs[pid].pc)[q := e]
    requires ParsedOk(c) && s' == s.(tree := s.tree[q := e], procs := s.procs[pid := c])
    ensures PostsOk(s')
  {
    Parts(s);
    BelowIsInMessages(c.gid, Mid(id), q);
    StoreListings(s, s', DirOf(c, id), q, e);
    DirsFrame(s, s');
    StoreKeepsProcs(s, s', pid, id, c);
    StoreKeepsLogs(s, s', pid, id, q, e, c);
    Whole(s');
  }

  lemma StoreKeepsProcs(s: Sys, s': Sys, pid: Pid, id: nat, c: Proc)
    requires ProcsOk(s) && pid in s.procs && ParsedOk(c) && Grows(s, s')
    requires Owned(s.procs[pid].pc) == Owned(c.pc) == Some(id) && c == s.procs[pid].(pc := c.pc)
    requires s'.procs == s.procs[pid := c]
    ensures ProcsOk(s') && InLog(s, pid, c)
  {
    assert ProcOk(s, pid, s.procs[pid]);
    ProcFrame(s, s', pid, c);
    ProcsFrame(s, s', pid, c);
  }

  lemma StoreKeepsLogs(s: Sys, s': Sys, pid: Pid, id: nat, q: Path, e: Entry, c: Proc)
    requires LogsOk(s) && pid in s.procs
    requires Owned(s.procs[pid].pc) == Owned(c.pc) == Some(id) && c == s.procs[pid].(pc := c.pc)
    requires InLog(s, pid, c) && Below(DirOf(c, id), q)
    requires Image(DirOf(c, id), c.req.post, c.pc)
          == Image(DirOf(c, id), c.req.post, s.procs[pid].pc)[q := e]
    requires s' == s.(tree := s.tree[q := e], procs := s.procs[pid := c])
    ensures LogsOk(s')
  {
    forall gid, i | 0 <= i < |LogOf(s', gid)| ensures OwnedOk(s', gid, i) {
      assert OwnedOk(s, gid, i);
      SubUpdate(s.tree, q, e, MsgDir(gid, Mid(i + 1)));
      if LogOf(s, gid)[i] != pid {
        NotBelowOther(gid, i + 1, c.gid, id, q);
        OwnedFrame(s, s', gid, i);
      }
    }
  }

  lemma NotBelowOther(gid: string, i: nat, gid': string, id: nat, q: Path)
    requires Below(MsgDir(gid', Mid(id)), q) && (gid != gid' || i != id)
    ensures !Below(MsgDir(gid, Mid(i)), q)
  {
    assert Value(Mid(i)) == i && Value(Mid(id)) == id;
    if Below(MsgDir(gid, Mid(i)), q) {
      BelowMsgDir(gid, Mid(i), gid', Mid(id), q);
    }
  }

  /** A successful `mkdir` claims exactly the next id. */
  lemma ClaimIsNext(s: Sys, c: Proc)
    requires DirectoryOk(s, c.gid) && c.pc.Claim? && CountedOk(s, c) && MkdirSucceeds(s, c)
    ensures c.pc.id == |LogOf(s, c.gid)| + 1
  {
    var id, n := c.pc.id, |LogOf(s, c.gid)|;
    InIds(id, n);
    assert MsgsDir(c.gid) + [Mid(id)] == DirOf(c, id);
  }

  lemma InIds(id: nat, n: nat)
    ensures 1 <= id <= n ==> Mid(id) in Ids(4, n)
  {
  }

  lemma ClaimListing(t: Tree, gid: string, n: nat, gid': string)
    requires IsDir(t, MsgsDir(gid)) && SubDirs(t, MsgsDir(gid)) == Ids(4, n) == Names(t, MsgsDir(gid))
    ensures var t' := t[MsgDir(gid, Mid(n + 1)) := Dir];
      && SubDirs(t', MsgsDir(gid')) == (if gid' == gid then Ids(4, n + 1) else SubDirs(t, MsgsDir(gid')))
      && Names(t', MsgsDir(gid')) == (if gid' == gid then Ids(4, n + 1) else Names(t, MsgsDir(gid')))
  {
    var q := MsgDir(gid, Mid(n + 1));
    var t' := t[q := Dir];
    forall x ensures MsgsDir(gid') + [x] in t' <==> MsgsDir(gid') + [x] in t || (gid' == gid && x == Mid(n + 1)) {
      PathOfMid(gid, Mid(n + 1), gid', x);
    }
    forall x ensures x in SubDirs(t', MsgsDir(gid')) <==>
        x in SubDirs(t, MsgsDir(gid')) || (gid' == gid && x == Mid(n + 1)) {
      PathOfMid(gid, Mid(n + 1), gid', x);
    }
    IdsStep(4, n);
  }

  lemma PathOfMid(gid: string, mid: string, gid': string, x: string)
    ensures MsgsDir(gid') + [x] == MsgDir(gid, mid) <==> gid' == gid && x == mid
  {
    var p := MsgsDir(gid') + [x];
    assert p[1] == gid' && p[3] == x;
    assert MsgsDir(gid) + [mid] == MsgDir(gid, mid);
  }

  /** What a successful `mkdir` does to the system. */
  function Claimed(s: Sys, pid: Pid, c: Proc): Sys
    requires c.pc.Claim?
  {
    s.(tree := s.tree[DirOf(c, c.pc.id) := Dir],
       procs := s.procs[pid := c.(pc := Author(c.pc.id))],
       log := s.log[c.gid := LogOf(s, c.gid) + [pid]])
  }

  lemma ClaimKeepsDirs(s: Sys, pid: Pid, c: Proc)
    requires DirsOk(s) && c.pc.Claim? && c.pc.id <= MAX_MID && CountedOk(s, c) && MkdirSucceeds(s, c)
    ensures DirsOk(Claimed(s, pid, c)) && Grows(s, Claimed(s, pid, c))
    ensures c.pc.id == |LogOf(s, c.gid)| + 1
  {
    assert DirectoryOk(s, c.gid);
    ClaimIsNext(s, c);
    ClaimGrows(s, Claimed(s, pid, c), c.gid, pid);
  }

  lemma ClaimKeepsProcs(s: Sys, pid: Pid, c: Proc)
    requires ProcsOk(s) && pid in s.procs && c == s.procs[pid] && c.pc.Claim?
    requires c.pc.id == |LogOf(s, c.gid)| + 1 && Grows(s, Claimed(s, pid, c))
    ensures ProcsOk(Claimed(s, pid, c))
  {
    ClaimedIsOk(s, pid, c);
    ProcsFrame(s, Claimed(s, pid, c), pid, c.(pc := Author(c.pc.id)));
  }

  lemma ClaimedIsOk(s: Sys, pid: Pid, c: Proc)
    requires ProcOk(s, pid, c) && pid in s.procs && c.pc.Claim? && c.pc.id == |LogOf(s, c.gid)| + 1
    ensures ProcOk(Claimed(s, pid, c), pid, c.(pc := Author(c.pc.id)))
  {
  }

  lemma ClaimKeepsPosts(s: Sys, pid: Pid, c: Proc)
    requires Rooted(s.tree) && PostsOk(s)
    requires pid in s.procs && c == s.procs[pid] && c.pc.Claim? && c.pc.id <= MAX_MID
    requires MkdirSucceeds(s, c)
    ensures PostsOk(Claimed(s, pid, c))
  {
    Parts(s);
    ClaimKeepsDirs(s, pid, c);
    ClaimKeepsProcs(s, pid, c);
    ClaimKeepsLogs(s, Claimed(s, pid, c), pid, c);
  }

  lemma ClaimKeepsLogs(s: Sys, s': Sys, pid: Pid, c: Proc)
    requires Rooted(s.tree) && LogsOk(s) && c.pc.Claim? && c.pc.id == |LogOf(s, c.gid)| + 1
    requires pid in s.procs && s.procs[pid] == c && DirOf(c, c.pc.id) !in s.tree
    requires s' == s.(tree := s.tree[DirOf(c, c.pc.id) := Dir],
                      procs := s.procs[pid := c.(pc := Author(c.pc.id))],
                      log := s.log[c.gid := LogOf(s, c.gid) + [pid]])
    ensures LogsOk(s')
  {
    forall gid, i | 0 <= i < |LogOf(s', gid)| ensures OwnedOk(s', gid, i) {
      if gid == c.gid && i + 1 == c.pc.id {
        FreshSub(s.tree, MsgDir(gid, Mid(i + 1)));
      } else {
        assert OwnedOk(s, gid, i);
        OtherSub(s.tree, c.gid, c.pc.id, gid, i + 1);
        OwnedFrame(s, s', gid, i);
      }
    }
  }

  lemma ClaimGrows(s: Sys, s': Sys, gid: string, pid: Pid)
    requires DirsOk(s) && IsDir(s.tree, MsgsDir(gid)) && |LogOf(s, gid)| < MAX_MID
    requires s'.log == s.log[gid := LogOf(s, gid) + [pid]]
    requires s'.tree == s.tree[MsgDir(gid, Mid(|LogOf(s, gid)| + 1)) := Dir]
    ensures DirsOk(s') && Grows(s, s')
  {
    forall g ensures DirectoryOk(s', g) && LogOf(s, g) <= LogOf(s', g)
                     && SubDirs(s.tree, MsgsDir(g)) <= SubDirs(s'.tree, MsgsDir(g)) {
      assert DirectoryOk(s, g) && DirectoryOk(s, gid);
      ClaimListing(s.tree, gid, |LogOf(s, gid)|, g);
      IdsStep(4, |LogOf(s, gid)|);
    }
  }

  lemma FreshSub(t: Tree, q: Path)
    requires Rooted(t) && q !in t
    ensures Sub(t[q := Dir], q) == map[q := Dir]
  {
    forall p | Below(q, p) ensures p !in t {
      NothingBelow(t, q, p);
    }
  }

  lemma OtherSub(t: Tree, gid: string, id: nat, gid': string, id': nat)
    requires gid != gid' || id != id'
    ensures Sub(t[MsgDir(gid, Mid(id)) := Dir], MsgDir(gid', Mid(id'))) == Sub(t, MsgDir(gid', Mid(id')))
  {
    var q := MsgDir(gid, Mid(id));
    SubUpdate(t, q, Dir, MsgDir(gid', Mid(id')));
    NotBelowOther(gid', id', gid, id, q);
  }

  // ---- every step, every run ----

  /** The entry a child stores next finds its parent there and its own name free. */
  lemma CanCreate(s: Sys, c: Proc, id: nat, name: Path)
    requires 1 <= id <= |LogOf(s, c.gid)| && OwnedOk(s, c.gid, id - 1) && name != []
    requires var d := DirOf(c, id);
      var image := Sub(s.tree, d);
      d + name !in image && Parent(d + name) in image && image[Parent(d + name)] == Dir
    ensures var q := DirOf(c, id) + name;
      q !in s.tree && IsDir(s.tree, Parent(q)) && InMessages(q) && Below(DirOf(c, id), q)
  {
    var d := DirOf(c, id);
    assert Below(d, d + name);
    BelowIsInMessages(c.gid, Mid(id), d + name);
  }

  /** The image of a stage gains exactly the entry `name`, in a directory that is there. */
  ghost predicate Extends(d: Path, image: Tree, name: Path, e: Entry, image': Tree) {
    && name != [] && d + name !in image
    && Parent(d + name) in image && image[Parent(d + name)] == Dir
    && image' == image[d + name := e]
  }

  lemma StoreSucceeds(s: Sys, pid: Pid, id: nat, name: Path, e: Entry, pc: Pc)
    requires pid in s.procs && 1 <= id <= |LogOf(s, s.procs[pid].gid)|
    requires OwnedOk(s, s.procs[pid].gid, id - 1) && LogOf(s, s.procs[pid].gid)[id - 1] == pid
    requires var c := s.procs[pid]; var d := DirOf(c, id);
      Extends(d, Image(d, c.req.post, c.pc), name, e, Image(d, c.req.post, pc))
    ensures var q := DirOf(s.procs[pid], id) + name;
      && Create(s, pid, q, e, pc) == Goto(s.(tree := s.tree[q := e]), pid, pc)
      && !IsDir(s.tree, q) && IsDir(s.tree, Parent(q)) && InMessages(q)
      && Below(DirOf(s.procs[pid], id), q)
  {
    CanCreate(s, s.procs[pid], id, name);
  }

  lemma StoreStep(s: Sys, pid: Pid, id: nat, name: Path, e: Entry, pc: Pc)
    requires PostsOk(s)
    requires pid in s.procs && Owned(s.procs[pid].pc) == Owned(pc) == Some(id)
    requires pc.Data? || pc.DataOpen? ==> s.procs[pid].req.post.file.Some?
    requires Filling(pc) ==> pc.n == 0
    requires var c := s.procs[pid]; var d := DirOf(c, id);
      Extends(d, Image(d, c.req.post, c.pc), name, e, Image(d, c.req.post, pc))
    ensures var q := DirOf(s.procs[pid], id) + name; var s' := Create(s, pid, q, e, pc);
      && s' == Goto(s.(tree := s.tree[q := e]), pid, pc)
      && !IsDir(s.tree, q) && IsDir(s.tree, Parent(q)) && InMessages(q)
      && PostsOk(s')
  {
    var c := s.procs[pid];
    var q := DirOf(c, id) + name;
    ChildOk(s, pid);
    MessageOk(s, c.gid, id - 1);
    StoreSucceeds(s, pid, id, name, e, pc);
    StoreKeepsPosts(s, Goto(s.(tree := s.tree[q := e]), pid, pc), pid, id, q, e, c.(pc := pc));
  }

  // ---- one lemma for each kind of step of a child ----

  lemma ForkStep(s: Sys, a: Action)
    requires PostsOk(s) && a.Fork? && Enabled(s, a)
    ensures PostsOk(Next(s, a))
  {
    var s' := Next(s, a);
    PstHeadRoundTrip(a.req.gid, a.req.post);
    ControlKeepsPosts(s, a.pid, s'.procs[a.pid]);
  }

  /** The step `a` of the child `c` may happen. */
  predicate Takes(s: Sys, a: Action, c: Proc) {
    !Serial(a) && !a.Fork? && a.pid in s.procs && c == s.procs[a.pid] && EnabledAt(s, a, c)
  }

  lemma CheckStep(s: Sys, a: Action, c: Proc)
    requires PostsOk(s) && a.CheckGroup? && Takes(s, a, c)
    ensures PostsOk(NextAt(s, a, c)) && Wrote(s.tree, NextAt(s, a, c).tree)
  {
    ChildOk(s, a.pid);
    ControlKeepsPosts(s, a.pid, c.(pc := if IsDir(s.tree, GroupDir(c.gid)) then Open else Failed));
  }

  /** From opening MSG to the count of its messages. */
  lemma ScanStep(s: Sys, a: Action, c: Proc)
    requires PostsOk(s) && (a.OpenDir? || a.CloseDir?) && Takes(s, a, c)
    ensures PostsOk(NextAt(s, a, c))
  {
    var c' := NextAt(s, a, c).procs[a.pid];
    ChildOk(s, a.pid);
    MsgsOk(s, c.gid);
    IdsCount(4, |LogOf(s, c.gid)|);
    if a.CloseDir? {
      CountBounds(c.pc.base, a.seen, SubDirs(s.tree, MsgsDir(c.gid)));
    }
    ControlKeepsPosts(s, a.pid, c');
  }

  lemma CountBounds(low: set<string>, seen: set<string>, high: set<string>)
    requires low <= seen <= high
    ensures |low| <= |seen| <= |high|
  {
    assert seen == low + (seen - low) && high == seen + (high - seen);
  }

  lemma MkdirStep(s: Sys, a: Action, c: Proc)
    requires Rooted(s.tree) && PostsOk(s) && a.Mkdir? && Takes(s, a, c)
    ensures PostsOk(NextAt(s, a, c)) && Wrote(s.tree, NextAt(s, a, c).tree)
  {
    if MkdirSucceeds(s, c) {
      assert InMessages(DirOf(c, c.pc.id)) && Parent(DirOf(c, c.pc.id)) == MsgsDir(c.gid);
      ClaimKeepsPosts(s, a.pid, c);
    } else {
      ChildOk(s, a.pid);
      ControlKeepsPosts(s, a.pid, c.(pc := Failed));
    }
  }

  lemma ImageSteps(d: Path, p: Post, id: nat)
    ensures Extends(d, Image(d, p, Author(id)), ["author.txt"], File(""), Image(d, p, AuthorOpen(id, 0)))
    ensures Extends(d, Image(d, p, Text(id)), ["text.txt"], File(""), Image(d, p, TextOpen(id, 0)))
    ensures Extends(d, Image(d, p, Peek(id)), ["FILE"], Dir, Image(d, p, Data(id)))
    ensures p.file.None? ==> Image(d, p, Peek(id)) == Image(d, p, Answer(id))
  {
    assert Parent(d + ["author.txt"]) == d && Parent(d + ["text.txt"]) == d && Parent(d + ["FILE"]) == d;
    assert (d + ["author.txt"])[|d|] == "author.txt" && (d + ["text.txt"])[|d|] == "text.txt";
    assert (d + ["FILE"])[|d|] == "FILE";
  }

  lemma FileStep(d: Path, p: Post, id: nat)
    requires p.file.Some?
    ensures Extends(d, Image(d, p, Data(id)), ["FILE", p.file.value.name],
                    File(""), Image(d, p, DataOpen(id, 0)))
  {
    assert Parent(d + ["FILE", p.file.value.name]) == d + ["FILE"];
    assert |d + ["FILE", p.file.value.name]| == |d| + 2;
  }

  /** The image of a stage has the file `name`, which gets new contents. */
  ghost predicate Changes(d: Path, image: Tree, name: Path, e: Entry, image': Tree) {
    && name != [] && d + name in image && image[d + name].File?
    && Parent(d + name) in image && image[Parent(d + name)] == Dir
    && image' == image[d + name := e]
  }

  /** The child has this file open in its message, and this to write into it. */
  lemma OpenFile(c: Proc)
    requires ParsedOk(c) && Filling(c.pc)
    ensures Content(c) == (if c.pc.AuthorOpen? then c.req.post.uid
                           else if c.pc.TextOpen? then c.req.post.text else c.req.post.file.value.data)
    ensures OpenName(c) == (if c.pc.AuthorOpen? then ["author.txt"]
                            else if c.pc.TextOpen? then ["text.txt"] else ["FILE", c.req.post.file.value.name])
  {
    PstTailRoundTrip(c.req.post.file);
  }

  lemma WriteTopImage(d: Path, p: Post, id: nat, k: nat, n: nat)
    ensures Changes(d, Image(d, p, AuthorOpen(id, k)), ["author.txt"], File(Take(p.uid, n)),
                    Image(d, p, AuthorOpen(id, n)))
    ensures Changes(d, Image(d, p, TextOpen(id, k)), ["text.txt"], File(Take(p.text, n)),
                    Image(d, p, TextOpen(id, n)))
  {
    var author, text := d + ["author.txt"], d + ["text.txt"];
    assert Parent(author) == d && Parent(text) == d;
    assert author[|d|] == "author.txt" && text[|d|] == "text.txt";
  }

  lemma WriteDataImage(d: Path, p: Post, id: nat, k: nat, n: nat)
    requires p.file.Some?
    ensures Changes(d, Image(d, p, DataOpen(id, k)), ["FILE", p.file.value.name],
                    File(Take(p.file.value.data, n)), Image(d, p, DataOpen(id, n)))
  {
    var file := d + ["FILE", p.file.value.name];
    assert Parent(file) == d + ["FILE"] && |file| == |d| + 2;
  }

  lemma WriteImage(d: Path, c: Proc, n: nat)
    requires ParsedOk(c) && Filling(c.pc) && n <= |Content(c)|
    ensures Changes(d, Image(d, c.req.post, c.pc), OpenName(c), File(Content(c)[..n]),
                    Image(d, c.req.post, Filled(c.pc, n)))
  {
    OpenFile(c);
    assert Take(Content(c), n) == Content(c)[..n];
    if c.pc.DataOpen? {
      WriteDataImage(d, c.req.post, c.pc.id, c.pc.n, n);
    } else {
      WriteTopImage(d, c.req.post, c.pc.id, c.pc.n, n);
    }
  }

  lemma CloseImage(d: Path, c: Proc)
    requires ParsedOk(c) && Filling(c.pc) && c.pc.n == |Content(c)|
    ensures Image(d, c.req.post, Closed(c.pc)) == Image(d, c.req.post, c.pc)
  {
    OpenFile(c);
    var p := c.req.post;
    assert p.(text := p.text) == p;
    if c.pc.DataOpen? {
      var f := p.file.value;
      assert Take(f.data, c.pc.n) == f.data && Attachment(f.name, f.data) == f && p.file == Some(f);
      assert FirstBytes(p, c.pc.n) == p;
    } else if c.pc.TextOpen? {
      assert Take(p.text, c.pc.n) == p.text;
    } else {
      assert Take(p.uid, c.pc.n) == p.uid;
    }
  }

  /** `t'` is `t`, or `t` with one entry of some MSG directory created or overwritten. */
  ghost predicate Wrote(t: Tree, t': Tree) {
    t' == t || exists q :: q in t' && InMessages(q) && IsDir(t, Parent(q)) && !IsDir(t, q) && t' == t[q := t'[q]]
  }

  lemma StoreAuthorStep(s: Sys, a: Action, c: Proc)
    requires PostsOk(s) && a.StoreAuthor? && Takes(s, a, c)
    ensures PostsOk(NextAt(s, a, c)) && Wrote(s.tree, NextAt(s, a, c).tree)
    ensures NextAt(s, a, c).procs[a.pid].pc == AuthorOpen(c.pc.id, 0)
  {
    ChildOk(s, a.pid);
    ImageSteps(DirOf(c, c.pc.id), c.req.post, c.pc.id);
    StoreStep(s, a.pid, c.pc.id, ["author.txt"], File(""), AuthorOpen(c.pc.id, 0));
  }

  lemma StoreTextStep(s: Sys, a: Action, c: Proc)
    requires PostsOk(s) && a.StoreText? && Takes(s, a, c)
    ensures PostsOk(NextAt(s, a, c)) && Wrote(s.tree, NextAt(s, a, c).tree)
    ensures NextAt(s, a, c).procs[a.pid].pc == TextOpen(c.pc.id, 0)
  {
    ChildOk(s, a.pid);
    ImageSteps(DirOf(c, c.pc.id), c.req.post, c.pc.id);
    StoreStep(s, a.pid, c.pc.id, ["text.txt"], File(""), TextOpen(c.pc.id, 0));
  }

  lemma ReadByteStep(s: Sys, a: Action, c: Proc)
    requires PostsOk(s) && a.ReadByte? && Takes(s, a, c)
    ensures PostsOk(NextAt(s, a, c)) && Wrote(s.tree, NextAt(s, a, c).tree)
    ensures NextAt(s, a, c).procs[a.pid].pc ==
              if c.req.post.file.Some? then Data(c.pc.id)
              else Answer(c.pc.id)
  {
    var id := c.pc.id;
    ChildOk(s, a.pid);
    if c.req.post.file.Some? {
      ImageSteps(DirOf(c, id), c.req.post, id);
      StoreStep(s, a.pid, id, ["FILE"], Dir, Data(id));
    } else {
      forall d ensures Image(d, c.req.post, Answer(id)) == Image(d, c.req.post, c.pc) {
        ImageSteps(d, c.req.post, id);
      }
      ControlKeepsPosts(s, a.pid, c.(pc := Answer(id)));
    }
  }

  lemma StoreFileStep(s: Sys, a: Action, c: Proc)
    requires PostsOk(s) && a.StoreFile? && Takes(s, a, c)
    ensures PostsOk(NextAt(s, a, c)) && Wrote(s.tree, NextAt(s, a, c).tree)
    ensures NextAt(s, a, c).procs[a.pid].pc == DataOpen(c.pc.id, 0)
  {
    ChildOk(s, a.pid);
    PstTailRoundTrip(c.req.post.file);
    FileStep(DirOf(c, c.pc.id), c.req.post, c.pc.id);
    StoreStep(s, a.pid, c.pc.id, ["FILE", c.req.post.file.value.name], File(""), DataOpen(c.pc.id, 0));
  }

  /** The file that is written to is there, in a directory that is there. */
  lemma CanWrite(s: Sys, c: Proc, id: nat, name: Path, e: Entry, image': Tree)
    requires 1 <= id <= |LogOf(s, c.gid)| && OwnedOk(s, c.gid, id - 1)
    requires Changes(DirOf(c, id), Sub(s.tree, DirOf(c, id)), name, e, image')
    ensures var q := DirOf(c, id) + name;
      IsFile(s.tree, q) && IsDir(s.tree, Parent(q)) && InMessages(q) && Below(DirOf(c, id), q) && q != DirOf(c, id)
  {
    var d := DirOf(c, id);
    assert Below(d, d + name);
    BelowIsInMessages(c.gid, Mid(id), d + name);
  }

  /** A child can write what it has to, and the image of its message changes accordingly. */
  lemma WriteSucceeds(s: Sys, c: Proc, n: nat)
    requires ParsedOk(c) && Filling(c.pc) && n <= |Content(c)|
    requires 1 <= c.pc.id <= |LogOf(s, c.gid)| && OwnedOk(s, c.gid, c.pc.id - 1)
    requires Sub(s.tree, DirOf(c, c.pc.id)) == Image(DirOf(c, c.pc.id), c.req.post, c.pc)
    ensures var d := DirOf(c, c.pc.id); var q, e := d + OpenName(c), File(Content(c)[..n]);
      && IsFile(s.tree, q) && IsDir(s.tree, Parent(q)) && InMessages(q) && Below(d, q) && q != d
      && Image(d, c.req.post, Filled(c.pc, n)) == Image(d, c.req.post, c.pc)[q := e]
  {
    var d := DirOf(c, c.pc.id);
    WriteImage(d, c, n);
    CanWrite(s, c, c.pc.id, OpenName(c), File(Content(c)[..n]), Image(d, c.req.post, Filled(c.pc, n)));
  }

  lemma WriteKeepsPosts(s: Sys, pid: Pid, c: Proc, n: nat, q: Path)
    requires PostsOk(s) && pid in s.procs && c == s.procs[pid] && Filling(c.pc) && n <= |Content(c)|
    requires q == DirOf(c, c.pc.id) + OpenName(c)
    ensures var s' := Goto(s.(tree := s.tree[q := File(Content(c)[..n])]), pid, Filled(c.pc, n));
      PostsOk(s') && Wrote(s.tree, s'.tree)
  {
    var e, c' := File(Content(c)[..n]), c.(pc := Filled(c.pc, n));
    ChildOk(s, pid);
    MessageOk(s, c.gid, c.pc.id - 1);
    WriteSucceeds(s, c, n);
    FilledIsParsed(c, n);
    StoreKeepsPosts(s, Goto(s.(tree := s.tree[q := e]), pid, c'.pc), pid, c.pc.id, q, e, c');
    WroteEntry(s.tree, q, e);
  }

  lemma WroteEntry(t: Tree, q: Path, e: Entry)
    requires InMessages(q) && IsDir(t, Parent(q)) && !IsDir(t, q)
    ensures Wrote(t, t[q := e])
  {
    assert t[q := e][q] == e;
  }

  lemma WriteStep(s: Sys, a: Action, c: Proc)
    requires PostsOk(s) && a.Write? && Takes(s, a, c)
    ensures PostsOk(NextAt(s, a, c)) && Wrote(s.tree, NextAt(s, a, c).tree)
    ensures NextAt(s, a, c).procs[a.pid].pc == Filled(c.pc, a.n)
  {
    WriteKeepsPosts(s, a.pid, c, a.n, DirOf(c, c.pc.id) + OpenName(c));
  }

  lemma FilledIsParsed(c: Proc, n: nat)
    requires ParsedOk(c) && Filling(c.pc) && n <= |Content(c)|
    ensures ParsedOk(c.(pc := Filled(c.pc, n)))
  {
  }

  lemma CloseStep(s: Sys, a: Action, c: Proc)
    requires PostsOk(s) && a.Close? && Takes(s, a, c)
    ensures PostsOk(NextAt(s, a, c)) && NextAt(s, a, c).tree == s.tree
    ensures NextAt(s, a, c).procs[a.pid].pc == Closed(c.pc)
  {
    ChildOk(s, a.pid);
    forall d ensures Image(d, c.req.post, Closed(c.pc)) == Image(d, c.req.post, c.pc) {
      CloseImage(d, c);
    }
    ControlKeepsPosts(s, a.pid, c.(pc := Closed(c.pc)));
  }

  lemma RespondStep(s: Sys, a: Action, c: Proc)
    requires PostsOk(s) && a.Respond? && Takes(s, a, c)
    ensures PostsOk(NextAt(s, a, c))
  {
    ChildOk(s, a.pid);
    ControlKeepsPosts(s, a.pid, c.(pc := Done(c.pc.id)));
  }

  /** A message posted to the group that is being made does not disturb its making. */
  lemma PostKeepsMaking(t: Tree, s: Server.State, g: string, msgs: bool, name: Option<string>, q: Path, e: Entry)
    requires RepresentsMaking(t, s, g, msgs, name) && InMessages(q) && IsDir(t, Parent(q)) && !IsDir(t, q)
    ensures RepresentsMaking(t[q := e], s, g, msgs, name)
  {
    var base, base' := Without(t, GroupDir(g)), Without(t[q := e], GroupDir(g));
    RootedAdd(t, q, e);
    InGroupIsBelow(g, q);
    InGroupIsBelow(g, Parent(q));
    if InGroup(g, q) {
      assert base' == base;
    } else {
      assert base' == base[q := e];
      PostKeepsRepresents(base, s, q, e);
    }
  }

  lemma PostKeepsMakingOk(s: Sys, m: Making, q: Path, e: Entry)
    requires MakingOk(s, m) && InMessages(q) && IsDir(s.tree, Parent(q)) && !IsDir(s.tree, q)
    ensures MakingOk(s.(tree := s.tree[q := e]), m)
  {
    if m.stage.Named? {
      PostKeepsRepresents(s.tree, s.server, q, e);
    } else {
      PostKeepsMaking(s.tree, s.server, m.gid, !m.stage.Bare?, NameSoFar(m), q, e);
    }
  }

  /** Whether a making is in order depends on the tree and the state of the server alone. */
  lemma MakingFrame(s: Sys, s': Sys, m: Making)
    requires MakingOk(s, m) && s'.tree == s.tree && s'.server == s.server
    ensures MakingOk(s', m)
  {
  }

  lemma WroteKeepsTree(s: Sys, s': Sys)
    requires TreeOk(s) && Wrote(s.tree, s'.tree) && s'.server == s.server && s'.making == s.making
    ensures TreeOk(s')
  {
    if s'.tree != s.tree {
      var q :| q in s'.tree && InMessages(q) && IsDir(s.tree, Parent(q)) && !IsDir(s.tree, q)
            && s'.tree == s.tree[q := s'.tree[q]];
      if s.making.Some? {
        PostKeepsMakingOk(s, s.making.value, q, s'.tree[q]);
        MakingFrame(s.(tree := s.tree[q := s'.tree[q]]), s', s.making.value);
      } else {
        PostKeepsRepresents(s.tree, s.server, q, s'.tree[q]);
      }
    } else if s.making.Some? {
      MakingFrame(s, s', s.making.value);
    }
  }

  // ---- the steps of the main process ----

  lemma ServeTree(s: Sys, a: Action)
    requires TreeOk(s) && a.Serve? && Enabled(s, a)
    ensures TreeOk(Next(s, a)) && AreaKept(s.tree, Next(s, a).tree)
  {
    Server.ExecKeepsInv(s.server, a.command);
  }

  lemma BeginGroupTree(s: Sys, a: Action)
    requires TreeOk(s) && a.BeginGroup? && Enabled(s, a)
    ensures TreeOk(Next(s, a)) && AreaKept(s.tree, Next(s, a).tree)
  {
    var m := Making(Dec(2, |s.server.groups| + 1), a.gname, a.uid, Bare);
    Server.NewOutcome(s.server, Server.Gsr(a.uid, "00", a.gname));
    MadeDirectory(s, m);
    assert Next(s, a) == s.(tree := s.tree[GroupDir(m.gid) := Dir], making := Some(m));
  }

  lemma MadeDirectory(s: Sys, m: Making)
    requires Represents(s.tree, s.server) && Server.Inv(s.server) && s.server.up && m.stage.Bare?
    requires m.gid == Dec(2, |s.server.groups| + 1) && |s.server.groups| < Server.MAX_GROUPS
    requires ValidGname(m.gname) && m.gname != "" && ValidUid(m.uid) && m.uid in s.server.users
    ensures var t' := s.tree[GroupDir(m.gid) := Dir];
      MakingOk(s.(tree := t', making := Some(m)), m) && AreaKept(s.tree, t')
  {
    Server.FreeIds(s.server);
    MakeDirectory(s.tree, s.server, m.gid);
  }

  lemma AddMsgsTree(s: Sys, a: Action)
    requires TreeOk(s) && a.AddMsgs? && Enabled(s, a)
    ensures TreeOk(Next(s, a)) && AreaKept(s.tree, Next(s, a).tree)
  {
    var m := s.making.value;
    MadeMsgs(s, m);
    assert Next(s, a) == s.(tree := s.tree[MsgsDir(m.gid) := Dir], making := Some(m.(stage := WithMsgs)));
  }

  lemma MadeMsgs(s: Sys, m: Making)
    requires MakingOk(s, m) && m.stage.Bare?
    ensures var t' := s.tree[MsgsDir(m.gid) := Dir]; var m' := m.(stage := WithMsgs);
      MakingOk(s.(tree := t', making := Some(m')), m') && AreaKept(s.tree, t')
  {
    MakeMessages(s.tree, s.server, m.gid);
  }

  /** `name.txt` is created, or written to. */
  lemma NameTree(s: Sys, a: Action)
    requires TreeOk(s) && (a.AddName? || a.WriteName?) && Enabled(s, a)
    ensures TreeOk(Next(s, a)) && AreaKept(s.tree, Next(s, a).tree)
  {
    var m, n := s.making.value, if a.AddName? then 0 else a.n;
    PutSome(s, m, n);
    assert m.gname[..0] == "";
    assert Next(s, a) == s.(tree := s.tree[GroupEntry(m.gid, "name.txt") := File(m.gname[..n])],
                            making := Some(m.(stage := Naming(n))));
  }

  lemma PutSome(s: Sys, m: Making, n: nat)
    requires MakingOk(s, m) && (m.stage.WithMsgs? || m.stage.Naming?) && n <= |m.gname|
    ensures var t' := s.tree[GroupEntry(m.gid, "name.txt") := File(m.gname[..n])];
      var m' := m.(stage := Naming(n));
      MakingOk(s.(tree := t', making := Some(m')), m') && AreaKept(s.tree, t')
  {
    PutName(s.tree, s.server, m.gid, NameSoFar(m), m.gname[..n]);
    assert Take(m.gname, n) == m.gname[..n];
  }

  lemma CloseNameTree(s: Sys, a: Action)
    requires TreeOk(s) && a.CloseName? && Enabled(s, a)
    ensures TreeOk(Next(s, a)) && AreaKept(s.tree, Next(s, a).tree)
  {
    var m := s.making.value;
    MadeName(s, m);
    Server.NewGroupInv(s.server, m.gname);
    assert Next(s, a) == s.(server := Server.NewGroup(s.server, m.gid, m.gname),
                            making := Some(m.(stage := Named)));
  }

  lemma MadeName(s: Sys, m: Making)
    requires MakingOk(s, m) && m.stage == Naming(|m.gname|)
    ensures var m' := m.(stage := Named);
      MakingOk(s.(server := Server.NewGroup(s.server, m.gid, m.gname), making := Some(m')), m')
  {
    assert Take(m.gname, |m.gname|) == m.gname;
    MakeName(s.tree, s.server, m.gid, m.gname);
    NamedOk(s.tree, s.server, s.(server := Server.NewGroup(s.server, m.gid, m.gname)), m.(stage := Named));
  }

  lemma NamedOk(t: Tree, server: Server.State, s: Sys, m: Making)
    requires s.tree == t && s.server == Server.NewGroup(server, m.gid, m.gname) && m.stage.Named?
    requires ValidGname(m.gname) && m.gname != "" && ValidUid(m.uid) && m.uid in server.users && server.up
    requires Represents(t, Server.NewGroup(server, m.gid, m.gname))
    ensures MakingOk(s.(making := Some(m)), m)
  {
  }

  lemma AddFirstSubTree(s: Sys, a: Action)
    requires TreeOk(s) && a.AddFirstSub? && Enabled(s, a)
    ensures TreeOk(Next(s, a)) && AreaKept(s.tree, Next(s, a).tree)
  {
    var m := s.making.value;
    AddSub(s.tree, s.server, m.uid, m.gid);
    Server.SubscribedInv(s.server, m.uid, m.gid);
  }

  /** A step of the main process between any two steps of children keeps the invariant. */
  lemma SerialStep(s: Sys, a: Action)
    requires Inv(s) && Serial(a) && Enabled(s, a)
    ensures Inv(Next(s, a))
  {
    match a {
      case Serve(_, _) => ServeTree(s, a);
      case BeginGroup(_, _) => BeginGroupTree(s, a);
      case AddMsgs => AddMsgsTree(s, a);
      case AddName => NameTree(s, a);
      case WriteName(_) => NameTree(s, a);
      case CloseName => CloseNameTree(s, a);
      case AddFirstSub => AddFirstSubTree(s, a);
    }
    TreeIsRooted(s);
    ServeKeepsPosts(s, Next(s, a));
  }

  lemma TreeIsRooted(s: Sys)
    requires TreeOk(s)
    ensures Rooted(s.tree)
  {
    if s.making.None? || s.making.value.stage.Named? {
      Matches(s.tree, s.server);
    }
  }

  predicate Writes(a: Action) {
    a.Mkdir? || a.StoreAuthor? || a.StoreText? || a.ReadByte? || a.StoreFile? || a.Write?
  }

  lemma WritingStep(s: Sys, a: Action, c: Proc)
    requires Rooted(s.tree) && PostsOk(s) && Writes(a) && Takes(s, a, c)
    ensures PostsOk(NextAt(s, a, c)) && Wrote(s.tree, NextAt(s, a, c).tree)
  {
    if a.Mkdir? {
      MkdirStep(s, a, c);
    } else if a.StoreAuthor? {
      StoreAuthorStep(s, a, c);
    } else if a.StoreText? {
      StoreTextStep(s, a, c);
    } else if a.ReadByte? {
      ReadByteStep(s, a, c);
    } else if a.StoreFile? {
      StoreFileStep(s, a, c);
    } else {
      WriteStep(s, a, c);
    }
  }

  lemma ReadingStep(s: Sys, a: Action, c: Proc)
    requires PostsOk(s) && !Writes(a) && Takes(s, a, c)
    ensures PostsOk(NextAt(s, a, c)) && NextAt(s, a, c).tree == s.tree
  {
    if a.CheckGroup? {
      CheckStep(s, a, c);
    } else if a.Respond? {
      RespondStep(s, a, c);
    } else if a.Close? {
      CloseStep(s, a, c);
    } else {
      ScanStep(s, a, c);
    }
  }

  lemma ChildStep(s: Sys, a: Action)
    requires Rooted(s.tree) && PostsOk(s) && !Serial(a) && Enabled(s, a)
    ensures PostsOk(Next(s, a)) && Wrote(s.tree, Next(s, a).tree)
  {
    if a.Fork? {
      ForkStep(s, a);
    } else if Writes(a) {
      WritingStep(s, a, s.procs[a.pid]);
    } else {
      ReadingStep(s, a, s.procs[a.pid]);
    }
  }

  lemma ChildLeavesServer(s: Sys, a: Action)
    requires !Serial(a) && Enabled(s, a)
    ensures Next(s, a).server == s.server && Next(s, a).making == s.making
  {
  }

  lemma ChildKeepsInv(s: Sys, a: Action)
    requires Inv(s) && !Serial(a) && Enabled(s, a)
    ensures Inv(Next(s, a))
  {
    TreeIsRooted(s);
    ChildStep(s, a);
    ChildLeavesServer(s, a);
    WroteKeepsTree(s, Next(s, a));
  }

  /** Every step of the main process or of a child keeps the invariant. */
  lemma StepKeepsInv(s: Sys, a: Action)
    requires Inv(s) && Enabled(s, a)
    ensures Inv(Next(s, a))
  {
    if Serial(a) {
      SerialStep(s, a);
    } else {
      ChildKeepsInv(s, a);
    }
  }
}
