/** What the invariant gives: unique ids, the append-only log, progress, and lasting delivery. */
module PostTheorems {
  import opened CText
  import opened Sorting
  import opened Tree
  import opened Wire
  import opened Messages
  import Server
  import opened ServerTree
  import opened PostProtocol
  import opened PostSafety

  // ---- runs ----

  ghost predicate IsRun(s: Sys, run: seq<Action>)
    decreases |run|
  {
    run != [] ==> Enabled(s, run[0]) && IsRun(Next(s, run[0]), run[1..])
  }

  ghost function After(s: Sys, run: seq<Action>): Sys
    requires IsRun(s, run)
    decreases |run|
  {
    if run == [] then s else After(Next(s, run[0]), run[1..])
  }

  lemma StartInv()
    ensures Inv(START)
  {
    InitialRepresents();
    Server.InitialInv();
    forall gid ensures DirectoryOk(START, gid) {
      assert !IsDir(INITIAL_TREE, MsgsDir(gid));
      assert Ids(4, 0) == {};
    }
    Whole(START);
  }

  /** The invariant holds after every interleaving of any number of posts and serial commands. */
  lemma {:induction false} RunKeepsInv(s: Sys, run: seq<Action>)
    requires Inv(s) && IsRun(s, run)
    ensures Inv(After(s, run))
    decreases |run|
  {
    if run != [] {
      StepKeepsInv(s, run[0]);
      RunKeepsInv(Next(s, run[0]), run[1..]);
    }
  }

  lemma RunOf(s: Sys, a: Action, run: seq<Action>)
    requires Enabled(s, a) && IsRun(Next(s, a), run)
    ensures IsRun(s, [a] + run) && After(s, [a] + run) == After(Next(s, a), run)
  {
    SameTail([a], run);
    Unfolded(s, a, run, [a] + run);
  }

  lemma AppendStep(s: Sys, first: seq<Action>, later: seq<Action>)
    requires first != [] && Enabled(s, first[0]) && IsRun(Next(s, first[0]), first[1..] + later)
    ensures IsRun(s, first + later)
    ensures After(s, first + later) == After(Next(s, first[0]), first[1..] + later)
  {
    SameTail(first, later);
    Unfolded(s, first[0], first[1..] + later, first + later);
  }

  lemma SameTail(first: seq<Action>, later: seq<Action>)
    requires first != []
    ensures (first + later)[0] == first[0] && (first + later)[1..] == first[1..] + later
  {
  }

  lemma Unfolded(s: Sys, a: Action, rest: seq<Action>, run: seq<Action>)
    requires run != [] && run[0] == a && run[1..] == rest && Enabled(s, a) && IsRun(Next(s, a), rest)
    ensures IsRun(s, run) && After(s, run) == After(Next(s, a), rest)
  {
  }

  lemma {:induction false} RunAppend(s: Sys, first: seq<Action>, later: seq<Action>)
    requires IsRun(s, first) && IsRun(After(s, first), later)
    ensures IsRun(s, first + later) && After(s, first + later) == After(After(s, first), later)
    decreases |first|
  {
    if first == [] {
      assert first + later == later;
    } else {
      RunAppend(Next(s, first[0]), first[1..], later);
      AppendStep(s, first, later);
    }
  }

  // ---- allocation of message ids ----

  /** No two posts to one group ever hold, or reply, the same message id. */
  lemma MidsUnique(s: Sys, p: Pid, q: Pid)
    requires PostsOk(s) && p in s.procs && q in s.procs && s.procs[p].gid == s.procs[q].gid
    requires Owned(s.procs[p].pc).Some? && Owned(s.procs[p].pc) == Owned(s.procs[q].pc)
    ensures p == q
  {
    ChildOk(s, p);
    ChildOk(s, q);
  }

  ghost predicate HasOwner(s: Sys, gid: string, id: nat) {
    exists p :: p in s.procs && s.procs[p].gid == gid && Owned(s.procs[p].pc) == Some(id)
  }

  /** Each MSG directory holds exactly 1..m, m is their count, and every one has an owner. */
  lemma DirectoryExact(s: Sys, gid: string)
    requires PostsOk(s)
    ensures var m := |SubDirs(s.tree, MsgsDir(gid))|;
      SubDirs(s.tree, MsgsDir(gid)) == Names(s.tree, MsgsDir(gid)) == Ids(4, m) && m <= MAX_MID
    ensures forall id :: 1 <= id <= |SubDirs(s.tree, MsgsDir(gid))| ==>
              HasOwner(s, gid, id)
  {
    MsgsOk(s, gid);
    IdsCount(4, |LogOf(s, gid)|);
    forall id | 1 <= id <= |LogOf(s, gid)|
      ensures HasOwner(s, gid, id)
    {
      MessageOk(s, gid, id - 1);
      assert LogOf(s, gid)[id - 1] in s.procs;
    }
  }

  /** The group is being made, and its MSG does not exist yet. */
  ghost predicate MsgsMissing(s: Sys, gid: string) {
    s.making.Some? && s.making.value.gid == gid && s.making.value.stage.Bare?
  }

  lemma MsgsThere(s: Sys, gid: string)
    requires TreeOk(s) && IsDir(s.tree, GroupDir(gid))
    ensures IsDir(s.tree, MsgsDir(gid)) <==> !MsgsMissing(s, gid)
  {
    if s.making.None? || s.making.value.stage.Named? {
      Matches(s.tree, s.server);
    } else {
      Matches(Without(s.tree, GroupDir(s.making.value.gid)), s.server);
    }
    if s.making.Some? && !s.making.value.stage.Named? && gid != s.making.value.gid {
      var base := Without(s.tree, GroupDir(s.making.value.gid));
      InGroupIsBelow(s.making.value.gid, GroupDir(gid));
      InGroupIsBelow(s.making.value.gid, MsgsDir(gid));
      assert GroupDir(gid) in base;
    }
  }

  /** Another child than `p` has claimed message `id` of the group. */
  ghost predicate HeldByAnother(s: Sys, p: Pid, gid: string, id: nat) {
    exists q :: q in s.procs && q != p && s.procs[q].gid == gid && Owned(s.procs[q].pc) == Some(id)
  }

  lemma ClaimedIffHeld(s: Sys, p: Pid)
    requires PostsOk(s) && p in s.procs && s.procs[p].pc.Claim?
    ensures var c := s.procs[p];
      HeldByAnother(s, p, c.gid, c.pc.id) <==> Mid(c.pc.id) in Names(s.tree, MsgsDir(c.gid))
    ensures var c := s.procs[p]; Mid(c.pc.id) !in c.pc.base
  {
    var c := s.procs[p];
    var id, n := c.pc.id, |LogOf(s, c.gid)|;
    ChildOk(s, p);
    MsgsOk(s, c.gid);
    IdsMember(id, |c.pc.base|);
    IdsMember(id, n);
    if id <= n {
      MessageOk(s, c.gid, id - 1);
      assert LogOf(s, c.gid)[id - 1] in s.procs;
    } else {
      forall q | q in s.procs && s.procs[q].gid == c.gid ensures Owned(s.procs[q].pc) != Some(id) {
        ChildOk(s, q);
      }
    }
  }

  /**
   * Progress: a post fails at `mkdir` exactly when another post holds the id it counted, which
   * was not there when it opened MSG, or when the group is still without MSG.
   */
  lemma MkdirFailsIff(s: Sys, p: Pid)
    requires Inv(s) && p in s.procs && s.procs[p].pc.Claim?
    ensures var c := s.procs[p];
      !MkdirSucceeds(s, c) <==> HeldByAnother(s, p, c.gid, c.pc.id) || MsgsMissing(s, c.gid)
    ensures var c := s.procs[p]; Mid(c.pc.id) !in c.pc.base
  {
    var c := s.procs[p];
    ChildOk(s, p);
    ClaimedIffHeld(s, p);
    MsgsThere(s, c.gid);
    assert MsgsDir(c.gid) + [Mid(c.pc.id)] == DirOf(c, c.pc.id);
  }

  lemma IdsMember(id: nat, n: nat)
    requires 1 <= id
    ensures Mid(id) in Ids(4, n) <==> id <= n
  {
    forall i | 1 <= i <= n && Dec(4, i) == Mid(id) ensures i == id {
      assert Value(Dec(4, i)) == i && Value(Mid(id)) == id;
    }
  }

  // ---- refinement of an atomic append-only log ----

  const NOBODY := Proc(Request("", Post("", "", None)), "", "", "", "", Failed)

  /** The child that claimed message `id`. */
  ghost function Owner(s: Sys, gid: string, id: nat): Proc {
    if 1 <= id <= |LogOf(s, gid)| && LogOf(s, gid)[id - 1] in s.procs then s.procs[LogOf(s, gid)[id - 1]]
    else NOBODY
  }

  lemma OwnerOf(s: Sys, gid: string, id: nat)
    requires PostsOk(s) && 1 <= id <= |LogOf(s, gid)|
    ensures var pid := LogOf(s, gid)[id - 1];
      && pid in s.procs && Owner(s, gid, id) == s.procs[pid] && ProcOk(s, pid, Owner(s, gid, id))
      && Owner(s, gid, id).gid == gid && Owned(Owner(s, gid, id).pc) == Some(id)
      && Sub(s.tree, MsgDir(gid, Mid(id)))
         == Image(MsgDir(gid, Mid(id)), Owner(s, gid, id).req.post, Owner(s, gid, id).pc)
  {
    MessageOk(s, gid, id - 1);
    ChildOk(s, LogOf(s, gid)[id - 1]);
  }

  /** The log of a group: the posts of the owners of messages 1, 2, and so on. */
  ghost function PostsOf(s: Sys, gid: string): (r: seq<Post>)
    ensures |r| == |LogOf(s, gid)|
    ensures forall i :: 0 <= i < |r| ==> r[i] == Owner(s, gid, i + 1).req.post
  {
    seq(|LogOf(s, gid)|, i requires 0 <= i < |LogOf(s, gid)| => Owner(s, gid, i + 1).req.post)
  }

  lemma NextAtKeepsRequest(s: Sys, a: Action, p: Pid)
    requires !Serial(a) && !a.Fork? && a.pid in s.procs && p in s.procs && EnabledAt(s, a, s.procs[a.pid])
    ensures var s' := NextAt(s, a, s.procs[a.pid]);
      && p in s'.procs
      && s'.procs[p] == if p == a.pid then s.procs[p].(pc := s'.procs[p].pc) else s.procs[p]
  {
    if a.StoreAuthor? || a.StoreText? || a.ReadByte? || a.StoreFile? {
      StoringKeepsRequest(s, a, p);
    } else if a.Mkdir? {
    } else {
      assert NextAt(s, a, s.procs[a.pid]).procs
          == s.procs[a.pid := s.procs[a.pid].(pc := NextAt(s, a, s.procs[a.pid]).procs[a.pid].pc)];
    }
  }

  lemma StoringKeepsRequest(s: Sys, a: Action, p: Pid)
    requires a.StoreAuthor? || a.StoreText? || a.ReadByte? || a.StoreFile?
    requires a.pid in s.procs && p in s.procs && EnabledAt(s, a, s.procs[a.pid])
    ensures var s' := NextAt(s, a, s.procs[a.pid]);
      && p in s'.procs
      && s'.procs[p] == if p == a.pid then s.procs[p].(pc := s'.procs[p].pc) else s.procs[p]
  {
  }

  /** A child's request never changes, and a child that is done stays as it is. */
  lemma StepKeepsRequest(s: Sys, a: Action, p: Pid)
    requires Enabled(s, a) && p in s.procs
    ensures p in Next(s, a).procs
    ensures Next(s, a).procs[p].req == s.procs[p].req && Next(s, a).procs[p].gid == s.procs[p].gid
    ensures s.procs[p].pc.Done? ==> Next(s, a).procs[p] == s.procs[p]
  {
    if !Serial(a) && !a.Fork? {
      NextAtKeepsRequest(s, a, p);
    }
  }

  /** Whether the step appends to the log of `gid`. */
  ghost predicate Appends(s: Sys, a: Action, gid: string)
    requires Enabled(s, a)
  {
    a.Mkdir? && s.procs[a.pid].gid == gid && MkdirSucceeds(s, s.procs[a.pid])
  }

  lemma StepLog(s: Sys, a: Action, gid: string)
    requires Enabled(s, a)
    ensures LogOf(Next(s, a), gid) == LogOf(s, gid) + if Appends(s, a, gid) then [a.pid] else []
  {
    if !Serial(a) && !a.Fork? {
      NextAtLog(s, a, s.procs[a.pid], gid);
    }
  }

  lemma NextAtLog(s: Sys, a: Action, c: Proc, gid: string)
    requires Takes(s, a, c)
    ensures LogOf(NextAt(s, a, c), gid)
         == LogOf(s, gid) + if a.Mkdir? && c.gid == gid && MkdirSucceeds(s, c) then [a.pid] else []
  {
    if !a.Mkdir? {
      assert NextAt(s, a, c).log == s.log;
    }
  }

  lemma StepKeepsOwner(s: Sys, a: Action, gid: string, id: nat)
    requires Enabled(s, a) && PostsOk(s) && 1 <= id <= |LogOf(s, gid)|
    ensures id <= |LogOf(Next(s, a), gid)| && Owner(Next(s, a), gid, id).req == Owner(s, gid, id).req
  {
    StepLog(s, a, gid);
    MessageOk(s, gid, id - 1);
    StepKeepsRequest(s, a, LogOf(s, gid)[id - 1]);
  }

  lemma AppendsItsPost(s: Sys, a: Action, gid: string)
    requires Enabled(s, a) && Appends(s, a, gid)
    ensures var n := |LogOf(s, gid)|;
      |LogOf(Next(s, a), gid)| == n + 1 && Owner(Next(s, a), gid, n + 1).req == s.procs[a.pid].req
  {
    StepLog(s, a, gid);
    StepKeepsRequest(s, a, a.pid);
  }

  lemma PostsGrow(s: Sys, s': Sys, gid: string, more: seq<Post>)
    requires |LogOf(s', gid)| == |LogOf(s, gid)| + |more| && |more| <= 1
    requires forall id :: 1 <= id <= |LogOf(s, gid)| ==> Owner(s', gid, id).req == Owner(s, gid, id).req
    requires more != [] ==> Owner(s', gid, |LogOf(s, gid)| + 1).req.post == more[0]
    ensures PostsOf(s', gid) == PostsOf(s, gid) + more
  {
  }

  /**
   * Every step leaves every log alone, except that a successful `mkdir` appends the post of the
   * child that made it to the log of its group.
   */
  lemma StepRefinesLog(s: Sys, a: Action, gid: string)
    requires PostsOk(s) && Enabled(s, a)
    ensures PostsOf(Next(s, a), gid)
         == PostsOf(s, gid) + if Appends(s, a, gid) then [s.procs[a.pid].req.post] else []
  {
    StepLog(s, a, gid);
    forall id | 1 <= id <= |LogOf(s, gid)| ensures Owner(Next(s, a), gid, id).req == Owner(s, gid, id).req {
      StepKeepsOwner(s, a, gid, id);
    }
    if Appends(s, a, gid) {
      AppendsItsPost(s, a, gid);
      PostsGrow(s, Next(s, a), gid, [s.procs[a.pid].req.post]);
    } else {
      PostsGrow(s, Next(s, a), gid, []);
    }
  }

  lemma StepExtendsLog(s: Sys, a: Action, gid: string)
    requires Inv(s) && Enabled(s, a)
    ensures Inv(Next(s, a)) && PostsOf(s, gid) <= PostsOf(Next(s, a), gid)
  {
    StepKeepsInv(s, a);
    StepRefinesLog(s, a, gid);
  }

  /** Over a run the log of a group only grows at its end. */
  lemma {:induction false} LogAppendOnly(s: Sys, run: seq<Action>, gid: string)
    requires Inv(s) && IsRun(s, run)
    ensures Inv(After(s, run)) && PostsOf(s, gid) <= PostsOf(After(s, run), gid)
    decreases |run|
  {
    if run != [] {
      StepExtendsLog(s, run[0], gid);
      LogAppendOnly(Next(s, run[0]), run[1..], gid);
    }
  }

  // ---- delivery ----

  /** `p` is message `id` of the log of `gid`, and stored as such. */
  ghost predicate Delivers(s: Sys, gid: string, id: nat, p: Post) {
    && 1 <= id <= |PostsOf(s, gid)| && PostsOf(s, gid)[id - 1] == p
    && HasMessage(s.tree, gid, Mid(id), p)
  }

  /** What was answered with id `id` is stored as message `id`, exactly as the client sent it. */
  lemma AnsweredIsStored(s: Sys, p: Pid)
    requires PostsOk(s) && p in s.procs && (s.procs[p].pc.Answer? || s.procs[p].pc.Done?)
    ensures Delivers(s, s.procs[p].req.gid, s.procs[p].pc.id, s.procs[p].req.post)
    ensures s.procs[p].gid == s.procs[p].req.gid && ValidPost(s.procs[p].req.post)
  {
    ChildOk(s, p);
    OwnerOf(s, s.procs[p].gid, s.procs[p].pc.id);
  }

  lemma {:induction false} DoneStays(s: Sys, run: seq<Action>, p: Pid)
    requires IsRun(s, run) && p in s.procs && s.procs[p].pc.Done?
    ensures p in After(s, run).procs && After(s, run).procs[p] == s.procs[p]
    decreases |run|
  {
    if run != [] {
      StepKeepsRequest(s, run[0], p);
      DoneStays(Next(s, run[0]), run[1..], p);
    }
  }

  lemma DeliveredFrom(s: Sys, later: seq<Action>, p: Pid)
    requires Inv(s) && IsRun(s, later) && p in s.procs && s.procs[p].pc.Done?
    ensures PostsOk(After(s, later))
    ensures Delivers(After(s, later), s.procs[p].req.gid, s.procs[p].pc.id, s.procs[p].req.post)
  {
    RunKeepsInv(s, later);
    DoneStays(s, later, p);
    AnsweredIsStored(After(s, later), p);
  }

  /**
   * Delivery: once a client has been told its post is message `id`, then after any further
   * interleaving that message is in the log at `id` and stored, byte for byte as it was sent.
   */
  lemma Delivered(first: seq<Action>, later: seq<Action>, p: Pid)
    requires IsRun(START, first) && IsRun(After(START, first), later)
    requires p in After(START, first).procs && After(START, first).procs[p].pc.Done?
    ensures var c := After(START, first).procs[p];
      Delivers(After(After(START, first), later), c.req.gid, c.pc.id, c.req.post)
  {
    StartInv();
    RunKeepsInv(START, first);
    DeliveredFrom(After(START, first), later, p);
  }

  // ---- how far a message has got ----

  /** Nothing is missing any more of a post whose owner is at this stage. */
  predicate StageComplete(p: Post, pc: Pc) {
    match pc
    case TextOpen(_, n) => p.file.None? && n >= |p.text|
    case Peek(_) => p.file.None?
    case DataOpen(_, n) => p.file.None? || n >= |p.file.value.data|
    case Answer(_) => true
    case Done(_) => true
    case _ => false
  }

  /** The owner has nothing more to store. */
  predicate Complete(c: Proc) {
    StageComplete(c.req.post, c.pc)
  }

  lemma StoredApart(d: Path, p: Post, q: Post)
    requires p.uid == q.uid && (p.file.Some? <==> q.file.Some?)
    requires p.file.Some? ==> p.file.value.name == q.file.value.name
    ensures Stored(d, p) == Stored(d, q) <==> p == q
  {
    var text := d + ["text.txt"];
    assert text[|d|] == "text.txt" && (d + ["FILE"])[|d|] == "FILE";
    assert text in Stored(d, p) && Stored(d, p)[text] == File(p.text) && Stored(d, q)[text] == File(q.text);
    if p.file.Some? {
      var file := d + ["FILE", p.file.value.name];
      assert Stored(d, p)[file] == File(p.file.value.data) && Stored(d, q)[file] == File(q.file.value.data);
    }
  }

  lemma TakesAll(s: string, n: nat)
    ensures Take(s, n) == s <==> n >= |s|
  {
  }

  /** The entries that tell the stages apart: which of them an image has. */
  lemma ImageEntries(d: Path, p: Post, pc: Pc)
    requires Owned(pc).Some?
    ensures d + ["text.txt"] in Image(d, p, pc) <==> !pc.Author? && !pc.AuthorOpen? && !pc.Text?
    ensures d + ["FILE"] in Image(d, p, pc) <==>
              pc.Data? || (p.file.Some? && (pc.DataOpen? || pc.Answer? || pc.Done?))
  {
    var author, text, dir := d + ["author.txt"], d + ["text.txt"], d + ["FILE"];
    assert author[|d|] == "author.txt" && text[|d|] == "text.txt" && dir[|d|] == "FILE";
    if p.file.Some? {
      assert |d + ["FILE", p.file.value.name]| == |d| + 2;
    }
  }

  lemma FileEntry(d: Path, p: Post, pc: Pc)
    requires Owned(pc).Some? && p.file.Some?
    ensures d + ["FILE", p.file.value.name] in Image(d, p, pc) <==> pc.DataOpen? || pc.Answer? || pc.Done?
  {
    assert |d + ["FILE", p.file.value.name]| == |d| + 2;
  }

  lemma ImageIsStored(d: Path, p: Post, pc: Pc)
    requires Owned(pc).Some? && (pc.Data? ==> p.file.Some?)
    ensures Image(d, p, pc) == Stored(d, p) <==> StageComplete(p, pc)
  {
    ImageEntries(d, p, pc);
    ImageEntries(d, p, Answer(0));
    if p.file.Some? {
      FileEntry(d, p, pc);
      FileEntry(d, p, Answer(0));
    }
    match pc
    case TextOpen(_, n) =>
      StoredApart(d, p.(text := Take(p.text, n)), p);
      TakesAll(p.text, n);
    case DataOpen(_, n) =>
      StoredApart(d, FirstBytes(p, n), p);
      if p.file.Some? {
        TakesAll(p.file.value.data, n);
      }
    case _ =>
  }

  /** A claimed message is stored as it was sent exactly when its owner has nothing more to store. */
  lemma CompleteIff(s: Sys, gid: string, id: nat)
    requires PostsOk(s) && 1 <= id <= |LogOf(s, gid)|
    ensures HasMessage(s.tree, gid, Mid(id), PostsOf(s, gid)[id - 1]) <==> Complete(Owner(s, gid, id))
  {
    OwnerOf(s, gid, id);
    ImageIsStored(MsgDir(gid, Mid(id)), PostsOf(s, gid)[id - 1], Owner(s, gid, id).pc);
  }

  /** Before its file arrives, a message cannot be told from a complete one without a file. */
  lemma UnfinishedLooksFinished(s: Sys, p: Pid)
    requires PostsOk(s) && p in s.procs && s.procs[p].pc.Peek?
    ensures HasMessage(s.tree, s.procs[p].gid, Mid(s.procs[p].pc.id),
                       s.procs[p].req.post.(file := None))
  {
    ChildOk(s, p);
    MessageOk(s, s.procs[p].gid, s.procs[p].pc.id - 1);
  }

  function Progress(pc: Pc): nat {
    match pc
    case Author(_) => 1
    case AuthorOpen(_, _) => 2
    case Text(_) => 3
    case TextOpen(_, _) => 4
    case Peek(_) => 5
    case Data(_) => 6
    case DataOpen(_, _) => 7
    case Answer(_) => 8
    case Done(_) => 9
    case _ => 0
  }

  function Bytes(pc: Pc): nat {
    if Filling(pc) then pc.n else 0
  }

  /** A child at `pc` may be at `pc'` later on. */
  predicate NotBefore(pc: Pc, pc': Pc) {
    Progress(pc) < Progress(pc') || (Progress(pc) == Progress(pc') && Bytes(pc) <= Bytes(pc'))
  }

  /** From `pc` a child goes on with the same message, and never back. */
  predicate GoesOn(p: Post, pc: Pc, pc': Pc) {
    Owned(pc') == Owned(pc) && NotBefore(pc, pc') && (StageComplete(p, pc) ==> StageComplete(p, pc'))
  }

  /** The step leads the child `c` on. */
  ghost predicate LeadsOn(s: Sys, a: Action, c: Proc)
    requires Takes(s, a, c)
  {
    GoesOn(c.req.post, c.pc, NextAt(s, a, c).procs[a.pid].pc)
  }

  lemma StoresFurther(s: Sys, a: Action, c: Proc)
    requires PostsOk(s) && Takes(s, a, c) && (a.StoreAuthor? || a.StoreText?)
    ensures LeadsOn(s, a, c)
  {
    if a.StoreAuthor? {
      StoreAuthorStep(s, a, c);
    } else {
      StoreTextStep(s, a, c);
    }
  }

  lemma StoresFileFurther(s: Sys, a: Action, c: Proc)
    requires PostsOk(s) && Takes(s, a, c) && (a.ReadByte? || a.StoreFile?)
    ensures LeadsOn(s, a, c)
  {
    if a.ReadByte? {
      ReadByteStep(s, a, c);
    } else {
      StoreFileStep(s, a, c);
    }
  }

  lemma FillsFurther(s: Sys, a: Action, c: Proc)
    requires PostsOk(s) && Takes(s, a, c) && (a.Write? || a.Close?)
    ensures LeadsOn(s, a, c)
  {
    ChildOk(s, a.pid);
    OpenFile(c);
    if a.Write? {
      WriteStep(s, a, c);
    } else {
      CloseStep(s, a, c);
    }
  }

  /** A step of a child that owns a message leads it on. */
  lemma GoesFurther(s: Sys, a: Action, c: Proc)
    requires PostsOk(s) && Takes(s, a, c) && Owned(c.pc).Some?
    ensures LeadsOn(s, a, c)
  {
    if a.Write? || a.Close? {
      FillsFurther(s, a, c);
    } else if a.ReadByte? || a.StoreFile? {
      StoresFileFurther(s, a, c);
    } else if !a.Respond? {
      StoresFurther(s, a, c);
    }
  }

  /** A child of `s` is the same child in `s'`, at least as far, and still the owner of its message. */
  ghost predicate SameChild(c: Proc, c': Proc) {
    && c'.req == c.req && c'.gid == c.gid
    && (Owned(c.pc).Some? ==> GoesOn(c.req.post, c.pc, c'.pc))
  }

  lemma StepSameChild(s: Sys, a: Action, p: Pid)
    requires PostsOk(s) && Enabled(s, a) && p in s.procs
    ensures p in Next(s, a).procs && SameChild(s.procs[p], Next(s, a).procs[p])
  {
    StepKeepsRequest(s, a, p);
    if !Serial(a) && !a.Fork? {
      NextAtKeepsRequest(s, a, p);
      if p == a.pid && Owned(s.procs[p].pc).Some? {
        GoesFurther(s, a, s.procs[p]);
      }
    }
  }

  /** What any run keeps: logs only grow, and children only go on. */
  ghost predicate Later(s: Sys, s': Sys) {
    && (forall gid :: LogOf(s, gid) <= LogOf(s', gid))
    && (forall p :: p in s.procs ==> p in s'.procs && SameChild(s.procs[p], s'.procs[p]))
  }

  lemma LaterTransitive(s: Sys, s': Sys, s'': Sys)
    requires Later(s, s') && Later(s', s'')
    ensures Later(s, s'')
  {
    forall gid ensures LogOf(s, gid) <= LogOf(s'', gid) {
      assert LogOf(s, gid) <= LogOf(s', gid) <= LogOf(s'', gid);
    }
    forall p | p in s.procs ensures p in s''.procs && SameChild(s.procs[p], s''.procs[p]) {
      assert p in s'.procs && SameChild(s.procs[p], s'.procs[p]) && SameChild(s'.procs[p], s''.procs[p]);
    }
  }

  lemma StepLater(s: Sys, a: Action)
    requires PostsOk(s) && Enabled(s, a)
    ensures Later(s, Next(s, a))
  {
    forall gid ensures LogOf(s, gid) <= LogOf(Next(s, a), gid) {
      StepLog(s, a, gid);
    }
    forall p | p in s.procs ensures p in Next(s, a).procs && SameChild(s.procs[p], Next(s, a).procs[p]) {
      StepSameChild(s, a, p);
    }
  }

  lemma {:induction false} RunLater(s: Sys, run: seq<Action>)
    requires Inv(s) && IsRun(s, run)
    ensures Inv(After(s, run)) && Later(s, After(s, run))
    decreases |run|
  {
    if run != [] {
      StepKeepsInv(s, run[0]);
      StepLater(s, run[0]);
      RunLater(Next(s, run[0]), run[1..]);
      LaterTransitive(s, Next(s, run[0]), After(s, run));
    }
  }

  /** The owner of a message is always the same child, and goes on. */
  lemma OwnerLater(s: Sys, s': Sys, gid: string, id: nat)
    requires PostsOk(s) && Later(s, s') && 1 <= id <= |LogOf(s, gid)|
    ensures id <= |LogOf(s', gid)| && PostsOf(s', gid)[id - 1] == PostsOf(s, gid)[id - 1]
    ensures SameChild(Owner(s, gid, id), Owner(s', gid, id))
  {
    assert LogOf(s', gid)[id - 1] == LogOf(s, gid)[id - 1];
    MessageOk(s, gid, id - 1);
  }

  /** Complete messages look the same in every later state. */
  lemma CompleteStays(s: Sys, run: seq<Action>, gid: string, id: nat)
    requires Inv(s) && IsRun(s, run) && 1 <= id <= |LogOf(s, gid)| && Complete(Owner(s, gid, id))
    ensures HasMessage(s.tree, gid, Mid(id), PostsOf(s, gid)[id - 1])
    ensures HasMessage(After(s, run).tree, gid, Mid(id), PostsOf(s, gid)[id - 1])
  {
    RunLater(s, run);
    OwnerLater(s, After(s, run), gid, id);
    CompleteIff(s, gid, id);
    CompleteIff(After(s, run), gid, id);
  }

  // ---- a group that is not finished refuses its first post ----

  function EarlyRest(p: Pid): seq<Action> {
    [CheckGroup(p), OpenDir(p)] + [CloseDir(p, {}), Mkdir(p)]
  }

  /** The next group is being made while a post to it, forked before, is served. */
  function EarlyPost(p: Pid, req: Request, uid: string, gname: string): seq<Action> {
    [Fork(p, req)] + ([BeginGroup(uid, gname)] + EarlyRest(p))
  }

  /** The child of the early post, when its group has no more than a directory. */
  ghost predicate Early(s: Sys, p: Pid, req: Request, pc: Pc) {
    && p in s.procs && s.procs[p].req == req && s.procs[p].gid == req.gid && s.procs[p].pc == pc
    && IsDir(s.tree, GroupDir(req.gid)) && MsgsDir(req.gid) !in s.tree
  }

  lemma ForkedEarly(s: Sys, p: Pid, req: Request)
    requires Enabled(s, Fork(p, req))
    ensures var s' := Next(s, Fork(p, req));
      && s' == s.(procs := s'.procs) && p in s'.procs && s'.procs[p].req == req
      && s'.procs[p].gid == req.gid && s'.procs[p].pc == Check
  {
    PstHeadRoundTrip(req.gid, req.post);
  }

  lemma BegunEarly(s: Sys, p: Pid, req: Request, uid: string, gname: string)
    requires TreeOk(s) && Enabled(s, BeginGroup(uid, gname)) && req.gid == Dec(2, |s.server.groups| + 1)
    requires p in s.procs && s.procs[p].req == req && s.procs[p].gid == req.gid && s.procs[p].pc == Check
    ensures Early(Next(s, BeginGroup(uid, gname)), p, req, Check)
  {
    Server.FreeIds(s.server);
    NothingInGroup(s.tree, s.server, req.gid, MsgsDir(req.gid));
    assert MsgsDir(req.gid) != GroupDir(req.gid);
  }

  lemma EarlyScans(s: Sys, p: Pid, req: Request)
    requires Early(s, p, req, Check)
    ensures IsRun(s, [CheckGroup(p), OpenDir(p)])
    ensures Early(After(s, [CheckGroup(p), OpenDir(p)]), p, req, Scanning({}, false))
  {
    var s1 := Next(s, CheckGroup(p));
    assert Early(s1, p, req, Open);
    RunOf(s1, OpenDir(p), []);
    RunOf(s, CheckGroup(p), [OpenDir(p)]);
  }

  lemma EarlyCounts(s: Sys, p: Pid, req: Request)
    requires Early(s, p, req, Scanning({}, false))
    ensures Enabled(s, CloseDir(p, {})) && Early(Next(s, CloseDir(p, {})), p, req, Claim(1, {}))
  {
  }

  lemma EarlyFails(s: Sys, p: Pid, req: Request)
    requires Early(s, p, req, Claim(1, {}))
    ensures Enabled(s, Mkdir(p)) && Early(Next(s, Mkdir(p)), p, req, Failed)
  {
  }

  lemma EarlyClaims(s: Sys, p: Pid, req: Request)
    requires Early(s, p, req, Scanning({}, false))
    ensures IsRun(s, [CloseDir(p, {}), Mkdir(p)])
    ensures Early(After(s, [CloseDir(p, {}), Mkdir(p)]), p, req, Failed)
  {
    EarlyCounts(s, p, req);
    var s1 := Next(s, CloseDir(p, {}));
    EarlyFails(s1, p, req);
    RunOf(s1, Mkdir(p), []);
    RunOf(s, CloseDir(p, {}), [Mkdir(p)]);
  }

  lemma EarlyRefused(s: Sys, p: Pid, req: Request)
    requires Early(s, p, req, Check)
    ensures IsRun(s, EarlyRest(p)) && Early(After(s, EarlyRest(p)), p, req, Failed)
  {
    EarlyScans(s, p, req);
    EarlyClaims(After(s, [CheckGroup(p), OpenDir(p)]), p, req);
    RunAppend(s, [CheckGroup(p), OpenDir(p)], [CloseDir(p, {}), Mkdir(p)]);
  }

  lemma EarlyMaking(s: Sys, p: Pid, req: Request, uid: string, gname: string)
    requires TreeOk(s) && Enabled(s, BeginGroup(uid, gname)) && req.gid == Dec(2, |s.server.groups| + 1)
    requires p in s.procs && s.procs[p].req == req && s.procs[p].gid == req.gid && s.procs[p].pc == Check
    ensures IsRun(s, [BeginGroup(uid, gname)] + EarlyRest(p))
    ensures Early(After(s, [BeginGroup(uid, gname)] + EarlyRest(p)), p, req, Failed)
  {
    BegunEarly(s, p, req, uid, gname);
    EarlyRefused(Next(s, BeginGroup(uid, gname)), p, req);
    RunOf(s, BeginGroup(uid, gname), EarlyRest(p));
  }

  lemma EarlyRun(s: Sys, p: Pid, req: Request, uid: string, gname: string)
    requires TreeOk(s) && Enabled(s, Fork(p, req)) && Enabled(s, BeginGroup(uid, gname))
    requires req.gid == Dec(2, |s.server.groups| + 1)
    ensures IsRun(s, EarlyPost(p, req, uid, gname))
    ensures Early(After(s, EarlyPost(p, req, uid, gname)), p, req, Failed)
  {
    var s1 := Next(s, Fork(p, req));
    ForkedEarly(s, p, req);
    EarlyMaking(s1, p, req, uid, gname);
    RunOf(s, Fork(p, req), [BeginGroup(uid, gname)] + EarlyRest(p));
  }

  /** Such a post is refused, although no other post has claimed anything in its group. */
  lemma EarlyPostRefused(s: Sys, p: Pid, req: Request, uid: string, gname: string)
    requires Inv(s) && Enabled(s, Fork(p, req)) && Enabled(s, BeginGroup(uid, gname))
    requires req.gid == Dec(2, |s.server.groups| + 1)
    ensures IsRun(s, EarlyPost(p, req, uid, gname))
    ensures var s' := After(s, EarlyPost(p, req, uid, gname));
      && p in s'.procs && s'.procs[p].pc == Failed && s'.procs[p].req == req
      && LogOf(s', req.gid) == [] && forall q :: !HeldByAnother(s', q, req.gid, 1)
  {
    EarlyRun(s, p, req, uid, gname);
    RunKeepsInv(s, EarlyPost(p, req, uid, gname));
    EmptyGroup(After(s, EarlyPost(p, req, uid, gname)), req.gid);
  }

  lemma EmptyGroup(s: Sys, gid: string)
    requires PostsOk(s) && SubDirs(s.tree, MsgsDir(gid)) == {}
    ensures LogOf(s, gid) == [] && forall q :: !HeldByAnother(s, q, gid, 1)
  {
    MsgsOk(s, gid);
    IdsCount(4, |LogOf(s, gid)|);
    forall q | q in s.procs && s.procs[q].gid == gid ensures Owned(s.procs[q].pc) != Some(1) {
      ChildOk(s, q);
    }
  }
}
