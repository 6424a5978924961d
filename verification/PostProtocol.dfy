/**
 * The server as a whole: one serial process for the UDP commands, and any number of forked
 * children that post, interleaved step by step on one directory tree without a lock.
 */
module PostProtocol {
  import opened CText
  import opened Sorting
  import opened Tree
  import opened Wire
  import opened Messages
  import Server
  import opened ServerTree

  type Pid = nat

  /** What a client asks of one forked child. */
  datatype Request = Request(gid: string, post: Post)

  /**
   * Where a child is in `post`. `base` is what MSG held when it was opened, nothing if it could
   * not be; `id` is the message id the child has counted, and from `Author` on has claimed. In the
   * stages called open, a file has been created and holds `n` bytes so far.
   */
  datatype Pc =
    | Check
    | Open
    | Scanning(base: set<string>, found: bool)
    | Claim(id: nat, base: set<string>)
    | Author(id: nat)
    | AuthorOpen(id: nat, n: nat)
    | Text(id: nat)
    | TextOpen(id: nat, n: nat)
    | Peek(id: nat)
    | Data(id: nat)
    | DataOpen(id: nat, n: nat)
    | Answer(id: nat)
    | Done(id: nat)
    | Failed

  /** `req` is what the client sent; the other fields are what the child has parsed of it. */
  datatype Proc = Proc(req: Request, uid: string, gid: string, text: string, rest: string, pc: Pc)

  /** How far `subscribe` has got with a new group: its directory, MSG, `n` bytes of `name.txt`. */
  datatype Stage = Bare | WithMsgs | Naming(n: nat) | Named

  datatype Making = Making(gid: string, gname: string, uid: string, stage: Stage)

  /** `log` is a history variable: per group, the children that claimed message 1, 2, and so on. */
  datatype Sys = Sys(tree: Tree, server: Server.State, making: Option<Making>,
                     procs: map<Pid, Proc>, log: map<string, seq<Pid>>)

  /**
   * The main process serves a command in one step as far as children can see, except that it makes
   * a new group entry by entry. It forks only between commands. A file that others may read is
   * created empty, then written in any number of pieces, and closed.
   */
  datatype Action =
    | Serve(command: Server.Command, tree: Tree)
    | BeginGroup(uid: string, gname: string)
    | AddMsgs
    | AddName
    | WriteName(n: nat)
    | CloseName
    | AddFirstSub
    | Fork(pid: Pid, req: Request)
    | CheckGroup(pid: Pid)
    | OpenDir(pid: Pid)
    | CloseDir(pid: Pid, seen: set<string>)
    | Mkdir(pid: Pid)
    | StoreAuthor(pid: Pid)
    | StoreText(pid: Pid)
    | ReadByte(pid: Pid)
    | StoreFile(pid: Pid)
    | Write(pid: Pid, n: nat)
    | Close(pid: Pid)
    | Respond(pid: Pid)

  const MAX_MID := 9999

  function LogOf(s: Sys, gid: string): seq<Pid> {
    if gid in s.log then s.log[gid] else []
  }

  function Goto(s: Sys, pid: Pid, pc: Pc): Sys
    requires pid in s.procs
  {
    s.(procs := s.procs[pid := s.procs[pid].(pc := pc)])
  }

  function Mid(id: nat): string {
    Dec(4, id)
  }

  function DirOf(c: Proc, id: nat): Path {
    MsgDir(c.gid, Mid(id))
  }

  predicate Serial(a: Action) {
    || a.Serve? || a.BeginGroup? || a.AddMsgs? || a.AddName? || a.WriteName? || a.CloseName?
    || a.AddFirstSub?
  }

  /** The main process waits for the next request. */
  predicate Idle(s: Sys) {
    s.making.None? && s.server.up
  }

  // ---- an open file ----

  predicate Filling(pc: Pc) {
    pc.AuthorOpen? || pc.TextOpen? || pc.DataOpen?
  }

  /** What the child writes into the file it has open. */
  function Content(c: Proc): string {
    match c.pc
    case AuthorOpen(_, _) => c.uid
    case TextOpen(_, _) => c.text
    case DataOpen(_, _) => if ParseTail(c.rest).Some? then ParseTail(c.rest).value.data else ""
    case _ => ""
  }

  /** Where that file is in the directory of the message. */
  function OpenName(c: Proc): seq<string> {
    match c.pc
    case AuthorOpen(_, _) => ["author.txt"]
    case TextOpen(_, _) => ["text.txt"]
    case DataOpen(_, _) => ["FILE", if ParseTail(c.rest).Some? then ParseTail(c.rest).value.name else ""]
    case _ => []
  }

  /** The stage at which `n` bytes have been written. */
  function Filled(pc: Pc, n: nat): Pc
    requires Filling(pc)
  {
    pc.(n := n)
  }

  function Closed(pc: Pc): Pc
    requires Filling(pc)
  {
    match pc
    case AuthorOpen(id, _) => Text(id)
    case TextOpen(id, _) => Peek(id)
    case DataOpen(id, _) => Answer(id)
  }

  /**
   * When an action may happen. A scan of MSG may or may not see directories made while it runs.
   * An id past 9999 overflows the buffer it is printed into, so such a child has no step.
   */
  ghost predicate Enabled(s: Sys, a: Action) {
    if Serial(a) then EnabledSerial(s, a)
    else if a.Fork? then Idle(s) && a.pid !in s.procs && ValidPost(a.req.post) && ValidGid(a.req.gid)
    else a.pid in s.procs && EnabledAt(s, a, s.procs[a.pid])
  }

  ghost predicate EnabledSerial(s: Sys, a: Action)
    requires Serial(a)
  {
    match a
    case Serve(c, t) =>
      && Idle(s) && Server.NamedGroup(c) && !Server.Exec(s.server, c).1.New?
      && AreaKept(s.tree, t) && Represents(t, Server.Exec(s.server, c).0)
    case BeginGroup(uid, gname) =>
      Idle(s) && gname != "" && Server.Exec(s.server, Server.Gsr(uid, "00", gname)).1.New?
    case AddMsgs => s.making.Some? && s.making.value.stage.Bare?
    case AddName => s.making.Some? && s.making.value.stage.WithMsgs?
    case WriteName(n) =>
      && s.making.Some? && s.making.value.stage.Naming?
      && s.making.value.stage.n <= n <= |s.making.value.gname|
    case CloseName =>
      s.making.Some? && s.making.value.stage.Naming? && s.making.value.stage.n == |s.making.value.gname|
    case AddFirstSub => s.making.Some? && s.making.value.stage.Named?
  }

  /** When the child `c` can take the step. */
  predicate EnabledAt(s: Sys, a: Action, c: Proc)
    requires !Serial(a) && !a.Fork?
  {
    match a
    case CheckGroup(_) => c.pc.Check?
    case OpenDir(_) => c.pc.Open?
    case CloseDir(_, seen) =>
      && c.pc.Scanning? && c.pc.base <= seen <= SubDirs(s.tree, MsgsDir(c.gid))
      && (!c.pc.found ==> seen == {})
    case Mkdir(_) => c.pc.Claim? && c.pc.id <= MAX_MID
    case StoreAuthor(_) => c.pc.Author?
    case StoreText(_) => c.pc.Text?
    case ReadByte(_) => c.pc.Peek?
    case StoreFile(_) => c.pc.Data? && ParseTail(c.rest).Some?
    case Write(_, n) => Filling(c.pc) && c.pc.n <= n <= |Content(c)|
    case Close(_) => Filling(c.pc) && c.pc.n == |Content(c)|
    case Respond(_) => c.pc.Answer?
  }

  /** Go on if the entry can be created, and fail otherwise. */
  function Create(s: Sys, pid: Pid, path: Path, e: Entry, pc: Pc): Sys
    requires pid in s.procs && path != []
  {
    if IsDir(s.tree, Parent(path)) && !IsDir(s.tree, path) && (e.Dir? ==> path !in s.tree) then
      Goto(s.(tree := s.tree[path := e]), pid, pc)
    else
      Goto(s, pid, Failed)
  }

  ghost function Next(s: Sys, a: Action): Sys
    requires Enabled(s, a)
  {
    if Serial(a) then NextSerial(s, a)
    else if a.Fork? then NewChild(s, a.pid, a.req)
    else NextAt(s, a, s.procs[a.pid])
  }

  ghost function NextSerial(s: Sys, a: Action): Sys
    requires Serial(a) && EnabledSerial(s, a)
  {
    match a
    case Serve(c, t) => s.(tree := t, server := Server.Exec(s.server, c).0)
    case BeginGroup(uid, gname) =>
      var gid := Dec(2, |s.server.groups| + 1);
      s.(tree := s.tree[GroupDir(gid) := Dir], making := Some(Making(gid, gname, uid, Bare)))
    case AddMsgs =>
      var m := s.making.value;
      s.(tree := s.tree[MsgsDir(m.gid) := Dir], making := Some(m.(stage := WithMsgs)))
    case AddName =>
      var m := s.making.value;
      s.(tree := s.tree[GroupEntry(m.gid, "name.txt") := File("")], making := Some(m.(stage := Naming(0))))
    case WriteName(n) =>
      var m := s.making.value;
      s.(tree := s.tree[GroupEntry(m.gid, "name.txt") := File(m.gname[..n])],
         making := Some(m.(stage := Naming(n))))
    case CloseName =>
      var m := s.making.value;
      s.(server := Server.NewGroup(s.server, m.gid, m.gname), making := Some(m.(stage := Named)))
    case AddFirstSub =>
      var m := s.making.value;
      s.(tree := s.tree[GroupEntry(m.gid, m.uid) := File("")],
         server := if m.gid in s.server.groups then Server.Subscribed(s.server, m.uid, m.gid) else s.server,
         making := None)
  }

  /** A child starts with what it has parsed of its request. */
  function NewChild(s: Sys, pid: Pid, req: Request): Sys {
    var h := ParseHead(PstBody(req.gid, req.post));
    var pc := if ValidUid(h.uid) && ValidGid(h.gid) then Check else Failed;
    s.(procs := s.procs[pid := Proc(req, h.uid, h.gid, h.text, h.rest, pc)])
  }

  function NextAt(s: Sys, a: Action, c: Proc): Sys
    requires !Serial(a) && !a.Fork? && a.pid in s.procs && EnabledAt(s, a, c)
  {
    match a
    case CheckGroup(pid) => Goto(s, pid, if IsDir(s.tree, GroupDir(c.gid)) then Open else Failed)
    case OpenDir(pid) => Goto(s, pid, Scanning(SubDirs(s.tree, MsgsDir(c.gid)), IsDir(s.tree, MsgsDir(c.gid))))
    case CloseDir(pid, seen) => Goto(s, pid, Claim(|seen| + 1, c.pc.base))
    case Mkdir(pid) =>
      if MkdirSucceeds(s, c) then
        Goto(s.(tree := s.tree[DirOf(c, c.pc.id) := Dir],
                log := s.log[c.gid := LogOf(s, c.gid) + [pid]]), pid, Author(c.pc.id))
      else
        Goto(s, pid, Failed)
    case StoreAuthor(pid) =>
      Create(s, pid, DirOf(c, c.pc.id) + ["author.txt"], File(""), AuthorOpen(c.pc.id, 0))
    case StoreText(pid) =>
      Create(s, pid, DirOf(c, c.pc.id) + ["text.txt"], File(""), TextOpen(c.pc.id, 0))
    case ReadByte(pid) =>
      if c.rest != [] && c.rest[0] == ' ' then
        Create(s, pid, DirOf(c, c.pc.id) + ["FILE"], Dir, Data(c.pc.id))
      else
        Goto(s, pid, Answer(c.pc.id))
    case StoreFile(pid) =>
      Create(s, pid, DirOf(c, c.pc.id) + ["FILE", ParseTail(c.rest).value.name], File(""), DataOpen(c.pc.id, 0))
    case Write(pid, n) =>
      Goto(s.(tree := s.tree[DirOf(c, c.pc.id) + OpenName(c) := File(Content(c)[..n])]), pid, Filled(c.pc, n))
    case Close(pid) => Goto(s, pid, Closed(c.pc))
    case Respond(pid) => Goto(s, pid, Done(c.pc.id))
  }

  predicate MkdirSucceeds(s: Sys, c: Proc)
    requires c.pc.Claim?
  {
    DirOf(c, c.pc.id) !in s.tree && IsDir(s.tree, MsgsDir(c.gid))
  }

  // ---- what holds in every state ----

  /** The id a child has claimed. */
  function Owned(pc: Pc): Option<nat> {
    match pc
    case Author(id) => Some(id)
    case AuthorOpen(id, _) => Some(id)
    case Text(id) => Some(id)
    case TextOpen(id, _) => Some(id)
    case Peek(id) => Some(id)
    case Data(id) => Some(id)
    case DataOpen(id, _) => Some(id)
    case Answer(id) => Some(id)
    case Done(id) => Some(id)
    case _ => None
  }

  /** The post with only the first `n` bytes of its file. */
  function FirstBytes(p: Post, n: nat): Post {
    match p.file
    case None => p
    case Some(f) => p.(file := Some(Attachment(f.name, Take(f.data, n))))
  }

  /** What the directory of a claimed message holds, by how far its owner has got. */
  function Image(d: Path, p: Post, pc: Pc): Tree {
    match pc
    case Author(_) => map[d := Dir]
    case AuthorOpen(_, n) => WithAuthor(d, Take(p.uid, n))
    case Text(_) => WithAuthor(d, p.uid)
    case TextOpen(_, n) => WithText(d, p.(text := Take(p.text, n)))
    case Peek(_) => WithText(d, p)
    case Data(_) => WithFileDir(d, p)
    case DataOpen(_, n) => Stored(d, FirstBytes(p, n))
    case _ => Stored(d, p)
  }

  ghost predicate ParsedOk(c: Proc) {
    && ValidPost(c.req.post) && ValidGid(c.req.gid)
    && c.uid == c.req.post.uid && c.gid == c.req.gid && c.text == c.req.post.text
    && c.rest == PstTail(c.req.post.file)
    && (c.pc.Data? || c.pc.DataOpen? ==> c.req.post.file.Some?)
    && (Filling(c.pc) ==> c.pc.n <= |Content(c)|)
  }

  /** A remembered id never exceeds the next free one, and was not there when MSG was opened. */
  ghost predicate CountedOk(s: Sys, c: Proc) {
    && (c.pc.Open? || c.pc.Scanning? || c.pc.Claim? ==> IsDir(s.tree, GroupDir(c.gid)))
    && (c.pc.Scanning? ==> c.pc.base <= SubDirs(s.tree, MsgsDir(c.gid)) && c.pc.base == Ids(4, |c.pc.base|))
    && (c.pc.Claim? ==> 1 <= c.pc.id <= |LogOf(s, c.gid)| + 1
                        && c.pc.base == Ids(4, |c.pc.base|) && |c.pc.base| < c.pc.id)
  }

  /** The owner of the `i`-th message of a group, and how much of the message it has stored. */
  ghost predicate OwnedOk(s: Sys, gid: string, i: nat)
    requires i < |LogOf(s, gid)|
  {
    var pid := LogOf(s, gid)[i];
    && pid in s.procs && s.procs[pid].gid == gid
    && Owned(s.procs[pid].pc) == Some(i + 1)
    && Sub(s.tree, MsgDir(gid, Mid(i + 1)))
       == Image(MsgDir(gid, Mid(i + 1)), s.procs[pid].req.post, s.procs[pid].pc)
  }

  ghost predicate InLog(s: Sys, pid: Pid, c: Proc) {
    match Owned(c.pc)
    case None => true
    case Some(id) => 1 <= id <= |LogOf(s, c.gid)| && LogOf(s, c.gid)[id - 1] == pid
  }

  /** MSG holds exactly the directories 0001 to the number of claims, and nothing else. */
  ghost predicate DirectoryOk(s: Sys, gid: string) {
    && SubDirs(s.tree, MsgsDir(gid)) == Ids(4, |LogOf(s, gid)|) == Names(s.tree, MsgsDir(gid))
    && |LogOf(s, gid)| <= MAX_MID
  }

  ghost predicate DirsOk(s: Sys) {
    forall gid :: DirectoryOk(s, gid)
  }

  ghost predicate ProcOk(s: Sys, pid: Pid, c: Proc) {
    ParsedOk(c) && CountedOk(s, c) && InLog(s, pid, c)
  }

  ghost predicate ProcsOk(s: Sys) {
    forall pid :: pid in s.procs ==> ProcOk(s, pid, s.procs[pid])
  }

  ghost predicate LogsOk(s: Sys) {
    forall gid, i :: 0 <= i < |LogOf(s, gid)| ==> OwnedOk(s, gid, i)
  }

  datatype Part = Directories | Children | Claims

  ghost predicate PartOk(s: Sys, part: Part) {
    match part
    case Directories => DirsOk(s)
    case Children => ProcsOk(s)
    case Claims => LogsOk(s)
  }

  ghost predicate PostsOk(s: Sys) {
    forall part: Part :: PartOk(s, part)
  }

  lemma Parts(s: Sys)
    requires PostsOk(s)
    ensures DirsOk(s) && ProcsOk(s) && LogsOk(s)
  {
    assert PartOk(s, Directories) && PartOk(s, Children) && PartOk(s, Claims);
  }

  lemma Whole(s: Sys)
    requires DirsOk(s) && ProcsOk(s) && LogsOk(s)
    ensures PostsOk(s)
  {
  }

  lemma ChildOk(s: Sys, pid: Pid)
    requires PostsOk(s) && pid in s.procs
    ensures ProcOk(s, pid, s.procs[pid])
  {
    Parts(s);
  }

  lemma MessageOk(s: Sys, gid: string, i: nat)
    requires PostsOk(s) && i < |LogOf(s, gid)|
    ensures OwnedOk(s, gid, i)
  {
    Parts(s);
  }

  lemma MsgsOk(s: Sys, gid: string)
    requires PostsOk(s)
    ensures DirectoryOk(s, gid)
  {
    Parts(s);
  }

  /** What `name.txt` holds of a group that is being made; None if it is not there. */
  function NameSoFar(m: Making): Option<string> {
    match m.stage
    case Naming(n) => Some(Take(m.gname, n))
    case Named => Some(m.gname)
    case _ => None
  }

  /** What the tree represents while a group is being made. */
  ghost predicate MakingOk(s: Sys, m: Making) {
    && ValidGname(m.gname) && m.gname != "" && ValidUid(m.uid) && m.uid in s.server.users && s.server.up
    && (m.stage.Naming? ==> m.stage.n <= |m.gname|)
    && if m.stage.Named? then
         Represents(s.tree, s.server) && m.gid in s.server.groups && s.server.groups[m.gid].name == m.gname
       else
         && RepresentsMaking(s.tree, s.server, m.gid, !m.stage.Bare?, NameSoFar(m))
         && m.gid == Dec(2, |s.server.groups| + 1) && |s.server.groups| < Server.MAX_GROUPS
  }

  ghost predicate TreeOk(s: Sys) {
    && Server.Inv(s.server)
    && if s.making.None? then Represents(s.tree, s.server) else MakingOk(s, s.making.value)
  }

  ghost predicate Inv(s: Sys) {
    TreeOk(s) && PostsOk(s)
  }

  const START := Sys(INITIAL_TREE, Server.INITIAL, None, map[], map[])
}
