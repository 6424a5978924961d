/**
 * The main process on the machine: each datagram, dispatched by its first word, is a run of the
 * transition system.
 */
module MainProcess {
  import opened CText
  import opened Sorting
  import opened Tree
  import opened Wire
  import opened Messages
  import Server
  import opened ServerTree
  import opened PostProtocol
  import opened PostTheorems
  import opened Host
  import opened Tokenizer
  import opened GroupLists
  import opened ListServer
  import opened Reachable
  import opened ServerCommands
  import opened Requests

  /** What a client may send as a datagram. */
  datatype Datagram = Change(command: Server.Command) | AllGroups | GroupsOf(uid: string)

  function WordsIn(d: Datagram): seq<string> {
    match d
    case Change(c) => Fields(c)
    case AllGroups => ["GLS"]
    case GroupsOf(uid) => ["GLM", uid]
  }

  /** What the programs do to the tree are steps of the transition system. */
  lemma CommandIsRun(s: Sys, c: Server.Command, t: Tree) returns (run: seq<Action>)
    requires TreeOk(s) && Idle(s) && Server.NamedGroup(c) && Represents(t, Server.Exec(s.server, c).0)
    requires TreeAfter(s.tree, t, c, Server.Exec(s.server, c).1)
    ensures IsRun(s, run) && After(s, run) == s.(tree := t, server := Server.Exec(s.server, c).0)
  {
    if Server.Exec(s.server, c).1.New? {
      Server.NewOutcome(s.server, c);
      GroupMade(s, c.uid, c.gname);
      run := MakeGroup(c.uid, c.gname);
    } else {
      var a := Serve(c, t);
      assert Enabled(s, a);
      RunOf(s, a, []);
      assert [a] + [] == [a];
      run := [a];
    }
  }

  /** The two lists are told apart from each other and from all other commands. */
  lemma ListNames(d: Datagram)
    ensures WordsIn(d)[0] == "GLS" <==> d.AllGroups?
    ensures WordsIn(d)[0] == "GLM" <==> d.GroupsOf?
  {
    assert "GLS"[2] == 'S' && "GLM"[2] == 'M' && "GLS"[1] == "GLM"[1] == 'L';
    if d.Change? {
      NameTells(d.command);
      assert WordsIn(d)[0] == Name(d.command);
      assert "GSR"[1] == 'S' && "GUR"[1] == 'U';
    }
  }

  lemma CommandDone(s: Sys, c: Server.Command, t: Tree)
    requires Inv(s) && Idle(s) && Server.NamedGroup(c) && Represents(t, Server.Exec(s.server, c).0)
    requires TreeAfter(s.tree, t, c, Server.Exec(s.server, c).1)
    ensures var s' := s.(tree := t, server := Server.Exec(s.server, c).0); Inv(s') && Reaches(s, s', false)
  {
    var run := CommandIsRun(s, c, t);
    RunKeepsInv(s, run);
  }

  /** The command on the tree; the process itself may end with it. */
  method ExecuteOn(fs: FileSystem, up: bool, buf: array<char>, command: string, str: Option<nat>,
                   ghost s: Server.State, ghost c: Server.Command, ghost i: nat) returns (r: Server.Reply)
    requires Represents(fs.tree, s) && Server.Inv(s) && up && up == s.up
    requires Words(Fields(c)) && Server.NamedGroup(c) && command == Name(c) && Cut(buf[..], str, Fields(c), [i])
    modifies fs, buf
    ensures r == Server.Exec(s, c).1 && Represents(fs.tree, Server.Exec(s, c).0)
    ensures TreeAfter(old(fs.tree), fs.tree, c, r)
  {
    var server := new DirectoryServer(fs, up, s);
    r := Execute(server, buf, command, str, c, i);
  }

  /** One command that changes the tree, as a run. */
  method ServeChange(m: Machine, up: bool, buf: array<char>, command: string, str: Option<nat>,
                     ghost c: Server.Command, ghost i: nat) returns (r: Server.Reply)
    requires m.Valid() && Idle(m.sys) && up && Words(Fields(c)) && Server.NamedGroup(c) && command == Name(c)
    requires Cut(buf[..], str, Fields(c), [i])
    modifies m, m.fs, buf
    ensures m.Valid() && Reaches(old(m.sys), m.sys, false)
    ensures m.sys == old(m.sys).(tree := m.fs.tree, server := Server.Exec(old(m.sys).server, c).0)
    ensures r == Server.Exec(old(m.sys).server, c).1 && TreeAfter(old(m.sys).tree, m.sys.tree, c, r)
  {
    ghost var s := m.sys;
    r := ExecuteOn(m.fs, up, buf, command, str, s.server, c, i);
    CommandDone(s, c, m.fs.tree);
    m.sys := s.(tree := m.fs.tree, server := Server.Exec(s.server, c).0);
  }

  /** The reply to a datagram that is for a list, and how it was made. */
  ghost predicate ListReply(s: Sys, s': Sys, d: Datagram, reply: string, gs: seq<GroupLine>, spans: seq<Span>)
    requires !d.Change?
  {
    match d
    case AllGroups =>
      && LinesOk(s, s', gs, spans) && Gids(gs) == IdSeq(2, |s.server.groups|) && reply == Listing("RGL", gs)
    case GroupsOf(uid) =>
      if !ValidUid(uid) then reply == "RGM E_USR\n"
      else if uid !in s.server.logged then reply == "RGS E_USR\n"
      else MyLinesOk(s, s', uid, IdSeq(2, |s.server.groups|), gs, spans) && reply == Listing("RGM", gs)
  }

  /** The two lists, once the command word has been cut off. */
  method ServeList(m: Machine, buf: array<char>, str: Option<nat>, ghost d: Datagram, ghost i: nat, all: bool)
      returns (reply: string, ghost gs: seq<GroupLine>, ghost spans: seq<Span>)
    requires m.Valid() && Idle(m.sys) && !d.Change? && (all <==> d.AllGroups?)
    requires Words(WordsIn(d)) && Cut(buf[..], str, WordsIn(d), [i])
    modifies m, m.fs, buf
    ensures m.Valid() && Reaches(old(m.sys), m.sys, true)
    ensures ListReply(old(m.sys), m.sys, d, reply, gs, spans)
  {
    ghost var s, j := m.sys, 0;
    if all {
      reply, gs, spans := Groups(m);
      ReachesLater(s, m.sys, true);
    } else {
      var uid, rest;
      uid, rest, j := TakeWord(buf, str, WordsIn(d), [i]);
      reply, gs, spans := MyGroups(m, uid);
      ReachesLater(s, m.sys, true);
    }
  }

  /**
   * `parse_udp_message`: whatever stale bytes follow the datagram in the buffer, the main process
   * does what was asked for, or nothing if it has ended.
   */
  method Dispatch(m: Machine, up: bool, buf: array<char>, ghost d: Datagram)
      returns (reply: Option<string>, ghost gs: seq<GroupLine>, ghost spans: seq<Span>)
    requires m.Valid() && m.sys.making.None? && up == m.sys.server.up
    requires Words(WordsIn(d)) && (d.Change? ==> Server.NamedGroup(d.command))
    requires TextAt(buf[..], 0, Line(WordsIn(d)))
    modifies m, m.fs, buf
    ensures m.Valid() && Reaches(old(m.sys), m.sys, false)
    ensures !up ==> reply == None && m.sys == old(m.sys)
    ensures up && d.Change? ==>
      && m.sys.server == Server.Exec(old(m.sys).server, d.command).0
      && reply == ReplyTo(old(m.sys).server, d.command)
      && TreeAfter(old(m.sys).tree, m.sys.tree, d.command, Server.Exec(old(m.sys).server, d.command).1)
    ensures up && !d.Change? ==> reply.Some? && ListReply(old(m.sys), m.sys, d, reply.value, gs, spans)
  {
    gs, spans := [], [];
    if !up {
      ReachesItself(m.sys, false);
      return None, gs, spans;
    }
    ghost var i := 0;
    ListNames(d);
    var command, str;
    command, str, i := TakeWord(buf, Some(0), WordsIn(d), []);
    assert [] + [i] == [i];
    if command == "GLS" || command == "GLM" {
      ghost var s := m.sys;
      var text;
      text, gs, spans := ServeList(m, buf, str, d, i, command == "GLS");
      AnyProcess(s, m.sys);
      reply := Some(text);
    } else {
      var r := ServeChange(m, up, buf, command, str, d.command, i);
      reply := SendReply(command, r, d.command);
    }
  }

  lemma AnyProcess(s: Sys, s': Sys)
    requires Reaches(s, s', true)
    ensures Reaches(s, s', false)
  {
  }

  /** `create_filesystem` in an empty directory: from then on the machine may do whatever it does. */
  method Boot() returns (m: Machine)
    ensures fresh(m) && fresh(m.fs) && m.Valid() && m.sys == START && Idle(m.sys)
  {
    StartInv();
    var fs := new FileSystem(map[[] := Dir]);
    var ok := fs.CreateDirectory(USERS);
    ok := fs.CreateDirectory(GROUPS);
    assert fs.tree == INITIAL_TREE;
    m := new Machine(fs, START);
  }
}
