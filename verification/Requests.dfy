/**
 * A serial command as a datagram: the line the client prints, the words the server cuts from a
 * buffer that still holds earlier datagrams, the reply, and the status the client reads.
 */
module Requests {
  import opened CText
  import opened Tree
  import opened Wire
  import opened Tokenizer
  import opened Server
  import opened ServerTree
  import opened ServerCommands

  function Name(c: Command): string {
    match c
    case Reg(_, _) => "REG"
    case Unr(_, _) => "UNR"
    case Log(_, _) => "LOG"
    case Out(_, _) => "OUT"
    case Gsr(_, _, _) => "GSR"
    case Gur(_, _) => "GUR"
  }

  function Arguments(c: Command): (r: seq<string>)
    ensures |r| == if c.Gsr? then 3 else 2
  {
    match c
    case Reg(uid, pass) => [uid, pass]
    case Unr(uid, pass) => [uid, pass]
    case Log(uid, pass) => [uid, pass]
    case Out(uid, pass) => [uid, pass]
    case Gsr(uid, gid, gname) => [uid, gid, gname]
    case Gur(uid, gid) => [uid, gid]
  }

  function Fields(c: Command): seq<string> {
    [Name(c)] + Arguments(c)
  }

  function Tag(c: Command): string {
    match c
    case Reg(_, _) => "RRG"
    case Unr(_, _) => "RUN"
    case Log(_, _) => "RLO"
    case Out(_, _) => "ROU"
    case Gsr(_, _, _) => "RGS"
    case Gur(_, _) => "RGU"
  }

  function Status(r: Reply): string
    requires r != Crash
  {
    match r
    case Ok => "OK"
    case Nok => "NOK"
    case Dup => "DUP"
    case New(_) => "NEW"
    case EUsr => "E_USR"
    case EGrp => "E_GRP"
    case EGname => "E_GNAME"
    case EFull => "E_FULL"
  }

  function ReplyFields(c: Command, r: Reply): seq<string>
    requires r != Crash
  {
    [Tag(c), Status(r)] + if r.New? then [r.gid] else []
  }

  /** The datagram sent back for a command, if any. */
  function ReplyTo(s: State, c: Command): Option<string> {
    var r := Exec(s, c).1;
    if r == Crash then None else Some(Line(ReplyFields(c, r)))
  }

  /** `strcmp` tells every status apart from all others. */
  lemma StatusTells(r: Reply)
    requires r != Crash
    ensures Status(r) == "OK" <==> r == Ok
    ensures Status(r) == "NOK" <==> r == Nok
    ensures Status(r) == "DUP" <==> r == Dup
    ensures Status(r) == "NEW" <==> r.New?
    ensures Status(r) == "E_USR" <==> r == EUsr
    ensures Status(r) == "E_GRP" <==> r == EGrp
    ensures Status(r) == "E_GNAME" <==> r == EGname
    ensures Status(r) == "E_FULL" <==> r == EFull
  {
    assert "NOK"[0] == "NEW"[0] == 'N' && "DUP"[0] == 'D' && "NOK"[1] == 'O' && "NEW"[1] == 'E';
    assert "E_USR"[2] == 'U' && "E_GRP"[2] == 'G';
  }

  /** The command names are told apart by `strcmp`. */
  lemma NameTells(c: Command)
    ensures Name(c) == "REG" <==> c.Reg?
    ensures Name(c) == "UNR" <==> c.Unr?
    ensures Name(c) == "LOG" <==> c.Log?
    ensures Name(c) == "OUT" <==> c.Out?
    ensures Name(c) == "GSR" <==> c.Gsr?
    ensures Name(c) == "GUR" <==> c.Gur?
  {
    assert "REG"[0] == 'R' && "UNR"[0] == 'U' && "LOG"[0] == 'L' && "OUT"[0] == 'O';
    assert "GSR"[0] == 'G' && "GUR"[0] == 'G' && "GSR"[1] == 'S' && "GUR"[1] == 'U';
  }

  lemma ReplyWords(c: Command, r: Reply)
    requires r != Crash && (r.New? ==> r.gid != [] && NoDelim(r.gid))
    ensures Words(ReplyFields(c, r))
  {
  }

  /** The id of a new group is a word of two bytes. */
  lemma NewIdIsWord(n: nat)
    requires n <= MAX_GROUPS
    ensures |Dec(2, n)| == 2 && NoDelim(Dec(2, n))
  {
    assert Pow10(2) == 100 by {
      assert Pow10(1) == 10;
    }
    DecLength(2, n, 2);
    DecWord(2, n);
  }

  /** Every reply is a line of words that fits the client's buffer with its final NUL. */
  lemma ReplyFits(s: State, c: Command)
    requires Exec(s, c).1 != Crash
    ensures var ws := ReplyFields(c, Exec(s, c).1); Words(ws) && |Line(ws)| < BUFFER_SIZE
  {
    var r := Exec(s, c).1;
    if r.New? {
      NewOutcome(s, c);
      NewIdIsWord(|s.groups| + 1);
    }
    ReplyWords(c, r);
    LineSize(c, r);
  }

  lemma LineSize(c: Command, r: Reply)
    requires r != Crash && (r.New? ==> |r.gid| == 2)
    ensures |Line(ReplyFields(c, r))| <= 12
  {
    var ws := ReplyFields(c, r);
    assert |ws[0]| == 3 && |ws[1]| <= 7;
    if r.New? {
      assert ws[1..] == [Status(r), r.gid] && ws[1..][1..] == [r.gid];
      assert |Line([r.gid])| == 3;
    } else {
      assert ws[1..] == [Status(r)];
      assert |Line([Status(r)])| <= 8;
    }
  }

  /** `recvfrom` overwrites the front of the buffer and leaves the rest of it as it was. */
  method Receive(buf: array<char>, text: string)
    requires |text| <= buf.Length
    modifies buf
    ensures buf[..] == text + old(buf[..])[|text|..]
  {
    forall i | 0 <= i < |text| {
      buf[i] := text[i];
    }
  }

  /** Cuts the next word of a line and reads it; the words before it are not disturbed. */
  method TakeWord(buf: array<char>, str: Option<nat>, ghost ws: seq<string>, ghost starts: seq<nat>)
      returns (word: string, next: Option<nat>, ghost at: nat)
    requires Words(ws) && |starts| < |ws| && Cut(buf[..], str, ws, starts)
    modifies buf
    ensures word == ws[|starts|] && Cut(buf[..], next, ws, starts + [at])
  {
    var p;
    p, next := NextWord(buf, str, ws, starts);
    at := p;
    assert StringAt(buf[..], (starts + [at])[|starts|], ws[|starts|]);
    word := ReadString(buf, p, ws[|starts|]);
  }

  /** What one command leaves behind. Only an accepted one changes anything. */
  ghost predicate TreeAfter(t: Tree, t': Tree, c: Command, r: Reply) {
    && AreaKept(t, t') && (r != Ok && !r.New? ==> t' == t) && (r == Ok ==> Accepted(t, t', c))
    && (r.New? && c.Gsr? ==>
          t' == t[["GROUPS", r.gid] := Dir][["GROUPS", r.gid, "MSG"] := Dir]
                 [["GROUPS", r.gid, "name.txt"] := File(c.gname)][["GROUPS", r.gid, c.uid] := File("")])
  }

  /** A user, a subscription or a login comes or goes; nothing else does. */
  ghost predicate Accepted(t: Tree, t': Tree, c: Command) {
    match c
    case Reg(uid, pass) => t' == t[["USERS", uid] := Dir][["USERS", uid, "pass.txt"] := File(pass)]
    case Unr(uid, _) => Erased(t, t', uid)
    case Log(uid, _) => LoggedIn(t, t', uid)
    case Out(uid, _) => t' == t - {["USERS", uid, "login"]}
    case Gsr(uid, gid, _) => t' == t[["GROUPS", gid, uid] := File("")]
    case Gur(uid, gid) => t' == t - {["GROUPS", gid, uid]}
  }

  /** The command is executed, its name having been cut off. */
  method Execute(server: DirectoryServer, buf: array<char>, command: string, str0: Option<nat>,
                 ghost c: Command, ghost i: nat) returns (r: Reply)
    requires server.Valid() && server.up && Words(Fields(c)) && NamedGroup(c) && command == Name(c)
    requires Cut(buf[..], str0, Fields(c), [i])
    modifies server, server.fs, buf
    ensures server.Valid() && (server.state, r) == Exec(old(server.state), c)
    ensures TreeAfter(old(server.fs.tree), server.fs.tree, c, r)
  {
    ghost var ws, j, k := Fields(c), 0, 0;
    NameTells(c);
    var uid, arg, str;
    uid, str, j := TakeWord(buf, str0, ws, [i]);
    arg, str, k := TakeWord(buf, str, ws, [i] + [j]);
    if command == "REG" {
      r := server.Register(uid, arg);
    } else if command == "UNR" {
      r := server.Unregister(uid, arg);
    } else if command == "LOG" {
      r := server.Login(uid, arg);
    } else if command == "OUT" {
      r := server.Logout(uid, arg);
    } else if command == "GSR" {
      var gname;
      gname, str, k := TakeWord(buf, str, ws, [i] + [j] + [k]);
      r := server.Subscribe(uid, arg, gname);
    } else {
      r := server.Unsubscribe(uid, arg);
    }
  }

  /**
   * `parse_udp_message` on the receive buffer, for the six commands that change the tree. Whatever
   * follows the request in the buffer, the server executes the command that was sent.
   */
  method Serve(server: DirectoryServer, buf: array<char>, ghost c: Command) returns (reply: Option<string>)
    requires server.Valid() && Words(Fields(c)) && NamedGroup(c) && TextAt(buf[..], 0, Line(Fields(c)))
    modifies server, server.fs, buf
    ensures server.Valid() && server.state == Exec(old(server.state), c).0
    ensures reply == ReplyTo(old(server.state), c)
  {
    if !server.up {
      return None;
    }
    ghost var i := 0;
    var command, str;
    command, str, i := TakeWord(buf, Some(0), Fields(c), []);
    assert [] + [i] == [i];
    var r := Execute(server, buf, command, str, c, i);
    reply := SendReply(command, r, c);
  }

  /** The reply line: one `sprintf` for each outcome. */
  method SendReply(command: string, r: Reply, ghost c: Command) returns (reply: Option<string>)
    requires command == Name(c)
    ensures reply == if r == Crash then None else Some(Line(ReplyFields(c, r)))
  {
    NameTells(c);
    if r == Crash {
      return None;
    }
    var tag := if command == "REG" then "RRG" else if command == "UNR" then "RUN"
               else if command == "LOG" then "RLO" else if command == "OUT" then "ROU"
               else if command == "GSR" then "RGS" else "RGU";
    reply := Some(Line([tag, Status(r)] + if r.New? then [r.gid] else []));
  }

  /**
   * The client's side of a serial command: it gets the status of exactly the command it meant,
   * under the tag it expects, and behind NEW the id; or no answer when the server has crashed.
   */
  method Ask(server: DirectoryServer, buf: array<char>, c: Command)
      returns (status: Option<string>, more: string, expected: bool)
    requires server.Valid() && Words(Fields(c)) && NamedGroup(c) && |Line(Fields(c))| <= buf.Length
    modifies server, server.fs, buf
    ensures server.Valid() && server.state == Exec(old(server.state), c).0 && expected
    ensures var r := Exec(old(server.state), c).1;
      status == (if r == Crash then None else Some(Status(r))) && (r.New? ==> more == r.gid)
  {
    ghost var s := server.state;
    var request := Line(Fields(c));
    Receive(buf, request);
    assert buf[0..|request|] == request;
    var reply := Serve(server, buf, c);
    if reply.None? {
      return None, "", true;
    }
    ReplyFits(s, c);
    StatusTells(Exec(s, c).1);
    status, more, expected := ReadReply(reply.value, Tag(c), ReplyFields(c, Exec(s, c).1));
  }

  /** The words of a reply, cut from a buffer on the stack; the third is looked for behind NEW. */
  method ReadReply(reply: string, tag: string, ghost ws: seq<string>)
      returns (status: Option<string>, more: string, expected: bool)
    requires reply == Line(ws) && Words(ws) && |ws| >= 2 && |reply| < BUFFER_SIZE
    requires ws[1] == "NEW" ==> |ws| >= 3
    ensures status == Some(ws[1]) && (expected <==> ws[0] == tag) && (ws[1] == "NEW" ==> more == ws[2])
  {
    var response := new char[BUFFER_SIZE];
    Receive(response, reply);
    response[|reply|] := '\0';
    assert response[0..|reply|] == reply;
    ghost var i, j := 0, 0;
    var first, word, str;
    first, str, i := TakeWord(response, Some(0), ws, []);
    word, str, j := TakeWord(response, str, ws, [i]);
    status, more := Some(word), "";
    expected := first == tag;
    if word == "NEW" {
      ghost var k := 0;
      more, str, k := TakeWord(response, str, ws, [i] + [j]);
    }
  }
}
