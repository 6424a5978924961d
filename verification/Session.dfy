/** The client's session, and how it agrees with what the server knows about the user. */
module Session {
  import opened CText
  import opened Wire
  import opened Tokenizer
  import opened Tree
  import opened Server
  import opened ServerTree
  import opened ServerCommands
  import opened Requests
  import Outcomes

  /** The fields of a session. An empty `uid` is nobody, an empty `gid` no group. */
  datatype Who = Who(uid: string, pass: string, gid: string)

  /** What a user types, with its words already cut. */
  datatype Input =
    | Register(uid: string, pass: string)
    | Unregister(uid: string, pass: string)
    | LogIn(uid: string, pass: string)
    | LogOut
    | Subscribe(gid: string, gname: string)
    | Unsubscribe(gid: string)
    | Select(gid: string)

  /**
   * What the user is told. `NotSent`: the client did not ask the server; `AlreadyIn`: the server
   * has logged the user in, but the session is somebody's; `Unexpected`: the command went on after
   * complaining about the server's answer.
   */
  datatype Outcome =
    | Success | Created(gid: string) | NotSent | Taken | AlreadyIn | BadUser | BadGroup | BadName | Full
    | Refused | NoAnswer | Unexpected

  /** The command sent to the server, if the client sends one. */
  function Sent(x: Who, i: Input): Option<Command> {
    match i
    case Register(uid, pass) => if ValidUid(uid) && ValidPass(pass) then Some(Reg(uid, pass)) else None
    case Unregister(uid, pass) => if ValidUid(uid) && ValidPass(pass) then Some(Unr(uid, pass)) else None
    case LogIn(uid, pass) => if ValidUid(uid) && ValidPass(pass) then Some(Log(uid, pass)) else None
    case LogOut => if x.uid != "" then Some(Out(x.uid, x.pass)) else None
    case Subscribe(gid, gname) =>
      if x.uid != "" && ValidGid(gid) && ValidGname(gname) then Some(Gsr(x.uid, gid, gname)) else None
    case Unsubscribe(gid) => if x.uid != "" && ValidGid(gid) then Some(Gur(x.uid, gid)) else None
    case Select(_) => None
  }

  /** What the client does with the answer. */
  function React(x: Who, i: Input, r: Reply): (Who, Outcome) {
    if r == Crash then (x, NoAnswer)
    else
      match i
      case LogOut => (x.(uid := "", gid := ""), if r == Ok then Success else Unexpected)
      case LogIn(uid, pass) =>
        if r != Ok then (x, Refused)
        else if x.uid != "" then (x, AlreadyIn)
        else (x.(uid := uid, pass := pass), Success)
      case Unregister(uid, _) =>
        if r != Ok then (x, Refused)
        else (if x.uid == uid then x.(uid := "", gid := "") else x, Success)
      case _ => (x, Message(i, r))
  }

  /** The message about a command that leaves the session as it is. */
  function Message(i: Input, r: Reply): Outcome {
    match r
    case Ok => Success
    case Dup => if i.Register? then Taken else Refused
    case New(gid) => if i.Subscribe? then Created(gid) else Refused
    case EUsr => if i.Register? then Refused else BadUser
    case EGrp => if i.Register? then Refused else BadGroup
    case EGname => if i.Subscribe? then BadName else Refused
    case EFull => if i.Subscribe? then Full else Refused
    case _ => Refused
  }

  /** One command of the client, and its effect on both sides. */
  function Act(x: Who, s: State, i: Input): (Who, State, Outcome) {
    match Sent(x, i)
    case Some(c) =>
      var (x', o) := React(x, i, Exec(s, c).1);
      (x', Exec(s, c).0, o)
    case None =>
      if i.Select? && ValidGid(i.gid) && x.uid != "" then (x.(gid := Dec(2, Value(i.gid))), s, Success)
      else (x, s, NotSent)
  }

  /**
   * Whoever the client takes itself to be is registered with the session's password and logged
   * in; and only somebody can have selected a group.
   */
  ghost predicate Agree(x: Who, s: State) {
    && (x.uid != "" ==> Authentic(s, x.uid, x.pass) && x.uid in s.logged)
    && (x.gid != "" ==> x.uid != "" && ValidGid(x.gid))
  }

  /** A new group is asked for by a name that is not empty. */
  predicate NamedInput(i: Input) {
    i.Subscribe? && i.gid == "00" ==> i.gname != ""
  }

  /** Printing the number a group id stands for gives the id back. */
  lemma DecOfGid(gid: string)
    requires ValidGid(gid)
    ensures Dec(2, Value(gid)) == gid
  {
    DecOfValue(2, gid);
  }

  lemma ActKeepsInv(x: Who, s: State, i: Input)
    requires Inv(s) && NamedInput(i)
    ensures Inv(Act(x, s, i).1)
  {
    if Sent(x, i).Some? {
      ExecKeepsInv(s, Sent(x, i).value);
    }
  }

  /** Only its own `unregister` and `logout` can take a user's registration or login away. */
  lemma OthersKeepUser(s: State, c: Command, u: string, pass: string)
    requires Authentic(s, u, pass) && u in s.logged
    requires !((c.Unr? || c.Out?) && c.uid == u)
    ensures Authentic(Exec(s, c).0, u, pass) && u in Exec(s, c).0.logged
  {
    match c
    case Reg(_, _) =>
    case Unr(_, _) =>
    case Log(_, _) =>
    case Out(_, _) =>
    case Gsr(_, _, _) =>
    case Gur(_, _) =>
  }

  lemma LoginEffect(s: State, uid: string, pass: string)
    requires Exec(s, Log(uid, pass)).1 == Ok
    ensures var s' := Exec(s, Log(uid, pass)).0; Authentic(s', uid, pass) && s'.logged == s.logged + {uid}
  {
  }

  lemma LoggedAfter(s: State, c: Command)
    ensures var (s', r) := Exec(s, c);
      s'.logged == if r != Ok then s.logged
                   else if c.Log? then s.logged + {c.uid}
                   else if c.Unr? || c.Out? then s.logged - {c.uid}
                   else s.logged
  {
    match c
    case Reg(_, _) =>
    case Unr(_, _) =>
    case Log(_, _) =>
    case Out(_, _) =>
    case Gsr(_, _, _) => GroupsOnly(s, c);
    case Gur(_, _) => GroupsOnly(s, c);
  }

  lemma GroupsOnly(s: State, c: Command)
    requires c.Gsr? || c.Gur?
    ensures Exec(s, c).0.logged == s.logged
  {
  }

  /** Every command of the client keeps the agreement. */
  lemma ActKeepsAgree(x: Who, s: State, i: Input)
    requires Inv(s) && Agree(x, s)
    ensures Agree(Act(x, s, i).0, Act(x, s, i).1)
  {
    if Sent(x, i).None? {
      if i.Select? && ValidGid(i.gid) {
        DecOfGid(i.gid);
      }
    } else {
      var c := Sent(x, i).value;
      if i.LogIn? && Exec(s, c).1 == Ok {
        LoginEffect(s, i.uid, i.pass);
      }
      if x.uid != "" && !((c.Unr? || c.Out?) && c.uid == x.uid) {
        OthersKeepUser(s, c, x.uid, x.pass);
      }
    }
  }

  function ActAll(x: Who, s: State, inputs: seq<Input>): (Who, State)
    decreases |inputs|
  {
    if inputs == [] then (x, s)
    else
      var (x', s', _) := Act(x, s, inputs[0]);
      ActAll(x', s', inputs[1..])
  }

  /** Over every session of a client, from any server state it may connect to. */
  lemma {:induction false} SessionAgrees(x: Who, s: State, inputs: seq<Input>)
    requires Inv(s) && Agree(x, s) && forall i :: i in inputs ==> NamedInput(i)
    ensures Inv(ActAll(x, s, inputs).1) && Agree(ActAll(x, s, inputs).0, ActAll(x, s, inputs).1)
    decreases |inputs|
  {
    if inputs != [] {
      ActKeepsInv(x, s, inputs[0]);
      ActKeepsAgree(x, s, inputs[0]);
      var (x', s', _) := Act(x, s, inputs[0]);
      SessionAgrees(x', s', inputs[1..]);
    }
  }

  /**
   * Logging out is refused only by a server that is not there any more: otherwise it leaves nobody
   * in the session and the user logged out.
   */
  lemma LogOutAccepted(x: Who, s: State)
    requires Inv(s) && Agree(x, s) && x.uid != ""
    ensures Act(x, s, LogOut)
         == if s.up then (Who("", x.pass, ""), s.(logged := s.logged - {x.uid}), Success)
            else (x, s, NoAnswer)
  {
    Clauses(s);
  }

  /** The command passes the client's checks, but not the server's use of the group's name. */
  predicate Fatal(x: Who, s: State, i: Input) {
    && i.Subscribe? && x.uid != "" && ValidGid(i.gid) && ValidGname(i.gname)
    && i.gid !in s.groups && (i.gid == "00" ==> |s.groups| == MAX_GROUPS)
  }

  lemma FatalIff(x: Who, s: State, i: Input)
    requires Inv(s) && Agree(x, s) && s.up
    ensures !Act(x, s, i).1.up <==> Fatal(x, s, i)
  {
    Clauses(s);
    if Sent(x, i).Some? {
      OnlySubscribeCrashes(s, Sent(x, i).value);
      if i.Subscribe? {
        SubscribeCrashes(s, x.uid, i.gid, i.gname);
      }
    }
  }

  /** No command of the session is fatal where it comes. */
  predicate NoneFatal(x: Who, s: State, inputs: seq<Input>)
    decreases |inputs|
  {
    inputs == [] ||
    var (x', s', _) := Act(x, s, inputs[0]);
    !Fatal(x, s, inputs[0]) && NoneFatal(x', s', inputs[1..])
  }

  lemma {:induction false} StaysDown(x: Who, s: State, inputs: seq<Input>)
    requires !s.up
    ensures !ActAll(x, s, inputs).1.up
    decreases |inputs|
  {
    if inputs != [] {
      var (x', s', _) := Act(x, s, inputs[0]);
      StaysDown(x', s', inputs[1..]);
    }
  }

  lemma {:induction false} UpIff(x: Who, s: State, inputs: seq<Input>)
    requires Inv(s) && Agree(x, s) && s.up && forall i :: i in inputs ==> NamedInput(i)
    ensures ActAll(x, s, inputs).1.up <==> NoneFatal(x, s, inputs)
    decreases |inputs|
  {
    if inputs != [] {
      var (x', s', _) := Act(x, s, inputs[0]);
      FatalIff(x, s, inputs[0]);
      if s'.up {
        ActKeepsInv(x, s, inputs[0]);
        ActKeepsAgree(x, s, inputs[0]);
        UpIff(x', s', inputs[1..]);
      } else {
        StaysDown(x', s', inputs[1..]);
      }
    }
  }

  /** At the end of a session, logging out succeeds exactly if none of its commands was fatal. */
  lemma LogOutIff(x: Who, s: State, inputs: seq<Input>)
    requires Inv(s) && Agree(x, s) && s.up && forall i :: i in inputs ==> NamedInput(i)
    ensures var (x', s') := ActAll(x, s, inputs);
      x'.uid != "" ==> (Act(x', s', LogOut).2 == Success <==> NoneFatal(x, s, inputs))
  {
    SessionAgrees(x, s, inputs);
    UpIff(x, s, inputs);
    var (x', s') := ActAll(x, s, inputs);
    if x'.uid != "" {
      LogOutAccepted(x', s');
    }
  }

  /** The group a client has selected is the one it typed, although it is printed anew. */
  lemma SelectedAsTyped(x: Who, s: State, gid: string)
    ensures Act(x, s, Select(gid))
         == if ValidGid(gid) && x.uid != "" then (x.(gid := gid), s, Success) else (x, s, NotSent)
  {
    if ValidGid(gid) {
      DecOfGid(gid);
    }
  }

  // ---- what the user is told ----

  /** A UID that is taken is called so; otherwise the user is registered with what was typed. */
  lemma RegisterTold(x: Who, s: State, uid: string, pass: string)
    requires s.up
    ensures var (x', s', told) := Act(x, s, Register(uid, pass));
      && x' == x
      && told == (if !ValidUid(uid) || !ValidPass(pass) then NotSent else if uid in s.users then Taken else Success)
      && if told == Success then
           Outcomes.OnlyUser(s, s', uid) && s'.logged == s.logged && uid in s'.users && s'.users[uid] == pass
         else s' == s
  {
    Outcomes.Registering(s, uid, pass);
  }

  /** Only the user's password takes the user's account away, from anybody's session. */
  lemma UnregisterTold(x: Who, s: State, uid: string, pass: string)
    requires s.up
    ensures var (x', s', told) := Act(x, s, Unregister(uid, pass));
      && told == (if !ValidUid(uid) || !ValidPass(pass) then NotSent
                  else if uid in s.users && s.users[uid] == pass then Success
                  else Refused)
      && x' == (if told == Success && x.uid == uid then Who("", x.pass, "") else x)
      && if told == Success then
           && Outcomes.OnlyUser(s, s'.(groups := s.groups), uid) && uid !in s'.users && uid !in s'.logged
           && s'.groups.Keys == s.groups.Keys
           && forall g :: g in s.groups ==> s'.groups[g] == Group(s.groups[g].name, s.groups[g].subs - {uid})
         else s' == s
  {
    Outcomes.Unregistering(s, uid, pass);
  }

  lemma LogInTold(x: Who, s: State, uid: string, pass: string)
    requires s.up
    ensures var (x', s', told) := Act(x, s, LogIn(uid, pass));
      && told == (if !ValidUid(uid) || !ValidPass(pass) then NotSent
                  else if !(uid in s.users && s.users[uid] == pass) then Refused
                  else if x.uid != "" then AlreadyIn
                  else Success)
      && x' == (if told == Success then Who(uid, pass, x.gid) else x)
      && if told == Success || told == AlreadyIn then
           Outcomes.OnlyUser(s, s', uid) && s'.users == s.users && uid in s'.logged
         else s' == s
  {
    Outcomes.LoggingIn(s, uid, pass);
  }

  /** What is said of a group that is not there, of another name, and of a new group. */
  lemma SubscribeTold(x: Who, s: State, gid: string, gname: string)
    requires s.up && Inv(s) && Agree(x, s)
    ensures var (x', s', told) := Act(x, s, Subscribe(gid, gname));
      && x' == x
      && told == (if x.uid == "" || !ValidGid(gid) || !ValidGname(gname) then NotSent
                  else if gid == "00" && |s.groups| < 99 then Created(Dec(2, |s.groups| + 1))
                  else if gid !in s.groups then NoAnswer
                  else if s.groups[gid].name != gname then BadName
                  else Success)
      && (told == Success ==> Outcomes.OnlySub(s, s', x.uid, gid) && x.uid in s'.groups[gid].subs)
      && (told.Created? ==> told.gid !in s.groups && Outcomes.OnlyGroup(s, s', told.gid, gname, x.uid))
      && (told == BadName || told == NotSent ==> s' == s)
  {
    if x.uid != "" && ValidGid(gid) && ValidGname(gname) {
      var c := Gsr(x.uid, gid, gname);
      Outcomes.SubscribeEffect(s, x.uid, gid, gname);
      SubscribeAnswer(x, s, gid, gname);
      SubscribeActs(x, s, gid, gname);
      if Exec(s, c).1 != Crash {
        MessageOf(s, Exec(s, c).0, Exec(s, c).1, x.uid, gid, gname);
      }
    }
  }

  lemma SubscribeActs(x: Who, s: State, gid: string, gname: string)
    requires x.uid != "" && ValidGid(gid) && ValidGname(gname)
    ensures var (s', r) := Exec(s, Gsr(x.uid, gid, gname));
      Act(x, s, Subscribe(gid, gname)) == (x, s', if r == Crash then NoAnswer else Message(Subscribe(gid, gname), r))
  {
  }

  /** The message tells what the reply has told. */
  lemma MessageOf(s: State, s': State, r: Reply, uid: string, gid: string, gname: string)
    requires Outcomes.Effect(s, s', r, uid, gid, gname) && r != Crash && (r == Ok || r == EGname || r.New?)
    ensures var told := Message(Subscribe(gid, gname), r);
      && (told == Success <==> r == Ok) && (told == BadName <==> r == EGname) && told != NotSent
      && (forall id :: told == Created(id) <==> r == New(id))
      && (told == Success ==> Outcomes.OnlySub(s, s', uid, gid) && uid in s'.groups[gid].subs)
      && (told.Created? ==> told.gid !in s.groups && Outcomes.OnlyGroup(s, s', told.gid, gname, uid))
      && (told == BadName ==> s' == s)
  {
  }

  lemma SubscribeAnswer(x: Who, s: State, gid: string, gname: string)
    requires s.up && Inv(s) && Agree(x, s) && x.uid != "" && ValidGid(gid) && ValidGname(gname)
    ensures Exec(s, Gsr(x.uid, gid, gname)).1
         == if gid == "00" && |s.groups| < 99 then New(Dec(2, |s.groups| + 1))
            else if gid !in s.groups then Crash
            else if s.groups[gid].name != gname then EGname
            else Ok
  {
    Clauses(s);
    FreeIds(s);
    SubscribeOutcomes(s, x.uid, gid, gname);
  }

  /** Who leaves a group is in it no more, and is told so; also who has never been in it. */
  lemma UnsubscribeTold(x: Who, s: State, gid: string)
    requires s.up && Inv(s) && Agree(x, s)
    ensures var (x', s', told) := Act(x, s, Unsubscribe(gid));
      && x' == x
      && told == (if x.uid == "" || !ValidGid(gid) then NotSent else if gid !in s.groups then BadGroup else Success)
      && if told == Success then Outcomes.OnlySub(s, s', x.uid, gid) && x.uid !in s'.groups[gid].subs else s' == s
  {
    Clauses(s);
    if x.uid != "" {
      Outcomes.Unsubscribing(s, x.uid, gid);
    }
  }

  predicate Accepted(x: Who, s: State, i: Input) {
    Sent(x, i).Some? && Exec(s, Sent(x, i).value).1 == Ok
  }

  /** Who is in the session after a command. */
  lemma SessionAfter(x: Who, s: State, i: Input)
    requires Inv(s) && Agree(x, s)
    ensures Act(x, s, i).0.uid
         == if !Accepted(x, s, i) then x.uid
            else if i.LogIn? && x.uid == "" then i.uid
            else if i.LogOut? || (i.Unregister? && i.uid == x.uid) then ""
            else x.uid
  {
    if i.LogOut? && x.uid != "" {
      LogOutAccepted(x, s);
    }
  }

  /** Who is logged in at the server after a command. */
  lemma ServerAfter(x: Who, s: State, i: Input)
    ensures Act(x, s, i).1.logged
         == if !Accepted(x, s, i) then s.logged
            else if i.LogIn? then s.logged + {i.uid}
            else if i.LogOut? then s.logged - {x.uid}
            else if i.Unregister? then s.logged - {i.uid}
            else s.logged
  {
    if Sent(x, i).Some? {
      LoggedAfter(s, Sent(x, i).value);
    }
  }

  lemma LogInAccepted(x: Who, s: State, i: Input)
    requires Inv(s) && i.LogIn?
    ensures Accepted(x, s, i) <==> s.up && Authentic(s, i.uid, i.pass)
    ensures Accepted(x, s, i) ==> i.uid != ""
  {
    Clauses(s);
  }

  /** The server has nobody logged in but the user of the session. */
  ghost predicate Alone(x: Who, s: State) {
    s.logged == if x.uid == "" then {} else {x.uid}
  }

  /**
   * The other direction fails, and exactly here: a client that is logged in and logs in as somebody
   * else is told it already is, but the server has logged that other user in as well.
   */
  lemma AloneUnless(x: Who, s: State, i: Input)
    requires Inv(s) && Agree(x, s) && Alone(x, s)
    ensures Alone(Act(x, s, i).0, Act(x, s, i).1) <==>
      !(s.up && i.LogIn? && x.uid != "" && i.uid != x.uid && Authentic(s, i.uid, i.pass))
  {
    SessionAfter(x, s, i);
    ServerAfter(x, s, i);
    if i.LogIn? {
      LogInAccepted(x, s, i);
      assert Accepted(x, s, i) ==> i.uid in Act(x, s, i).1.logged;
    }
  }

  // ---- the programs ----

  /** What the client sends is a line of words that fits the server's buffer. */
  lemma RequestFits(x: Who, s: State, i: Input)
    requires Inv(s) && Agree(x, s) && NamedInput(i) && Sent(x, i).Some?
    ensures var ws := Fields(Sent(x, i).value); Words(ws) && |Line(ws)| <= BUFFER_SIZE
  {
    var c := Sent(x, i).value;
    var ws := Fields(c);
    Clauses(s);
    forall j | 0 <= j < |ws| ensures NoDelim(ws[j]) && |ws[j]| < 24 && (ws[j] == [] ==> 0 < j == |ws| - 1) {
      assert x.uid != "" ==> ValidUid(x.uid) && ValidPass(x.pass);
    }
    ShortLine(ws);
  }

  lemma {:induction false} ShortLine(ws: seq<string>)
    requires forall j :: 0 <= j < |ws| ==> |ws[j]| < 24
    ensures |Line(ws)| <= 24 * |ws|
  {
    if ws != [] {
      ShortLine(ws[1..]);
    }
  }

  lemma ReactToLogOut(x: Who, r: Reply)
    requires r != Crash
    ensures React(x, LogOut, r) == (x.(uid := "", gid := ""), if r == Ok then Success else Unexpected)
  {
  }

  lemma SentForGroup(x: Who, gid: string, gname: string)
    requires x.uid != "" && ValidGid(gid)
    ensures Sent(x, Unsubscribe(gid)) == Some(Gur(x.uid, gid))
    ensures ValidGname(gname) ==> Sent(x, Subscribe(gid, gname)) == Some(Gsr(x.uid, gid, gname))
  {
  }

  lemma SentToLogOut(x: Who, s: State)
    requires Inv(s) && Agree(x, s)
    ensures x.uid == "" ==> Act(x, s, LogOut) == (x, s, NotSent)
    ensures x.uid != "" ==> Sent(x, LogOut) == Some(Out(x.uid, x.pass))
    ensures x.uid != "" ==> (Act(x, s, LogOut).2 == Success <==> s.up)
  {
    if x.uid != "" {
      LogOutAccepted(x, s);
    }
  }

  lemma NotSentForGroup(x: Who, s: State, gid: string, gname: string)
    ensures x.uid == "" || !ValidGid(gid) ==> Act(x, s, Unsubscribe(gid)) == (x, s, NotSent)
    ensures x.uid == "" || !ValidGid(gid) || !ValidGname(gname) ==>
              Act(x, s, Subscribe(gid, gname)) == (x, s, NotSent)
  {
  }

  /** Commands that leave the session as it is. */
  lemma ReactPlain(x: Who, i: Input, r: Reply)
    requires i.Register? || i.Subscribe? || i.Unsubscribe?
    ensures React(x, i, r) == (x, if r == Crash then NoAnswer else Message(i, r))
  {
  }

  class SessionContext {
    var uid: string
    var pass: string
    var gid: string

    ghost function View(): Who
      reads this
    {
      Who(uid, pass, gid)
    }

    constructor ()
      ensures uid == "" && gid == ""
    {
      uid, pass, gid := "", "", "";
    }

    method Login(uid: string, pass: string)
      modifies this
      ensures View() == old(View()).(uid := uid, pass := pass)
    {
      this.uid := uid;
      this.pass := pass;
    }

    method Logout()
      modifies this
      ensures View() == old(View()).(uid := "", gid := "")
    {
      uid, gid := "", "";
    }

    method SelectGroup(gid: string)
      requires ValidGid(gid)
      modifies this
      ensures View() == old(View()).(gid := gid)
    {
      DecOfGid(gid);
      assert DigitPrefix(gid) == gid && IsDigit(gid[0]);
      this.gid := Dec(2, Atoi(gid));
    }

    predicate IsLogged()
      reads this
    {
      uid != ""
    }
  }

  class Client {
    const session: SessionContext
    const server: DirectoryServer
    /** The buffer in which the server receives every datagram. */
    const wire: array<char>

    ghost predicate Valid()
      reads this, session, server, server.fs, wire
    {
      server.Valid() && Agree(session.View(), server.state) && wire.Length == BUFFER_SIZE
    }

    constructor (server: DirectoryServer, wire: array<char>)
      requires server.Valid() && wire.Length == BUFFER_SIZE
      ensures Valid() && this.server == server && this.wire == wire && fresh(session)
      ensures session.View().uid == "" && session.View().gid == ""
    {
      session := new SessionContext();
      this.server := server;
      this.wire := wire;
    }

    /** Sends the command of an input and reads the answer; the session is not touched yet. */
    method Send(c: Command, ghost i: Input)
        returns (status: Option<string>, more: string, expected: bool, ghost r: Reply)
      requires Valid() && NamedInput(i) && Sent(session.View(), i) == Some(c)
      modifies server, server.fs, wire
      ensures server.Valid() && expected
      ensures status == (if r == Crash then None else Some(Status(r))) && (r.New? ==> more == r.gid)
      ensures old(Act(session.View(), server.state, i))
           == (React(session.View(), i, r).0, server.state, React(session.View(), i, r).1)
      ensures Agree(React(session.View(), i, r).0, server.state)
      ensures status.Some? ==> (status.value == "OK" <==> r == Ok)
    {
      ghost var x, s := session.View(), server.state;
      RequestFits(x, s, i);
      ActKeepsAgree(x, s, i);
      r := Exec(s, c).1;
      status, more, expected := Ask(server, wire, c);
      if r != Crash {
        StatusTells(r);
      }
    }

    /** A command that leaves the session as it is. */
    method SendPlain(c: Command, ghost i: Input)
        returns (status: Option<string>, more: string, ghost r: Reply)
      requires Valid() && NamedInput(i) && Sent(session.View(), i) == Some(c)
      requires i.Register? || i.Subscribe? || i.Unsubscribe?
      modifies server, server.fs, wire
      ensures Valid() && status == (if r == Crash then None else Some(Status(r))) && (r.New? ==> more == r.gid)
      ensures old(Act(session.View(), server.state, i))
           == (session.View(), server.state, if r == Crash then NoAnswer else Message(i, r))
    {
      ghost var x := session.View();
      var expected;
      status, more, expected, r := Send(c, i);
      ReactPlain(x, i, r);
    }

    method RegisterUser(uid: string, pass: string) returns (o: Outcome)
      requires Valid()
      modifies server, server.fs, wire
      ensures Valid()
      ensures (session.View(), server.state, o) == old(Act(session.View(), server.state, Register(uid, pass)))
    {
      if !ValidUid(uid) || !ValidPass(pass) {
        return NotSent;
      }
      var status, _, r := SendPlain(Reg(uid, pass), Register(uid, pass));
      if status.None? {
        return NoAnswer;
      }
      StatusTells(r);
      o := if status.value == "OK" then Success else if status.value == "DUP" then Taken else Refused;
    }

    method UnregisterUser(uid: string, pass: string) returns (o: Outcome)
      requires Valid()
      modifies session, server, server.fs, wire
      ensures Valid()
      ensures (session.View(), server.state, o) == old(Act(session.View(), server.state, Unregister(uid, pass)))
    {
      if !ValidUid(uid) || !ValidPass(pass) {
        return NotSent;
      }
      var status, _, _, _ := Send(Unr(uid, pass), Unregister(uid, pass));
      if status.None? {
        return NoAnswer;
      }
      if status.value == "OK" {
        if session.IsLogged() {
          if session.uid == uid {
            session.Logout();
          }
        }
        return Success;
      }
      o := Refused;
    }

    method LogInUser(uid: string, pass: string) returns (o: Outcome)
      requires Valid()
      modifies session, server, server.fs, wire
      ensures Valid()
      ensures (session.View(), server.state, o) == old(Act(session.View(), server.state, LogIn(uid, pass)))
    {
      if !ValidUid(uid) || !ValidPass(pass) {
        return NotSent;
      }
      var status, _, _, _ := Send(Log(uid, pass), LogIn(uid, pass));
      if status.None? {
        return NoAnswer;
      }
      if status.value == "OK" {
        if session.IsLogged() {
          return AlreadyIn;
        }
        session.Login(uid, pass);
        return Success;
      }
      o := Refused;
    }

    /** The last clause: a server that is still there never refuses to log the session's user out. */
    method LogOutUser() returns (o: Outcome)
      requires Valid()
      modifies session, server, server.fs, wire
      ensures Valid()
      ensures (session.View(), server.state, o) == old(Act(session.View(), server.state, LogOut))
      ensures old(session.IsLogged()) ==> (o == Success <==> old(server.state.up))
    {
      ghost var x, s := session.View(), server.state;
      SentToLogOut(x, s);
      if !session.IsLogged() {
        return NotSent;
      }
      var status, _, expected, r := Send(Out(session.uid, session.pass), LogOut);
      if status.None? {
        return NoAnswer;
      }
      ReactToLogOut(x, r);
      o := if expected && status.value == "OK" then Success else Unexpected;
      session.Logout();
    }

    method SubscribeGroup(gid: string, gname: string) returns (o: Outcome)
      requires Valid() && (gid == "00" ==> gname != "")
      modifies server, server.fs, wire
      ensures Valid()
      ensures (session.View(), server.state, o) == old(Act(session.View(), server.state, Subscribe(gid, gname)))
    {
      NotSentForGroup(session.View(), server.state, gid, gname);
      if !session.IsLogged() || !ValidGid(gid) || !ValidGname(gname) {
        return NotSent;
      }
      SentForGroup(session.View(), gid, gname);
      var status, more, r := SendPlain(Gsr(session.uid, gid, gname), Subscribe(gid, gname));
      if status.None? {
        return NoAnswer;
      }
      StatusTells(r);
      o := if status.value == "OK" then Success
           else if status.value == "NEW" then Created(more)
           else if status.value == "E_USR" then BadUser
           else if status.value == "E_GRP" then BadGroup
           else if status.value == "E_GNAME" then BadName
           else if status.value == "E_FULL" then Full
           else Refused;
    }

    method UnsubscribeGroup(gid: string) returns (o: Outcome)
      requires Valid()
      modifies server, server.fs, wire
      ensures Valid()
      ensures (session.View(), server.state, o) == old(Act(session.View(), server.state, Unsubscribe(gid)))
    {
      NotSentForGroup(session.View(), server.state, gid, "");
      if !session.IsLogged() || !ValidGid(gid) {
        return NotSent;
      }
      SentForGroup(session.View(), gid, "");
      var status, _, r := SendPlain(Gur(session.uid, gid), Unsubscribe(gid));
      if status.None? {
        return NoAnswer;
      }
      StatusTells(r);
      o := if status.value == "OK" then Success
           else if status.value == "E_USR" then BadUser
           else if status.value == "E_GRP" then BadGroup
           else Refused;
    }

    method SelectTyped(gid: string) returns (o: Outcome)
      requires Valid()
      modifies session
      ensures Valid()
      ensures (session.View(), server.state, o) == old(Act(session.View(), server.state, Select(gid)))
    {
      SelectedAsTyped(session.View(), server.state, gid);
      if !ValidGid(gid) || !session.IsLogged() {
        return NotSent;
      }
      session.SelectGroup(gid);
      o := Success;
    }
  }

  /** A client that is started with a server that is: nobody is logged in. */
  method Begin() returns (client: Client)
    ensures fresh(client) && client.Valid() && client.server.state == INITIAL
    ensures client.session.View().uid == "" && client.session.View().gid == ""
  {
    InitialRepresents();
    InitialInv();
    var fs := new FileSystem(INITIAL_TREE);
    var server := new DirectoryServer(fs, true, INITIAL);
    var wire := new char[BUFFER_SIZE];
    client := new Client(server, wire);
  }
}
