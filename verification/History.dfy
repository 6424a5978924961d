/**
 * What the server answers, told from the commands it was sent and the replies it gave, byte for
 * byte. Nothing here looks at its state: the theorem is that this decides every further reply.
 */
module History {
  import opened CText
  import opened Wire
  import opened Server
  import opened Requests
  import opened Outcomes

  /** A command and the datagram sent back, if any. */
  datatype Exchange = Exchange(command: Command, reply: Option<string>)

  /** A command with this reply. */
  predicate Got(e: Exchange, reply: string) {
    e.reply == Some(reply)
  }

  // ---- what has been said ----

  /** The password of the last registration that was accepted and not taken back since. */
  function Password(h: seq<Exchange>, uid: string): Option<string> {
    if h == [] then None else PasswordAfter(h[|h| - 1], Password(h[..|h| - 1], uid), uid)
  }

  function PasswordAfter(e: Exchange, before: Option<string>, uid: string): Option<string> {
    match e.command
    case Reg(u, pass) => if u == uid && Got(e, "RRG OK\n") then Some(pass) else before
    case Unr(u, _) => if u == uid && Got(e, "RUN OK\n") then None else before
    case _ => before
  }

  /** Logged in, and neither logged out nor unregistered since. */
  predicate LoggedIn(h: seq<Exchange>, uid: string) {
    h != [] && LoggedInAfter(h[|h| - 1], LoggedIn(h[..|h| - 1], uid), uid)
  }

  predicate LoggedInAfter(e: Exchange, before: bool, uid: string) {
    match e.command
    case Log(u, _) => (u == uid && Got(e, "RLO OK\n")) || before
    case Out(u, _) => !(u == uid && Got(e, "ROU OK\n")) && before
    case Unr(u, _) => !(u == uid && Got(e, "RUN OK\n")) && before
    case _ => before
  }

  /** The name under which the group was made. */
  function NameOf(h: seq<Exchange>, gid: string): Option<string> {
    if h == [] then None else NameAfter(h[|h| - 1], NameOf(h[..|h| - 1], gid), gid)
  }

  function NameAfter(e: Exchange, before: Option<string>, gid: string): Option<string> {
    if e.command.Gsr? && Got(e, "RGS NEW " + gid + "\n") then Some(e.command.gname) else before
  }

  /** Subscribed, or first in a new group, and neither unsubscribed nor unregistered since. */
  predicate Subscriber(h: seq<Exchange>, gid: string, uid: string) {
    h != [] && SubscriberAfter(h[|h| - 1], Subscriber(h[..|h| - 1], gid, uid), gid, uid)
  }

  predicate SubscriberAfter(e: Exchange, before: bool, gid: string, uid: string) {
    match e.command
    case Gsr(u, g, _) =>
      (u == uid && ((g == gid && Got(e, "RGS OK\n")) || Got(e, "RGS NEW " + gid + "\n"))) || before
    case Gur(u, g) => !(u == uid && g == gid && Got(e, "RGU OK\n")) && before
    case Unr(u, _) => !(u == uid && Got(e, "RUN OK\n")) && before
    case _ => before
  }

  /** How many groups were made. */
  function Made(h: seq<Exchange>): nat {
    if h == [] then 0 else Made(h[..|h| - 1]) + if MakesGroup(h[|h| - 1]) then 1 else 0
  }

  predicate MakesGroup(e: Exchange) {
    e.command.Gsr? && e.reply.Some? && "RGS NEW " <= e.reply.value
  }

  /** A command has been left without a reply. */
  predicate Ended(h: seq<Exchange>) {
    h != [] && (h[|h| - 1].reply.None? || Ended(h[..|h| - 1]))
  }

  // ---- what is said next ----

  /** The reply to a further command. */
  function Expected(h: seq<Exchange>, c: Command): Option<string> {
    if Ended(h) then None
    else
      match c
      case Reg(uid, pass) =>
        Some(if !ValidUid(uid) || !ValidPass(pass) then "RRG NOK\n"
             else if Password(h, uid).Some? then "RRG DUP\n"
             else "RRG OK\n")
      case Unr(uid, pass) => Some(if Password(h, uid) == Some(pass) then "RUN OK\n" else "RUN NOK\n")
      case Log(uid, pass) => Some(if Password(h, uid) == Some(pass) then "RLO OK\n" else "RLO NOK\n")
      case Out(uid, pass) => Some(if Password(h, uid) == Some(pass) then "ROU OK\n" else "ROU NOK\n")
      case Gsr(uid, gid, gname) =>
        if !ValidUid(uid) then Some("RGS E_USR\n")
        else if !ValidGid(gid) then Some("RGS E_GRP\n")
        else if !ValidGname(gname) then Some("RGS E_GNAME\n")
        else if Password(h, uid).None? then Some("RGS E_USR\n")
        else if gid == "00" then
          if Made(h) >= 99 then None else Some("RGS NEW " + Dec(2, Made(h) + 1) + "\n")
        else if NameOf(h, gid).None? then None
        else Some(if NameOf(h, gid) == Some(gname) then "RGS OK\n" else "RGS E_GNAME\n")
      case Gur(uid, gid) =>
        Some(if !ValidUid(uid) then "RGU E_USR\n"
             else if !ValidGid(gid) then "RGU E_GRP\n"
             else if Password(h, uid).None? then "RGU E_USR\n"
             else if NameOf(h, gid).None? then "RGU E_GRP\n"
             else "RGU OK\n")
  }

  // ---- the state is what has been said ----

  function Lookup<V>(m: map<string, V>, key: string): Option<V> {
    if key in m then Some(m[key]) else None
  }

  ghost predicate PersonOk(s: State, h: seq<Exchange>, uid: string) {
    Password(h, uid) == Lookup(s.users, uid) && (LoggedIn(h, uid) <==> uid in s.logged)
  }

  function GroupName(s: State, gid: string): Option<string> {
    if gid in s.groups then Some(s.groups[gid].name) else None
  }

  predicate IsSub(s: State, gid: string, uid: string) {
    gid in s.groups && uid in s.groups[gid].subs
  }

  ghost predicate GroupOk(s: State, h: seq<Exchange>, gid: string) {
    NameOf(h, gid) == GroupName(s, gid) && forall uid :: Subscriber(h, gid, uid) <==> IsSub(s, gid, uid)
  }

  /** The state is what the exchanges say. */
  ghost predicate Remembered(s: State, h: seq<Exchange>) {
    && (s.up <==> !Ended(h)) && |s.groups| == Made(h)
    && (forall uid :: PersonOk(s, h, uid))
    && (forall gid :: GroupOk(s, h, gid))
  }

  lemma OneMore(h: seq<Exchange>, e: Exchange)
    ensures (h + [e])[|h + [e]| - 1] == e && (h + [e])[..|h + [e]| - 1] == h
  {
  }

  /** The exchange of a command in a state. */
  function Exchanged(s: State, c: Command): Exchange {
    Exchange(c, ReplyTo(s, c))
  }

  // ---- one exchange ----

  ghost predicate PersonStep(s: State, s': State, e: Exchange, uid: string) {
    && PasswordAfter(e, Lookup(s.users, uid), uid) == Lookup(s'.users, uid)
    && (LoggedInAfter(e, uid in s.logged, uid) <==> uid in s'.logged)
  }

  ghost predicate GroupStep(s: State, s': State, e: Exchange, gid: string) {
    && NameAfter(e, GroupName(s, gid), gid) == GroupName(s', gid)
    && forall uid :: SubscriberAfter(e, IsSub(s, gid, uid), gid, uid) <==> IsSub(s', gid, uid)
  }

  /** The state changes by what the exchange says. */
  ghost predicate Follows(s: State, s': State, e: Exchange) {
    && (s'.up <==> s.up && e.reply.Some?)
    && |s'.groups| == |s.groups| + (if MakesGroup(e) then 1 else 0)
    && (forall uid :: PersonStep(s, s', e, uid))
    && (forall gid :: GroupStep(s, s', e, gid))
  }

  lemma StillRemembered(s: State, s': State, h: seq<Exchange>, e: Exchange)
    requires Remembered(s, h) && Follows(s, s', e)
    ensures Remembered(s', h + [e])
  {
    OneMore(h, e);
    forall uid ensures PersonOk(s', h + [e], uid) {
      assert PersonOk(s, h, uid) && PersonStep(s, s', e, uid);
    }
    forall gid ensures GroupOk(s', h + [e], gid) {
      assert GroupOk(s, h, gid) && GroupStep(s, s', e, gid);
    }
  }

  lemma SameGroups(s: State, s': State, e: Exchange)
    requires s'.groups == s.groups && (e.command.Reg? || e.command.Log? || e.command.Out?)
    ensures |s'.groups| == |s.groups| + if MakesGroup(e) then 1 else 0
    ensures forall gid :: GroupStep(s, s', e, gid)
  {
  }

  lemma RegisterFollows(s: State, uid: string, pass: string)
    requires s.up
    ensures Follows(s, Exec(s, Reg(uid, pass)).0, Exchanged(s, Reg(uid, pass)))
  {
    Registering(s, uid, pass);
    SameGroups(s, Exec(s, Reg(uid, pass)).0, Exchanged(s, Reg(uid, pass)));
  }

  lemma LogInFollows(s: State, uid: string, pass: string)
    requires s.up
    ensures Follows(s, Exec(s, Log(uid, pass)).0, Exchanged(s, Log(uid, pass)))
  {
    LoggingIn(s, uid, pass);
    SameGroups(s, Exec(s, Log(uid, pass)).0, Exchanged(s, Log(uid, pass)));
  }

  lemma LogOutFollows(s: State, uid: string, pass: string)
    requires s.up
    ensures Follows(s, Exec(s, Out(uid, pass)).0, Exchanged(s, Out(uid, pass)))
  {
    LoggingOut(s, uid, pass);
    SameGroups(s, Exec(s, Out(uid, pass)).0, Exchanged(s, Out(uid, pass)));
  }

  lemma SameCount(s: State, s': State)
    requires s'.groups.Keys == s.groups.Keys
    ensures |s'.groups| == |s.groups|
  {
    KeysSize(s.groups);
    KeysSize(s'.groups);
  }

  lemma UnregisterFollows(s: State, uid: string, pass: string)
    requires s.up
    ensures Follows(s, Exec(s, Unr(uid, pass)).0, Exchanged(s, Unr(uid, pass)))
  {
    Unregistering(s, uid, pass);
    var s', e := Exec(s, Unr(uid, pass)).0, Exchanged(s, Unr(uid, pass));
    SameCount(s, s');
    forall gid ensures GroupStep(s, s', e, gid) {
      assert gid in s'.groups.Keys <==> gid in s.groups.Keys;
    }
  }

  lemma UnsubscribeFollows(s: State, uid: string, gid: string)
    requires s.up
    ensures Follows(s, Exec(s, Gur(uid, gid)).0, Exchanged(s, Gur(uid, gid)))
  {
    Unsubscribing(s, uid, gid);
    var s', e := Exec(s, Gur(uid, gid)).0, Exchanged(s, Gur(uid, gid));
    SameCount(s, s');
    if s' != s {
      forall g ensures GroupStep(s, s', e, g) {
        OneSubStep(s, s', uid, gid, g);
      }
    }
  }

  /** What one subscription more or less means for the subscribers of all groups. */
  lemma OneSubStep(s: State, s': State, uid: string, gid: string, g: string)
    requires OnlySub(s, s', uid, gid)
    ensures GroupName(s', g) == GroupName(s, g)
    ensures forall u :: !(g == gid && u == uid) ==> (IsSub(s', g, u) <==> IsSub(s, g, u))
  {
    assert g in s'.groups.Keys <==> g in s.groups.Keys;
    if g in s.groups {
      forall u | !(g == gid && u == uid) ensures IsSub(s', g, u) <==> IsSub(s, g, u) {
        assert u != uid ==> (u in s'.groups[g].subs - {uid} <==> u in s.groups[g].subs - {uid});
      }
    }
  }

  /** The reply to `subscribe` tells new groups from all other outcomes. */
  lemma NewTells(reply: string, id: string)
    ensures "RGS NEW " <= "RGS NEW " + id + "\n"
    ensures "RGS NEW " <= reply ==> |reply| >= 8 && reply[4] == 'N'
    ensures "RGS OK\n"[4] == 'O'
    ensures "RGS E_USR\n"[4] == "RGS E_GRP\n"[4] == "RGS E_GNAME\n"[4] == 'E'
  {
    assert ("RGS NEW " + id + "\n")[..8] == "RGS NEW ";
    assert "RGS NEW " <= reply ==> reply[4] == "RGS NEW "[4];
  }

  lemma NoGroupMade(e: Exchange)
    requires e.command.Gsr? && e.reply.Some?
    requires e.reply.value in {"RGS OK\n", "RGS E_USR\n", "RGS E_GRP\n", "RGS E_GNAME\n"}
    ensures !MakesGroup(e) && forall id :: !Got(e, "RGS NEW " + id + "\n")
  {
    NewTells(e.reply.value, "");
    forall id ensures !Got(e, "RGS NEW " + id + "\n") {
      NewTells("RGS NEW " + id + "\n", id);
    }
  }

  lemma RefusedFollows(s: State, e: Exchange)
    requires s.up && e.command.Gsr? && e.reply in {Some("RGS E_USR\n"), Some("RGS E_GRP\n"), Some("RGS E_GNAME\n")}
    ensures Follows(s, s, e)
  {
    NoGroupMade(e);
    NewTells(e.reply.value, "");
  }

  lemma EndFollows(s: State, e: Exchange)
    requires e.command.Gsr? && e.reply == None
    ensures Follows(s, s.(up := false), e)
  {
  }

  lemma JoinFollows(s: State, s': State, uid: string, gid: string, gname: string)
    requires s.up && OnlySub(s, s', uid, gid) && gid in s.groups && uid in s'.groups[gid].subs
    ensures Follows(s, s', Exchange(Gsr(uid, gid, gname), Some("RGS OK\n")))
  {
    var e := Exchange(Gsr(uid, gid, gname), Some("RGS OK\n"));
    NoGroupMade(e);
    SameCount(s, s');
    forall g ensures GroupStep(s, s', e, g) {
      OneSubStep(s, s', uid, gid, g);
    }
  }

  lemma OneGroupMore(s: State, s': State, gid: string, gname: string, uid: string)
    requires OnlyGroup(s, s', gid, gname, uid) && gid !in s.groups
    ensures |s'.groups| == |s.groups| + 1
    ensures forall g :: g != gid ==> GroupName(s', g) == GroupName(s, g)
    ensures forall g, u :: g != gid ==> (IsSub(s', g, u) <==> IsSub(s, g, u))
  {
    KeysSize(s.groups);
    KeysSize(s'.groups);
    forall g | g != gid ensures g in s'.groups <==> g in s.groups {
      assert g in s'.groups.Keys <==> g in s.groups.Keys;
    }
  }

  lemma NewFollows(s: State, s': State, uid: string, asked: string, gid: string, gname: string)
    requires s.up && OnlyGroup(s, s', gid, gname, uid) && gid !in s.groups && asked == "00"
    ensures Follows(s, s', Exchange(Gsr(uid, asked, gname), Some("RGS NEW " + gid + "\n")))
  {
    var e := Exchange(Gsr(uid, asked, gname), Some("RGS NEW " + gid + "\n"));
    NewTells("", gid);
    OneGroupMore(s, s', gid, gname, uid);
    assert ("RGS NEW " + gid + "\n")[4] == "RGS NEW "[4];
    forall g ensures GroupStep(s, s', e, g) {
      if Got(e, "RGS NEW " + g + "\n") {
        SameMiddle("RGS NEW ", gid, g, "\n");
      }
      assert g == gid ==> gid in s'.groups.Keys;
    }
  }

  lemma SubscribeFollows(s: State, uid: string, gid: string, gname: string)
    requires s.up && Inv(s)
    ensures Follows(s, Exec(s, Gsr(uid, gid, gname)).0, Exchanged(s, Gsr(uid, gid, gname)))
  {
    var c := Gsr(uid, gid, gname);
    var (s', r) := Exec(s, c);
    SubscribeEffect(s, uid, gid, gname);
    SubscribeKinds(s, c);
    if r == Crash {
      EndFollows(s, Exchanged(s, c));
    } else {
      SubscribeLine(c, r);
      if r == Ok {
        JoinFollows(s, s', uid, gid, gname);
      } else if r.New? {
        NewFollows(s, s', uid, gid, r.gid, gname);
      } else {
        RefusedFollows(s, Exchanged(s, c));
      }
    }
  }

  lemma ExecFollows(s: State, c: Command)
    requires Inv(s)
    ensures Follows(s, Exec(s, c).0, Exchanged(s, c))
  {
    if !s.up {
      DownFollows(s, c);
    } else {
      match c
      case Reg(uid, pass) => RegisterFollows(s, uid, pass);
      case Unr(uid, pass) => UnregisterFollows(s, uid, pass);
      case Log(uid, pass) => LogInFollows(s, uid, pass);
      case Out(uid, pass) => LogOutFollows(s, uid, pass);
      case Gsr(uid, gid, gname) => SubscribeFollows(s, uid, gid, gname);
      case Gur(uid, gid) => UnsubscribeFollows(s, uid, gid);
    }
  }

  lemma DownFollows(s: State, c: Command)
    requires !s.up
    ensures Follows(s, Exec(s, c).0, Exchanged(s, c))
  {
    assert Exec(s, c) == (s, Crash) && Exchanged(s, c).reply == None;
  }

  // ---- whole histories ----

  /** What is said when the commands are sent one after the other. */
  function Exchanges(s: State, cs: seq<Command>): (h: seq<Exchange>)
    ensures |h| == |cs|
  {
    if cs == [] then []
    else
      Exchanges(s, cs[..|cs| - 1]) + [Exchanged(Run(s, cs[..|cs| - 1]), cs[|cs| - 1])]
  }

  lemma NothingSaid()
    ensures Remembered(INITIAL, [])
  {
  }

  lemma RunLast(s: State, cs: seq<Command>)
    requires cs != []
    ensures Run(s, cs) == Exec(Run(s, cs[..|cs| - 1]), cs[|cs| - 1]).0
  {
    RunStep(s, cs, |cs| - 1);
    assert cs[..|cs| - 1 + 1] == cs;
  }

  lemma {:induction false} RunRemembered(cs: seq<Command>)
    requires forall c :: c in cs ==> NamedGroup(c)
    ensures Inv(Run(INITIAL, cs)) && Remembered(Run(INITIAL, cs), Exchanges(INITIAL, cs))
    decreases |cs|
  {
    InitialInv();
    RunKeepsInv(INITIAL, cs);
    if cs == [] {
      NothingSaid();
    } else {
      var before := cs[..|cs| - 1];
      RunRemembered(before);
      RunLast(INITIAL, cs);
      ExecFollows(Run(INITIAL, before), cs[|cs| - 1]);
      StillRemembered(Run(INITIAL, before), Run(INITIAL, cs), Exchanges(INITIAL, before),
                      Exchanged(Run(INITIAL, before), cs[|cs| - 1]));
    }
  }

  lemma ReplyIsExpected(s: State, h: seq<Exchange>, c: Command)
    requires Inv(s) && Remembered(s, h)
    ensures ReplyTo(s, c) == Expected(h, c)
  {
    if s.up {
      Clauses(s);
      assert PersonOk(s, h, c.uid);
      match c
      case Reg(uid, pass) => Registering(s, uid, pass);
      case Unr(uid, pass) => Unregistering(s, uid, pass);
      case Log(uid, pass) => LoggingIn(s, uid, pass);
      case Out(uid, pass) => LoggingOut(s, uid, pass);
      case Gsr(uid, gid, gname) => GroupExpected(s, h, uid, gid, gname);
      case Gur(uid, gid) =>
        Unsubscribing(s, uid, gid);
        assert GroupOk(s, h, gid);
    }
  }

  lemma GroupExpected(s: State, h: seq<Exchange>, uid: string, gid: string, gname: string)
    requires s.up && Remembered(s, h)
    ensures ReplyTo(s, Gsr(uid, gid, gname)) == Expected(h, Gsr(uid, gid, gname))
  {
    Subscribing(s, uid, gid, gname);
    assert PersonOk(s, h, uid) && GroupOk(s, h, gid);
  }

  /**
   * After any sequence of commands, the next reply is what the earlier exchanges make one expect:
   * a name that is taken, a password that is wrong, the id of the next group, its name.
   */
  lemma RepliesAreExpected(cs: seq<Command>, c: Command)
    requires forall d :: d in cs ==> NamedGroup(d)
    ensures ReplyTo(Run(INITIAL, cs), c) == Expected(Exchanges(INITIAL, cs), c)
  {
    RunRemembered(cs);
    ReplyIsExpected(Run(INITIAL, cs), Exchanges(INITIAL, cs), c);
  }

  /** And the subscribers of a group are those who have been told they are, and not since that they are not. */
  lemma SubscribersAreTold(cs: seq<Command>, gid: string, uid: string)
    requires forall d :: d in cs ==> NamedGroup(d)
    ensures var s, h := Run(INITIAL, cs), Exchanges(INITIAL, cs);
      && (gid in s.groups && uid in s.groups[gid].subs <==> Subscriber(h, gid, uid))
      && (uid in s.logged <==> LoggedIn(h, uid))
      && (uid in s.users <==> Password(h, uid).Some?)
  {
    RunRemembered(cs);
    var s, h := Run(INITIAL, cs), Exchanges(INITIAL, cs);
    assert PersonOk(s, h, uid) && GroupOk(s, h, gid);
    assert IsSub(s, gid, uid) <==> Subscriber(h, gid, uid);
  }
}
