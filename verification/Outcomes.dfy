/**
 * What a serial command is answered and what it changes: the bytes of the reply on one side, the
 * users, logins, groups and subscriptions before and after it on the other.
 */
module Outcomes {
  import opened CText
  import opened Wire
  import opened Tokenizer
  import opened Server
  import opened Requests

  lemma TwoWords(a: string, b: string)
    ensures Line([a, b]) == a + (" " + (b + "\n"))
  {
    assert [a, b][1..] == [b];
    assert Line([b]) == b + ("\n" + Line([])) == b + "\n";
  }

  lemma ThreeWords(a: string, b: string, c: string)
    ensures Line([a, b, c]) == a + (" " + (b + (" " + (c + "\n"))))
  {
    assert [a, b, c][1..] == [b, c];
    TwoWords(b, c);
  }

  lemma FourWords(a: string, b: string, c: string, d: string)
    ensures Line([a, b, c, d]) == a + (" " + (b + (" " + (c + (" " + (d + "\n"))))))
  {
    assert [a, b, c, d][1..] == [b, c, d];
    ThreeWords(b, c, d);
  }

  lemma StatusLine(c: Command, r: Reply)
    requires r != Crash && !r.New?
    ensures Line(ReplyFields(c, r)) == Tag(c) + " " + Status(r) + "\n"
  {
    assert [Tag(c), Status(r)] + [] == [Tag(c), Status(r)];
    TwoWords(Tag(c), Status(r));
  }

  // ---- passwords ----

  /** Nothing but users and logins differs, and of these only the user's. */
  ghost predicate OnlyUser(s: State, s': State, uid: string) {
    && s'.up == s.up && s'.groups == s.groups
    && (forall u :: u != uid ==> (u in s'.users <==> u in s.users) && (u in s.users ==> s'.users[u] == s.users[u]))
    && (forall u :: u != uid ==> (u in s'.logged <==> u in s.logged))
  }

  /** A UID that is taken is refused, with its password left as it was. */
  lemma Registering(s: State, uid: string, pass: string)
    requires s.up
    ensures ReplyTo(s, Reg(uid, pass)) == Some(
      if !ValidUid(uid) || !ValidPass(pass) then "RRG NOK\n"
      else if uid in s.users then "RRG DUP\n"
      else "RRG OK\n")
    ensures var s' := Exec(s, Reg(uid, pass)).0;
      if ReplyTo(s, Reg(uid, pass)) == Some("RRG OK\n") then
        OnlyUser(s, s', uid) && s'.logged == s.logged && uid in s'.users && s'.users[uid] == pass
      else s' == s
  {
    var r := Exec(s, Reg(uid, pass)).1;
    StatusLine(Reg(uid, pass), r);
    assert "RRG OK\n"[4] == 'O' && "RRG NOK\n"[4] == 'N' && "RRG DUP\n"[4] == 'D';
    assert "RRG" + " " + "OK" + "\n" == "RRG OK\n" && "RRG" + " " + "NOK" + "\n" == "RRG NOK\n";
    assert "RRG" + " " + "DUP" + "\n" == "RRG DUP\n";
  }

  /** Whoever has just registered can log in, and with this password only. */
  lemma RegisteredLogsIn(s: State, uid: string, pass: string, typed: string)
    requires ReplyTo(s, Reg(uid, pass)) == Some("RRG OK\n")
    ensures ReplyTo(Exec(s, Reg(uid, pass)).0, Log(uid, typed)) == Some(if typed == pass then "RLO OK\n" else "RLO NOK\n")
  {
    if s.up {
      Registering(s, uid, pass);
      LoggingIn(Exec(s, Reg(uid, pass)).0, uid, typed);
      assert "RRG OK\n"[4] == 'O' && "RRG NOK\n"[4] == 'N' && "RRG DUP\n"[4] == 'D';
    }
  }

  /** The password is asked for, and a user who is accepted is gone from everywhere. */
  lemma Unregistering(s: State, uid: string, pass: string)
    requires s.up
    ensures ReplyTo(s, Unr(uid, pass)) == Some(
      if ValidUid(uid) && ValidPass(pass) && uid in s.users && s.users[uid] == pass then "RUN OK\n"
      else "RUN NOK\n")
    ensures var s' := Exec(s, Unr(uid, pass)).0;
      if ReplyTo(s, Unr(uid, pass)) == Some("RUN OK\n") then
        && OnlyUser(s, s'.(groups := s.groups), uid) && uid !in s'.users && uid !in s'.logged
        && s'.groups.Keys == s.groups.Keys
        && forall g :: g in s.groups ==>
             s'.groups[g].name == s.groups[g].name && s'.groups[g].subs == s.groups[g].subs - {uid}
      else s' == s
  {
    var r := Exec(s, Unr(uid, pass)).1;
    StatusLine(Unr(uid, pass), r);
    assert "RUN OK\n"[4] == 'O' && "RUN NOK\n"[4] == 'N';
    assert "RUN" + " " + "OK" + "\n" == "RUN OK\n" && "RUN" + " " + "NOK" + "\n" == "RUN NOK\n";
  }

  lemma LoggingIn(s: State, uid: string, pass: string)
    requires s.up
    ensures ReplyTo(s, Log(uid, pass)) == Some(
      if ValidUid(uid) && ValidPass(pass) && uid in s.users && s.users[uid] == pass then "RLO OK\n"
      else "RLO NOK\n")
    ensures var s' := Exec(s, Log(uid, pass)).0;
      if ReplyTo(s, Log(uid, pass)) == Some("RLO OK\n") then
        OnlyUser(s, s', uid) && s'.users == s.users && uid in s'.logged
      else s' == s
  {
    var r := Exec(s, Log(uid, pass)).1;
    StatusLine(Log(uid, pass), r);
    assert "RLO OK\n"[4] == 'O' && "RLO NOK\n"[4] == 'N';
    assert "RLO" + " " + "OK" + "\n" == "RLO OK\n" && "RLO" + " " + "NOK" + "\n" == "RLO NOK\n";
  }

  lemma LoggingOut(s: State, uid: string, pass: string)
    requires s.up
    ensures ReplyTo(s, Out(uid, pass)) == Some(
      if ValidUid(uid) && ValidPass(pass) && uid in s.users && s.users[uid] == pass then "ROU OK\n"
      else "ROU NOK\n")
    ensures var s' := Exec(s, Out(uid, pass)).0;
      if ReplyTo(s, Out(uid, pass)) == Some("ROU OK\n") then
        OnlyUser(s, s', uid) && s'.users == s.users && uid !in s'.logged
      else s' == s
  {
    var r := Exec(s, Out(uid, pass)).1;
    StatusLine(Out(uid, pass), r);
    assert "ROU OK\n"[4] == 'O' && "ROU NOK\n"[4] == 'N';
    assert "ROU" + " " + "OK" + "\n" == "ROU OK\n" && "ROU" + " " + "NOK" + "\n" == "ROU NOK\n";
  }

  // ---- groups ----

  /** At most the subscription of `uid` to `gid` differs. */
  ghost predicate OnlySub(s: State, s': State, uid: string, gid: string) {
    && s'.up == s.up && s'.users == s.users && s'.logged == s.logged && s'.groups.Keys == s.groups.Keys
    && forall g :: g in s.groups ==>
         && s'.groups[g].name == s.groups[g].name
         && s'.groups[g].subs - {uid} == s.groups[g].subs - {uid}
         && (g != gid ==> s'.groups[g] == s.groups[g])
  }

  /** Only the group `gid` has come, with its first subscriber. */
  ghost predicate OnlyGroup(s: State, s': State, gid: string, gname: string, uid: string) {
    && s'.up == s.up && s'.users == s.users && s'.logged == s.logged
    && s'.groups.Keys == s.groups.Keys + {gid}
    && (forall g :: g in s.groups && g != gid ==> s'.groups[g] == s.groups[g])
    && s'.groups[gid].name == gname && s'.groups[gid].subs == {uid}
  }

  /** A user who has left is not in the group any more, and nobody else has left anything. */
  lemma Unsubscribing(s: State, uid: string, gid: string)
    requires s.up
    ensures ReplyTo(s, Gur(uid, gid)) == Some(
      if !ValidUid(uid) then "RGU E_USR\n"
      else if !ValidGid(gid) then "RGU E_GRP\n"
      else if uid !in s.users then "RGU E_USR\n"
      else if gid !in s.groups then "RGU E_GRP\n"
      else "RGU OK\n")
    ensures var s' := Exec(s, Gur(uid, gid)).0;
      if ReplyTo(s, Gur(uid, gid)) == Some("RGU OK\n") then
        OnlySub(s, s', uid, gid) && gid in s'.groups && uid !in s'.groups[gid].subs
      else s' == s
  {
    var r := Exec(s, Gur(uid, gid)).1;
    StatusLine(Gur(uid, gid), r);
    assert "RGU OK\n"[4] == 'O' && "RGU E_USR\n"[4] == "RGU E_GRP\n"[4] == 'E';
    assert "RGU" + " " + "OK" + "\n" == "RGU OK\n";
    assert "RGU" + " " + "E_USR" + "\n" == "RGU E_USR\n" && "RGU" + " " + "E_GRP" + "\n" == "RGU E_GRP\n";
  }

  /** The replies of `subscribe` with a valid request of a known user. */
  function GroupReply(s: State, gid: string, gname: string): Option<string> {
    if gid == "00" then
      if |s.groups| >= 99 then None else Some("RGS NEW " + Dec(2, |s.groups| + 1) + "\n")
    else if gid !in s.groups then None
    else if s.groups[gid].name == gname then Some("RGS OK\n")
    else Some("RGS E_GNAME\n")
  }

  lemma NewLine(c: Command, gid: string)
    requires c.Gsr?
    ensures Line(ReplyFields(c, New(gid))) == "RGS NEW " + gid + "\n"
  {
    ThreeWords("RGS", "NEW", gid);
    assert ReplyFields(c, New(gid)) == ["RGS", "NEW", gid];
    assert "RGS" + (" " + ("NEW" + (" " + (gid + "\n")))) == "RGS NEW " + gid + "\n";
  }

  /** What the status of a reply to `subscribe` is, its bytes tell. */
  lemma SubscribeLine(c: Command, r: Reply)
    requires c.Gsr? && r != Crash && r != Nok && r != Dup && r != EFull
    ensures var text := Line(ReplyFields(c, r));
      && (text == "RGS OK\n" <==> r == Ok)
      && (text == "RGS E_USR\n" <==> r == EUsr)
      && (text == "RGS E_GRP\n" <==> r == EGrp)
      && (text == "RGS E_GNAME\n" <==> r == EGname)
      && (forall id :: text == "RGS NEW " + id + "\n" <==> r == New(id))
  {
    var text := Line(ReplyFields(c, r));
    if r.New? {
      NewLine(c, r.gid);
      assert text[4] == "RGS NEW "[4] == 'N';
    } else {
      StatusLine(c, r);
      assert "RGS" + " " + "OK" + "\n" == "RGS OK\n" && "RGS" + " " + "E_USR" + "\n" == "RGS E_USR\n";
      assert "RGS" + " " + "E_GRP" + "\n" == "RGS E_GRP\n" && "RGS" + " " + "E_GNAME" + "\n" == "RGS E_GNAME\n";
      assert "RGS OK\n"[4] == 'O' && "RGS E_USR\n"[6] == 'U' && "RGS E_GRP\n"[6] == 'G';
      assert text[4] == 'O' || text[4] == 'E';
    }
    forall id ensures text == "RGS NEW " + id + "\n" <==> r == New(id) {
      assert ("RGS NEW " + id + "\n")[4] == "RGS NEW "[4] == 'N';
      if r.New? && text == "RGS NEW " + id + "\n" {
        SameMiddle("RGS NEW ", r.gid, id, "\n");
      }
    }
  }

  lemma SameMiddle(a: string, x: string, y: string, b: string)
    requires a + x + b == a + y + b
    ensures x == y
  {
    assert |x| == |y|;
    assert (a + x + b)[|a|..|a| + |x|] == x;
    assert (a + y + b)[|a|..|a| + |y|] == y;
  }

  lemma SubscribeKinds(s: State, c: Command)
    requires c.Gsr?
    ensures var r := Exec(s, c).1; r != Nok && r != Dup && r != EFull
  {
  }

  lemma Subscribing(s: State, uid: string, gid: string, gname: string)
    requires s.up
    ensures ReplyTo(s, Gsr(uid, gid, gname)) ==
      if !ValidUid(uid) then Some("RGS E_USR\n")
      else if !ValidGid(gid) then Some("RGS E_GRP\n")
      else if !ValidGname(gname) then Some("RGS E_GNAME\n")
      else if uid !in s.users then Some("RGS E_USR\n")
      else GroupReply(s, gid, gname)
  {
    var r := Exec(s, Gsr(uid, gid, gname)).1;
    if r != Crash {
      SubscribeKinds(s, Gsr(uid, gid, gname));
      SubscribeLine(Gsr(uid, gid, gname), r);
      if r.New? {
        NewLine(Gsr(uid, gid, gname), r.gid);
      }
    }
  }

  /** What a `subscribe` with this outcome changes. */
  ghost predicate Effect(s: State, s': State, r: Reply, uid: string, gid: string, gname: string) {
    && (r == Crash ==> s' == s.(up := false))
    && (r == Ok ==>
          OnlySub(s, s', uid, gid) && gid in s.groups && gname == s.groups[gid].name && uid in s'.groups[gid].subs)
    && (r.New? ==> gid == "00" && r.gid !in s.groups && OnlyGroup(s, s', r.gid, gname, uid))
    && (r == EUsr || r == EGrp || r == EGname ==> s' == s)
  }

  lemma SubscribeEffect(s: State, uid: string, gid: string, gname: string)
    requires s.up && Inv(s)
    ensures var (s', r) := Exec(s, Gsr(uid, gid, gname)); Effect(s, s', r, uid, gid, gname)
  {
    var c := Gsr(uid, gid, gname);
    if Exec(s, c).1.New? {
      NewOutcome(s, c);
      NewIdFree(s);
      GroupEffect(s, uid, Dec(2, |s.groups| + 1), gname);
    } else if Exec(s, c).1 == Ok {
      JoinOutcome(s, c);
      JoinEffect(s, uid, gid);
    } else {
      NoOutcome(s, c);
    }
  }

  lemma NewIdFree(s: State)
    requires Inv(s)
    ensures Dec(2, |s.groups| + 1) !in s.groups
  {
    FreeIds(s);
  }

  lemma JoinOutcome(s: State, c: Command)
    requires c.Gsr? && Exec(s, c).1 == Ok
    ensures c.gid in s.groups && s.groups[c.gid].name == c.gname && Exec(s, c).0 == Subscribed(s, c.uid, c.gid)
  {
  }

  lemma NoOutcome(s: State, c: Command)
    requires c.Gsr? && s.up && Exec(s, c).1 != Ok && !Exec(s, c).1.New?
    ensures Exec(s, c).0 == if Exec(s, c).1 == Crash then s.(up := false) else s
  {
  }

  lemma JoinEffect(s: State, uid: string, gid: string)
    requires gid in s.groups
    ensures OnlySub(s, Subscribed(s, uid, gid), uid, gid) && uid in Subscribed(s, uid, gid).groups[gid].subs
  {
  }

  lemma GroupEffect(s: State, uid: string, gid: string, gname: string)
    requires gid !in s.groups
    ensures OnlyGroup(s, Subscribed(NewGroup(s, gid, gname), uid, gid), gid, gname, uid)
  {
  }

  /** Whom each reply of `subscribe` has subscribed to what; no reply is the end of the process. */
  lemma SubscribeChanges(s: State, uid: string, gid: string, gname: string)
    requires s.up && Inv(s)
    ensures var s', reply := Exec(s, Gsr(uid, gid, gname)).0, ReplyTo(s, Gsr(uid, gid, gname));
      && (reply == None ==> s' == s.(up := false))
      && (reply == Some("RGS OK\n") ==>
            OnlySub(s, s', uid, gid) && gid in s.groups && gname == s.groups[gid].name && uid in s'.groups[gid].subs)
      && (forall id :: reply == Some("RGS NEW " + id + "\n") ==>
            gid == "00" && id !in s.groups && OnlyGroup(s, s', id, gname, uid))
      && (reply in {Some("RGS E_USR\n"), Some("RGS E_GRP\n"), Some("RGS E_GNAME\n")} ==> s' == s)
  {
    var r := Exec(s, Gsr(uid, gid, gname)).1;
    SubscribeEffect(s, uid, gid, gname);
    SubscribeKinds(s, Gsr(uid, gid, gname));
    if r != Crash {
      SubscribeLine(Gsr(uid, gid, gname), r);
    }
  }
}
