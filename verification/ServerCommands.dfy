/** The serial commands of the server, as they work on the tree. */
module ServerCommands {
  import opened CText
  import opened StrList
  import opened Tree
  import opened Messages
  import opened Wire
  import opened Server
  import opened ServerTree

  /** The outcomes of `subscribe` for a known user, case by case. */
  lemma SubscribeOutcomes(s: State, uid: string, gid: string, gname: string)
    requires ValidUid(uid) && ValidGid(gid) && ValidGname(gname) && uid in s.users && "00" !in s.groups && s.up
    ensures var next := Dec(2, |s.groups| + 1);
      Exec(s, Gsr(uid, gid, gname)) ==
      (if gid == "00" && |s.groups| < MAX_GROUPS then
         (Subscribed(NewGroup(s, next, gname), uid, next), New(next))
       else if gid !in s.groups then (s.(up := false), Crash)
       else if s.groups[gid].name != gname then (s, EGname)
       else (Subscribed(s, uid, gid), Ok))
  {
  }

  lemma NotSubscribed(s: State, uid: string, gid: string)
    requires gid in s.groups && uid !in s.groups[gid].subs
    ensures Unsubscribed(s, uid, gid) == s
  {
    assert WithoutUser(s.groups[gid], uid) == s.groups[gid];
    assert s.groups[gid := s.groups[gid]] == s.groups;
  }

  lemma NewGroupHas(s: State, gid: string, gname: string)
    ensures gid in NewGroup(s, gid, gname).groups && NewGroup(s, gid, gname).groups[gid].name == gname
  {
  }

  lemma MoreElements(xs: seq<string>, x: string)
    ensures (set y | y in xs + [x]) == (set y | y in xs) + {x}
  {
  }

  lemma SameElements(xs: seq<string>, want: set<string>)
    requires multiset(xs) == multiset(want)
    ensures (set x | x in xs) == want
  {
    forall x ensures x in xs <==> x in want {
      assert x in multiset(xs) <==> x in multiset(want);
    }
  }

  lemma DirsAreDirs(t: Tree, s: State, uid: string, gid: string)
    requires Represents(t, s)
    ensures ["USERS", uid] in t <==> IsDir(t, UserDir(uid))
    ensures ["GROUPS", gid] in t <==> IsDir(t, GroupDir(gid))
  {
    Matches(t, s);
  }

  /** The password is the one stored for the user. */
  predicate HasPassword(t: Tree, uid: string, pass: string) {
    var p := ["USERS", uid, "pass.txt"];
    p in t && t[p] == File(pass)
  }

  lemma Passwords(t: Tree, s: State, uid: string, pass: string)
    requires Represents(t, s)
    ensures HasPassword(t, uid, pass) <==> uid in s.users && s.users[uid] == pass
  {
    Matches(t, s);
    if UserEntry(uid, "pass.txt") in t {
      assert Parent(UserEntry(uid, "pass.txt")) == UserDir(uid);
    }
  }

  lemma LoginEntry(t: Tree, s: State, uid: string)
    requires Represents(t, s) && uid in s.users
    ensures UserEntry(uid, "login") in t <==> uid in s.logged
    ensures UserEntry(uid, "login") in t ==> IsFile(t, UserEntry(uid, "login"))
    ensures Parent(UserEntry(uid, "login")) == UserDir(uid) && UserEntry(uid, "login") == UserDir(uid) + ["login"]
    ensures IsDir(t, UserDir(uid))
  {
    Matches(t, s);
    UserParent(t, uid, "login");
  }

  /** The user's login is there, and nothing else has changed. */
  ghost predicate LoggedIn(t: Tree, t': Tree, uid: string) {
    var p := ["USERS", uid, "login"];
    IsFile(t', p) && t' - {p} == t - {p}
  }

  /** Nothing of the user is left but the messages, and everything else is as it was. */
  ghost predicate Erased(t: Tree, t': Tree, uid: string) {
    forall q ::
      && (q in t' <==> q in t && !(|q| >= 2 && q[0] == "USERS" && q[1] == uid)
                              && !(|q| == 3 && q[0] == "GROUPS" && q[2] == uid))
      && (q in t' ==> t'[q] == t[q])
  }

  lemma ErasedBySweep(t: Tree, s: State, uid: string)
    requires Represents(t, s)
    ensures Erased(t, Swept(Without(t, UserDir(uid)), uid, s.groups.Keys), uid)
  {
    Matches(t, s);
    forall q | |q| == 3 && q[0] == "GROUPS" && q in t ensures q[1] in s.groups {
      assert Parent(q) == GroupDir(q[1]);
    }
    forall q ensures Below(UserDir(uid), q) <==> |q| >= 2 && q[0] == "USERS" && q[1] == uid {
      if |q| >= 2 {
        assert q[..2] == [q[0], q[1]];
      }
    }
  }

  /** The main process: what it keeps in the tree, and whether it is still there. */
  class DirectoryServer {
    const fs: FileSystem
    var up: bool
    ghost var state: State

    ghost predicate Valid()
      reads this, fs
    {
      Represents(fs.tree, state) && Inv(state) && up == state.up
    }

    constructor (fs: FileSystem, up: bool, ghost s: State)
      requires Represents(fs.tree, s) && Inv(s) && up == s.up
      ensures Valid() && state == s && this.fs == fs
    {
      this.fs, this.up, state := fs, up, s;
    }

    /** 0 if the password is the user's, 1 if there is no such user, 2 if it is wrong. */
    method CheckCredentials(uid: string, pass: string) returns (r: int)
      requires Valid()
      ensures r == if uid !in state.users then 1 else if state.users[uid] == pass then 0 else 2
    {
      Matches(fs.tree, state);
      if !IsDir(fs.tree, UserDir(uid)) {
        return 1;
      }
      return if fs.tree[UserEntry(uid, "pass.txt")].data == pass then 0 else 2;
    }

    method Register(uid: string, pass: string) returns (reply: Reply)
      requires Valid() && up
      modifies this, fs
      ensures Valid() && (state, reply) == Exec(old(state), Reg(uid, pass))
      ensures AreaKept(old(fs.tree), fs.tree)
      ensures reply == if !ValidUid(uid) || !ValidPass(pass) then Nok
                       else if ["USERS", uid] in old(fs.tree) then Dup
                       else Ok
      ensures fs.tree == if reply == Ok then
                           old(fs.tree)[["USERS", uid] := Dir][["USERS", uid, "pass.txt"] := File(pass)]
                         else old(fs.tree)
    {
      Matches(fs.tree, state);
      if !ValidUid(uid) || !ValidPass(pass) {
        return Nok;
      }
      Clauses(state);
      if IsDir(fs.tree, UserDir(uid)) {
        return Dup;
      }
      AddUser(fs.tree, state, uid, pass);
      ExecKeepsInv(state, Reg(uid, pass));
      assert Parent(UserDir(uid)) == USERS;
      UserParent(fs.tree, uid, "pass.txt");
      var ok := fs.CreateDirectory(UserDir(uid));
      ok := fs.CreateFile(UserDir(uid), "pass.txt", pass);
      state := Exec(state, Reg(uid, pass)).0;
      reply := Ok;
    }

    method Login(uid: string, pass: string) returns (reply: Reply)
      requires Valid() && up
      modifies this, fs
      ensures Valid() && (state, reply) == Exec(old(state), Log(uid, pass))
      ensures AreaKept(old(fs.tree), fs.tree)
      ensures reply == if ValidUid(uid) && ValidPass(pass) && HasPassword(old(fs.tree), uid, pass) then Ok else Nok
      ensures reply == Ok ==> LoggedIn(old(fs.tree), fs.tree, uid)
      ensures reply != Ok ==> fs.tree == old(fs.tree)
    {
      Passwords(fs.tree, state, uid, pass);
      if !ValidUid(uid) || !ValidPass(pass) {
        return Nok;
      }
      var r := CheckCredentials(uid, pass);
      if r != 0 {
        return Nok;
      }
      ExecKeepsInv(state, Log(uid, pass));
      var ok := MarkLogin(uid);
      if !ok {
        return Nok;
      }
      reply := Ok;
    }

    /** The login file, unless it is there already. */
    method MarkLogin(uid: string) returns (ok: bool)
      requires Represents(fs.tree, state) && uid in state.users
      modifies this`state, fs
      ensures ok && Represents(fs.tree, state) && AreaKept(old(fs.tree), fs.tree)
      ensures state == old(state).(logged := old(state).logged + {uid}) && LoggedIn(old(fs.tree), fs.tree, uid)
    {
      LoginEntry(fs.tree, state, uid);
      ok := true;
      if UserEntry(uid, "login") !in fs.tree {
        SetLogin(fs.tree, state, uid);
        ok := fs.CreateFile(UserDir(uid), "login", "");
      } else {
        assert state.logged + {uid} == state.logged;
      }
      state := state.(logged := state.logged + {uid});
    }

    method Logout(uid: string, pass: string) returns (reply: Reply)
      requires Valid() && up
      modifies this, fs
      ensures Valid() && (state, reply) == Exec(old(state), Out(uid, pass))
      ensures AreaKept(old(fs.tree), fs.tree)
      ensures reply == if ValidUid(uid) && ValidPass(pass) && HasPassword(old(fs.tree), uid, pass) then Ok else Nok
      ensures fs.tree == if reply == Ok then old(fs.tree) - {["USERS", uid, "login"]} else old(fs.tree)
    {
      Passwords(fs.tree, state, uid, pass);
      if !ValidUid(uid) || !ValidPass(pass) {
        return Nok;
      }
      var r := CheckCredentials(uid, pass);
      if r != 0 {
        return Nok;
      }
      ExecKeepsInv(state, Out(uid, pass));
      var ok := UnmarkLogin(uid);
      if !ok {
        return Nok;
      }
      reply := Ok;
    }

    method UnmarkLogin(uid: string) returns (ok: bool)
      requires Represents(fs.tree, state) && uid in state.users
      modifies this`state, fs
      ensures ok && Represents(fs.tree, state) && AreaKept(old(fs.tree), fs.tree)
      ensures state == old(state).(logged := old(state).logged - {uid})
      ensures fs.tree == old(fs.tree) - {UserEntry(uid, "login")}
    {
      LoginEntry(fs.tree, state, uid);
      ok := true;
      if UserEntry(uid, "login") in fs.tree {
        ClearLogin(fs.tree, state, uid);
        ok := fs.Remove(UserEntry(uid, "login"));
      } else {
        assert state.logged - {uid} == state.logged;
      }
      state := state.(logged := state.logged - {uid});
    }

    method Unsubscribe(uid: string, gid: string) returns (reply: Reply)
      requires Valid() && up
      modifies this, fs
      ensures Valid() && (state, reply) == Exec(old(state), Gur(uid, gid))
      ensures AreaKept(old(fs.tree), fs.tree)
      ensures reply == if !ValidUid(uid) then EUsr
                       else if !ValidGid(gid) then EGrp
                       else if ["USERS", uid] !in old(fs.tree) then EUsr
                       else if ["GROUPS", gid] !in old(fs.tree) then EGrp
                       else Ok
      ensures fs.tree == if reply == Ok then old(fs.tree) - {["GROUPS", gid, uid]} else old(fs.tree)
    {
      UserDirIff(fs.tree, state, uid);
      GroupDirOf(fs.tree, state, gid);
      DirsAreDirs(fs.tree, state, uid, gid);
      if !ValidUid(uid) {
        return EUsr;
      } else if !ValidGid(gid) {
        return EGrp;
      }
      if !IsDir(fs.tree, UserDir(uid)) {
        return EUsr;
      }
      if !IsDir(fs.tree, GroupDir(gid)) {
        return EGrp;
      }
      ExecKeepsInv(state, Gur(uid, gid));
      LeaveGroup(uid, gid);
      reply := Ok;
    }

    method LeaveGroup(uid: string, gid: string)
      requires Represents(fs.tree, state) && gid in state.groups && ValidUid(uid)
      modifies this`state, fs
      ensures Represents(fs.tree, state) && AreaKept(old(fs.tree), fs.tree)
      ensures state == Unsubscribed(old(state), uid, gid)
      ensures fs.tree == old(fs.tree) - {GroupEntry(gid, uid)}
    {
      Matches(fs.tree, state);
      if GroupEntry(gid, uid) in fs.tree {
        RemoveSub(fs.tree, state, uid, gid);
        var ok := fs.Remove(GroupEntry(gid, uid));
        assert ok;
      } else {
        NotSubscribed(state, uid, gid);
      }
      state := Unsubscribed(state, uid, gid);
    }

    /** A full server and a missing group end in `Crash`: `name.txt` of the group cannot be opened. */
    method Subscribe(uid: string, gid0: string, gname: string) returns (reply: Reply)
      requires Valid() && up && (gid0 == "00" ==> gname != "")
      modifies this, fs
      ensures Valid() && (state, reply) == Exec(old(state), Gsr(uid, gid0, gname))
      ensures AreaKept(old(fs.tree), fs.tree)
      ensures reply.New? ==>
        fs.tree == old(fs.tree)[["GROUPS", reply.gid] := Dir][["GROUPS", reply.gid, "MSG"] := Dir]
                     [["GROUPS", reply.gid, "name.txt"] := File(gname)][["GROUPS", reply.gid, uid] := File("")]
      ensures reply == Ok ==> fs.tree == old(fs.tree)[["GROUPS", gid0, uid] := File("")]
      ensures reply != Ok && !reply.New? ==> fs.tree == old(fs.tree)
    {
      UserDirIff(fs.tree, state, uid);
      if !ValidUid(uid) {
        return EUsr;
      } else if !ValidGid(gid0) {
        return EGrp;
      } else if !ValidGname(gname) {
        return EGname;
      }
      if !IsDir(fs.tree, UserDir(uid)) {
        return EUsr;
      }
      FreeIds(state);
      SubscribeOutcomes(state, uid, gid0, gname);
      ExecKeepsInv(state, Gsr(uid, gid0, gname));
      if gid0 == "00" {
        reply := SubscribeNew(uid, gname);
      } else {
        reply := EnterGroup(uid, gid0, gname, false, Nok);
      }
    }

    /** A new group, unless there are 99; then the id is still "00", which is no group. */
    method SubscribeNew(uid: string, gname: string) returns (reply: Reply)
      requires Valid() && up && "00" !in state.groups && ValidUid(uid)
      modifies this, fs
      ensures Represents(fs.tree, state) && up == state.up && AreaKept(old(fs.tree), fs.tree)
      ensures var id := Dec(2, |old(state).groups| + 1);
        if |old(state).groups| < MAX_GROUPS then
          && state == Subscribed(NewGroup(old(state), id, gname), uid, id) && reply == New(id)
          && fs.tree == WithGroup(old(fs.tree), id, gname)[GroupEntry(id, uid) := File("")]
        else state == old(state).(up := false) && reply == Crash && fs.tree == old(fs.tree)
    {
      FreeIds(state);
      var n := CountGroups();
      var newId := n + 1;
      if newId > MAX_GROUPS {
        reply := EnterGroup(uid, "00", gname, true, EFull);
        return;
      }
      reply := CreateAndEnter(uid, Dec(2, newId), gname);
    }

    method CreateAndEnter(uid: string, gid: string, gname: string) returns (reply: Reply)
      requires Represents(fs.tree, state) && gid !in state.groups && ValidUid(uid) && up == state.up
      modifies this, fs
      ensures Represents(fs.tree, state) && up == state.up && AreaKept(old(fs.tree), fs.tree)
      ensures state == Subscribed(NewGroup(old(state), gid, gname), uid, gid) && reply == New(gid)
      ensures fs.tree == WithGroup(old(fs.tree), gid, gname)[GroupEntry(gid, uid) := File("")]
    {
      ghost var t, s := fs.tree, NewGroup(state, gid, gname);
      ghost var bare, half := CreateGroup(gid, gname);
      ghost var mid := fs.tree;
      NewGroupHas(old(state), gid, gname);
      reply := EnterGroup(uid, gid, gname, true, New(gid));
      assert state == Subscribed(s, uid, gid);
      AreaKeptTransitive(t, mid, fs.tree);
    }

    method CountGroups() returns (n: nat)
      requires Valid()
      ensures n == |state.groups|
    {
      Matches(fs.tree, state);
      Clauses(state);
      GroupListing(fs.tree, state);
      var list, xs, repr := fs.ListSubdirectories(GROUPS);
      n := Size(list, xs, repr);
      assert n == |multiset(xs)| == |state.groups.Keys| == |state.groups|;
    }

    method JoinGroup(uid: string, gid: string) returns (ok: bool)
      requires Represents(fs.tree, state) && gid in state.groups && ValidUid(uid)
      modifies this`state, fs
      ensures ok && Represents(fs.tree, state) && AreaKept(old(fs.tree), fs.tree)
      ensures state == Subscribed(old(state), uid, gid)
      ensures fs.tree == old(fs.tree)[GroupEntry(gid, uid) := File("")]
    {
      Matches(fs.tree, state);
      AddSub(fs.tree, state, uid, gid);
      GroupParent(fs.tree, gid, uid);
      ok := fs.CreateFile(GroupDir(gid), uid, "");
      state := Subscribed(state, uid, gid);
    }

    /** The second half of `subscribe`; `hasMsg` says that the reply has already been chosen. */
    method EnterGroup(uid: string, gid: string, gname: string, hasMsg: bool, soFar: Reply)
        returns (reply: Reply)
      requires Represents(fs.tree, state) && ValidUid(uid) && up == state.up
      modifies this, fs
      ensures Represents(fs.tree, state) && AreaKept(old(fs.tree), fs.tree) && up == state.up
      ensures gid !in old(state).groups ==>
                state == old(state).(up := false) && reply == Crash && fs.tree == old(fs.tree)
      ensures gid in old(state).groups && old(state).groups[gid].name != gname ==>
                && state == old(state) && reply == (if hasMsg then soFar else EGname)
                && fs.tree == old(fs.tree)
      ensures gid in old(state).groups && old(state).groups[gid].name == gname ==>
                && state == Subscribed(old(state), uid, gid) && reply == (if hasMsg then soFar else Ok)
                && fs.tree == old(fs.tree)[GroupEntry(gid, uid) := File("")]
    {
      NameOf(fs.tree, state, gid);
      if !IsDir(fs.tree, GROUPS) {
        return if hasMsg then soFar else EGrp;
      }
      if !IsFile(fs.tree, GroupEntry(gid, "name.txt")) {
        DownToo(fs.tree, state);
        up, state := false, state.(up := false);
        return Crash;
      }
      if fs.tree[GroupEntry(gid, "name.txt")].data != gname {
        return if hasMsg then soFar else EGname;
      }
      var ok := JoinGroup(uid, gid);
      if !ok {
        return Nok;
      }
      reply := if hasMsg then soFar else Ok;
    }

    /**
     * The three creations of `subscribe` for a new group. Forked children may see `bare` and `half`,
     * and the latter with any first part of the name in `name.txt`.
     */
    method CreateGroup(gid: string, gname: string) returns (ghost bare: Tree, ghost half: Tree)
      requires Represents(fs.tree, state) && gid !in state.groups
      modifies this`state, fs
      ensures Represents(fs.tree, state) && AreaKept(old(fs.tree), fs.tree)
      ensures state == NewGroup(old(state), gid, gname)
      ensures bare == old(fs.tree)[GroupDir(gid) := Dir] && RepresentsMaking(bare, old(state), gid, false, None)
      ensures half == bare[MsgsDir(gid) := Dir] && RepresentsMaking(half, old(state), gid, true, None)
      ensures forall n :: 0 <= n <= |gname| ==>
        RepresentsMaking(half[GroupEntry(gid, "name.txt") := File(gname[..n])], old(state), gid, true, Some(gname[..n]))
      ensures fs.tree == half[GroupEntry(gid, "name.txt") := File(gname)]
    {
      Matches(fs.tree, state);
      MakeDirectory(fs.tree, state, gid);
      MakeMessages(fs.tree[GroupDir(gid) := Dir], state, gid);
      AddGroup(fs.tree, state, gid, gname);
      GroupParent(fs.tree, gid, "MSG");
      GroupParent(fs.tree, gid, "name.txt");
      assert Parent(GroupDir(gid)) == GROUPS;
      var ok := fs.CreateDirectory(GroupDir(gid));
      bare := fs.tree;
      ok := fs.CreateDirectory(GroupEntry(gid, "MSG"));
      half := fs.tree;
      forall n | 0 <= n <= |gname|
        ensures RepresentsMaking(half[GroupEntry(gid, "name.txt") := File(gname[..n])], state, gid, true,
                                 Some(gname[..n]))
      {
        PutName(half, state, gid, None, gname[..n]);
      }
      ok := fs.CreateFile(GroupDir(gid), "name.txt", gname);
      state := NewGroup(state, gid, gname);
    }

    method Unregister(uid: string, pass: string) returns (reply: Reply)
      requires Valid() && up
      modifies this, fs
      ensures Valid() && (state, reply) == Exec(old(state), Unr(uid, pass))
      ensures AreaKept(old(fs.tree), fs.tree)
      ensures reply == if ValidUid(uid) && ValidPass(pass) && HasPassword(old(fs.tree), uid, pass) then Ok else Nok
      ensures reply == Ok ==> Erased(old(fs.tree), fs.tree, uid)
      ensures reply != Ok ==> fs.tree == old(fs.tree)
    {
      Passwords(fs.tree, state, uid, pass);
      if !ValidUid(uid) || !ValidPass(pass) {
        return Nok;
      }
      var r := CheckCredentials(uid, pass);
      if r != 0 {
        return Nok;
      }
      ExecKeepsInv(state, Unr(uid, pass));
      RemoveUser(fs.tree, state, uid);
      ReadyToSweep(fs.tree, state, uid);
      ghost var was := Without(fs.tree, UserDir(uid));
      ghost var gids := state.groups.Keys;
      ErasedBySweep(fs.tree, state, uid);
      var ok := fs.DeleteDirectory(UserDir(uid));
      if !ok {
        return Nok;
      }
      ok := LeaveGroups(uid, was, gids);
      state := Exec(state, Unr(uid, pass)).0;
      reply := Ok;
    }

    /** The loop over all groups in `unregister`. */
    method LeaveGroups(uid: string, ghost was: Tree, ghost gids: set<string>) returns (ok: bool)
      requires fs.tree == was && Rooted(was) && ValidUid(uid) && SubDirs(was, GROUPS) == gids
      requires forall g :: GroupEntry(g, uid) in was ==> IsFile(was, GroupEntry(g, uid))
      modifies fs
      ensures ok && fs.tree == Swept(was, uid, gids)
    {
      var list, xs, repr := fs.ListSubdirectories(GROUPS);
      var aux := list;
      ghost var i, left := 0, repr;
      assert fs.tree == Swept(was, uid, set g | g in xs[..0]);
      while aux != null
        invariant i <= |xs| && Holds(aux, xs[i..], left)
        invariant fs.tree == Swept(was, uid, set g | g in xs[..i])
        decreases |xs| - i
      {
        var group := aux.str;
        ghost var done := set g | g in xs[..i];
        SweptStep(was, uid, done, group);
        if GroupEntry(group, uid) in fs.tree {
          ok := fs.Remove(GroupEntry(group, uid));
          if !ok {
            return;
          }
        }
        assert xs[..i + 1] == xs[..i] + [group];
        MoreElements(xs[..i], group);
        left := left - {aux};
        aux := aux.next;
        i := i + 1;
      }
      assert xs[..i] == xs;
      SameElements(xs, gids);
      ok := true;
    }
  }
}
