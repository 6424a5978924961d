/** How the directory tree represents the server's state, and what each change of it means. */
module ServerTree {
  import opened CText
  import opened Sorting
  import opened Tree
  import opened Wire
  import opened Messages
  import opened Server

  function UserDir(uid: string): (p: Path)
    ensures |p| == 2 && p[0] == "USERS" && p[1] == uid
  {
    ["USERS", uid]
  }

  function UserEntry(uid: string, name: string): (p: Path)
    ensures |p| == 3 && p[0] == "USERS" && p[1] == uid && p[2] == name
  {
    ["USERS", uid, name]
  }

  const USERS: Path := ["USERS"]
  const GROUPS: Path := ["GROUPS"]

  /** USERS holds one directory per user: `pass.txt`, and `login` while logged in. */
  ghost predicate UsersMatch(t: Tree, s: State) {
    && IsDir(t, USERS)
    && (forall u :: UserDir(u) in t <==> u in s.users)
    && (forall u :: u in s.users ==>
          && IsDir(t, UserDir(u))
          && UserEntry(u, "pass.txt") in t
          && t[UserEntry(u, "pass.txt")] == File(s.users[u]))
    && (forall u, x :: UserEntry(u, x) in t ==>
          IsFile(t, UserEntry(u, x)) && (x == "pass.txt" || (x == "login" && u in s.logged)))
    && (forall u :: u in s.logged ==> UserEntry(u, "login") in t)
    && (forall q :: q in t && |q| > 3 ==> q[0] != "USERS")
  }

  /** GROUPS holds one directory per group: `name.txt`, MSG, and an empty file per subscriber. */
  ghost predicate GroupsMatch(t: Tree, s: State) {
    && IsDir(t, GROUPS)
    && (forall g :: GroupDir(g) in t <==> g in s.groups)
    && (forall g :: g in s.groups ==>
          && IsDir(t, GroupDir(g))
          && IsDir(t, GroupEntry(g, "MSG"))
          && GroupEntry(g, "name.txt") in t
          && t[GroupEntry(g, "name.txt")] == File(s.groups[g].name))
    && (forall g, x :: GroupEntry(g, x) in t && x != "MSG" ==>
          IsFile(t, GroupEntry(g, x)) && g in s.groups && (x == "name.txt" || x in s.groups[g].subs))
    && (forall g, x :: g in s.groups && x in s.groups[g].subs ==> GroupEntry(g, x) in t)
    && (forall q :: q in t && |q| > 3 && q[0] == "GROUPS" ==> q[2] == "MSG")
  }

  /** What a tree that represents a state has to be in order about. */
  datatype Aspect = OfShape | OfUsers | OfGroups

  ghost predicate Agrees(t: Tree, s: State, a: Aspect) {
    match a
    case OfShape => Rooted(t)
    case OfUsers => UsersMatch(t, s)
    case OfGroups => GroupsMatch(t, s)
  }

  /** The tree represents the state: it agrees with it in every aspect. */
  ghost predicate Represents(t: Tree, s: State) {
    forall a :: Agrees(t, s, a)
  }

  lemma Matches(t: Tree, s: State)
    requires Represents(t, s)
    ensures Rooted(t) && UsersMatch(t, s) && GroupsMatch(t, s)
  {
    assert Agrees(t, s, OfShape) && Agrees(t, s, OfUsers) && Agrees(t, s, OfGroups);
  }

  lemma Represented(t: Tree, s: State)
    requires Rooted(t) && UsersMatch(t, s) && GroupsMatch(t, s)
    ensures Represents(t, s)
  {
    forall a ensures Agrees(t, s, a) {
      match a
      case OfShape =>
      case OfUsers =>
      case OfGroups =>
    }
  }

  /** The tree does not tell whether the main process is there. */
  lemma DownToo(t: Tree, s: State)
    requires Represents(t, s)
    ensures Represents(t, s.(up := false))
  {
    Matches(t, s);
    Represented(t, s.(up := false));
  }

  lemma UserDirIff(t: Tree, s: State, u: string)
    requires Represents(t, s)
    ensures IsDir(t, UserDir(u)) <==> u in s.users
  {
    Matches(t, s);
  }

  lemma GroupDirOf(t: Tree, s: State, g: string)
    requires Represents(t, s)
    ensures IsDir(t, GroupDir(g)) <==> g in s.groups
  {
    Matches(t, s);
  }

  lemma NameOf(t: Tree, s: State, g: string)
    requires Represents(t, s)
    ensures IsDir(t, GROUPS) && (IsFile(t, GroupEntry(g, "name.txt")) <==> g in s.groups)
    ensures g in s.groups ==>
      GroupEntry(g, "name.txt") in t && t[GroupEntry(g, "name.txt")] == File(s.groups[g].name)
  {
    Matches(t, s);
    if IsFile(t, GroupEntry(g, "name.txt")) {
      assert Parent(GroupEntry(g, "name.txt")) == GroupDir(g);
    }
  }

  /** Entries of the message directories, which only `post` creates. */
  predicate InMessages(q: Path) {
    |q| > 3 && q[0] == "GROUPS" && q[2] == "MSG"
  }

  /** A serial command leaves the entries of every MSG directory alone, and no group goes. */
  ghost predicate AreaKept(t: Tree, t': Tree) {
    && (forall q :: InMessages(q) ==> (q in t <==> q in t') && (q in t ==> t[q] == t'[q]))
    && (forall g :: IsDir(t, MsgsDir(g)) ==> IsDir(t', MsgsDir(g)))
    && (forall g :: IsDir(t, GroupDir(g)) ==> IsDir(t', GroupDir(g)))
  }

  lemma AreaKeptTransitive(t: Tree, t': Tree, t'': Tree)
    requires AreaKept(t, t') && AreaKept(t', t'')
    ensures AreaKept(t, t'')
  {
  }

  ghost predicate SameUnder(t: Tree, t': Tree, root: string) {
    forall q :: q != [] && q[0] == root ==> (q in t <==> q in t') && (q in t ==> t[q] == t'[q])
  }

  lemma UsersFrame(t: Tree, t': Tree, s: State, s': State)
    requires UsersMatch(t, s) && SameUnder(t, t', "USERS")
    requires s.users == s'.users && s.logged == s'.logged
    ensures UsersMatch(t', s')
  {
    forall q | q in t' && |q| > 3 ensures q[0] != "USERS" {
      assert q[0] == "USERS" ==> q in t;
    }
  }

  lemma GroupsFrame(t: Tree, t': Tree, s: State, s': State)
    requires GroupsMatch(t, s) && SameUnder(t, t', "GROUPS")
    requires s.groups == s'.groups
    ensures GroupsMatch(t', s') && AreaKept(t, t')
  {
    forall q | q in t' && |q| > 3 && q[0] == "GROUPS" ensures q[2] == "MSG" {
      assert q in t;
    }
  }

  // ---- keeping the tree rooted ----

  lemma RootedAdd(t: Tree, p: Path, e: Entry)
    requires Rooted(t) && p != [] && IsDir(t, Parent(p)) && (IsDir(t, p) ==> e.Dir?)
    ensures Rooted(t[p := e])
  {
    var t' := t[p := e];
    forall q | q in t' && q != [] ensures IsDir(t', Parent(q)) {
      if q != p {
        assert IsDir(t, Parent(q));
      }
    }
  }

  lemma RootedRemove(t: Tree, p: Path)
    requires Rooted(t) && IsFile(t, p)
    ensures Rooted(t - {p})
  {
    forall q | q in t && q != p && q != [] ensures IsDir(t - {p}, Parent(q)) {
      assert IsDir(t, Parent(q));
    }
  }

  lemma RootedWithout(t: Tree, p: Path)
    requires Rooted(t)
    ensures Rooted(Without(t, p))
  {
    forall q | q in Without(t, p) && q != [] ensures IsDir(Without(t, p), Parent(q)) {
      assert IsDir(t, Parent(q));
      ParentBelow(p, q);
    }
  }

  lemma ParentBelow(p: Path, q: Path)
    requires q != []
    ensures Below(p, Parent(q)) ==> Below(p, q)
  {
    if Below(p, Parent(q)) {
      assert q[..|p|] == Parent(q)[..|p|];
    }
  }

  lemma UserParent(t: Tree, u: string, x: string)
    requires Rooted(t)
    ensures Parent(UserEntry(u, x)) == UserDir(u) && UserEntry(u, x) == UserDir(u) + [x]
    ensures UserEntry(u, x) in t ==> IsDir(t, UserDir(u))
  {
    assert Parent(UserEntry(u, x)) == UserDir(u);
  }

  lemma GroupParent(t: Tree, g: string, x: string)
    requires Rooted(t)
    ensures Parent(GroupEntry(g, x)) == GroupDir(g) && GroupEntry(g, x) == GroupDir(g) + [x]
    ensures GroupEntry(g, x) in t ==> IsDir(t, GroupDir(g))
  {
    assert Parent(GroupEntry(g, x)) == GroupDir(g);
  }

  // ---- users ----

  lemma AddUser(t: Tree, s: State, u: string, pass: string)
    requires Represents(t, s) && u !in s.users && u !in s.logged
    ensures Represents(t[UserDir(u) := Dir][UserEntry(u, "pass.txt") := File(pass)],
                       s.(users := s.users[u := pass]))
    ensures AreaKept(t, t[UserDir(u) := Dir][UserEntry(u, "pass.txt") := File(pass)])
  {
    Matches(t, s);
    var t1 := t[UserDir(u) := Dir];
    var t2 := t1[UserEntry(u, "pass.txt") := File(pass)];
    var s' := s.(users := s.users[u := pass]);
    assert Parent(UserDir(u)) == USERS;
    UserParent(t, u, "pass.txt");
    RootedAdd(t, UserDir(u), Dir);
    RootedAdd(t1, UserEntry(u, "pass.txt"), File(pass));
    GroupsFrame(t, t2, s, s');
    AddUserMatch(t, s, u, pass);
    Represented(t2, s');
  }

  lemma AddUserMatch(t: Tree, s: State, u: string, pass: string)
    requires UsersMatch(t, s) && Rooted(t) && u !in s.users && u !in s.logged
    ensures UsersMatch(t[UserDir(u) := Dir][UserEntry(u, "pass.txt") := File(pass)],
                       s.(users := s.users[u := pass]))
  {
    forall x ensures UserEntry(u, x) !in t {
      UserParent(t, u, x);
    }
    var t' := t[UserDir(u) := Dir][UserEntry(u, "pass.txt") := File(pass)];
    forall v, x ensures UserEntry(v, x) in t' <==> UserEntry(v, x) in t || (v == u && x == "pass.txt") {
      assert UserEntry(v, x) == UserEntry(u, "pass.txt") ==> v == u && x == "pass.txt";
    }
  }

  lemma SetLogin(t: Tree, s: State, u: string)
    requires Represents(t, s) && u in s.users
    ensures Represents(t[UserEntry(u, "login") := File("")], s.(logged := s.logged + {u}))
    ensures AreaKept(t, t[UserEntry(u, "login") := File("")])
  {
    Matches(t, s);
    var t' := t[UserEntry(u, "login") := File("")];
    UserParent(t, u, "login");
    RootedAdd(t, UserEntry(u, "login"), File(""));
    GroupsFrame(t, t', s, s.(logged := s.logged + {u}));
    SetLoginMatch(t, s, u);
    Represented(t', s.(logged := s.logged + {u}));
  }

  lemma SetLoginMatch(t: Tree, s: State, u: string)
    requires UsersMatch(t, s) && u in s.users
    ensures UsersMatch(t[UserEntry(u, "login") := File("")], s.(logged := s.logged + {u}))
  {
  }

  lemma ClearLogin(t: Tree, s: State, u: string)
    requires Represents(t, s) && u in s.logged
    ensures Represents(t - {UserEntry(u, "login")}, s.(logged := s.logged - {u}))
    ensures AreaKept(t, t - {UserEntry(u, "login")})
  {
    Matches(t, s);
    RootedRemove(t, UserEntry(u, "login"));
    GroupsFrame(t, t - {UserEntry(u, "login")}, s, s.(logged := s.logged - {u}));
    ClearLoginMatch(t, s, u);
    Represented(t - {UserEntry(u, "login")}, s.(logged := s.logged - {u}));
  }

  lemma ClearLoginMatch(t: Tree, s: State, u: string)
    requires UsersMatch(t, s) && u in s.logged
    ensures UsersMatch(t - {UserEntry(u, "login")}, s.(logged := s.logged - {u}))
  {
  }

  // ---- groups ----

  /** `t'` is `t` but for the entry of `u` in `g`, and `s'` is `s` but for that subscription. */
  ghost predicate OneSubChanges(t: Tree, t': Tree, s: State, s': State, u: string, g: string) {
    && (forall q :: q != GroupEntry(g, u) ==> (q in t <==> q in t') && (q in t ==> t[q] == t'[q]))
    && s'.groups.Keys == s.groups.Keys && g in s.groups
    && (forall h :: h in s.groups ==> s'.groups[h].name == s.groups[h].name)
    && (forall h, x :: h in s.groups && !(h == g && x == u) ==>
          (x in s'.groups[h].subs <==> x in s.groups[h].subs))
    && (GroupEntry(g, u) in t' <==> u in s'.groups[g].subs)
    && (GroupEntry(g, u) in t' ==> IsFile(t', GroupEntry(g, u)))
  }

  lemma OtherEntry(g: string, u: string, h: string, x: string)
    ensures GroupEntry(h, x) == GroupEntry(g, u) <==> h == g && x == u
  {
    assert GroupEntry(h, x)[1] == h && GroupEntry(h, x)[2] == x;
  }

  lemma SubMatch(t: Tree, t': Tree, s: State, s': State, u: string, g: string)
    requires GroupsMatch(t, s) && OneSubChanges(t, t', s, s', u, g) && u != "MSG" && u != "name.txt"
    ensures GroupsMatch(t', s')
  {
    forall h, x | GroupEntry(h, x) in t' && x != "MSG"
      ensures IsFile(t', GroupEntry(h, x)) && h in s'.groups && (x == "name.txt" || x in s'.groups[h].subs)
    {
      OtherEntry(g, u, h, x);
      assert (h == g && x == u) || GroupEntry(h, x) in t;
    }
    forall h | h in s'.groups
      ensures IsDir(t', GroupDir(h)) && IsDir(t', GroupEntry(h, "MSG")) && GroupEntry(h, "name.txt") in t'
              && t'[GroupEntry(h, "name.txt")] == File(s'.groups[h].name)
    {
      OtherEntry(g, u, h, "MSG");
      OtherEntry(g, u, h, "name.txt");
      assert GroupDir(h) in t;
    }
    forall h, x | h in s'.groups && x in s'.groups[h].subs ensures GroupEntry(h, x) in t' {
      OtherEntry(g, u, h, x);
      assert (h == g && x == u) || x in s.groups[h].subs;
    }
    forall q | q in t' && |q| > 3 && q[0] == "GROUPS" ensures q[2] == "MSG" {
      assert q in t;
    }
  }

  lemma AddSubMatch(t: Tree, s: State, u: string, g: string)
    requires GroupsMatch(t, s) && g in s.groups && u != "MSG" && u != "name.txt"
    ensures GroupsMatch(t[GroupEntry(g, u) := File("")], Subscribed(s, u, g))
  {
    AddSubChanges(t, s, u, g);
    SubMatch(t, t[GroupEntry(g, u) := File("")], s, Subscribed(s, u, g), u, g);
  }

  lemma AddSubChanges(t: Tree, s: State, u: string, g: string)
    requires g in s.groups
    ensures OneSubChanges(t, t[GroupEntry(g, u) := File("")], s, Subscribed(s, u, g), u, g)
  {
  }

  lemma AddSub(t: Tree, s: State, u: string, g: string)
    requires Represents(t, s) && g in s.groups && u != "MSG" && u != "name.txt"
    ensures Represents(t[GroupEntry(g, u) := File("")], Subscribed(s, u, g))
    ensures AreaKept(t, t[GroupEntry(g, u) := File("")])
  {
    Matches(t, s);
    var t' := t[GroupEntry(g, u) := File("")];
    GroupParent(t, g, u);
    RootedAdd(t, GroupEntry(g, u), File(""));
    UsersFrame(t, t', s, Subscribed(s, u, g));
    AddSubMatch(t, s, u, g);
    AddSubKept(t, u, g);
    Represented(t', Subscribed(s, u, g));
  }

  lemma AddSubKept(t: Tree, u: string, g: string)
    requires u != "MSG"
    ensures AreaKept(t, t[GroupEntry(g, u) := File("")])
  {
  }

  lemma RemoveSubMatch(t: Tree, s: State, u: string, g: string)
    requires GroupsMatch(t, s) && g in s.groups && u != "MSG" && u != "name.txt"
    ensures GroupsMatch(t - {GroupEntry(g, u)}, Unsubscribed(s, u, g))
  {
    RemoveSubChanges(t, s, u, g);
    SubMatch(t, t - {GroupEntry(g, u)}, s, Unsubscribed(s, u, g), u, g);
  }

  lemma RemoveSubChanges(t: Tree, s: State, u: string, g: string)
    requires g in s.groups
    ensures OneSubChanges(t, t - {GroupEntry(g, u)}, s, Unsubscribed(s, u, g), u, g)
  {
  }

  lemma RemoveSub(t: Tree, s: State, u: string, g: string)
    requires Represents(t, s) && g in s.groups && u != "MSG" && u != "name.txt"
    requires GroupEntry(g, u) in t
    ensures Represents(t - {GroupEntry(g, u)}, Unsubscribed(s, u, g))
    ensures AreaKept(t, t - {GroupEntry(g, u)})
  {
    Matches(t, s);
    RootedRemove(t, GroupEntry(g, u));
    UsersFrame(t, t - {GroupEntry(g, u)}, s, Unsubscribed(s, u, g));
    RemoveSubMatch(t, s, u, g);
    RemoveSubKept(t, u, g);
    Represented(t - {GroupEntry(g, u)}, Unsubscribed(s, u, g));
  }

  lemma RemoveSubKept(t: Tree, u: string, g: string)
    requires u != "MSG"
    ensures AreaKept(t, t - {GroupEntry(g, u)})
  {
  }

  // ---- a new group, creation by creation ----

  function WithGroup(t: Tree, g: string, name: string): Tree {
    t[GroupDir(g) := Dir][GroupEntry(g, "MSG") := Dir][GroupEntry(g, "name.txt") := File(name)]
  }

  ghost predicate InGroup(g: string, q: Path) {
    |q| >= 2 && q[0] == "GROUPS" && q[1] == g
  }

  /**
   * The directory of `g` is there, MSG in it iff `msgs`, `name.txt` with what it holds so far, and
   * nothing else but messages.
   */
  ghost predicate HalfMade(t: Tree, g: string, msgs: bool, name: Option<string>) {
    && IsDir(t, GroupDir(g))
    && (forall x :: GroupEntry(g, x) in t <==> (x == "MSG" && msgs) || (x == "name.txt" && name.Some?))
    && (name.Some? ==> t[GroupEntry(g, "name.txt")] == File(name.value))
    && (msgs ==> IsDir(t, MsgsDir(g)))
    && (forall q :: q in t && |q| > 3 && InGroup(g, q) ==> q[2] == "MSG")
  }

  /** Without the group that is being made, the tree represents the state. */
  ghost predicate RepresentsMaking(t: Tree, s: State, g: string, msgs: bool, name: Option<string>) {
    && Rooted(t) && HalfMade(t, g, msgs, name) && g !in s.groups
    && Represents(Without(t, GroupDir(g)), s)
  }

  lemma InGroupIsBelow(g: string, q: Path)
    ensures Below(GroupDir(g), q) <==> InGroup(g, q)
  {
    if |q| >= 2 {
      assert q[..2] == [q[0], q[1]];
    }
  }

  lemma NothingInGroup(t: Tree, s: State, g: string, q: Path)
    requires Represents(t, s) && g !in s.groups && InGroup(g, q)
    ensures q !in t
    decreases |q|
  {
    Matches(t, s);
    if |q| > 2 {
      NothingInGroup(t, s, g, Parent(q));
    } else {
      assert q == GroupDir(g);
    }
  }

  lemma MakeDirectory(t: Tree, s: State, g: string)
    requires Represents(t, s) && g !in s.groups
    ensures RepresentsMaking(t[GroupDir(g) := Dir], s, g, false, None) && AreaKept(t, t[GroupDir(g) := Dir])
  {
    Matches(t, s);
    var t' := t[GroupDir(g) := Dir];
    assert Parent(GroupDir(g)) == GROUPS;
    RootedAdd(t, GroupDir(g), Dir);
    forall q | InGroup(g, q) ensures q !in t {
      NothingInGroup(t, s, g, q);
    }
    assert Without(t', GroupDir(g)) == t by {
      forall q ensures Below(GroupDir(g), q) <==> InGroup(g, q) {
        InGroupIsBelow(g, q);
      }
    }
  }

  lemma MakeMessages(t: Tree, s: State, g: string)
    requires RepresentsMaking(t, s, g, false, None)
    ensures RepresentsMaking(t[MsgsDir(g) := Dir], s, g, true, None) && AreaKept(t, t[MsgsDir(g) := Dir])
  {
    var t' := t[MsgsDir(g) := Dir];
    assert Parent(MsgsDir(g)) == GroupDir(g);
    RootedAdd(t, MsgsDir(g), Dir);
    InGroupIsBelow(g, MsgsDir(g));
    assert Without(t', GroupDir(g)) == Without(t, GroupDir(g));
    assert forall x :: GroupEntry(g, x) in t' <==> x == "MSG";
  }

  /** `name.txt` is created, or written to. */
  lemma PutName(t: Tree, s: State, g: string, soFar: Option<string>, name: string)
    requires RepresentsMaking(t, s, g, true, soFar)
    ensures var t' := t[GroupEntry(g, "name.txt") := File(name)];
      RepresentsMaking(t', s, g, true, Some(name)) && AreaKept(t, t')
  {
    var q := GroupEntry(g, "name.txt");
    var t' := t[q := File(name)];
    assert Parent(q) == GroupDir(g);
    RootedAdd(t, q, File(name));
    InGroupIsBelow(g, q);
    assert Without(t', GroupDir(g)) == Without(t, GroupDir(g));
    assert forall x :: GroupEntry(g, x) in t' <==> x == "MSG" || x == "name.txt";
  }

  /** With its name the group is made; messages may have been posted to it meanwhile. */
  lemma MakeName(t: Tree, s: State, g: string, name: string)
    requires RepresentsMaking(t, s, g, true, Some(name))
    ensures Represents(t, NewGroup(s, g, name))
  {
    Matches(Without(t, GroupDir(g)), s);
    var base := Without(t, GroupDir(g));
    forall q ensures Below(GroupDir(g), q) <==> InGroup(g, q) {
      InGroupIsBelow(g, q);
    }
    UsersFrame(base, t, s, NewGroup(s, g, name));
    AddGroupMatch(base, t, s, g, name);
    Represented(t, NewGroup(s, g, name));
  }

  /** `t'` has a new group directory with MSG and `name.txt`, and is otherwise `t`. */
  ghost predicate HasNewGroup(t: Tree, t': Tree, g: string, name: string) {
    && IsDir(t', GroupDir(g)) && IsDir(t', GroupEntry(g, "MSG"))
    && GroupEntry(g, "name.txt") in t' && t'[GroupEntry(g, "name.txt")] == File(name)
    && (forall x :: GroupEntry(g, x) in t' ==> x == "MSG" || x == "name.txt")
    && (forall q :: q in t' && |q| > 3 && InGroup(g, q) ==> q[2] == "MSG")
    && (forall q :: !InGroup(g, q) ==> (q in t <==> q in t') && (q in t ==> t[q] == t'[q]))
  }

  lemma AddedGroup(t: Tree, t': Tree, s: State, g: string, name: string, h: string)
    requires GroupsMatch(t, s) && HasNewGroup(t, t', g, name) && (h == g || h in s.groups)
    ensures IsDir(t', GroupDir(h)) && IsDir(t', GroupEntry(h, "MSG")) && GroupEntry(h, "name.txt") in t'
    ensures t'[GroupEntry(h, "name.txt")] == File(if h == g then name else s.groups[h].name)
  {
    assert h != g ==> !InGroup(g, GroupDir(h)) && !InGroup(g, GroupEntry(h, "MSG"))
                      && !InGroup(g, GroupEntry(h, "name.txt"));
  }

  lemma AddedEntry(t: Tree, t': Tree, s: State, g: string, name: string, h: string, x: string)
    requires GroupsMatch(t, s) && HasNewGroup(t, t', g, name) && GroupEntry(h, x) in t' && x != "MSG"
    ensures IsFile(t', GroupEntry(h, x))
    ensures if h == g then x == "name.txt" else h in s.groups && (x == "name.txt" || x in s.groups[h].subs)
  {
    assert h != g ==> !InGroup(g, GroupEntry(h, x)) && GroupEntry(h, x) in t;
  }

  lemma AddGroupMatch(t: Tree, t': Tree, s: State, g: string, name: string)
    requires GroupsMatch(t, s) && g !in s.groups && HasNewGroup(t, t', g, name)
    ensures GroupsMatch(t', Server.NewGroup(s, g, name))
  {
    var groups := Server.NewGroup(s, g, name).groups;
    forall h ensures GroupDir(h) in t' <==> h in groups {
      assert h != g ==> !InGroup(g, GroupDir(h));
    }
    forall h, x | GroupEntry(h, x) in t' && x != "MSG"
      ensures IsFile(t', GroupEntry(h, x)) && h in groups && (x == "name.txt" || x in groups[h].subs)
    {
      AddedEntry(t, t', s, g, name, h, x);
    }
    forall h, x | h in groups && x in groups[h].subs ensures GroupEntry(h, x) in t' {
      assert h != g && !InGroup(g, GroupEntry(h, x));
    }
    forall h | h in groups
      ensures IsDir(t', GroupDir(h)) && IsDir(t', GroupEntry(h, "MSG")) && GroupEntry(h, "name.txt") in t'
              && t'[GroupEntry(h, "name.txt")] == File(groups[h].name)
    {
      AddedGroup(t, t', s, g, name, h);
    }
    forall q | q in t' && |q| > 3 && q[0] == "GROUPS" ensures q[2] == "MSG" {
      assert !InGroup(g, q) ==> q in t;
    }
  }

  lemma AddGroup(t: Tree, s: State, g: string, name: string)
    requires Represents(t, s) && g !in s.groups
    ensures Represents(WithGroup(t, g, name), Server.NewGroup(s, g, name))
    ensures AreaKept(t, WithGroup(t, g, name))
  {
    var t1 := t[GroupDir(g) := Dir];
    var t2 := t1[MsgsDir(g) := Dir];
    MakeDirectory(t, s, g);
    MakeMessages(t1, s, g);
    PutName(t2, s, g, None, name);
    MakeName(WithGroup(t, g, name), s, g, name);
    AreaKeptTransitive(t, t1, t2);
    AreaKeptTransitive(t, t2, WithGroup(t, g, name));
  }

  /** The directory listing of GROUPS is the set of group ids. */
  lemma GroupListing(t: Tree, s: State)
    requires GroupsMatch(t, s) && IdsInv(s)
    ensures SubDirs(t, GROUPS) == s.groups.Keys
  {
    forall g ensures g in SubDirs(t, GROUPS) <==> g in s.groups {
      assert GROUPS + [g] == GroupDir(g);
      if g in s.groups {
        assert g in Ids(2, |s.groups|);
      }
    }
  }

  // ---- unregistering ----

  /** `t` after the sweep has deleted `u`'s file from the groups `done`. */
  ghost function Swept(t: Tree, u: string, done: set<string>): Tree {
    map q | q in t && !(|q| == 3 && q[0] == "GROUPS" && q[1] in done && q[2] == u) :: t[q]
  }

  lemma SweptStep(t: Tree, u: string, done: set<string>, g: string)
    ensures Swept(t, u, done + {g}) == Swept(t, u, done) - {GroupEntry(g, u)}
    ensures GroupEntry(g, u) !in Swept(t, u, done) ==> Swept(t, u, done + {g}) == Swept(t, u, done)
  {
    assert forall q :: |q| == 3 && q[0] == "GROUPS" && q[1] == g && q[2] == u ==> q == GroupEntry(g, u);
  }

  lemma SweptRooted(t: Tree, s: State, u: string, done: set<string>)
    requires Rooted(t) && GroupsMatch(t, s) && u != "MSG"
    ensures Rooted(Swept(t, u, done))
  {
    var t' := Swept(t, u, done);
    forall q | q in t' && q != [] ensures IsDir(t', Parent(q)) {
      var up := Parent(q);
      assert IsDir(t, up);
      if |up| == 3 && up[0] == "GROUPS" {
        assert up == GroupEntry(up[1], up[2]);
      }
    }
  }

  lemma UserHasNoHidden(t: Tree, s: State, u: string)
    requires Represents(t, s) && ValidUid(u)
    ensures DotFree(t, UserDir(u))
  {
    Matches(t, s);
    forall q, i | q in t && Below(UserDir(u), q) && 2 <= i < |q| ensures !Hidden(q[i]) {
      assert q[0] == "USERS" && q[1] == u;
      assert q == UserEntry(u, q[2]);
    }
  }

  /** The sweep of the groups, once the user is gone. */
  lemma SweepRepresents(t: Tree, s: State, u: string)
    requires Represents(t, s) && ValidUid(u)
    ensures var t' := Swept(t, u, s.groups.Keys);
      && Represents(t', s.(groups := map g | g in s.groups :: WithoutUser(s.groups[g], u)))
      && AreaKept(t, t')
  {
    Matches(t, s);
    var t' := Swept(t, u, s.groups.Keys);
    SweptRooted(t, s, u, s.groups.Keys);
    UsersFrame(t, t', s, s.(groups := map g | g in s.groups :: WithoutUser(s.groups[g], u)));
    SweptMatch(t, s, u);
    Represented(t', s.(groups := map g | g in s.groups :: WithoutUser(s.groups[g], u)));
  }

  /** The two deletions of `unregister` amount to forgetting the user everywhere. */
  lemma RemoveUser(t: Tree, s: State, u: string)
    requires Represents(t, s) && u in s.users && ValidUid(u)
    ensures var t' := Swept(Without(t, UserDir(u)), u, s.groups.Keys);
      && Represents(t', Forgotten(s, u))
      && AreaKept(t, t')
  {
    Matches(t, s);
    var t1 := Without(t, UserDir(u));
    var s1 := s.(users := s.users - {u}, logged := s.logged - {u});
    RootedWithout(t, UserDir(u));
    GroupsFrame(t, t1, s, s1);
    RemoveUserMatch(t, s, u);
    Represented(t1, s1);
    SweepRepresents(t1, s1, u);
    AreaKeptTransitive(t, t1, Swept(t1, u, s.groups.Keys));
  }

  /** What the sweep of `unregister` starts from. */
  lemma ReadyToSweep(t: Tree, s: State, u: string)
    requires Represents(t, s) && Inv(s) && ValidUid(u) && u in s.users
    ensures Rooted(t) && IsDir(t, UserDir(u)) && DotFree(t, UserDir(u)) && Rooted(Without(t, UserDir(u)))
    ensures SubDirs(Without(t, UserDir(u)), GROUPS) == s.groups.Keys
    ensures forall g :: GroupEntry(g, u) in Without(t, UserDir(u)) ==>
              IsFile(Without(t, UserDir(u)), GroupEntry(g, u))
  {
    Matches(t, s);
    Clauses(s);
    UserHasNoHidden(t, s, u);
    RootedWithout(t, UserDir(u));
    GroupsFrame(t, Without(t, UserDir(u)), s, s);
    GroupListing(Without(t, UserDir(u)), s);
  }

  lemma RemoveUserMatch(t: Tree, s: State, u: string)
    requires UsersMatch(t, s)
    ensures UsersMatch(Without(t, UserDir(u)), s.(users := s.users - {u}, logged := s.logged - {u}))
  {
    forall v ensures Below(UserDir(u), UserDir(v)) <==> v == u {
      assert UserDir(v)[..2] == UserDir(v);
    }
    forall v, x ensures Below(UserDir(u), UserEntry(v, x)) <==> v == u {
      assert UserEntry(v, x)[..2] == UserDir(v);
    }
    assert !Below(UserDir(u), USERS);
  }

  lemma SweptEntry(t: Tree, u: string, done: set<string>, g: string, x: string)
    ensures GroupEntry(g, x) in Swept(t, u, done) <==> GroupEntry(g, x) in t && !(g in done && x == u)
    ensures GroupDir(g) in Swept(t, u, done) <==> GroupDir(g) in t
  {
  }

  lemma SweptMatch(t: Tree, s: State, u: string)
    requires GroupsMatch(t, s) && ValidUid(u)
    ensures GroupsMatch(Swept(t, u, s.groups.Keys),
                        s.(groups := map g | g in s.groups :: WithoutUser(s.groups[g], u)))
  {
    var t' := Swept(t, u, s.groups.Keys);
    var groups := map g | g in s.groups :: WithoutUser(s.groups[g], u);
    forall g, x | GroupEntry(g, x) in t' && x != "MSG"
      ensures IsFile(t', GroupEntry(g, x)) && g in groups && (x == "name.txt" || x in groups[g].subs)
    {
      SweptEntry(t, u, s.groups.Keys, g, x);
    }
    forall g | g in groups
      ensures IsDir(t', GroupDir(g)) && IsDir(t', GroupEntry(g, "MSG")) && GroupEntry(g, "name.txt") in t'
              && t'[GroupEntry(g, "name.txt")] == File(groups[g].name)
    {
      SweptEntry(t, u, s.groups.Keys, g, "MSG");
      SweptEntry(t, u, s.groups.Keys, g, "name.txt");
    }
    forall g, x | g in groups && x in groups[g].subs ensures GroupEntry(g, x) in t' {
      SweptEntry(t, u, s.groups.Keys, g, x);
    }
  }

  // ---- the abstraction ----

  const INITIAL_TREE: Tree := map[[] := Dir, USERS := Dir, GROUPS := Dir]

  lemma InitialPaths(q: Path)
    ensures q in INITIAL_TREE <==> q == [] || q == USERS || q == GROUPS
    ensures q in INITIAL_TREE ==> INITIAL_TREE[q] == Dir && |q| <= 1
  {
  }

  lemma InitialRooted()
    ensures Rooted(INITIAL_TREE)
  {
    forall q | q in INITIAL_TREE && q != [] ensures IsDir(INITIAL_TREE, Parent(q)) {
      InitialPaths(q);
      InitialPaths([]);
      assert Parent(q) == [];
    }
  }

  lemma EmptyRepresents(t: Tree)
    requires Rooted(t) && IsDir(t, USERS) && IsDir(t, GROUPS) && forall q :: q in t ==> |q| <= 1
    ensures Represents(t, INITIAL)
  {
    Represented(t, INITIAL);
  }

  lemma InitialRepresents()
    ensures Represents(INITIAL_TREE, INITIAL)
  {
    InitialRooted();
    InitialPaths(USERS);
    InitialPaths(GROUPS);
    forall q | q in INITIAL_TREE ensures |q| <= 1 {
      InitialPaths(q);
    }
    EmptyRepresents(INITIAL_TREE);
  }

  lemma SameUsers(t: Tree, s: State, s': State)
    requires UsersMatch(t, s) && UsersMatch(t, s') && MembersInv(s) && MembersInv(s')
    ensures s.users == s'.users && s.logged == s'.logged
  {
    forall u ensures u in s.users <==> u in s'.users {
      assert UserDir(u) in t <==> u in s.users;
      assert UserDir(u) in t <==> u in s'.users;
    }
    forall u | u in s.users ensures s.users[u] == s'.users[u] {
      assert t[UserEntry(u, "pass.txt")] == File(s.users[u]);
    }
    forall u ensures u in s.logged <==> u in s'.logged {
      assert u in s.logged || u in s'.logged ==> UserEntry(u, "login") in t;
    }
  }

  lemma SameGroup(t: Tree, s: State, s': State, g: string)
    requires GroupsMatch(t, s) && GroupsMatch(t, s') && MembersInv(s) && MembersInv(s')
    requires g in s.groups
    ensures g in s'.groups && s.groups[g] == s'.groups[g]
  {
    assert GroupDir(g) in t;
    forall u ensures u in s.groups[g].subs <==> u in s'.groups[g].subs {
      assert u in s.groups[g].subs ==> ValidUid(u) && GroupEntry(g, u) in t;
      assert u in s'.groups[g].subs ==> ValidUid(u) && GroupEntry(g, u) in t;
    }
  }

  lemma SameGroups(t: Tree, s: State, s': State)
    requires GroupsMatch(t, s) && GroupsMatch(t, s') && MembersInv(s) && MembersInv(s')
    ensures s.groups == s'.groups
  {
    forall g ensures g in s.groups <==> g in s'.groups {
      assert GroupDir(g) in t <==> g in s.groups;
      assert GroupDir(g) in t <==> g in s'.groups;
    }
    forall g | g in s.groups ensures s.groups[g] == s'.groups[g] {
      SameGroup(t, s, s', g);
    }
  }

  /** A tree represents at most one state of a running server. */
  lemma RepresentsOne(t: Tree, s: State, s': State)
    requires Represents(t, s) && Represents(t, s') && Inv(s) && Inv(s') && s.up == s'.up
    ensures s == s'
  {
    Matches(t, s);
    Matches(t, s');
    Clauses(s);
    Clauses(s');
    SameUsers(t, s, s');
    SameGroups(t, s, s');
  }
}
