/**
 * What the serial (UDP) commands mean, on the state they keep: passwords, who is logged in, and
 * for each group its name and subscribers.
 */
module Server {
  import opened CText
  import opened Sorting

  datatype Group = Group(name: string, subs: set<string>)

  /** `up` is false once the main process has ended. */
  datatype State =
    State(up: bool, users: map<string, string>, logged: set<string>, groups: map<string, Group>)

  datatype Command =
    | Reg(uid: string, pass: string)
    | Unr(uid: string, pass: string)
    | Log(uid: string, pass: string)
    | Out(uid: string, pass: string)
    | Gsr(uid: string, gid: string, gname: string)
    | Gur(uid: string, gid: string)

  /**
   * `Crash` is no reply at all: a null stream is passed to `fscanf`, which ends the main process,
   * or that has happened before.
   */
  datatype Reply = Ok | Nok | Dup | New(gid: string) | EUsr | EGrp | EGname | EFull | Crash

  const MAX_GROUPS := 99

  predicate Authentic(s: State, uid: string, pass: string) {
    uid in s.users && s.users[uid] == pass
  }

  function WithoutUser(g: Group, uid: string): Group {
    g.(subs := g.subs - {uid})
  }

  function NewGroup(s: State, gid: string, gname: string): State {
    s.(groups := s.groups[gid := Group(gname, {})])
  }

  function Subscribed(s: State, uid: string, gid: string): State
    requires gid in s.groups
  {
    s.(groups := s.groups[gid := Group(s.groups[gid].name, s.groups[gid].subs + {uid})])
  }

  function Unsubscribed(s: State, uid: string, gid: string): State
    requires gid in s.groups
  {
    s.(groups := s.groups[gid := WithoutUser(s.groups[gid], uid)])
  }

  function Forgotten(s: State, uid: string): State {
    s.(users := s.users - {uid}, logged := s.logged - {uid},
       groups := map g | g in s.groups :: WithoutUser(s.groups[g], uid))
  }

  /** What each command means for the abstract state, and its reply. */
  function Exec(s: State, c: Command): (State, Reply) {
    if s.up then Answered(s, c) else (s, Crash)
  }

  function Answered(s: State, c: Command): (State, Reply) {
    match c
    case Reg(uid, pass) =>
      if !ValidUid(uid) || !ValidPass(pass) then (s, Nok)
      else if uid in s.users then (s, Dup)
      else (s.(users := s.users[uid := pass]), Ok)
    case Unr(uid, pass) =>
      if !ValidUid(uid) || !ValidPass(pass) || !Authentic(s, uid, pass) then (s, Nok)
      else (Forgotten(s, uid), Ok)
    case Log(uid, pass) =>
      if !ValidUid(uid) || !ValidPass(pass) || !Authentic(s, uid, pass) then (s, Nok)
      else (s.(logged := s.logged + {uid}), Ok)
    case Out(uid, pass) =>
      if !ValidUid(uid) || !ValidPass(pass) || !Authentic(s, uid, pass) then (s, Nok)
      else (s.(logged := s.logged - {uid}), Ok)
    case Gsr(uid, gid, gname) =>
      if !ValidUid(uid) then (s, EUsr)
      else if !ValidGid(gid) then (s, EGrp)
      else if !ValidGname(gname) then (s, EGname)
      else if uid !in s.users then (s, EUsr)
      else if gid == "00" then
        var id := Dec(2, |s.groups| + 1);
        if |s.groups| + 1 > MAX_GROUPS then (s.(up := false), Crash)
        else (Subscribed(NewGroup(s, id, gname), uid, id), New(id))
      else if gid !in s.groups then (s.(up := false), Crash)
      else if s.groups[gid].name != gname then (s, EGname)
      else (Subscribed(s, uid, gid), Ok)
    case Gur(uid, gid) =>
      if !ValidUid(uid) then (s, EUsr)
      else if !ValidGid(gid) then (s, EGrp)
      else if uid !in s.users then (s, EUsr)
      else if gid !in s.groups then (s, EGrp)
      else (Unsubscribed(s, uid, gid), Ok)
  }

  ghost predicate MembersInv(s: State) {
    && s.logged <= s.users.Keys
    && (forall u :: u in s.users ==> ValidUid(u) && ValidPass(s.users[u]))
    && forall g :: g in s.groups ==>
         s.groups[g].subs <= s.users.Keys && ValidGname(s.groups[g].name) && s.groups[g].name != ""
  }

  ghost predicate IdsInv(s: State) {
    s.groups.Keys == Ids(2, |s.groups|) && |s.groups| <= MAX_GROUPS
  }

  datatype Clause = Members | GroupIds

  ghost predicate Keeps(s: State, clause: Clause) {
    if clause.Members? then MembersInv(s) else IdsInv(s)
  }

  /** Only users are logged in or subscribed, and group ids are exactly 01..n with n <= 99. */
  ghost predicate Inv(s: State) {
    forall clause: Clause :: Keeps(s, clause)
  }

  lemma Clauses(s: State)
    requires Inv(s)
    ensures MembersInv(s) && IdsInv(s)
  {
    assert Keeps(s, Members) && Keeps(s, GroupIds);
  }

  const INITIAL := State(true, map[], {}, map[])

  function Run(s: State, cs: seq<Command>): State
    decreases |cs|
  {
    if cs == [] then s else Run(Exec(s, cs[0]).0, cs[1..])
  }

  lemma InitialInv()
    ensures Inv(INITIAL)
  {
    assert Ids(2, 0) == {};
  }

  /** A new group is asked for by a name that is not empty. */
  predicate NamedGroup(c: Command) {
    c.Gsr? && c.gid == "00" ==> c.gname != ""
  }

  lemma SubscribedMembers(s: State, u: string, g: string)
    requires MembersInv(s) && u in s.users && g in s.groups
    ensures MembersInv(Subscribed(s, u, g)) && Subscribed(s, u, g).groups.Keys == s.groups.Keys
  {
  }

  lemma UnsubscribedMembers(s: State, u: string, g: string)
    requires MembersInv(s) && g in s.groups
    ensures MembersInv(Unsubscribed(s, u, g)) && Unsubscribed(s, u, g).groups.Keys == s.groups.Keys
  {
  }

  lemma NewGroupMembers(s: State, g: string, gname: string)
    requires MembersInv(s) && ValidGname(gname) && gname != ""
    ensures MembersInv(NewGroup(s, g, gname))
  {
  }

  lemma UnregisterMembers(s: State, u: string, pass: string)
    requires MembersInv(s)
    ensures MembersInv(Exec(s, Unr(u, pass)).0)
  {
  }

  lemma SubscribeMembers(s: State, u: string, g: string, gname: string)
    requires MembersInv(s) && (g == "00" ==> gname != "")
    ensures MembersInv(Exec(s, Gsr(u, g, gname)).0)
  {
    var (s', r) := Exec(s, Gsr(u, g, gname));
    if r.New? {
      NewGroupMembers(s, r.gid, gname);
      SubscribedMembers(NewGroup(s, r.gid, gname), u, r.gid);
    } else if r.Ok? {
      SubscribedMembers(s, u, g);
    }
  }

  lemma ExecKeepsMembers(s: State, c: Command)
    requires MembersInv(s) && NamedGroup(c)
    ensures MembersInv(Exec(s, c).0)
  {
    match c
    case Reg(_, _) =>
    case Unr(uid, pass) => UnregisterMembers(s, uid, pass);
    case Log(_, _) =>
    case Out(_, _) =>
    case Gsr(uid, gid, gname) => SubscribeMembers(s, uid, gid, gname);
    case Gur(uid, gid) =>
      if gid in s.groups {
        UnsubscribedMembers(s, uid, gid);
      }
  }

  lemma KeysSize<V>(m: map<string, V>)
    ensures |m| == |m.Keys|
  {
  }

  lemma NewGroupKeys(s: State, u: string, g: string, gname: string)
    ensures Subscribed(NewGroup(s, g, gname), u, g).groups.Keys == s.groups.Keys + {g}
  {
  }

  lemma OldGroupKeys(s: State, u: string, g: string)
    requires g in s.groups
    ensures Subscribed(s, u, g).groups.Keys == Unsubscribed(s, u, g).groups.Keys == s.groups.Keys
  {
  }

  lemma NewOutcome(s: State, c: Command)
    requires Exec(s, c).1.New?
    ensures |s.groups| < MAX_GROUPS && c.Gsr? && c.gid == "00"
    ensures var id := Dec(2, |s.groups| + 1);
      Exec(s, c) == (Subscribed(NewGroup(s, id, c.gname), c.uid, id), New(id))
  {
    if !c.Gsr? {
      OnlyGsrIsNew(s, c);
    }
  }

  lemma OnlyGsrIsNew(s: State, c: Command)
    requires !c.Gsr?
    ensures !Exec(s, c).1.New?
  {
  }

  /** Without a NEW reply, there are the same groups as before. */
  lemma SameKeys(s: State, c: Command)
    requires !Exec(s, c).1.New?
    ensures Exec(s, c).0.groups.Keys == s.groups.Keys
  {
    match c
    case Reg(_, _) =>
    case Unr(_, _) =>
    case Log(_, _) =>
    case Out(_, _) =>
    case Gsr(uid, gid, _) =>
      if gid in s.groups {
        OldGroupKeys(s, uid, gid);
      }
    case Gur(uid, gid) =>
      if gid in s.groups {
        OldGroupKeys(s, uid, gid);
      }
  }

  lemma ExecKeepsIds(s: State, c: Command)
    requires IdsInv(s)
    ensures IdsInv(Exec(s, c).0)
  {
    if Exec(s, c).1.New? {
      NewOutcome(s, c);
      NewGroupKeys(s, c.uid, Dec(2, |s.groups| + 1), c.gname);
      IdsStep(2, |s.groups|);
    } else {
      SameKeys(s, c);
    }
    KeysSize(s.groups);
    KeysSize(Exec(s, c).0.groups);
  }

  lemma ExecKeepsInv(s: State, c: Command)
    requires Inv(s) && NamedGroup(c)
    ensures Inv(Exec(s, c).0)
  {
    Clauses(s);
    ExecKeepsMembers(s, c);
    ExecKeepsIds(s, c);
  }

  lemma NewGroupIds(m: map<string, Group>, g: Group)
    requires m.Keys == Ids(2, |m|)
    ensures var m' := m[Dec(2, |m| + 1) := g]; m'.Keys == Ids(2, |m'|) && |m'| == |m| + 1
  {
    IdsStep(2, |m|);
    var m' := m[Dec(2, |m| + 1) := g];
    assert m'.Keys == m.Keys + {Dec(2, |m| + 1)};
    KeysSize(m);
    KeysSize(m');
  }

  lemma NewGroupInv(s: State, gname: string)
    requires Inv(s) && |s.groups| < MAX_GROUPS && ValidGname(gname) && gname != ""
    ensures Inv(NewGroup(s, Dec(2, |s.groups| + 1), gname))
  {
    Clauses(s);
    NewGroupMembers(s, Dec(2, |s.groups| + 1), gname);
    NewGroupIds(s.groups, Group(gname, {}));
  }

  lemma SubscribedInv(s: State, u: string, g: string)
    requires Inv(s) && u in s.users && g in s.groups
    ensures Inv(Subscribed(s, u, g))
  {
    Clauses(s);
    SubscribedMembers(s, u, g);
    KeysSize(s.groups);
    KeysSize(Subscribed(s, u, g).groups);
  }

  /** Every sequence of commands keeps the invariant. */
  lemma {:induction false} RunKeepsInv(s: State, cs: seq<Command>)
    requires Inv(s) && forall c :: c in cs ==> NamedGroup(c)
    ensures Inv(Run(s, cs))
    decreases |cs|
  {
    if cs != [] {
      ExecKeepsInv(s, cs[0]);
      RunKeepsInv(Exec(s, cs[0]).0, cs[1..]);
    }
  }

  function ReplyAt(s: State, cs: seq<Command>, k: nat): Reply
    requires k < |cs|
  {
    Exec(Run(s, cs[..k]), cs[k]).1
  }

  lemma {:induction false} RunStep(s: State, cs: seq<Command>, k: nat)
    requires k < |cs|
    ensures Run(s, cs[..k + 1]) == Exec(Run(s, cs[..k]), cs[k]).0
    decreases k
  {
    assert cs[..k + 1][0] == cs[0];
    if k > 0 {
      assert cs[..k + 1][1..] == cs[1..][..k] && cs[..k][1..] == cs[1..][..k - 1];
      RunStep(Exec(s, cs[0]).0, cs[1..], k - 1);
    } else {
      assert cs[..1][1..] == [];
    }
  }

  lemma GroupsNeverGo(s: State, c: Command)
    requires Inv(s)
    ensures |Exec(s, c).0.groups| == |s.groups| + if Exec(s, c).1.New? then 1 else 0
  {
    Clauses(s);
    ExecKeepsIds(s, c);
    KeysSize(s.groups);
    KeysSize(Exec(s, c).0.groups);
    if Exec(s, c).1.New? {
      NewOutcome(s, c);
      NewGroupKeys(s, c.uid, Dec(2, |s.groups| + 1), c.gname);
      IdsStep(2, |s.groups|);
    } else {
      SameKeys(s, c);
    }
  }

  lemma PrefixInv(s: State, cs: seq<Command>, j: nat)
    requires Inv(s) && (forall c :: c in cs ==> NamedGroup(c)) && j <= |cs|
    ensures Inv(Run(s, cs[..j]))
  {
    forall c | c in cs[..j] ensures NamedGroup(c) {
    }
    RunKeepsInv(s, cs[..j]);
  }

  lemma GroupsStep(s: State, cs: seq<Command>, j: nat)
    requires Inv(s) && (forall c :: c in cs ==> NamedGroup(c)) && j < |cs|
    ensures |Run(s, cs[..j]).groups| <= |Run(s, cs[..j + 1]).groups|
  {
    PrefixInv(s, cs, j);
    RunStep(s, cs, j);
    GroupsNeverGo(Run(s, cs[..j]), cs[j]);
  }

  lemma {:induction false} GroupsGrow(s: State, cs: seq<Command>, i: nat, j: nat)
    requires Inv(s) && (forall c :: c in cs ==> NamedGroup(c)) && i <= j <= |cs|
    ensures Inv(Run(s, cs[..j])) && |Run(s, cs[..i]).groups| <= |Run(s, cs[..j]).groups|
    decreases j - i
  {
    PrefixInv(s, cs, j);
    if i < j {
      GroupsGrow(s, cs, i, j - 1);
      GroupsStep(s, cs, j - 1);
    }
  }

  lemma NewIdAt(s: State, cs: seq<Command>, k: nat) returns (n: nat)
    requires Inv(s) && (forall c :: c in cs ==> NamedGroup(c)) && k < |cs| && ReplyAt(s, cs, k).New?
    ensures n == |Run(s, cs[..k]).groups| < MAX_GROUPS && |Run(s, cs[..k + 1]).groups| == n + 1
    ensures ReplyAt(s, cs, k).gid == Dec(2, n + 1)
  {
    n := |Run(s, cs[..k]).groups|;
    PrefixInv(s, cs, k);
    RunStep(s, cs, k);
    GroupsNeverGo(Run(s, cs[..k]), cs[k]);
    NewOutcome(Run(s, cs[..k]), cs[k]);
  }

  /** The ids of new groups increase over a run, so no two groups are ever given one id. */
  lemma NewIdsIncrease(s: State, cs: seq<Command>, i: nat, j: nat)
    requires Inv(s) && (forall c :: c in cs ==> NamedGroup(c)) && i < j < |cs|
    requires ReplyAt(s, cs, i).New? && ReplyAt(s, cs, j).New?
    ensures Strcmp(ReplyAt(s, cs, i).gid, ReplyAt(s, cs, j).gid) < 0
  {
    var a := NewIdAt(s, cs, i);
    var b := NewIdAt(s, cs, j);
    GroupsGrow(s, cs, i + 1, j);
    IdOrder(a + 1, b + 1);
  }

  lemma IdOrder(a: nat, b: nat)
    requires a < b <= MAX_GROUPS
    ensures Strcmp(Dec(2, a), Dec(2, b)) < 0
  {
    assert Pow10(2) == 100 by {
      assert Pow10(1) == 10;
    }
    DecOrder(2, a, b);
  }

  /** Once the main process has ended, nothing is answered and nothing changes. */
  lemma {:induction false} DownStaysDown(s: State, cs: seq<Command>)
    requires !s.up
    ensures Run(s, cs) == s
    ensures forall k :: 0 <= k < |cs| ==> ReplyAt(s, cs, k) == Crash
    decreases |cs|
  {
    if cs != [] {
      DownStaysDown(s, cs[1..]);
      forall k | 0 <= k < |cs| ensures ReplyAt(s, cs, k) == Crash {
        if k > 0 {
          assert cs[..k][1..] == cs[1..][..k - 1] && cs[..k][0] == cs[0];
          assert ReplyAt(s, cs[1..], k - 1) == Crash;
        }
      }
    }
  }

  lemma ZeroValue()
    ensures Value("00") == 0
  {
    assert "00"[..1] == "0" && "0"[..0] == "";
    assert Value("0") == 0;
  }

  /** "00", which asks for a new group, is not the id of a group. */
  lemma ZeroIsFree(n: nat)
    ensures "00" !in Ids(2, n)
  {
    ZeroValue();
    forall i | 1 <= i <= n ensures Dec(2, i) != "00" {
      assert Value(Dec(2, i)) == i;
    }
  }

  lemma FreeIds(s: State)
    requires Inv(s)
    ensures "00" !in s.groups && Dec(2, |s.groups| + 1) !in s.groups && |s.groups| <= MAX_GROUPS
  {
    Clauses(s);
    ZeroIsFree(|s.groups|);
    IdsStep(2, |s.groups|);
  }

  /** The promised E_GRP and E_FULL replies of `subscribe`: what the code does instead, exactly. */
  lemma SubscribeCrashes(s: State, uid: string, gid: string, gname: string)
    requires Inv(s) && s.up
    ensures Exec(s, Gsr(uid, gid, gname)).1 == Crash <==> !Exec(s, Gsr(uid, gid, gname)).0.up
    ensures Exec(s, Gsr(uid, gid, gname)).1 == Crash
       <==> && ValidUid(uid) && ValidGid(gid) && ValidGname(gname) && uid in s.users
            && gid !in s.groups && (gid == "00" ==> |s.groups| == MAX_GROUPS)
  {
    FreeIds(s);
  }

  /** After unregistering, registering the same UID again starts from nothing. */
  lemma ReregisterStartsClean(s: State, uid: string, pass: string, pass': string)
    requires Inv(s) && Exec(s, Unr(uid, pass)).1 == Ok && ValidPass(pass')
    ensures var r := Exec(Exec(s, Unr(uid, pass)).0, Reg(uid, pass'));
      && r.1 == Ok
      && uid !in r.0.logged && r.0.users == s.users[uid := pass'] && r.0.logged == s.logged - {uid}
      && r.0.groups.Keys == s.groups.Keys
      && forall g :: g in s.groups ==> r.0.groups[g] == Group(s.groups[g].name, s.groups[g].subs - {uid})
  {
  }

  /** Only such a `subscribe` ends the main process. */
  lemma OnlySubscribeCrashes(s: State, c: Command)
    requires s.up
    ensures Exec(s, c).1 == Crash <==> !Exec(s, c).0.up
    ensures !c.Gsr? ==> Exec(s, c).0.up
  {
  }
}
