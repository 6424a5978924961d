/** The lists of groups (RGL, RGM) and of a group's users (RUL): printed, parsed and measured. */
module GroupLists {
  import opened CText
  import opened StrList
  import opened Tree
  import opened ByteStream
  import opened Wire
  import opened Messages
  import Server
  import opened ServerTree
  import opened Tokenizer

  datatype GroupLine = GroupLine(gid: string, name: string, mid: nat)

  /** What a group is listed as: its id, its name, and how many messages its MSG holds. */
  function LineOf(t: Tree, s: Server.State, gid: string): GroupLine {
    GroupLine(gid, if gid in s.groups then s.groups[gid].name else "", |SubDirs(t, MsgsDir(gid))|)
  }

  function LineAt(t: Tree, s: Server.State, i: nat): GroupLine {
    LineOf(t, s, Dec(2, i + 1))
  }

  /** All groups, in the order of their ids. */
  function LinesOf(t: Tree, s: Server.State): (gs: seq<GroupLine>)
    ensures |gs| == |s.groups|
    ensures forall i :: 0 <= i < |gs| ==> gs[i] == LineAt(t, s, i)
  {
    seq(|s.groups|, i requires 0 <= i < |s.groups| => LineAt(t, s, i))
  }

  predicate Subscribes(s: Server.State, uid: string, gid: string) {
    gid in s.groups && uid in s.groups[gid].subs
  }

  /** The lines of the groups to which `uid` subscribes, in the same order. */
  function Mine(s: Server.State, uid: string, gs: seq<GroupLine>): (r: seq<GroupLine>)
    ensures forall g :: g in r <==> g in gs && Subscribes(s, uid, g.gid)
    ensures |r| <= |gs|
  {
    if gs == [] then []
    else
      var g := gs[|gs| - 1];
      Mine(s, uid, gs[..|gs| - 1]) + if Subscribes(s, uid, g.gid) then [g] else []
  }

  function WordsOf(gs: seq<GroupLine>): (ws: seq<string>)
    ensures |ws| == 3 * |gs|
    ensures forall i :: 0 <= i < |gs| ==>
              ws[3 * i] == gs[i].gid && ws[3 * i + 1] == gs[i].name && ws[3 * i + 2] == Dec(4, gs[i].mid)
  {
    if gs == [] then []
    else WordsOf(gs[..|gs| - 1]) + [gs[|gs| - 1].gid, gs[|gs| - 1].name, Dec(4, gs[|gs| - 1].mid)]
  }

  /** The reply: a tag, the number of groups, and three words for each. */
  function Listing(tag: string, gs: seq<GroupLine>): string {
    Line([tag, Dec(1, |gs|)] + WordsOf(gs))
  }

  predicate ValidLine(g: GroupLine) {
    ValidGid(g.gid) && ValidGname(g.name) && g.name != "" && g.mid <= 9999
  }

  // ---- printing ----

  /** Each word after a blank. */
  function Spaced(ws: seq<string>): string {
    if ws == [] then "" else Spaced(ws[..|ws| - 1]) + " " + ws[|ws| - 1]
  }

  lemma {:induction false} SpacedAppend(ws: seq<string>, more: seq<string>)
    ensures Spaced(ws + more) == Spaced(ws) + Spaced(more)
    decreases |more|
  {
    if more == [] {
      assert ws + more == ws;
    } else {
      SpacedAppend(ws, more[..|more| - 1]);
      assert (ws + more)[..|ws + more| - 1] == ws + more[..|more| - 1];
    }
  }

  lemma SpacedOne(ws: seq<string>, w: string)
    ensures Spaced(ws + [w]) == Spaced(ws) + " " + w
  {
    assert (ws + [w])[..|ws|] == ws;
  }

  lemma {:induction false} LineIsSpaced(w: string, ws: seq<string>)
    ensures Line([w] + ws) == w + Spaced(ws) + "\n"
    decreases |ws|
  {
    assert ([w] + ws)[1..] == ws;
    if ws != [] {
      assert ws == [ws[0]] + ws[1..];
      LineIsSpaced(ws[0], ws[1..]);
      SpacedAppend([ws[0]], ws[1..]);
      SpacedOne([], ws[0]);
      assert [] + [ws[0]] == [ws[0]];
    }
  }

  function LineText(g: GroupLine): string {
    " " + g.gid + " " + g.name + " " + Dec(4, g.mid)
  }

  /** What the printing loops append for the groups `gs`. */
  function LinesText(gs: seq<GroupLine>): string {
    if gs == [] then "" else LinesText(gs[..|gs| - 1]) + LineText(gs[|gs| - 1])
  }

  lemma ThreeSpaced(ws: seq<string>, a: string, b: string, c: string)
    ensures Spaced(ws + [a, b, c]) == Spaced(ws) + (" " + a + " " + b + " " + c)
  {
    SpacedOne(ws, a);
    SpacedOne(ws + [a], b);
    SpacedOne(ws + [a] + [b], c);
    assert ws + [a, b, c] == ws + [a] + [b] + [c];
  }

  lemma {:induction false} TextIsSpaced(gs: seq<GroupLine>)
    ensures Spaced(WordsOf(gs)) == LinesText(gs)
  {
    if gs != [] {
      var g := gs[|gs| - 1];
      TextIsSpaced(gs[..|gs| - 1]);
      ThreeSpaced(WordsOf(gs[..|gs| - 1]), g.gid, g.name, Dec(4, g.mid));
    }
  }

  lemma TwoWords(a: string, b: string, ws: seq<string>)
    ensures Line([a, b] + ws) == a + " " + b + Spaced(ws) + "\n"
  {
    assert [a, b] + ws == [a] + ([b] + ws);
    LineIsSpaced(a, [b] + ws);
    SpacedAppend([b], ws);
    SpacedOne([], b);
    assert [] + [b] == [b];
  }

  lemma ListingText(tag: string, gs: seq<GroupLine>)
    ensures Listing(tag, gs) == (tag + " ") + Dec(1, |gs|) + LinesText(gs) + "\n"
  {
    TwoWords(tag, Dec(1, |gs|), WordsOf(gs));
    TextIsSpaced(gs);
  }

  lemma TextStep(start: string, gs: seq<GroupLine>, g: GroupLine)
    ensures LinesText(gs + [g]) == LinesText(gs) + LineText(g)
    ensures start + LinesText(gs + [g]) == start + LinesText(gs) + LineText(g)
  {
    assert (gs + [g])[..|gs|] == gs;
  }

  lemma EmptyListing()
    ensures Listing("RGM", []) == "RGM 0\n"
    ensures "RGL" + " " == "RGL " && "RGM" + " " == "RGM "
  {
    ListingText("RGM", []);
    assert Dec(1, 0) == "0";
  }

  // ---- parsing on the client ----

  function AllWords(tag: string, gs: seq<GroupLine>): seq<string> {
    [tag, Dec(1, |gs|)] + WordsOf(gs)
  }

  lemma {:induction false} LineWords(gs: seq<GroupLine>)
    requires forall g :: g in gs ==> ValidLine(g)
    ensures Words(WordsOf(gs))
  {
    if gs != [] {
      var g := gs[|gs| - 1];
      LineWords(gs[..|gs| - 1]);
      assert ValidLine(g);
      DecWord(4, g.mid);
      assert NoDelim(g.gid) && NoDelim(g.name);
    }
  }

  lemma ListingWords(tag: string, gs: seq<GroupLine>)
    requires tag != [] && NoDelim(tag) && forall g :: g in gs ==> ValidLine(g)
    ensures Words(AllWords(tag, gs))
  {
    LineWords(gs);
    DecWord(1, |gs|);
  }

  /** The tag and the word after it: a count, or an error. */
  method ReadHeader(buf: array<char>, ghost ws: seq<string>)
      returns (second: string, str: Option<nat>, ghost starts: seq<nat>)
    requires Words(ws) && |ws| >= 2 && TextAt(buf[..], 0, Line(ws))
    modifies buf
    ensures second == ws[1] && |starts| == 2 && Cut(buf[..], str, ws, starts)
  {
    assert ws[0..] == ws;
    var first, p;
    first, str := NextWord(buf, Some(0), ws, []);
    p, str := NextWord(buf, str, ws, [first]);
    starts := [] + [first] + [p];
    assert StringAt(buf[..], starts[1], ws[1]);
    second := ReadString(buf, p, ws[1]);
  }

  /**
   * The client's loop over the rest of a reply: three calls of `get_word` a group. Afterwards all
   * the pointers it has kept still point at the ids, names and counts the server printed.
   */
  method ReadGroups(buf: array<char>, str: Option<nat>, count: string, ghost tag: string, ghost gs: seq<GroupLine>,
                    ghost starts0: seq<nat>)
      returns (n: int, ids: seq<nat>, names: seq<nat>, mids: seq<nat>)
    requires Words(AllWords(tag, gs)) && |starts0| == 2 && Cut(buf[..], str, AllWords(tag, gs), starts0)
    requires count == Dec(1, |gs|)
    modifies buf
    ensures n == |gs| == |ids| == |names| == |mids|
    ensures forall i :: 0 <= i < |gs| ==>
              && StringAt(buf[..], ids[i], gs[i].gid)
              && StringAt(buf[..], names[i], gs[i].name)
              && StringAt(buf[..], mids[i], Dec(4, gs[i].mid))
  {
    ghost var ws, starts := AllWords(tag, gs), starts0;
    AtoiDec(1, |gs|);
    n := Atoi(count);
    ids, names, mids, starts := ReadTriples(buf, str, n, ws, starts0);
    forall i | 0 <= i < |gs|
      ensures StringAt(buf[..], ids[i], gs[i].gid) && StringAt(buf[..], names[i], gs[i].name)
              && StringAt(buf[..], mids[i], Dec(4, gs[i].mid))
    {
      WordAt(tag, gs, i);
      assert Handed(buf[..], starts, ws, 2 + 3 * i);
      assert Handed(buf[..], starts, ws, 3 + 3 * i);
      assert Handed(buf[..], starts, ws, 4 + 3 * i);
    }
  }

  /** Word `j` is a C string at the pointer that was handed out for it. */
  ghost predicate Handed(s: string, starts: seq<nat>, ws: seq<string>, j: nat) {
    j < |starts| <= |ws| && StringAt(s, starts[j], ws[j])
  }

  /** The three pointers kept for each group are those of its three words. */
  ghost predicate Triples(starts: seq<nat>, ids: seq<nat>, names: seq<nat>, mids: seq<nat>) {
    && |ids| == |names| == |mids| && |starts| == 2 + 3 * |ids|
    && forall j :: 0 <= j < |ids| ==>
         starts[2 + 3 * j] == ids[j] && starts[3 + 3 * j] == names[j] && starts[4 + 3 * j] == mids[j]
  }

  lemma TriplesMore(starts: seq<nat>, ids: seq<nat>, names: seq<nat>, mids: seq<nat>, id: nat, name: nat, mid: nat)
    requires Triples(starts, ids, names, mids)
    ensures Triples(starts + [id] + [name] + [mid], ids + [id], names + [name], mids + [mid])
  {
  }

  method ReadTriples(buf: array<char>, str0: Option<nat>, n: nat, ghost ws: seq<string>, ghost starts0: seq<nat>)
      returns (ids: seq<nat>, names: seq<nat>, mids: seq<nat>, ghost starts: seq<nat>)
    requires Words(ws) && |ws| == 2 + 3 * n && |starts0| == 2 && Cut(buf[..], str0, ws, starts0)
    modifies buf
    ensures |ids| == n && Triples(starts, ids, names, mids)
    ensures forall j :: 0 <= j < |ws| ==> Handed(buf[..], starts, ws, j)
  {
    var str := str0;
    starts, ids, names, mids := starts0, [], [], [];
    for i := 0 to n
      invariant |ids| == i && Triples(starts, ids, names, mids)
      invariant Cut(buf[..], str, ws, starts)
    {
      var id, name, mid;
      id, name, mid, str := ReadTriple(buf, str, ws, starts);
      TriplesMore(starts, ids, names, mids, id, name, mid);
      starts := starts + [id] + [name] + [mid];
      ids, names, mids := ids + [id], names + [name], mids + [mid];
    }
  }

  method ReadTriple(buf: array<char>, str: Option<nat>, ghost ws: seq<string>, ghost starts: seq<nat>)
      returns (id: nat, name: nat, mid: nat, next: Option<nat>)
    requires Words(ws) && |starts| + 3 <= |ws| && Cut(buf[..], str, ws, starts)
    modifies buf
    ensures Cut(buf[..], next, ws, starts + [id] + [name] + [mid])
  {
    id, next := NextWord(buf, str, ws, starts);
    name, next := NextWord(buf, next, ws, starts + [id]);
    mid, next := NextWord(buf, next, ws, starts + [id] + [name]);
  }

  lemma WordAt(tag: string, gs: seq<GroupLine>, i: nat)
    requires i < |gs|
    ensures AllWords(tag, gs)[2 + 3 * i] == gs[i].gid && AllWords(tag, gs)[3 + 3 * i] == gs[i].name
    ensures AllWords(tag, gs)[4 + 3 * i] == Dec(4, gs[i].mid)
  {
    assert WordsOf(gs)[3 * i] == gs[i].gid && WordsOf(gs)[3 * i + 1] == gs[i].name;
    assert WordsOf(gs)[3 * i + 2] == Dec(4, gs[i].mid);
  }

  // ---- sizes ----

  lemma {:induction false} TextSize(gs: seq<GroupLine>)
    requires forall g :: g in gs ==> ValidLine(g)
    ensures |LinesText(gs)| <= 32 * |gs|
  {
    if gs != [] {
      var g := gs[|gs| - 1];
      assert ValidLine(g);
      TextSize(gs[..|gs| - 1]);
      MidSize(g.mid);
    }
  }

  lemma MidSize(mid: nat)
    requires mid <= 9999
    ensures |Dec(4, mid)| == 4
  {
    assert Pow10(2) == 100;
    DecLength(4, mid, 4);
  }

  lemma CountSize(n: nat)
    requires n <= 99
    ensures |Dec(1, n)| <= 2
  {
    assert Pow10(2) == 100;
    DecLength(1, n, 2);
  }

  /**
   * The reply of `groups` with its NUL fits the buffer allocated for it, unless there is no
   * group: then it is one byte too long. It always fits the client's buffer.
   */
  lemma RglFits(gs: seq<GroupLine>)
    requires |gs| <= 99 && forall g :: g in gs ==> ValidLine(g)
    ensures |Listing("RGL", gs)| + 1 <= 5 + |Dec(1, |gs|)| + 33 * |gs| <==> gs != []
    ensures |Listing("RGL", gs)| + 1 <= 50 * BUFFER_SIZE
  {
    ListingText("RGL", gs);
    TextSize(gs);
    CountSize(|gs|);
  }

  /**
   * What `my_groups` collects fits its buffer of 33 bytes a group, unless there is no group, and
   * the reply made of it fills its own buffer exactly.
   */
  lemma RgmFits(mine: seq<GroupLine>, all: nat)
    requires |mine| <= all && forall g :: g in mine ==> ValidLine(g)
    ensures |LinesText(mine)| + 1 <= 33 * all <==> all > 0
    ensures |Listing("RGM", mine)| + 1 == 6 + |Dec(1, |mine|)| + |LinesText(mine)|
  {
    TextSize(mine);
    ListingText("RGM", mine);
  }

  // ---- RUL ----

  /** The reply of `ulist`: the group's name, then each user before a blank, then a newline. */
  function PrintUsers(name: string, users: seq<string>): string {
    "RUL " + ("OK " + (name + (" " + UsersThen(users, "\n"))))
  }

  function UsersThen(users: seq<string>, rest: string): string {
    if users == [] then rest else users[0] + (" " + UsersThen(users[1..], rest))
  }

  lemma {:induction false} UsersAppend(users: seq<string>, u: string, rest: string)
    ensures UsersThen(users + [u], "") == UsersThen(users, "") + (u + " ")
    ensures UsersThen(users, rest) == UsersThen(users, "") + rest
    decreases |users|
  {
    if users == [] {
      assert UsersThen([u], "") == u + " ";
    } else {
      UsersAppend(users[1..], u, rest);
      assert (users + [u])[1..] == users[1..] + [u];
      Regroup(users[0], UsersThen(users[1..], ""), u + " ");
      Regroup(users[0], UsersThen(users[1..], ""), rest);
    }
  }

  lemma Regroup(a: string, b: string, c: string)
    ensures a + (" " + (b + c)) == a + (" " + b) + c
  {
  }

  /** The plain files of a group directory: `name.txt`, and one for each subscriber. */
  lemma GroupFiles(t: Tree, s: Server.State, gid: string)
    requires GroupsMatch(t, s) && Server.MembersInv(s) && gid in s.groups
    ensures Files(t, GroupDir(gid)) == {"name.txt"} + s.groups[gid].subs
    ensures "name.txt" !in s.groups[gid].subs
  {
    forall x ensures x in Files(t, GroupDir(gid)) <==> x == "name.txt" || x in s.groups[gid].subs {
      SubscriberIsUser(s, gid, x);
      GroupFile(t, s, gid, x);
    }
    SubscriberIsUser(s, gid, "name.txt");
  }

  lemma SubscriberIsUser(s: Server.State, gid: string, u: string)
    requires Server.MembersInv(s) && gid in s.groups
    ensures u in s.groups[gid].subs ==> ValidUid(u)
  {
  }

  lemma GroupFile(t: Tree, s: Server.State, gid: string, x: string)
    requires GroupsMatch(t, s) && gid in s.groups && (x in s.groups[gid].subs ==> ValidUid(x))
    ensures x in Files(t, GroupDir(gid)) <==> x == "name.txt" || x in s.groups[gid].subs
  {
    assert GroupDir(gid) + [x] == GroupEntry(gid, x);
    if ValidUid(x) {
      assert x != "." && x != ".." && x != "MSG" && x != "name.txt";
    }
  }

  /** The files but `name.txt`, in the order in which they were listed. */
  function WithoutName(xs: seq<string>): (r: seq<string>)
    ensures multiset(r) == multiset(xs)["name.txt" := 0]
  {
    if xs == [] then []
    else
      assert xs == xs[..|xs| - 1] + [xs[|xs| - 1]];
      WithoutName(xs[..|xs| - 1]) + if xs[|xs| - 1] == "name.txt" then [] else [xs[|xs| - 1]]
  }

  lemma WithoutNameStep(xs: seq<string>, i: nat)
    requires i < |xs|
    ensures WithoutName(xs[..i + 1]) == WithoutName(xs[..i]) + if xs[i] == "name.txt" then [] else [xs[i]]
  {
    assert xs[..i + 1][..i] == xs[..i];
  }

  /** The loop of `ulist`. */
  method UlistLoop(list: Node?, start: string, ghost xs: seq<string>, ghost repr: set<Node>)
      returns (msg: string)
    requires Holds(list, xs, repr)
    ensures msg == start + UsersThen(WithoutName(xs), "")
  {
    msg := start;
    var aux := list;
    ghost var i, left, users := 0, repr, [];
    while aux != null
      invariant i <= |xs| && Holds(aux, xs[i..], left)
      invariant users == WithoutName(xs[..i]) && msg == start + UsersThen(users, "")
      decreases |xs| - i
    {
      WithoutNameStep(xs, i);
      if aux.str != "name.txt" {
        UsersAppend(users, aux.str, "");
        Assoc(start, UsersThen(users, ""), aux.str + " ");
        users := users + [aux.str];
        msg := msg + (aux.str + " ");
      }
      left := left - {aux};
      aux := aux.next;
      i := i + 1;
    }
    assert xs[..i] == xs;
  }

  lemma UsersCount(xs: seq<string>, subs: set<string>)
    requires multiset(xs) == multiset({"name.txt"} + subs) && "name.txt" !in subs
    ensures multiset(WithoutName(xs)) == multiset(subs) && |xs| - 1 == |subs| == |WithoutName(xs)|
  {
    assert |xs| == |multiset(xs)|;
    assert multiset(WithoutName(xs)) == multiset(subs);
    assert |WithoutName(xs)| == |multiset(WithoutName(xs))|;
  }

  lemma {:induction false} UsersSize(users: seq<string>)
    requires forall u :: u in users ==> |u| == 5
    ensures |UsersThen(users, "\n")| == 6 * |users| + 1
  {
    if users != [] {
      UsersSize(users[1..]);
    }
  }

  lemma PrintedUsers(name: string, users: string, all: string)
    requires all == users + "\n"
    ensures "RUL " + ("OK " + (name + (" " + all))) == "RUL OK " + name + " " + users + "\n"
    ensures |"RUL OK " + name + " " + users + "\n"| == 8 + |name| + |all|
  {
  }

  /**
   * What the client shows of the users of a group. `Overrun`: a word is too long for the buffer it
   * is read into.
   */
  datatype UserList = Users(gname: string, shown: seq<string>) | NoGroup | NoUsers | Overrun

  /** The words up to an empty one, which is shown as well; None if one is too long. */
  function WordsShown(s: string): Option<seq<string>>
    decreases |s|
  {
    if !Fits(s) then None
    else if WordOf(s) == "" then Some([""])
    else
      match WordsShown(AfterWord(s))
      case None => None
      case Some(words) => Some([WordOf(s)] + words)
  }

  /** What the client makes of any stream. */
  function ClientUsers(s: string): UserList {
    var t := AfterWord(s);
    var u := AfterWord(t);
    if !Fits(s) || !Fits(t) then Overrun
    else if WordOf(t) != "OK" then NoGroup
    else if !Fits(u) then Overrun
    else if WordOf(u) == "" then NoUsers
    else
      match WordsShown(AfterWord(u))
      case None => Overrun
      case Some(words) => Users(WordOf(u), words)
  }

  /** Two words decide; the loop then reads words until an empty one. */
  method ReadUsers(fd: Socket) returns (got: UserList)
    modifies fd`rest
    ensures got == ClientUsers(old(fd.rest))
  {
    if !Fits(fd.rest) || !Fits(AfterWord(fd.rest)) {
      return Overrun;
    }
    var word := ReadWord(fd, BUFFER_SIZE);
    word := ReadWord(fd, BUFFER_SIZE);
    if word != "OK" {
      return NoGroup;
    }
    if !Fits(fd.rest) {
      return Overrun;
    }
    word := ReadWord(fd, BUFFER_SIZE);
    var gname := word;
    if word == "" {
      return NoUsers;
    }
    var shown := ReadEachUser(fd);
    if shown.None? {
      return Overrun;
    }
    got := Users(gname, shown.value);
  }

  method ReadEachUser(fd: Socket) returns (shown: Option<seq<string>>)
    modifies fd`rest
    ensures shown == WordsShown(old(fd.rest))
  {
    ghost var all := WordsShown(fd.rest);
    var words: seq<string>, more := [], true;
    if all.Some? {
      assert [] + all.value == all.value;
    }
    while more
      invariant all == if !more then Some(words)
                       else if WordsShown(fd.rest).None? then None
                       else Some(words + WordsShown(fd.rest).value)
      decreases more, |fd.rest|
    {
      if !Fits(fd.rest) {
        return None;
      }
      ghost var before, rest := words, fd.rest;
      var word := ReadWord(fd, BUFFER_SIZE);
      words, more := words + [word], word != "";
      if more && WordsShown(fd.rest).Some? {
        assert before + ([word] + WordsShown(fd.rest).value) == words + WordsShown(fd.rest).value;
      }
    }
    shown := Some(words);
  }

  /** The reply; no byte at all if the child that serves it ends early. */
  datatype UserReply = Listed(name: string, users: seq<string>) | NotFound | NoReply

  function PrintReply(r: UserReply): string {
    match r
    case Listed(name, users) => PrintUsers(name, users)
    case NotFound => "RUL NOK\n"
    case NoReply => ""
  }

  lemma {:induction false} ShowsUsers(users: seq<string>)
    requires forall u :: u in users ==> ValidUid(u)
    ensures WordsShown(UsersThen(users, "\n")) == Some(users + [""])
  {
    NextUser(users);
    if users == [] {
      assert users + [""] == [""];
    } else {
      ShowsUsers(users[1..]);
      assert [users[0]] + (users[1..] + [""]) == users + [""];
    }
  }

  /** The client shows the users it was sent, and the empty word that ends the list. */
  lemma ReadsUsers(r: UserReply)
    requires r.Listed? ==> 0 < |r.name| < BUFFER_SIZE && NoDelim(r.name) && forall u :: u in r.users ==> ValidUid(u)
    ensures ClientUsers(PrintReply(r)) == if r.Listed? then Users(r.name, r.users + [""]) else NoGroup
  {
    ReplyHeader(r);
    if r.Listed? {
      ShowsUsers(r.users);
    }
  }

  lemma ReplyHeader(r: UserReply)
    requires r.Listed? ==> NoDelim(r.name)
    ensures var s := PrintReply(r); var t := AfterWord(s);
      && |WordOf(s)| < BUFFER_SIZE && |WordOf(t)| < BUFFER_SIZE && (WordOf(t) == "OK" <==> r.Listed?)
      && (r.Listed? ==> WordOf(AfterWord(t)) == r.name && AfterWord(AfterWord(t)) == UsersThen(r.users, "\n"))
  {
    match r
    case Listed(name, users) => UsersHeader(name, UsersThen(users, "\n"));
    case NotFound =>
      WordThen("RUL", ' ', "NOK\n");
      WordThen("NOK", '\n', "");
      assert "RUL NOK\n" == "RUL" + ([' '] + "NOK\n") && "NOK\n" == "NOK" + (['\n'] + "");
    case NoReply =>
  }

  lemma UsersHeader(name: string, list: string)
    requires NoDelim(name)
    ensures var s := "RUL " + ("OK " + (name + (" " + list)));
      && WordOf(s) == "RUL" && WordOf(AfterWord(s)) == "OK"
      && WordOf(AfterWord(AfterWord(s))) == name && AfterWord(AfterWord(AfterWord(s))) == list
  {
    WordThen("RUL", ' ', "OK " + (name + (" " + list)));
    WordThen("OK", ' ', name + (" " + list));
    WordThen(name, ' ', list);
    assert "RUL " + ("OK " + (name + (" " + list))) == "RUL" + (" " + ("OK " + (name + (" " + list))));
    assert "OK " + (name + (" " + list)) == "OK" + (" " + (name + (" " + list)));
  }

  lemma NextUser(users: seq<string>)
    requires forall u :: u in users ==> ValidUid(u)
    ensures WordOf(UsersThen(users, "\n")) == (if users == [] then "" else users[0])
    ensures users != [] ==> users[0] != "" && |users[0]| < BUFFER_SIZE
    ensures AfterWord(UsersThen(users, "\n")) == if users == [] then "" else UsersThen(users[1..], "\n")
  {
    if users == [] {
      WordThen("", '\n', "");
      assert "" + (['\n'] + "") == "\n";
    } else {
      assert ValidUid(users[0]);
      WordThen(users[0], ' ', UsersThen(users[1..], "\n"));
    }
  }
}
