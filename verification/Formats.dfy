/**
 * Every message of the protocol, spelled out byte by byte, and the words that may stand in it.
 * The printers and parsers of the other modules go by definitions that both programs share; these
 * lemmas say what is on the wire.
 */
module Formats {
  import opened CText
  import opened ByteStream
  import opened Wire
  import opened Retrieve
  import opened RetrieveServer
  import opened EndToEnd
  import ClientPost
  import GroupLists
  import MainProcess
  import Messages
  import opened Tree
  import Server
  import Outcomes
  import Tokenizer

  // ---- words ----

  lemma FixedWidth(width: nat, s: string)
    requires 1 <= width
    ensures |s| == width && AllDigits(s) <==> exists n :: 0 <= n < Pow10(width) && s == Dec(width, n)
  {
    if |s| == width && AllDigits(s) {
      ValueBound(s);
      DecOfValue(width, s);
      assert 0 <= Value(s) < Pow10(width) && s == Dec(width, Value(s));
    }
    if n :| 0 <= n < Pow10(width) && s == Dec(width, n) {
      DecLength(width, n, width);
    }
  }

  lemma Powers()
    ensures Pow10(1) == 10 && Pow10(2) == 100 && Pow10(3) == 1000 && Pow10(4) == 10000 && Pow10(5) == 100000
  {
  }

  /** UIDs are 00000 to 99999. */
  lemma UidIff(s: string)
    ensures ValidUid(s) <==> exists n :: 0 <= n <= 99999 && s == Dec(5, n)
  {
    FixedWidth(5, s);
    Powers();
  }

  /** Group ids are 00 to 99. */
  lemma GidIff(s: string)
    ensures ValidGid(s) <==> exists n :: 0 <= n <= 99 && s == Dec(2, n)
  {
    FixedWidth(2, s);
    Powers();
  }

  /** The server takes the message numbers 0001 to 9999, and all of their digits. */
  lemma MidIff(s: string)
    ensures ValidMid(s) <==> exists n :: 1 <= n <= 9999 && s == Dec(4, n)
  {
    FixedWidth(4, s);
    Powers();
    forall n: nat ensures Atoi(Dec(4, n)) == n {
      AtoiDec(4, n);
    }
  }

  /** The user may leave zeros out. */
  lemma TypedMidIff(s: string)
    ensures TypedMid(s) <==> exists n, width :: 1 <= n <= 9999 && 1 <= width <= 4 && |s| == width && s == Dec(width, n)
  {
    Powers();
    if 1 <= |s| <= 4 {
      FixedWidth(|s|, s);
      forall n: nat ensures Atoi(Dec(|s|, n)) == n {
        AtoiDec(|s|, n);
      }
    }
  }

  /** Letters and digits, by their codes. */
  predicate Alphanumeric(code: int) {
    48 <= code <= 57 || 65 <= code <= 90 || 97 <= code <= 122
  }

  /** Passwords are eight letters or digits. */
  lemma PassIff(s: string)
    ensures ValidPass(s) <==> |s| == 8 && forall i :: 0 <= i < |s| ==> Alphanumeric(s[i] as int)
  {
    Codes();
  }

  /** The names of groups are at most 23 letters, digits, hyphens and underscores. */
  lemma GnameIff(s: string)
    ensures ValidGname(s) <==>
      |s| <= 23 && forall i :: 0 <= i < |s| ==> Alphanumeric(s[i] as int) || s[i] as int == 45 || s[i] as int == 95
  {
    Codes();
  }

  /** A word ends at a NUL, a line feed or a blank. */
  lemma Codes()
    ensures forall c: char :: IsAlnum(c) <==> Alphanumeric(c as int)
    ensures forall c: char :: IsDelim(c) <==> c as int == 0 || c as int == 10 || c as int == 32
  {
  }

  /** The longest word that can be read into a buffer has 127 bytes. */
  lemma LongestWord(w: string, rest: string)
    requires NoDelim(w)
    ensures Fits(w + " " + rest) <==> |w| <= 127
  {
    FirstWord(w, rest);
  }

  /** Sizes are read as far as an `int` goes. */
  lemma LargestSize(data: string, rest: string)
    requires |Dec(1, |data|)| <= 127
    ensures SizedOf(Dec(1, |data|) + " " + data + rest)
         == if |data| <= 2147483647 then Sized(data, rest) else NotThere
  {
    DecWord(1, |data|);
    AtoiDec(1, |data|);
    FirstWord(Dec(1, |data|), data + rest);
    assert Dec(1, |data|) + " " + data + rest == Dec(1, |data|) + " " + (data + rest);
    SizedWord(Dec(1, |data|) + " " + (data + rest), data, rest);
  }

  lemma FirstWord(w: string, rest: string)
    requires NoDelim(w)
    ensures WordOf(w + " " + rest) == w && AfterWord(w + " " + rest) == rest
  {
    WordThen(w, ' ', rest);
    assert w + " " + rest == w + ([' '] + rest);
  }

  lemma SizedWord(s: string, data: string, rest: string)
    requires |WordOf(s)| <= 127 && Atoi(WordOf(s)) == |data| && AfterWord(s) == data + rest
    ensures SizedOf(s) == if |data| <= 2147483647 then Sized(data, rest) else NotThere
  {
    assert (data + rest)[..|data|] == data && (data + rest)[|data|..] == rest;
  }

  /** `atoi` skips white space, knows a sign, and stops at the first byte that is no digit. */
  lemma AtoiSigns(width: nat, n: nat, rest: string)
    requires rest == "" || !IsDigit(rest[0])
    ensures Atoi(Dec(width, n) + rest) == n && Atoi([' '] + (Dec(width, n) + rest)) == n
    ensures Atoi(['+'] + (Dec(width, n) + rest)) == n && Atoi(['-'] + (Dec(width, n) + rest)) == 0 - n as int
  {
    SignedDigits(Dec(width, n), rest);
  }

  lemma SignedDigits(s: string, rest: string)
    requires s != "" && AllDigits(s) && (rest == "" || !IsDigit(rest[0]))
    ensures Atoi(s + rest) == Value(s) && Atoi([' '] + (s + rest)) == Value(s)
    ensures Atoi(['+'] + (s + rest)) == Value(s) && Atoi(['-'] + (s + rest)) == 0 - Value(s) as int
  {
    PrefixThen(s, rest);
    var digits := s + rest;
    assert digits[0] == s[0] && IsDigit(s[0]);
    assert ([' '] + digits)[1..] == (['+'] + digits)[1..] == (['-'] + digits)[1..] == digits;
  }

  lemma {:induction false} PrefixThen(s: string, rest: string)
    requires AllDigits(s) && (rest == "" || !IsDigit(rest[0]))
    ensures DigitPrefix(s + rest) == s
  {
    if s == "" {
      assert "" + rest == rest;
    } else {
      PrefixThen(s[1..], rest);
      assert (s + rest)[1..] == s[1..] + rest;
    }
  }

  // ---- datagrams ----

  /** The requests with a password. */
  lemma PasswordDatagrams(uid: string, pass: string)
    ensures Datagram(MainProcess.Change(Server.Reg(uid, pass))) == "REG " + uid + " " + pass + "\n"
    ensures Datagram(MainProcess.Change(Server.Unr(uid, pass))) == "UNR " + uid + " " + pass + "\n"
    ensures Datagram(MainProcess.Change(Server.Log(uid, pass))) == "LOG " + uid + " " + pass + "\n"
    ensures Datagram(MainProcess.Change(Server.Out(uid, pass))) == "OUT " + uid + " " + pass + "\n"
  {
    Three("REG", uid, pass);
    Three("UNR", uid, pass);
    Three("LOG", uid, pass);
    Three("OUT", uid, pass);
    assert "REG" + " " == "REG " && "UNR" + " " == "UNR " && "LOG" + " " == "LOG " && "OUT" + " " == "OUT ";
  }

  /** The requests about a subscription. */
  lemma GroupDatagrams(uid: string, gid: string, gname: string)
    ensures Datagram(MainProcess.Change(Server.Gsr(uid, gid, gname))) == "GSR " + uid + " " + gid + " " + gname + "\n"
    ensures Datagram(MainProcess.Change(Server.Gur(uid, gid))) == "GUR " + uid + " " + gid + "\n"
  {
    Three("GUR", uid, gid);
    Outcomes.FourWords("GSR", uid, gid, gname);
    assert ["GSR"] + [uid, gid, gname] == ["GSR", uid, gid, gname];
    FourFlat("GSR", uid, gid, gname);
    assert "GUR" + " " == "GUR " && "GSR" + " " == "GSR ";
  }

  /** The requests for a list. */
  lemma ListDatagrams(uid: string)
    ensures Datagram(MainProcess.AllGroups) == "GLS\n"
    ensures Datagram(MainProcess.GroupsOf(uid)) == "GLM " + uid + "\n"
  {
    Outcomes.TwoWords("GLM", uid);
    assert "GLM" + (" " + (uid + "\n")) == "GLM " + uid + "\n";
    assert ["GLS"][1..] == [] && "GLS" + ("\n" + "") == "GLS\n";
  }

  lemma FourFlat(a: string, b: string, c: string, d: string)
    ensures a + (" " + (b + (" " + (c + (" " + (d + "\n")))))) == a + " " + b + " " + c + " " + d + "\n"
  {
  }

  function Datagram(d: MainProcess.Datagram): string {
    Tokenizer.Line(MainProcess.WordsIn(d))
  }

  lemma Three(a: string, b: string, c: string)
    ensures Tokenizer.Line([a] + [b, c]) == a + " " + b + " " + c + "\n"
  {
    assert [a] + [b, c] == [a, b, c];
    Outcomes.ThreeWords(a, b, c);
    assert a + (" " + (b + (" " + (c + "\n")))) == a + " " + b + " " + c + "\n";
  }

  /** The list of groups, one part for each. */
  lemma GroupsText(tag: string, gs: seq<GroupLists.GroupLine>)
    ensures GroupLists.Listing(tag, gs)
         == tag + " " + Dec(1, |gs|)
            + Flat(seq(|gs|, i requires 0 <= i < |gs| => " " + gs[i].gid + " " + gs[i].name + " " + Dec(4, gs[i].mid)))
            + "\n"
  {
    GroupLists.ListingText(tag, gs);
    LinesFlat(gs);
  }

  lemma {:induction false} LinesFlat(gs: seq<GroupLists.GroupLine>)
    ensures GroupLists.LinesText(gs)
         == Flat(seq(|gs|, i requires 0 <= i < |gs| => " " + gs[i].gid + " " + gs[i].name + " " + Dec(4, gs[i].mid)))
    decreases |gs|
  {
    var parts := seq(|gs|, i requires 0 <= i < |gs| => " " + gs[i].gid + " " + gs[i].name + " " + Dec(4, gs[i].mid));
    if gs != [] {
      var rest := gs[..|gs| - 1];
      LinesFlat(rest);
      assert parts[..|gs| - 1]
          == seq(|rest|, i requires 0 <= i < |rest| => " " + rest[i].gid + " " + rest[i].name + " " + Dec(4, rest[i].mid));
    }
  }

  function Flat(parts: seq<string>): string {
    if parts == [] then "" else Flat(parts[..|parts| - 1]) + parts[|parts| - 1]
  }

  // ---- streams ----

  /** `post` with and without a file, and its reply. */
  lemma PostText(gid: string, p: Post, mid: string)
    ensures "PST " + PstBody(gid, p)
         == "PST " + p.uid + " " + gid + " " + Dec(1, |p.text|) + " " + p.text
            + (match p.file
               case None => "\n"
               case Some(f) => " " + f.name + " " + Dec(1, |f.data|) + " " + f.data + "\n")
    ensures ClientPost.PostReply(mid) == "RPT " + mid + "\n"
  {
    TailText(p.file);
    BodyText(p.uid, gid, Dec(1, |p.text|), p.text, PstTail(p.file));
  }

  lemma TailText(file: Option<Attachment>)
    ensures PstTail(file)
         == match file
            case None => "\n"
            case Some(f) => " " + f.name + " " + Dec(1, |f.data|) + " " + f.data + "\n"
  {
    if file.Some? {
      var f := file.value;
      var size := Dec(1, |f.data|);
      assert " " + (f.name + (" " + (size + (" " + (f.data + "\n"))))) == " " + f.name + " " + size + " " + f.data + "\n";
    }
  }

  lemma BodyText(uid: string, gid: string, size: string, text: string, tail: string)
    ensures "PST " + (uid + (" " + (gid + (" " + (size + (" " + (text + tail)))))))
         == "PST " + uid + " " + gid + " " + size + " " + text + tail
  {
  }

  /** The request of `retrieve`, behind its name. */
  lemma RetrieveText(uid: string, gid: string, mid: nat)
    ensures RtvBody(uid, gid, mid) == uid + " " + gid + " " + Dec(4, mid) + "\n"
  {
  }

  function RecordLine(r: Record): string {
    " " + r.mid + " " + r.post.uid + " " + Dec(1, |r.post.text|) + " " + r.post.text
    + match r.post.file
      case None => ""
      case Some(f) => " / " + f.name + " " + Dec(1, |f.data|) + " " + f.data
  }

  lemma FilePartText(file: Option<Attachment>, rest: string)
    ensures FilePart(file, rest)
         == (match file
             case None => ""
             case Some(f) => " / " + f.name + " " + Dec(1, |f.data|) + " " + f.data) + rest
  {
    if file.Some? {
      var f := file.value;
      var size := Dec(1, |f.data|);
      assert " / " + (f.name + (" " + (size + (" " + (f.data + rest)))))
          == " / " + f.name + " " + size + " " + f.data + rest;
    }
  }

  lemma RecordFlat(r: Record, rest: string)
    ensures " " + (r.mid + (" " + Body(r.post, rest))) == RecordLine(r) + rest
  {
    var size := Dec(1, |r.post.text|);
    FilePartText(r.post.file, rest);
    var file := match r.post.file
      case None => ""
      case Some(f) => " / " + f.name + " " + Dec(1, |f.data|) + " " + f.data;
    Joined(r.mid, r.post.uid, size, r.post.text, file, rest);
  }

  lemma Joined(mid: string, uid: string, size: string, text: string, file: string, rest: string)
    ensures " " + (mid + (" " + (uid + (" " + (size + (" " + (text + (file + rest))))))))
         == " " + mid + " " + uid + " " + size + " " + text + file + rest
  {
  }

  function RecordLines(rs: seq<Record>): (r: seq<string>)
    ensures |r| == |rs| && forall i :: 0 <= i < |rs| ==> r[i] == RecordLine(rs[i])
  {
    seq(|rs|, i requires 0 <= i < |rs| => RecordLine(rs[i]))
  }

  lemma MoreLines(rs: seq<Record>)
    requires rs != []
    ensures RecordLines(rs) == [RecordLine(rs[0])] + RecordLines(rs[1..])
  {
  }

  lemma {:induction false} RecordsFlat(rs: seq<Record>, tail: string)
    ensures RecordsThen(rs, tail) == Flat(RecordLines(rs)) + tail
    decreases |rs|
  {
    if rs != [] {
      RecordsFlat(rs[1..], tail);
      MoreLines(rs);
      FlatFirst(RecordLine(rs[0]), RecordLines(rs[1..]));
      RecordFlat(rs[0], RecordsThen(rs[1..], tail));
      Assoc(RecordLine(rs[0]), Flat(RecordLines(rs[1..])), tail);
    }
  }

  lemma {:induction false} FlatFirst(first: string, parts: seq<string>)
    ensures Flat([first] + parts) == first + Flat(parts)
    decreases |parts|
  {
    var all := [first] + parts;
    if parts == [] {
      assert all[..0] == [] && all[0] == first;
    } else {
      assert all[..|all| - 1] == [first] + parts[..|parts| - 1];
      FlatFirst(first, parts[..|parts| - 1]);
    }
  }

  /** The three replies to `retrieve`. */
  lemma AnswerLines(count: nat, rs: seq<Record>)
    ensures PrintAnswer(Messages(count, rs))
         == "RRT OK " + Dec(1, count) + Flat(RecordLines(rs)) + "\n"
    ensures PrintAnswer(NoMessages) == "RRT EOF 0\n"
    ensures PrintAnswer(Refused) == "RRT NOK\n"
  {
    ShortAnswers();
    RecordsFlat(rs, "\n");
    CountedFlat(Dec(1, count), Flat(RecordLines(rs)));
  }

  lemma CountedFlat(count: string, records: string)
    ensures "RRT " + ("OK " + (count + (records + "\n"))) == "RRT OK " + count + records + "\n"
  {
  }

  /** The two replies to `ulist`. */
  lemma UsersText(name: string, users: seq<string>)
    ensures GroupLists.PrintReply(GroupLists.Listed(name, users))
         == "RUL OK " + name + " " + Flat(Blanked(users)) + "\n"
    ensures GroupLists.PrintReply(GroupLists.NotFound) == "RUL NOK\n"
  {
    UsersFlat(users, "\n");
    var list := Flat(Blanked(users));
    assert "RUL " + ("OK " + (name + (" " + (list + "\n")))) == "RUL OK " + name + " " + list + "\n";
  }

  function Blanked(users: seq<string>): (r: seq<string>)
    ensures |r| == |users| && forall i :: 0 <= i < |users| ==> r[i] == users[i] + " "
  {
    seq(|users|, i requires 0 <= i < |users| => users[i] + " ")
  }

  lemma MoreUsers(users: seq<string>)
    requires users != []
    ensures Blanked(users) == [users[0] + " "] + Blanked(users[1..])
  {
  }

  lemma {:induction false} UsersFlat(users: seq<string>, rest: string)
    ensures GroupLists.UsersThen(users, rest) == Flat(Blanked(users)) + rest
    decreases |users|
  {
    if users != [] {
      UsersFlat(users[1..], rest);
      MoreUsers(users);
      FlatFirst(users[0] + " ", Blanked(users[1..]));
      UserThen(users[0], Flat(Blanked(users[1..])), rest);
    }
  }

  lemma UserThen(user: string, more: string, rest: string)
    ensures user + (" " + (more + rest)) == user + " " + more + rest
  {
  }

  // ---- the tree ----

  ghost predicate Holds(t: Tree, p: Path, e: Entry) {
    p in t && t[p] == e
  }

  function PathsOf(gid: string, mid: string, p: Post): set<Path> {
    {["GROUPS", gid, "MSG", mid], ["GROUPS", gid, "MSG", mid, "author.txt"], ["GROUPS", gid, "MSG", mid, "text.txt"]}
    + match p.file
      case None => {}
      case Some(f) => {["GROUPS", gid, "MSG", mid, "FILE"], ["GROUPS", gid, "MSG", mid, "FILE", f.name]}
  }

  /** Where the parts of a message are; there is nothing else in its directory. */
  lemma MessageFiles(t: Tree, gid: string, mid: string, p: Post)
    requires Messages.HasMessage(t, gid, mid, p)
    ensures Holds(t, ["GROUPS", gid, "MSG", mid], Dir)
    ensures Holds(t, ["GROUPS", gid, "MSG", mid, "author.txt"], File(p.uid))
    ensures Holds(t, ["GROUPS", gid, "MSG", mid, "text.txt"], File(p.text))
    ensures p.file.Some? ==>
      && Holds(t, ["GROUPS", gid, "MSG", mid, "FILE"], Dir)
      && Holds(t, ["GROUPS", gid, "MSG", mid, "FILE", p.file.value.name], File(p.file.value.data))
    ensures forall q :: q in t && Below(["GROUPS", gid, "MSG", mid], q) ==> q in PathsOf(gid, mid, p)
  {
    var d := Messages.MsgDir(gid, mid);
    assert d + [] == d;
    PartIs(t, d, p, [], Dir);
    PartIs(t, d, p, ["author.txt"], File(p.uid));
    PartIs(t, d, p, ["text.txt"], File(p.text));
    if p.file.Some? {
      PartIs(t, d, p, ["FILE"], Dir);
      PartIs(t, d, p, ["FILE", p.file.value.name], File(p.file.value.data));
    }
    forall q | q in t && Below(d, q) ensures q in PathsOf(gid, mid, p) {
      Messages.StoredEntry(t, d, p, q);
      StoredPaths(gid, mid, p, q);
    }
  }

  lemma PartIs(t: Tree, d: Path, p: Post, name: Path, e: Entry)
    requires Messages.Sub(t, d) == Messages.Stored(d, p)
    requires d + name in Messages.Stored(d, p) && Messages.Stored(d, p)[d + name] == e
    ensures Holds(t, d + name, e)
  {
    Messages.StoredEntry(t, d, p, d + name);
  }

  lemma StoredPaths(gid: string, mid: string, p: Post, q: Path)
    requires q in Messages.Stored(Messages.MsgDir(gid, mid), p)
    ensures q in PathsOf(gid, mid, p)
  {
    var d := Messages.MsgDir(gid, mid);
    assert d + ["author.txt"] == ["GROUPS", gid, "MSG", mid, "author.txt"];
    assert d + ["text.txt"] == ["GROUPS", gid, "MSG", mid, "text.txt"];
    assert d + ["FILE"] == ["GROUPS", gid, "MSG", mid, "FILE"];
    if p.file.Some? {
      assert d + ["FILE", p.file.value.name] == ["GROUPS", gid, "MSG", mid, "FILE", p.file.value.name];
    }
  }
}
