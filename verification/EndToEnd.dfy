/** What a client posts and is told is message `id` is what a later `retrieve` covering it yields. */
module EndToEnd {
  import opened CText
  import opened Tree
  import opened ByteStream
  import opened Wire
  import opened Messages
  import opened Windows
  import opened PostProtocol
  import opened PostSafety
  import opened PostTheorems
  import opened Host
  import opened Retrieve
  import opened RetrieveServer
  import opened Delivery
  import opened Certainty
  import Tokenizer
  import opened ClientPost

  // ---- the theorem ----

  /** The message of an answered post is complete, and is that child's. */
  lemma AnsweredIsComplete(s: Sys, p: Pid)
    requires PostsOk(s) && p in s.procs && (s.procs[p].pc.Answer? || s.procs[p].pc.Done?)
    ensures var c := s.procs[p];
      && CompleteAt(s, c.req.gid, c.pc.id) && Owner(s, c.req.gid, c.pc.id) == c && c.pc.id <= MAX_MID
  {
    ChildOk(s, p);
    MsgsOk(s, s.procs[p].gid);
  }

  lemma AnsweredIsSure(s: Sys, p: Pid, mid: nat)
    requires Inv(s) && p in s.procs && (s.procs[p].pc.Answer? || s.procs[p].pc.Done?)
    requires 1 <= mid <= s.procs[p].pc.id < mid + 20
    ensures var c := s.procs[p];
      && Owner(s, c.req.gid, c.pc.id) == c
      && (SureToShow(s, c.req.gid, mid, c.pc.id) <==> SafeBefore(s, c.req.gid, mid, c.pc.id))
  {
    AnsweredIsComplete(s, p);
    SureIff(s, s.procs[p].req.gid, mid, s.procs[p].pc.id);
  }

  /**
   * End to end: after `first`, client `p` has been told its post is message `id`. After any
   * `later` run, a client that asks from `mid` is sure to be shown what `p` sent as its record
   * number `id - mid`, whatever the `retrieve` goes through, exactly if no message from `mid` up
   * to `id` can end the child. So it is always sure when it asks for `id` itself.
   */
  lemma PostedIsRetrieved(first: seq<Action>, later: seq<Action>, p: Pid, mid: nat)
    requires IsRun(START, first) && IsRun(After(START, first), later)
    requires p in After(START, first).procs && After(START, first).procs[p].pc.Done?
    requires 1 <= mid <= After(START, first).procs[p].pc.id < mid + 20
    ensures var c, s := After(START, first).procs[p], After(After(START, first), later);
      && Owner(s, c.req.gid, c.pc.id) == c
      && (SureToShow(s, c.req.gid, mid, c.pc.id) <==> SafeBefore(s, c.req.gid, mid, c.pc.id))
      && (mid == c.pc.id ==> SureToShow(s, c.req.gid, mid, c.pc.id))
  {
    StartInv();
    RunKeepsInv(START, first);
    RunKeepsInv(After(START, first), later);
    DoneStays(After(START, first), later, p);
    AnsweredIsSure(After(After(START, first), later), p, mid);
  }

  // ---- the programs ----

  function RtvBody(uid: string, gid: string, mid: nat): string {
    uid + (" " + (gid + (" " + (Dec(4, mid) + "\n"))))
  }

  lemma RtvWords(uid: string, gid: string, mid: nat)
    requires ValidUid(uid) && ValidGid(gid) && 1 <= mid <= MAX_MID
    ensures var s := RtvBody(uid, gid, mid); var t := AfterWord(s);
      && WordOf(s) == uid && WordOf(t) == gid && WordOf(AfterWord(t)) == Dec(4, mid)
      && ValidMid(Dec(4, mid)) && Atoi(Dec(4, mid)) == mid
  {
    WordThen(uid, ' ', gid + (" " + (Dec(4, mid) + "\n")));
    WordThen(gid, ' ', Dec(4, mid) + "\n");
    DecWord(4, mid);
    MidSize(mid);
    assert Dec(4, mid) + "\n" == Dec(4, mid) + (['\n'] + "");
    WordThen(Dec(4, mid), '\n', "");
    AtoiDec(4, mid);
  }

  /** What the client gets. */
  ghost predicate Retrieved(s: Sys, s': Sys, gid: string, mid: nat, t: Trace, got: Received)
    requires 1 <= mid
  {
    if !IsDir(s.tree, GroupDir(gid)) then got == Received.Failed
    else TraceOk(s, s', gid, mid, t) && Sees(mid, t, got)
  }

  method Hear(sent: string) returns (got: Received)
    ensures got == ClientReads(sent).got
  {
    var client := new Socket(sent);
    got := ReadAnswer(client);
  }

  /** A whole `retrieve`, on a machine where other processes run all the while. */
  method RetrieveThrough(m: Machine, uid: string, gid: string, mid: nat) returns (got: Received, ghost t: Trace)
    requires m.Valid() && ValidUid(uid) && ValidGid(gid) && 1 <= mid <= MAX_MID
    modifies m, m.fs
    ensures m.Valid() && Retrieved(old(m.sys), m.sys, gid, mid, t, got)
  {
    RtvWords(uid, gid, mid);
    var server := new Socket(RtvBody(uid, gid, mid));
    var _, g, n, valid := ParseRtv(server);
    var ok;
    ok, t := ServerRetrieve(m, server, g, n);
    ReadsAnswer(Refused);
    assert "" + PrintAnswer(Refused) == PrintAnswer(Refused) && "" + Stream(mid, t) == Stream(mid, t);
    got := Hear(server.sent);
  }

  /** A group in which something has been posted is there. */
  lemma GroupOfPost(s: Sys, gid: string)
    requires Inv(s) && LogOf(s, gid) != []
    ensures IsDir(s.tree, GroupDir(gid))
  {
    MsgsOk(s, gid);
    IdsMember(1, |LogOf(s, gid)|);
    assert IsDir(s.tree, MsgsDir(gid));
    TreeIsRooted(s);
    assert Parent(MsgsDir(gid)) == GroupDir(gid);
  }

  lemma RetrievedShows(s: Sys, s': Sys, p: Pid, mid: nat, t: Trace, got: Received)
    requires Inv(s) && p in s.procs && (s.procs[p].pc.Answer? || s.procs[p].pc.Done?)
    requires 1 <= mid <= s.procs[p].pc.id < mid + 20 && SafeBefore(s, s.procs[p].req.gid, mid, s.procs[p].pc.id)
    requires Retrieved(s, s', s.procs[p].req.gid, mid, t, got)
    ensures Shows(got, mid, s.procs[p].pc.id, s.procs[p].req.post)
  {
    AnsweredIsComplete(s, p);
    GroupOfPost(s, s.procs[p].req.gid);
    SafeIsShown(s, s', s.procs[p].req.gid, mid, s.procs[p].pc.id, t);
  }

  /** The same theorem on the programs. */
  method RetrievePosted(m: Machine, ghost p: Pid, uid: string, gid: string, mid: nat) returns (got: Received)
    requires m.Valid() && p in m.sys.procs && (m.sys.procs[p].pc.Answer? || m.sys.procs[p].pc.Done?)
    requires m.sys.procs[p].req.gid == gid && ValidUid(uid) && ValidGid(gid) && 1 <= mid <= MAX_MID
    modifies m, m.fs
    ensures m.Valid()
    ensures var c := old(m.sys).procs[p];
      mid <= c.pc.id < mid + 20 && SafeBefore(old(m.sys), gid, mid, c.pc.id) ==>
        Shows(got, mid, c.pc.id, c.req.post)
  {
    ghost var s, t := m.sys, Trace(m.sys, m.sys, [], []);
    got, t := RetrieveThrough(m, uid, gid, mid);
    ghost var c := s.procs[p];
    if mid <= c.pc.id < mid + 20 && SafeBefore(s, gid, mid, c.pc.id) {
      RetrievedShows(s, m.sys, p, mid, t, got);
    }
  }

  /**
   * The client is never shown more than 20 messages. If the window had settled when it asked, these
   * are the messages from `mid` on, as the log has them.
   */
  method RetrieveWindow(m: Machine, uid: string, gid: string, mid: nat) returns (got: Received, ghost n: nat)
    requires m.Valid() && ValidUid(uid) && ValidGid(gid) && 1 <= mid <= 9999
    modifies m, m.fs
    ensures m.Valid() && |ShownBy(got)| <= 20
    ensures !IsDir(old(m.sys).tree, GroupDir(gid)) ==> got == Received.Failed
    ensures IsDir(old(m.sys).tree, GroupDir(gid)) ==>
      && |LogOf(old(m.sys), gid)| <= n <= |LogOf(m.sys, gid)|
      && ((forall id :: mid <= id < mid + 20 && id <= n ==> CompleteAt(old(m.sys), gid, id)) ==>
            ShowsLog(got, PostsOf(m.sys, gid)[..n], mid))
  {
    ghost var s, t := m.sys, Trace(m.sys, m.sys, [], []);
    got, t := RetrieveThrough(m, uid, gid, mid);
    n := |LogOf(t.end, gid)|;
    if IsDir(s.tree, GroupDir(gid)) {
      WindowSeen(s, m.sys, gid, mid, t, got);
    }
  }

  lemma WindowSeen(s: Sys, s': Sys, gid: string, mid: nat, t: Trace, got: Received)
    requires Inv(s) && 1 <= mid && TraceOk(s, s', gid, mid, t) && Sees(mid, t, got)
    ensures |ShownBy(got)| <= 20 && |LogOf(s, gid)| <= |LogOf(t.end, gid)| <= |LogOf(s', gid)|
    ensures PostsOf(s', gid)[..|LogOf(t.end, gid)|] == PostsOf(t.end, gid)
    ensures (forall id :: mid <= id < mid + 20 && id <= |LogOf(t.end, gid)| ==> CompleteAt(s, gid, id)) ==>
      ShowsLog(got, PostsOf(t.end, gid), mid)
  {
    TraceThrough(s, s', gid, mid, t);
    NoMoreThanTwenty(s, s', gid, mid, t);
    PostsLater(t.end, s', gid);
    if forall id :: mid <= id < mid + 20 && id <= |LogOf(t.end, gid)| ==> CompleteAt(s, gid, id) {
      SettledShown(s, s', gid, mid, t);
    }
  }

  /** The client's `check_mid`, which takes one to four digits. */
  predicate TypedMid(s: string) {
    1 <= |s| <= 4 && AllDigits(s) && Atoi(s) != 0
  }

  /** Six bytes of nine, and the client takes the message for number 0. */
  lemma SixBytesTold(id: nat)
    requires 1 <= id < 100
    ensures Told(Mid(id), 6) == Some("00")
  {
    MidSize(id);
    assert Dec(2, 0) == Dec(1, 0) + [DigitChar(0)] == ['0', '0'];
    assert Dec(4, id) == Dec(3, id / 10) + [DigitChar(id % 10)];
    assert Dec(3, id / 10) == Dec(2, 0) + [DigitChar(id / 10)];
    assert Mid(id)[..2] == ['0', '0'];
  }

  lemma TypedMidRange(s: string)
    requires TypedMid(s)
    ensures 1 <= Atoi(s) <= MAX_MID
  {
    assert DigitPrefix(s) == s && IsDigit(s[0]);
    ValueBound(s);
    assert Pow10(1) == 10 && Pow10(2) == 100 && Pow10(3) == 1000 && Pow10(4) == 10000;
  }

  /**
   * The client of `p` reads the reply to its post, and asks for the message it was told. It is
   * told the right one exactly when its one `read` returned 8 bytes, and is then shown its post.
   */
  method HearAndRetrieve(m: Machine, ghost p: Pid, fd: Socket, uid: string, gid: string)
      returns (told: Option<string>, k: nat, got: Option<Received>)
    requires m.Valid() && p in m.sys.procs && m.sys.procs[p].pc.Done? && m.sys.procs[p].req.gid == gid
    requires fd.rest == PostReply(Mid(m.sys.procs[p].pc.id)) && ValidUid(uid) && ValidGid(gid)
    modifies m, m.fs, fd`rest
    ensures m.Valid() && 1 <= k <= 9 && told == Told(Mid(old(m.sys).procs[p].pc.id), k)
    ensures told == Some(Mid(old(m.sys).procs[p].pc.id)) <==> k >= 8
    ensures var c := old(m.sys).procs[p];
      k >= 8 ==> got.Some? && Shows(got.value, c.pc.id, c.pc.id, c.req.post)
  {
    ghost var id := m.sys.procs[p].pc.id;
    AnsweredIsComplete(m.sys, p);
    MidSize(id);
    DecWord(4, id);
    told, k := ReadPostReply(fd, Mid(id));
    ToldIff(Mid(id), k);
    AtoiDec(4, id);
    if told.None? || !TypedMid(told.value) {
      return told, k, None;
    }
    TypedMidRange(told.value);
    var shown := RetrievePosted(m, p, uid, gid, Atoi(told.value));
    got := Some(shown);
  }

  /**
   * A whole `post` up to the tree: what the user typed reaches the server's variables as the user
   * meant it, whether or not there is a file, and nothing is sent if the file cannot be opened.
   */
  method PostThrough(args: array<char>, ghost text0: string, ghost fname0: Option<string>,
                     uid: string, gid: string, files: map<string, string>)
      returns (sent: bool, gid': string, got: Post)
    requires NulFree(text0) && '"' !in text0 && |text0| <= INT_MAX
    requires fname0.Some? ==> fname0.value != [] && NoDelim(fname0.value)
    requires Tokenizer.StringAt(args[..], 0, Typed(text0, fname0))
    requires ValidUid(uid) && ValidGid(gid)
    requires forall name :: name in files ==> ValidFileName(name) && |files[name]| <= INT_MAX
    modifies args
    ensures sent <==> Meant(uid, text0, fname0, files).Some?
    ensures sent ==> gid' == gid && Some(got) == Meant(uid, text0, fname0, files)
  {
    var client := new Socket("");
    sent := SendPost(args, text0, fname0, uid, gid, files, client);
    gid', got := "", Post("", "", None);
    if sent {
      ghost var p := Meant(uid, text0, fname0, files).value;
      var server := new Socket(client.sent);
      assert server.rest == "PST " + PstBody(gid, p);
      var command := ReadBytes(server, 3);
      SkipFd(server, 1);
      assert command == "PST" && server.rest == PstBody(gid, p);
      var uid', text;
      uid', gid', text := PostHead(server, gid, p);
      var file := PostFile(server, p.file);
      got := Post(uid', text, file);
    }
  }
}
