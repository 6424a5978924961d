/** The reply of `retrieve`, and what the client makes of any stream it gets. */
module Retrieve {
  import opened CText
  import opened ByteStream
  import opened Wire

  // ---- the reply ----

  /** The reply. The count is printed before the records are, so it need not be theirs. */
  datatype Answer = Messages(count: nat, records: seq<Record>) | NoMessages | Refused

  /** A record after its message id, followed by `rest`. */
  function Body(p: Post, rest: string): string {
    p.uid + (" " + (Dec(1, |p.text|) + (" " + (p.text + FilePart(p.file, rest)))))
  }

  function FilePart(file: Option<Attachment>, rest: string): string {
    match file
    case None => rest
    case Some(f) => " / " + (f.name + (" " + (Dec(1, |f.data|) + (" " + (f.data + rest)))))
  }

  /** Each record after a space, and then `tail`. */
  function RecordsThen(rs: seq<Record>, tail: string): string {
    if rs == [] then tail else " " + (rs[0].mid + (" " + Body(rs[0].post, RecordsThen(rs[1..], tail))))
  }

  /** The count, the records, and `tail`. */
  function Counted(count: nat, rs: seq<Record>, tail: string): string {
    "RRT " + ("OK " + (Dec(1, count) + RecordsThen(rs, tail)))
  }

  function PrintAnswer(a: Answer): string {
    match a
    case Messages(count, rs) => Counted(count, rs, "\n")
    case NoMessages => "RRT " + ("EOF " + "0\n")
    case Refused => "RRT " + ("NOK" + "\n")
  }

  // ---- the client, on any stream ----

  /**
   * What the client shows. `Stuck`: after it has shown so many records, it writes past the end of
   * a buffer, or waits for bytes that never come.
   */
  datatype Received = Shown(records: seq<Record>) | Nothing | Failed | Stuck(records: seq<Record>)

  /** What the client makes of a stream, and what it leaves unread. */
  datatype Reading = Reading(got: Received, rest: string)

  datatype Sized = Sized(data: string, rest: string) | NotThere

  /** A size word, and as many raw bytes if they come. */
  function SizedOf(s: string): Sized {
    var size, t := Atoi(WordOf(s)), AfterWord(s);
    if Fits(s) && 0 <= size <= INT_MAX && size <= |t| then Sized(t[..size], t[size..]) else NotThere
  }

  /** What follows a text: a file or none, the word after it, and what is left. */
  datatype Ending = Ending(file: Option<Attachment>, word: string, rest: string) | Torn

  /** "/" announces a file; any other word is already the next id. */
  function FileOf(s: string): Ending {
    var t := Drop(s, 1);
    if !Fits(t) then Torn
    else if WordOf(t) != "/" then Ending(None, WordOf(t), AfterWord(t))
    else if !Fits(AfterWord(t)) then Torn
    else FileData(WordOf(AfterWord(t)), SizedOf(AfterWord(AfterWord(t))))
  }

  function FileData(name: string, data: Sized): Ending {
    if data.NotThere? || !Fits(Drop(data.rest, 1)) then Torn
    else Ending(Some(Attachment(name, data.data)), WordOf(Drop(data.rest, 1)), AfterWord(Drop(data.rest, 1)))
  }

  /** One turn of the loop: a record, the word after it, and what is left. */
  datatype Turn = Turn(record: Record, word: string, rest: string) | Lost

  /** The message id and the author are copied into buffers of 5 and 6 bytes. */
  function TurnOf(mid: string, s: string): Turn {
    var text := SizedOf(AfterWord(s));
    if |mid| > 4 || !Fits(s) || |WordOf(s)| > 5 || text.NotThere? then Lost
    else
      match FileOf(text.rest)
      case Torn => Lost
      case Ending(file, word, rest) => Turn(Record(mid, Post(WordOf(s), text.data, file)), word, rest)
  }

  function Prepend(rs: seq<Record>, r: Reading): Reading {
    match r.got
    case Shown(more) => r.(got := Shown(rs + more))
    case Stuck(more) => r.(got := Stuck(rs + more))
    case _ => r
  }

  /** The loop: each record is shown at the end of its own turn. */
  function Turns(n: nat, mid: string, s: string): (r: Reading)
    ensures r.got.Shown? || r.got.Stuck?
  {
    if n == 0 then Reading(Shown([]), s)
    else
      match TurnOf(mid, s)
      case Lost => Reading(Stuck([]), s)
      case Turn(r, word, rest) => Prepend([r], Turns(n - 1, word, rest))
  }

  /** As many turns as the count says, which `atoi` reads. */
  function CountedReads(s: string): Reading {
    var n, t := Atoi(WordOf(s)), AfterWord(s);
    if !Fits(s) || !Fits(t) || n > INT_MAX || n < -INT_MAX - 1 then Reading(Stuck([]), s)
    else Turns(if n < 0 then 0 else n, WordOf(t), AfterWord(t))
  }

  /** The whole of the client's `retrieve`; after an unexpected first word it only complains. */
  function ClientReads(s: string): Reading {
    var t := AfterWord(s);
    if !Fits(s) || !Fits(t) then Reading(Stuck([]), s)
    else if WordOf(t) == "OK" then CountedReads(AfterWord(t))
    else Reading(if WordOf(t) == "EOF" then Nothing else Failed, AfterWord(t))
  }

  // ---- the program ----

  /** A size and the bytes it announces, unless they do not come. */
  method ReadSome(fd: Socket) returns (data: Option<string>)
    modifies fd`rest
    ensures data == if SizedOf(old(fd.rest)).NotThere? then None else Some(SizedOf(old(fd.rest)).data)
    ensures data.Some? ==> fd.rest == SizedOf(old(fd.rest)).rest
  {
    if !Fits(fd.rest) {
      return None;
    }
    var word := ReadWord(fd, BUFFER_SIZE);
    var size := Atoi(word);
    if size < 0 || size > INT_MAX || size > |fd.rest| {
      return None;
    }
    var bytes := ReadBytes(fd, size);
    data := Some(bytes);
  }

  /** One byte is skipped, and a word read. */
  method ReadNext(fd: Socket) returns (word: Option<string>)
    modifies fd`rest
    ensures var t := Drop(old(fd.rest), 1);
      word == if Fits(t) then Some(WordOf(t)) else None
    ensures word.Some? ==> fd.rest == AfterWord(Drop(old(fd.rest), 1))
  {
    ReadOne(fd);
    assert fd.rest == Drop(old(fd.rest), 1);
    if !Fits(fd.rest) {
      return None;
    }
    var w := ReadWord(fd, BUFFER_SIZE);
    word := Some(w);
  }

  method ReadFileData(fd: Socket, name: string) returns (after: Ending)
    modifies fd`rest
    ensures after == FileData(name, SizedOf(old(fd.rest)))
    ensures after.Ending? ==> fd.rest == after.rest
  {
    var data := ReadSome(fd);
    if data.None? {
      return Torn;
    }
    var word := ReadNext(fd);
    if word.None? {
      return Torn;
    }
    after := Ending(Some(Attachment(name, data.value)), word.value, fd.rest);
  }

  /** What follows a text. */
  method ReadFile(fd: Socket) returns (after: Ending)
    modifies fd`rest
    ensures after == FileOf(old(fd.rest))
    ensures after.Ending? ==> fd.rest == after.rest
  {
    var word := ReadNext(fd);
    if word.None? {
      return Torn;
    }
    if word.value != "/" {
      return Ending(None, word.value, fd.rest);
    }
    if !Fits(fd.rest) {
      return Torn;
    }
    var name := ReadWord(fd, BUFFER_SIZE);
    after := ReadFileData(fd, name);
  }

  method ReadRecord(fd: Socket, mid: string) returns (turn: Turn)
    modifies fd`rest
    ensures turn == TurnOf(mid, old(fd.rest))
    ensures turn.Turn? ==> fd.rest == turn.rest
  {
    if |mid| > 4 || !Fits(fd.rest) {
      return Lost;
    }
    var uid := ReadWord(fd, BUFFER_SIZE);
    if |uid| > 5 {
      return Lost;
    }
    var text := ReadSome(fd);
    if text.None? {
      return Lost;
    }
    var after := ReadFile(fd);
    if after.Torn? {
      return Lost;
    }
    turn := Turn(Record(mid, Post(uid, text.value, after.file)), after.word, fd.rest);
  }

  /** The loop, for every way the stream may be cut into reads. */
  method ReadEach(fd: Socket, n: nat, first: string) returns (got: Received)
    modifies fd`rest
    ensures got == Turns(n, first, old(fd.rest)).got
    ensures got.Shown? ==> fd.rest == Turns(n, first, old(fd.rest)).rest
  {
    ghost var all := Turns(n, first, fd.rest);
    var word, records, i := first, [], 0;
    while i < n
      invariant i <= n && all == Prepend(records, Turns(n - i, word, fd.rest))
    {
      var turn := ReadRecord(fd, word);
      if turn.Lost? {
        return Stuck(records);
      }
      PrependTwice(records, [turn.record], Turns(n - i - 1, turn.word, turn.rest));
      records := records + [turn.record];
      word, i := turn.word, i + 1;
    }
    got := Shown(records);
  }

  lemma PrependTwice(rs: seq<Record>, more: seq<Record>, r: Reading)
    ensures Prepend(rs, Prepend(more, r)) == Prepend(rs + more, r)
  {
    if r.got.Shown? || r.got.Stuck? {
      assert rs + (more + r.got.records) == rs + more + r.got.records;
    }
  }

  /** The client's side of `retrieve`, on every stream and for every way it may be cut into reads. */
  method ReadAnswer(fd: Socket) returns (got: Received)
    modifies fd`rest
    ensures got == ClientReads(old(fd.rest)).got
    ensures got.Shown? ==> fd.rest == ClientReads(old(fd.rest)).rest
  {
    if !Fits(fd.rest) || !Fits(AfterWord(fd.rest)) {
      return Stuck([]);
    }
    var word := ReadWord(fd, BUFFER_SIZE);
    word := ReadWord(fd, BUFFER_SIZE);
    if word == "EOF" {
      return Nothing;
    } else if word != "OK" {
      return Failed;
    }
    got := ReadRecords(fd);
  }

  /** The count, and as many records as it announces. */
  method ReadRecords(fd: Socket) returns (got: Received)
    modifies fd`rest
    ensures got == CountedReads(old(fd.rest)).got
    ensures got.Shown? ==> fd.rest == CountedReads(old(fd.rest)).rest
  {
    if !Fits(fd.rest) || !Fits(AfterWord(fd.rest)) {
      return Stuck([]);
    }
    var word := ReadWord(fd, BUFFER_SIZE);
    var n := Atoi(word);
    if n > INT_MAX || n < -INT_MAX - 1 {
      return Stuck([]);
    }
    word := ReadWord(fd, BUFFER_SIZE);
    got := ReadEach(fd, if n < 0 then 0 else n, word);
  }

  // ---- what the client makes of the server's records ----

  /** What the client reads as one record: a short word for the author, and any bytes for the text. */
  predicate Readable(r: Record) {
    && |r.mid| == 4 && AllDigits(r.mid) && |r.post.uid| <= 5 && NoDelim(r.post.uid)
    && |r.post.text| <= INT_MAX && ValidFile(r.post.file)
  }

  ghost predicate AllReadable(rs: seq<Record>) {
    forall i :: 0 <= i < |rs| ==> Readable(rs[i])
  }

  /** What may follow a record: after one byte comes the end, or a word that is not "/". */
  predicate CanFollow(s: string) {
    (s == "" || IsDelim(s[0])) && Fits(Drop(s, 1)) && WordOf(Drop(s, 1)) != "/"
  }

  lemma SizedThen(data: string, t: string)
    requires |data| <= INT_MAX
    ensures SizedOf(Dec(1, |data|) + (" " + (data + t))) == Sized(data, t)
  {
    SizeDigits(|data|);
    SizedBytes(data, t);
    AtoiDec(1, |data|);
  }

  lemma FileThen(file: Option<Attachment>, rest: string)
    requires ValidFile(file) && CanFollow(rest)
    ensures FileOf(FilePart(file, rest)) == Ending(file, WordOf(Drop(rest, 1)), AfterWord(Drop(rest, 1)))
  {
    if file.Some? {
      SlashThen(file.value, rest);
      SizedThen(file.value.data, rest);
    }
  }

  lemma SlashThen(f: Attachment, rest: string)
    requires ValidFileName(f.name)
    ensures var s := Drop(FilePart(Some(f), rest), 1);
      && WordOf(s) == "/" && WordOf(AfterWord(s)) == f.name
      && AfterWord(AfterWord(s)) == Dec(1, |f.data|) + (" " + (f.data + rest))
  {
    var afterName := Dec(1, |f.data|) + (" " + (f.data + rest));
    assert FilePart(Some(f), rest)[1..] == "/" + (" " + (f.name + (" " + afterName)));
    WordThen("/", ' ', f.name + (" " + afterName));
    WordThen(f.name, ' ', afterName);
  }

  /** One turn recovers one record, whatever follows it. */
  lemma TurnThen(r: Record, rest: string)
    requires Readable(r) && CanFollow(rest)
    ensures TurnOf(r.mid, Body(r.post, rest)) == Turn(r, WordOf(Drop(rest, 1)), AfterWord(Drop(rest, 1)))
  {
    var tail := FilePart(r.post.file, rest);
    WordThen(r.post.uid, ' ', Dec(1, |r.post.text|) + (" " + (r.post.text + tail)));
    SizedThen(r.post.text, tail);
    FileThen(r.post.file, rest);
  }

  /** A record can follow a record. */
  lemma RecordFollows(rs: seq<Record>, tail: string)
    requires AllReadable(rs) && CanFollow(tail)
    ensures CanFollow(RecordsThen(rs, tail))
    ensures rs != [] ==> var s := Drop(RecordsThen(rs, tail), 1);
      WordOf(s) == rs[0].mid && AfterWord(s) == Body(rs[0].post, RecordsThen(rs[1..], tail))
  {
    if rs != [] {
      WordThen(rs[0].mid, ' ', Body(rs[0].post, RecordsThen(rs[1..], tail)));
    }
  }

  /** The loop of the client, from where the word after the skipped byte is read. */
  function TurnsFrom(n: nat, s: string): Reading {
    Turns(n, WordOf(Drop(s, 1)), AfterWord(Drop(s, 1)))
  }

  /** The records sent are shown, and then what the loop makes of the rest of the stream. */
  lemma {:induction false} TurnsThen(n: nat, m: nat, rs: seq<Record>, tail: string)
    requires AllReadable(rs) && CanFollow(tail) && n == |rs| + m
    ensures TurnsFrom(n, RecordsThen(rs, tail)) == Prepend(rs, TurnsFrom(m, tail))
    decreases n
  {
    if rs == [] {
      PrependNothing(TurnsFrom(n, tail));
    } else {
      RecordFollows(rs[1..], tail);
      TurnsThen(n - 1, m, rs[1..], tail);
      OneMore(n, rs, RecordsThen(rs[1..], tail), TurnsFrom(m, tail));
    }
  }

  lemma OneMore(n: nat, rs: seq<Record>, rest: string, last: Reading)
    requires rs != [] && n > 0 && Readable(rs[0]) && CanFollow(rest)
    requires TurnsFrom(n - 1, rest) == Prepend(rs[1..], last)
    ensures TurnsFrom(n, " " + (rs[0].mid + (" " + Body(rs[0].post, rest)))) == Prepend(rs, last)
  {
    OneTurn(n, rs[0], rest);
    PrependTwice([rs[0]], rs[1..], last);
    assert [rs[0]] + rs[1..] == rs;
  }

  lemma PrependNothing(r: Reading)
    ensures Prepend([], r) == r
  {
    if r.got.Shown? || r.got.Stuck? {
      assert [] + r.got.records == r.got.records;
    }
  }

  lemma OneTurn(n: nat, r: Record, rest: string)
    requires n > 0 && Readable(r) && CanFollow(rest)
    ensures TurnsFrom(n, " " + (r.mid + (" " + Body(r.post, rest)))) == Prepend([r], TurnsFrom(n - 1, rest))
  {
    TurnThen(r, rest);
    WordThen(r.mid, ' ', Body(r.post, rest));
  }

  lemma {:induction false} RecordsSplit(rs: seq<Record>, n: nat, tail: string)
    requires n <= |rs|
    ensures RecordsThen(rs, tail) == RecordsThen(rs[..n], RecordsThen(rs[n..], tail))
    decreases n
  {
    if n > 0 {
      RecordsSplit(rs[1..], n - 1, tail);
      assert rs[..n][1..] == rs[1..][..n - 1] && rs[1..][n - 1..] == rs[n..] && rs[..n][0] == rs[0];
    }
  }

  lemma Status(s: string, word: string, d: char, t: string)
    requires NoDelim(word) && |word| < BUFFER_SIZE && IsDelim(d)
    requires s == "RRT" + (" " + (word + ([d] + t)))
    ensures WordOf(s) == "RRT" && WordOf(AfterWord(s)) == word && AfterWord(AfterWord(s)) == t
    ensures Fits(s) && Fits(AfterWord(s))
  {
    WordThen("RRT", ' ', word + ([d] + t));
    WordThen(word, d, t);
  }

  lemma {:induction false} LastWord(w: string)
    requires NoDelim(w)
    ensures WordOf(w) == w && AfterWord(w) == ""
  {
    if w != [] {
      LastWord(w[1..]);
    }
  }

  lemma CountIsWord(count: nat, tail: string)
    requires count <= INT_MAX && (tail == "" || IsDelim(tail[0]))
    ensures var s := Dec(1, count) + tail;
      WordOf(s) == Dec(1, count) && AfterWord(s) == Drop(tail, 1) && Fits(s) && Atoi(WordOf(s)) == count
  {
    SizeDigits(count);
    DecWord(1, count);
    AtoiDec(1, count);
    if tail == "" {
      LastWord(Dec(1, count));
      assert Dec(1, count) + "" == Dec(1, count);
    } else {
      assert tail == [tail[0]] + tail[1..];
      WordThen(Dec(1, count), tail[0], tail[1..]);
    }
  }

  /** After the count, the client shows the records it was sent, and goes on with what follows. */
  lemma ReadsRecords(count: nat, m: nat, rs: seq<Record>, tail: string)
    requires AllReadable(rs) && CanFollow(tail) && count == |rs| + m <= INT_MAX
    ensures ClientReads(Counted(count, rs, tail)) == Prepend(rs, TurnsFrom(m, tail))
  {
    RecordFollows(rs, tail);
    OkReads(count, rs, tail);
    CountThen(count, RecordsThen(rs, tail));
    TurnsThen(count, m, rs, tail);
  }

  lemma OkReads(count: nat, rs: seq<Record>, tail: string)
    ensures ClientReads(Counted(count, rs, tail)) == CountedReads(Dec(1, count) + RecordsThen(rs, tail))
  {
    Status(Counted(count, rs, tail), "OK", ' ', Dec(1, count) + RecordsThen(rs, tail));
  }

  lemma CountThen(count: nat, tail: string)
    requires CanFollow(tail) && count <= INT_MAX
    ensures CountedReads(Dec(1, count) + tail) == TurnsFrom(count, tail)
  {
    CountIsWord(count, tail);
  }

  /** What a turn of the loop makes of the end of the stream. */
  const NOTHING := Record("", Post("", "", None))

  lemma {:induction false} EmptyTurns(n: nat)
    ensures Turns(n, "", "") == Reading(Shown(seq(n, _ => NOTHING)), "")
  {
    if n == 0 {
      assert Turns(0, "", "") == Reading(Shown([]), "");
    } else {
      EmptyTurns(n - 1);
      assert SizedOf("") == Sized("", "") && FileOf("") == Ending(None, "", "");
      assert TurnOf("", "") == Turn(NOTHING, "", "");
      assert [NOTHING] + seq(n - 1, _ => NOTHING) == seq(n, _ => NOTHING);
    }
  }

  /** The first `n` records; past the last, the client shows empty ones. */
  function FirstOf(n: nat, rs: seq<Record>): (r: seq<Record>)
    ensures |r| == n && (n == |rs| ==> r == rs)
  {
    if n <= |rs| then rs[..n] else rs + seq(n - |rs|, _ => NOTHING)
  }

  function Display(a: Answer): Received {
    match a
    case Messages(count, rs) => Shown(FirstOf(count, rs))
    case NoMessages => Nothing
    case Refused => Failed
  }

  /**
   * Of a reply that is not cut off, the client shows as many records as were announced, and it
   * has read everything if there were no more.
   */
  lemma ReadsAnswer(a: Answer)
    requires a.Messages? ==> AllReadable(a.records) && a.count <= INT_MAX
    ensures ClientReads(PrintAnswer(a)).got == Display(a)
    ensures a.Messages? && a.count >= |a.records| ==> ClientReads(PrintAnswer(a)).rest == ""
  {
    match a
    case Messages(count, rs) =>
      if |rs| <= count {
        ReadsAll(count, rs);
      } else {
        ReadsFewer(count, rs);
      }
    case NoMessages =>
      Status(PrintAnswer(a), "EOF", ' ', "0\n");
    case Refused =>
      Status(PrintAnswer(a), "NOK", '\n', "");
  }

  lemma ReadsAll(count: nat, rs: seq<Record>)
    requires AllReadable(rs) && |rs| <= count <= INT_MAX
    ensures ClientReads(Counted(count, rs, "\n")) == Reading(Shown(FirstOf(count, rs)), "")
  {
    ReadsRecords(count, count - |rs|, rs, "\n");
    EmptyTurns(count - |rs|);
    assert rs + [] == rs;
  }

  lemma ReadsFewer(count: nat, rs: seq<Record>)
    requires AllReadable(rs) && count < |rs| && count <= INT_MAX
    ensures ClientReads(Counted(count, rs, "\n")).got == Shown(rs[..count])
  {
    var tail := RecordsThen(rs[count..], "\n");
    RecordsSplit(rs, count, "\n");
    RecordFollows(rs[count..], "\n");
    ReadsRecords(count, 0, rs[..count], tail);
    assert rs[..count] + [] == rs[..count];
  }
}
