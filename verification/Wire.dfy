/** The two mixed formats, PST and RRT: delimited words around raw bytes of announced length. */
module Wire {
  import opened CText
  import opened ByteStream

  datatype Option<T> = None | Some(value: T)

  datatype Attachment = Attachment(name: string, data: string)

  /** What a user posts: author, text and an optional file. */
  datatype Post = Post(uid: string, text: string, file: Option<Attachment>)

  /** A post as `retrieve` delivers it, under its message id. */
  datatype Record = Record(mid: string, post: Post)

  const INT_MAX := 2147483647
  const BUFFER_SIZE := 128
  const FNAME_SIZE := 24
  const TSIZE_SIZE := 240
  const FSIZE_SIZE := 24

  /** A name that can be one word of the formats and one entry of a directory. */
  predicate ValidFileName(name: string) {
    && 0 < |name| < FNAME_SIZE && NoDelim(name) && name != "." && name != ".."
    && forall i :: 0 <= i < |name| ==> name[i] != '/'
  }

  predicate ValidFile(file: Option<Attachment>) {
    file.Some? ==> ValidFileName(file.value.name) && |file.value.data| <= INT_MAX
  }

  predicate ValidPost(p: Post) {
    ValidUid(p.uid) && NulFree(p.text) && |p.text| <= INT_MAX && ValidFile(p.file)
  }

  /** The next word and its NUL fit into the client's buffer. */
  predicate Fits(s: string) {
    |WordOf(s)| < BUFFER_SIZE
  }

  lemma SizeDigits(n: nat)
    requires n <= INT_MAX
    ensures |Dec(1, n)| <= 10
  {
    assert Pow10(10) == 10000000000 by {
      assert Pow10(3) == 1000;
      assert Pow10(6) == 1000000;
      assert Pow10(9) == 1000000000;
    }
    DecLength(1, n, 10);
  }

  // ---- PST ----

  /** The client's request after the command word: `uid gid Tsize text` and the tail. */
  function PstBody(gid: string, p: Post): string {
    p.uid + (" " + (gid + (" " + (Dec(1, |p.text|) + (" " + (p.text + PstTail(p.file)))))))
  }

  function PstTail(file: Option<Attachment>): string {
    match file
    case None => "\n"
    case Some(f) => " " + (f.name + (" " + (Dec(1, |f.data|) + (" " + (f.data + "\n")))))
  }

  datatype Head = Head(uid: string, gid: string, text: string, rest: string)

  function Take(s: string, n: int): string {
    if n <= 0 then [] else if n <= |s| then s[..n] else s
  }

  function Drop(s: string, n: int): string {
    if n <= 0 then s else if n <= |s| then s[n..] else []
  }

  /** The reads of the server's `post` up to the text: fixed widths, then a size, then raw bytes. */
  function ParseHead(s: string): Head {
    var afterGid := Drop(s, 9);
    var size := Atoi(WordOf(afterGid));
    var raw := AfterWord(afterGid);
    Head(Take(s, 5), Take(Drop(s, 6), 2), Take(raw, size), Drop(raw, size))
  }

  /** Its reads after the text: one byte decides whether a file follows. */
  function ParseTail(s: string): Option<Attachment> {
    if s != [] && s[0] == ' ' then
      var afterName := AfterWord(s[1..]);
      var size := Atoi(WordOf(afterName));
      Some(Attachment(WordOf(s[1..]), Take(AfterWord(afterName), size)))
    else None
  }

  lemma Split(a: string, b: string)
    ensures Take(a + b, |a|) == a && Drop(a + b, |a|) == b
  {
  }

  lemma SizedBytes(data: string, t: string)
    ensures WordOf(Dec(1, |data|) + (" " + (data + t))) == Dec(1, |data|)
    ensures AfterWord(Dec(1, |data|) + (" " + (data + t))) == data + t
    ensures Take(data + t, Atoi(Dec(1, |data|))) == data
    ensures Drop(data + t, Atoi(Dec(1, |data|))) == t
  {
    DecWord(1, |data|);
    WordThen(Dec(1, |data|), ' ', data + t);
    AtoiDec(1, |data|);
    Split(data, t);
  }

  /** Parsing a printed request gives back uid, gid and text, and stops right after the text. */
  lemma PstHeadRoundTrip(gid: string, p: Post)
    requires ValidUid(p.uid) && ValidGid(gid)
    ensures ParseHead(PstBody(gid, p)) == Head(p.uid, gid, p.text, PstTail(p.file))
  {
    var s := PstBody(gid, p);
    var afterGid := Dec(1, |p.text|) + (" " + (p.text + PstTail(p.file)));
    assert Take(s, 5) == p.uid;
    assert Drop(s, 6) == gid + (" " + afterGid);
    assert Drop(s, 9) == afterGid;
    SizedBytes(p.text, PstTail(p.file));
  }

  /** The byte after the text tells a file from the end; name and data come back unchanged. */
  lemma PstTailRoundTrip(file: Option<Attachment>)
    requires file.Some? ==> NoDelim(file.value.name)
    ensures ParseTail(PstTail(file)) == file
  {
    match file
    case None =>
    case Some(f) =>
      var afterName := Dec(1, |f.data|) + (" " + (f.data + "\n"));
      assert PstTail(file)[1..] == f.name + (" " + afterName);
      WordThen(f.name, ' ', afterName);
      SizedBytes(f.data, "\n");
  }

  /** A size word and as many raw bytes: the text and the file data of both formats. */
  method ReadSized(fd: Socket, capacity: nat, ghost data0: string, ghost t: string)
      returns (data: string)
    requires fd.rest == Dec(1, |data0|) + (" " + (data0 + t)) || (fd.rest == data0 == t == "")
    requires |data0| <= INT_MAX && 10 < capacity
    modifies fd`rest
    ensures data == data0 && fd.rest == t
  {
    if fd.rest != "" {
      SizeDigits(|data0|);
      SizedBytes(data0, t);
      AtoiDec(1, |data0|);
    }
    var word := ReadWord(fd, capacity);
    data := ReadBytes(fd, Atoi(word));
  }

  /** The server's reads before it touches the tree (the command word is already gone). */
  method PostHead(fd: Socket, ghost gid0: string, ghost p: Post)
      returns (uid: string, gid: string, text: string)
    requires ValidGid(gid0) && ValidPost(p) && fd.rest == PstBody(gid0, p)
    modifies fd`rest
    ensures uid == p.uid && gid == gid0 && text == p.text
    ensures fd.rest == PstTail(p.file)
  {
    ghost var afterGid := Dec(1, |p.text|) + (" " + (p.text + PstTail(p.file)));
    uid := ReadBytes(fd, 5);
    assert uid == p.uid && fd.rest == " " + (gid0 + (" " + afterGid));
    SkipFd(fd, 1);
    assert fd.rest == gid0 + (" " + afterGid);
    gid := ReadBytes(fd, 2);
    assert gid == gid0 && fd.rest == " " + afterGid;
    SkipFd(fd, 1);
    assert fd.rest == afterGid;
    text := ReadSized(fd, TSIZE_SIZE, p.text, PstTail(p.file));
  }

  /** The server's reads after it has stored author and text. */
  method PostFile(fd: Socket, ghost file0: Option<Attachment>) returns (file: Option<Attachment>)
    requires ValidFile(file0) && fd.rest == PstTail(file0)
    modifies fd`rest
    ensures file == file0
  {
    var c := ReadBytes(fd, 1);
    if c[0] != ' ' {
      return None;
    }
    ghost var f := file0.value;
    ghost var afterName := Dec(1, |f.data|) + (" " + (f.data + "\n"));
    assert fd.rest == f.name + (" " + afterName);
    WordThen(f.name, ' ', afterName);
    var name := ReadWord(fd, FNAME_SIZE);
    var data := ReadSized(fd, FSIZE_SIZE, f.data, "\n");
    file := Some(Attachment(name, data));
  }
}
