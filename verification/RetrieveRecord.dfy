/** One record of `retrieve`, as a child writes it that runs beside all the other processes. */
module RetrieveRecord {
  import opened CText
  import opened Tree
  import opened ByteStream
  import opened Wire
  import opened Messages
  import opened PostProtocol
  import opened PostTheorems
  import opened Host
  import opened Retrieve

  // ---- what is found of a message, by how far its owner has got ----

  predicate TextThere(pc: Pc) {
    Owned(pc).Some? && !pc.Author? && !pc.AuthorOpen? && !pc.Text?
  }

  /** The message has a directory FILE. */
  predicate FileDirThere(p: Post, pc: Pc) {
    pc.Data? || pc.DataOpen? || ((pc.Answer? || pc.Done?) && p.file.Some?)
  }

  /** What the files of the message hold, once they are there. */
  function AuthorSoFar(p: Post, pc: Pc): string {
    if pc.AuthorOpen? then Take(p.uid, pc.n) else p.uid
  }

  function TextSoFar(p: Post, pc: Pc): string {
    if pc.TextOpen? then Take(p.text, pc.n) else p.text
  }

  function DataSoFar(p: Post, pc: Pc): string {
    match p.file
    case None => ""
    case Some(f) => if pc.DataOpen? then Take(f.data, pc.n) else f.data
  }

  /** What holds of any stage an owner can be met at. */
  predicate StageOk(p: Post, pc: Pc) {
    Owned(pc).Some? && (pc.Data? || pc.DataOpen? ==> p.file.Some?)
  }

  lemma OwnerOk(s: Sys, gid: string, id: nat)
    requires PostsOk(s) && 1 <= id <= |LogOf(s, gid)|
    ensures var c := Owner(s, gid, id); ValidPost(c.req.post) && StageOk(c.req.post, c.pc)
  {
    OwnerOf(s, gid, id);
  }

  /** What opening the parts of message `id` finds, exactly. */
  lemma PartsThere(s: Sys, gid: string, id: nat)
    requires PostsOk(s) && 1 <= id <= |LogOf(s, gid)|
    ensures var d := MsgDir(gid, Mid(id)); var c := Owner(s, gid, id); var p := c.req.post;
      && (d + ["author.txt"] in s.tree <==> !c.pc.Author?)
      && (d + ["text.txt"] in s.tree <==> TextThere(c.pc))
      && (IsDir(s.tree, d + ["FILE"]) <==> FileDirThere(p, c.pc))
      && (!c.pc.Author? ==> s.tree[d + ["author.txt"]] == File(AuthorSoFar(p, c.pc)))
      && (TextThere(c.pc) ==> s.tree[d + ["text.txt"]] == File(TextSoFar(p, c.pc)))
  {
    var d := MsgDir(gid, Mid(id));
    var c := Owner(s, gid, id);
    OwnerOf(s, gid, id);
    ImageParts(d, c.req.post, c.pc);
    SubAt(s.tree, d, ["author.txt"]);
    SubAt(s.tree, d, ["text.txt"]);
    SubAt(s.tree, d, ["FILE"]);
  }

  lemma SubAt(t: Tree, d: Path, name: Path)
    ensures d + name in t <==> d + name in Sub(t, d)
    ensures d + name in t ==> t[d + name] == Sub(t, d)[d + name]
  {
    assert Below(d, d + name);
  }

  lemma ImageParts(d: Path, p: Post, pc: Pc)
    requires StageOk(p, pc)
    ensures var image := Image(d, p, pc);
      && (d + ["author.txt"] in image <==> !pc.Author?)
      && (d + ["text.txt"] in image <==> TextThere(pc))
      && (d + ["FILE"] in image <==> FileDirThere(p, pc))
      && (d + ["FILE"] in image ==> image[d + ["FILE"]] == Dir)
      && (!pc.Author? ==> image[d + ["author.txt"]] == File(AuthorSoFar(p, pc)))
      && (TextThere(pc) ==> image[d + ["text.txt"]] == File(TextSoFar(p, pc)))
  {
    var author, text, dir := d + ["author.txt"], d + ["text.txt"], d + ["FILE"];
    assert author[|d|] == "author.txt" && text[|d|] == "text.txt" && dir[|d|] == "FILE";
    if p.file.Some? {
      var file := d + ["FILE", p.file.value.name];
      assert |file| == |d| + 2;
    }
  }

  /** FILE is empty until the owner has created the file, and then holds it alone. */
  lemma FileThere(s: Sys, gid: string, id: nat)
    requires PostsOk(s) && 1 <= id <= |LogOf(s, gid)|
    requires FileDirThere(Owner(s, gid, id).req.post, Owner(s, gid, id).pc)
    ensures var d := MsgDir(gid, Mid(id)) + ["FILE"]; var c := Owner(s, gid, id); var p := c.req.post;
      && p.file.Some?
      && if c.pc.Data? then Files(s.tree, d) == {}
         else Files(s.tree, d) == {p.file.value.name} && d + [p.file.value.name] in s.tree
              && s.tree[d + [p.file.value.name]] == File(DataSoFar(p, c.pc))
  {
    var d := MsgDir(gid, Mid(id));
    var c := Owner(s, gid, id);
    OwnerOf(s, gid, id);
    PartsThere(s, gid, id);
    if c.pc.Data? {
      forall x ensures d + ["FILE"] + [x] !in s.tree {
        NotInFileDir(s.tree, d, c.req.post, x);
      }
    } else {
      StoredFile(s.tree, gid, Mid(id), if c.pc.DataOpen? then FirstBytes(c.req.post, c.pc.n) else c.req.post);
    }
  }

  lemma StoredFile(t: Tree, gid: string, mid: string, p: Post)
    requires HasMessage(t, gid, mid, p) && ValidFile(p.file) && p.file.Some?
    ensures var d := MsgDir(gid, mid) + ["FILE"];
      && Files(t, d) == {p.file.value.name}
      && d + [p.file.value.name] in t && t[d + [p.file.value.name]] == File(p.file.value.data)
  {
    StoredParts(t, gid, mid, p);
  }

  lemma NotInFileDir(t: Tree, d: Path, p: Post, x: string)
    requires Sub(t, d) == WithFileDir(d, p)
    ensures d + ["FILE"] + [x] !in t
  {
    var q := d + ["FILE"] + [x];
    assert Below(d, q) && |q| == |d| + 2;
    assert q in t <==> q in Sub(t, d);
  }

  // ---- one record ----

  /**
   * How far the owner was when each part was looked at: `author.txt` opened and read, `text.txt`
   * opened and measured, FILE looked for and listed, its file measured. `junk` is what was in the
   * buffer behind the bytes of the author that were there.
   */
  datatype Met = Met(author: Pc, uid: Pc, junk: string, text: Pc, size: Pc, dir: Pc, list: Pc, data: Pc)

  /** The child does not run into a null stream, nor into an empty list. */
  predicate Survives(p: Post, met: Met) {
    && !met.author.Author? && TextThere(met.text)
    && !(FileDirThere(p, met.dir) && met.list.Data?)
  }

  /** What is printed: as much of the post as was there. */
  function Printed(p: Post, met: Met): Post {
    Post(CString(AuthorSoFar(p, met.uid) + met.junk), TextSoFar(p, met.size),
         if FileDirThere(p, met.dir) && p.file.Some? then
           Some(Attachment(p.file.value.name, DataSoFar(p, met.data)))
         else None)
  }

  /** What stands for the author is one word. */
  predicate Legible(p: Post, met: Met) {
    NoDelim(Printed(p, met).uid)
  }

  /** The stages met lie between those at the start and at the end, in this order. */
  predicate InOrder(from: Pc, met: Met, to: Pc) {
    && NotBefore(from, met.author) && NotBefore(met.author, met.uid) && NotBefore(met.uid, met.text)
    && NotBefore(met.text, met.size) && NotBefore(met.size, met.dir) && NotBefore(met.dir, met.list)
    && NotBefore(met.list, met.data) && NotBefore(met.data, to)
  }

  predicate MetOk(p: Post, met: Met) {
    && StageOk(p, met.author) && StageOk(p, met.uid) && StageOk(p, met.text) && StageOk(p, met.size)
    && StageOk(p, met.dir) && StageOk(p, met.list) && StageOk(p, met.data)
    && |AuthorSoFar(p, met.uid)| + |met.junk| == 5
  }

  /** FILE does not go, nor what is in it. */
  lemma FileDirStays(p: Post, pc: Pc, pc': Pc)
    requires StageOk(p, pc) && StageOk(p, pc') && NotBefore(pc, pc') && FileDirThere(p, pc)
    ensures FileDirThere(p, pc') && (!pc.Data? ==> !pc'.Data? && DataSoFar(p, pc) <= DataSoFar(p, pc'))
  {
  }

  lemma TextStays(p: Post, pc: Pc, pc': Pc)
    requires NotBefore(pc, pc') && TextThere(pc) && StageOk(p, pc')
    ensures TextThere(pc') && TextSoFar(p, pc) <= TextSoFar(p, pc')
  {
  }

  lemma AuthorStays(p: Post, pc: Pc, pc': Pc)
    requires NotBefore(pc, pc') && !pc.Author? && Owned(pc).Some? && StageOk(p, pc')
    ensures !pc'.Author? && AuthorSoFar(p, pc) <= AuthorSoFar(p, pc')
  {
  }

  /** Once all of it is there, all of it is found. */
  lemma CompleteLater(p: Post, pc: Pc, pc': Pc)
    requires StageComplete(p, pc) && StageOk(p, pc) && StageOk(p, pc') && NotBefore(pc, pc')
    ensures StageComplete(p, pc') && !pc'.Data? && TextThere(pc') && AuthorSoFar(p, pc') == p.uid
    ensures TextSoFar(p, pc') == p.text && (FileDirThere(p, pc') <==> p.file.Some?)
    ensures p.file.Some? ==> DataSoFar(p, pc') == p.file.value.data
  {
  }

  /** A message whose owner had nothing more to store is printed as it was sent. */
  lemma CompleteIsPrinted(c: Proc, met: Met, to: Pc)
    requires Complete(c) && ValidPost(c.req.post) && StageOk(c.req.post, c.pc) && MetOk(c.req.post, met)
    requires InOrder(c.pc, met, to)
    ensures Survives(c.req.post, met) && Printed(c.req.post, met) == c.req.post
  {
    var p := c.req.post;
    CompleteLater(p, c.pc, met.author);
    CompleteLater(p, met.author, met.uid);
    CompleteLater(p, met.uid, met.text);
    CompleteLater(p, met.text, met.size);
    CompleteLater(p, met.size, met.dir);
    CompleteLater(p, met.dir, met.list);
    CompleteLater(p, met.list, met.data);
    WholeAuthor(p, met.junk);
  }

  lemma WholeAuthor(p: Post, junk: string)
    requires ValidUid(p.uid) && |p.uid| + |junk| == 5
    ensures CString(p.uid + junk) == p.uid && NoDelim(p.uid)
  {
    assert p.uid + junk == p.uid;
    CStringPrefix(p.uid, "");
  }

  /** What stays while other processes run: the post under `id`, and how far its owner has got. */
  ghost predicate Onwards(s: Sys, s': Sys, gid: string, id: nat) {
    && Reaches(s, s', false) && 1 <= id <= |LogOf(s', gid)|
    && Owner(s', gid, id).req == Owner(s, gid, id).req
    && NotBefore(Owner(s, gid, id).pc, Owner(s', gid, id).pc)
    && StageOk(Owner(s', gid, id).req.post, Owner(s', gid, id).pc)
  }

  lemma OnwardsItself(s: Sys, gid: string, id: nat)
    requires PostsOk(s) && 1 <= id <= |LogOf(s, gid)|
    ensures Onwards(s, s, gid, id) && ValidPost(Owner(s, gid, id).req.post)
  {
    ReachesItself(s, false);
    OwnerOk(s, gid, id);
  }

  lemma OnwardsTransitive(s: Sys, s': Sys, s'': Sys, gid: string, id: nat)
    requires Onwards(s, s', gid, id) && Onwards(s', s'', gid, id)
    ensures Onwards(s, s'', gid, id)
  {
    ReachesTransitive(s, s', s'', false);
  }

  /** Other processes run; the owner of message `id` goes on. */
  method Wait(m: Machine, ghost gid: string, ghost id: nat)
    requires m.Valid() && 1 <= id <= |LogOf(m.sys, gid)|
    modifies m, m.fs
    ensures m.Valid() && Onwards(old(m.sys), m.sys, gid, id)
  {
    ghost var s := m.sys;
    m.Others(false);
    ReachesLater(s, m.sys, false);
    OwnerOk(s, gid, id);
    OwnerLater(s, m.sys, gid, id);
    OwnerOk(m.sys, gid, id);
  }

  // ---- the bytes of a record ----

  /** One record as the server writes it. */
  function RecordText(r: Record): string {
    " " + (r.mid + (" " + Body(r.post, "")))
  }

  lemma BodyThen(p: Post, rest: string)
    ensures Body(p, rest) == Body(p, "") + rest
  {
    FilePartThen(p.file, rest);
    var tail := FilePart(p.file, "");
    Flatten(p.uid, " ", Dec(1, |p.text|), " ", p.text, tail + rest);
    Flatten(p.uid, " ", Dec(1, |p.text|), " ", p.text, tail);
    Assoc(p.uid + " " + Dec(1, |p.text|) + " " + p.text, tail, rest);
  }

  lemma FilePartThen(file: Option<Attachment>, rest: string)
    ensures FilePart(file, rest) == FilePart(file, "") + rest
  {
    if file.Some? {
      var f, size := file.value, Dec(1, |file.value.data|);
      assert f.data + "" == f.data;
      Flatten(" / ", f.name, " ", size, " ", f.data + rest);
      Flatten(" / ", f.name, " ", size, " ", f.data);
      Assoc(" / " + f.name + " " + size + " ", f.data, rest);
    }
  }

  /** The records of a reply, and what follows them. */
  lemma RecordsUnfold(rs: seq<Record>, tail: string)
    requires rs != []
    ensures RecordsThen(rs, tail) == RecordText(rs[0]) + RecordsThen(rs[1..], tail)
  {
    BodyThen(rs[0].post, RecordsThen(rs[1..], tail));
  }

  /** The file data goes out in buffers of at most 128 bytes; `fread` may fill one only in part. */
  method CopyFile(fd: Socket, data: string)
    modifies fd`sent
    ensures fd.sent == old(fd.sent) + data
  {
    var total := 0;
    while total < |data|
      invariant total <= |data| && fd.sent == old(fd.sent) + data[..total]
    {
      var wanted := if |data| - total > BUFFER_SIZE then BUFFER_SIZE else |data| - total;
      var n :| 1 <= n <= wanted;
      fd.Write(data[total..total + n]);
      assert data[..total] + data[total..total + n] == data[..total + n];
      total := total + n;
    }
  }

  function Header(mid: string, p: Post): string {
    " " + mid + " " + p.uid + " " + Dec(1, |p.text|) + " "
  }

  lemma HeaderThen(mid: string, p: Post)
    ensures RecordText(Record(mid, p)) == Header(mid, p) + (p.text + FilePart(p.file, ""))
  {
    var size, rest := Dec(1, |p.text|), p.text + FilePart(p.file, "");
    Flatten(" ", mid, " ", p.uid, " ", size + (" " + rest));
    Assoc(" " + mid + " " + p.uid + " ", size, " " + rest);
    Assoc(" " + mid + " " + p.uid + " " + size, " ", rest);
  }

  lemma TextAndFile(text: string, name: string, size: string, data: string)
    ensures text + (" / " + (name + (" " + (size + (" " + (data + ""))))))
         == (text + " / " + name + " " + size + " ") + data
  {
    assert data + "" == data;
    Flatten(text, " / ", name, " ", size, " " + data);
    Assoc(text + " / " + name + " " + size, " ", data);
  }

  /** Text and file description in one buffer, whose size is summed up by hand. */
  method FileHeader(text: string, name: string, size: nat, ghost f: Attachment)
      returns (buffer: string, total: nat)
    requires name == f.name && size == |f.data|
    ensures total == |buffer| && buffer + f.data == text + FilePart(Some(f), "")
  {
    var fsize := Dec(1, size);
    buffer := text + " / " + name + " " + fsize + " ";
    total := |text| + 5 + |name| + |fsize|;
    TextAndFile(text, name, fsize, f.data);
  }

  lemma OnlyName(xs: seq<string>, name: string)
    requires multiset(xs) == multiset({name})
    ensures xs == [name]
  {
    assert |xs| == |multiset(xs)| == 1;
    assert xs[0] in multiset(xs);
  }

  // ---- writing one record ----

  /** FILE is listed: its file is found unless the owner has not created it yet. */
  method FirstFile(m: Machine, gid: string, mid: string, ghost id: nat) returns (name: Option<string>)
    requires m.Valid() && 1 <= id <= |LogOf(m.sys, gid)| && mid == Mid(id)
    requires FileDirThere(Owner(m.sys, gid, id).req.post, Owner(m.sys, gid, id).pc)
    modifies m, m.fs
    ensures m.Valid() && Onwards(old(m.sys), m.sys, gid, id)
    ensures var c := Owner(m.sys, gid, id);
      && FileDirThere(c.req.post, c.pc) && c.req.post.file.Some?
      && name == if c.pc.Data? then None else Some(c.req.post.file.value.name)
  {
    ghost var c := Owner(m.sys, gid, id);
    OwnerOk(m.sys, gid, id);
    Wait(m, gid, id);
    FileDirStays(c.req.post, c.pc, Owner(m.sys, gid, id).pc);
    FileThere(m.sys, gid, id);
    var files, xs, repr := m.fs.ListFiles(MsgDir(gid, mid) + ["FILE"]);
    if files == null {
      assert multiset(xs) == multiset{};
      return None;
    }
    assert xs[0] in multiset(xs);
    OnlyName(xs, c.req.post.file.value.name);
    name := Some(files.str);
  }

  /** How much of the stored file is there, later on. */
  method SizeStored(m: Machine, gid: string, mid: string, name: string, ghost id: nat) returns (size: nat)
    requires m.Valid() && 1 <= id <= |LogOf(m.sys, gid)| && mid == Mid(id)
    requires var c := Owner(m.sys, gid, id);
      FileDirThere(c.req.post, c.pc) && !c.pc.Data? && c.req.post.file.Some? && name == c.req.post.file.value.name
    modifies m, m.fs
    ensures m.Valid() && Onwards(old(m.sys), m.sys, gid, id)
    ensures var c := Owner(m.sys, gid, id);
      FileDirThere(c.req.post, c.pc) && !c.pc.Data? && size == |DataSoFar(c.req.post, c.pc)|
  {
    ghost var c := Owner(m.sys, gid, id);
    OwnerOk(m.sys, gid, id);
    Wait(m, gid, id);
    FileDirStays(c.req.post, c.pc, Owner(m.sys, gid, id).pc);
    FileThere(m.sys, gid, id);
    size := |m.fs.tree[MsgDir(gid, mid) + ["FILE"] + [name]].data|;
  }

  /** So many bytes are read of it, later still. */
  method ReadStored(m: Machine, gid: string, mid: string, name: string, size: nat, ghost id: nat)
      returns (data: string)
    requires m.Valid() && 1 <= id <= |LogOf(m.sys, gid)| && mid == Mid(id)
    requires var c := Owner(m.sys, gid, id);
      && FileDirThere(c.req.post, c.pc) && !c.pc.Data? && c.req.post.file.Some?
      && name == c.req.post.file.value.name && size == |DataSoFar(c.req.post, c.pc)|
    modifies m, m.fs
    ensures m.Valid() && Onwards(old(m.sys), m.sys, gid, id)
    ensures data == DataSoFar(Owner(old(m.sys), gid, id).req.post, Owner(old(m.sys), gid, id).pc)
  {
    ghost var c := Owner(m.sys, gid, id);
    OwnerOk(m.sys, gid, id);
    Wait(m, gid, id);
    FileDirStays(c.req.post, c.pc, Owner(m.sys, gid, id).pc);
    FileThere(m.sys, gid, id);
    data := m.fs.tree[MsgDir(gid, mid) + ["FILE"] + [name]].data[..size];
  }

  method SendFile(fd: Socket, buffer: string, total: nat, data: string)
    requires total == |buffer|
    modifies fd`sent
    ensures fd.sent == old(fd.sent) + (buffer + data)
  {
    WriteAll(fd, buffer, total);
    assert buffer[..total] == buffer;
    CopyFile(fd, data);
    Assoc(old(fd.sent), buffer, data);
  }

  /** The stages at which FILE was listed and its file measured. */
  predicate FileMet(p: Post, from: Pc, list: Pc, data: Pc, to: Pc) {
    && NotBefore(from, list) && NotBefore(list, data) && NotBefore(data, to)
    && StageOk(p, list) && StageOk(p, data) && p.file.Some?
  }

  /** The text with its file, with other processes between any two looks at the tree. */
  method WriteTextAndFile(m: Machine, fd: Socket, gid: string, mid: string, text: string, ghost id: nat)
      returns (ok: bool, ghost list: Pc, ghost data: Pc)
    requires m.Valid() && 1 <= id <= |LogOf(m.sys, gid)| && mid == Mid(id)
    requires FileDirThere(Owner(m.sys, gid, id).req.post, Owner(m.sys, gid, id).pc)
    modifies m, m.fs, fd`sent
    ensures m.Valid() && Onwards(old(m.sys), m.sys, gid, id)
    ensures var c := Owner(old(m.sys), gid, id); var p := c.req.post;
      && FileMet(p, c.pc, list, data, Owner(m.sys, gid, id).pc) && (ok <==> !list.Data?)
      && fd.sent == old(fd.sent) +
           if ok then text + FilePart(Some(Attachment(p.file.value.name, DataSoFar(p, data))), "") else ""
  {
    ghost var s0 := m.sys;
    assert fd.sent + "" == fd.sent;
    var name := FirstFile(m, gid, mid, id);
    ghost var s1 := m.sys;
    list, data := Owner(s1, gid, id).pc, Owner(s1, gid, id).pc;
    if name.None? {
      return false, list, data;
    }
    var size := SizeStored(m, gid, mid, name.value, id);
    ghost var s2 := m.sys;
    data := Owner(s2, gid, id).pc;
    OnwardsTransitive(s0, s1, s2, gid, id);
    var bytes := ReadStored(m, gid, mid, name.value, size, id);
    OnwardsTransitive(s0, s2, m.sys, gid, id);
    var buffer, total := FileHeader(text, name.value, size, Attachment(name.value, bytes));
    SendFile(fd, buffer, total, bytes);
    ok := true;
  }

  /** `author.txt` is opened: a null stream, or not. */
  method OpenAuthor(m: Machine, gid: string, mid: string, ghost id: nat) returns (found: bool)
    requires m.Valid() && 1 <= id <= |LogOf(m.sys, gid)| && mid == Mid(id)
    ensures found <==> !Owner(m.sys, gid, id).pc.Author?
  {
    PartsThere(m.sys, gid, id);
    found := MsgDir(gid, mid) + ["author.txt"] in m.fs.tree;
  }

  /** Up to five bytes are read into a buffer of six, whatever was in it. */
  method ReadAuthor(m: Machine, gid: string, mid: string, ghost id: nat) returns (uid: string, ghost junk: string)
    requires m.Valid() && 1 <= id <= |LogOf(m.sys, gid)| && mid == Mid(id) && !Owner(m.sys, gid, id).pc.Author?
    modifies m, m.fs
    ensures m.Valid() && Onwards(old(m.sys), m.sys, gid, id) && !Owner(m.sys, gid, id).pc.Author?
    ensures var c := Owner(m.sys, gid, id);
      && |AuthorSoFar(c.req.post, c.pc)| + |junk| == 5
      && uid == CString(AuthorSoFar(c.req.post, c.pc) + junk)
  {
    ghost var c := Owner(m.sys, gid, id);
    OwnerOk(m.sys, gid, id);
    Wait(m, gid, id);
    AuthorStays(c.req.post, c.pc, Owner(m.sys, gid, id).pc);
    PartsThere(m.sys, gid, id);
    OwnerOk(m.sys, gid, id);
    var data := m.fs.tree[MsgDir(gid, mid) + ["author.txt"]].data;
    var stale := new char[5 - |data|];
    junk := stale[..];
    uid := CString(data + stale[..]);
  }

  /** `text.txt` is opened, later on: a null stream, or not. */
  method OpenText(m: Machine, gid: string, mid: string, ghost id: nat) returns (found: bool)
    requires m.Valid() && 1 <= id <= |LogOf(m.sys, gid)| && mid == Mid(id)
    modifies m, m.fs
    ensures m.Valid() && Onwards(old(m.sys), m.sys, gid, id)
    ensures found <==> TextThere(Owner(m.sys, gid, id).pc)
  {
    Wait(m, gid, id);
    PartsThere(m.sys, gid, id);
    found := MsgDir(gid, mid) + ["text.txt"] in m.fs.tree;
  }

  /** How much of the text is there, later on. */
  method SizeText(m: Machine, gid: string, mid: string, ghost id: nat) returns (size: nat)
    requires m.Valid() && 1 <= id <= |LogOf(m.sys, gid)| && mid == Mid(id) && TextThere(Owner(m.sys, gid, id).pc)
    modifies m, m.fs
    ensures m.Valid() && Onwards(old(m.sys), m.sys, gid, id) && TextThere(Owner(m.sys, gid, id).pc)
    ensures size == |TextSoFar(Owner(m.sys, gid, id).req.post, Owner(m.sys, gid, id).pc)|
  {
    ghost var c := Owner(m.sys, gid, id);
    Wait(m, gid, id);
    TextStays(c.req.post, c.pc, Owner(m.sys, gid, id).pc);
    PartsThere(m.sys, gid, id);
    size := |m.fs.tree[MsgDir(gid, mid) + ["text.txt"]].data|;
  }

  /** So many bytes are read of it, later still. */
  method ReadText(m: Machine, gid: string, mid: string, size: nat, ghost id: nat) returns (text: string)
    requires m.Valid() && 1 <= id <= |LogOf(m.sys, gid)| && mid == Mid(id) && TextThere(Owner(m.sys, gid, id).pc)
    requires size == |TextSoFar(Owner(m.sys, gid, id).req.post, Owner(m.sys, gid, id).pc)|
    modifies m, m.fs
    ensures m.Valid() && Onwards(old(m.sys), m.sys, gid, id)
    ensures text == TextSoFar(Owner(old(m.sys), gid, id).req.post, Owner(old(m.sys), gid, id).pc)
  {
    ghost var c := Owner(m.sys, gid, id);
    Wait(m, gid, id);
    TextStays(c.req.post, c.pc, Owner(m.sys, gid, id).pc);
    PartsThere(m.sys, gid, id);
    text := m.fs.tree[MsgDir(gid, mid) + ["text.txt"]].data[..size];
  }

  /** Is there a directory FILE, later on? */
  method LookForFile(m: Machine, gid: string, mid: string, ghost id: nat) returns (found: bool)
    requires m.Valid() && 1 <= id <= |LogOf(m.sys, gid)| && mid == Mid(id)
    modifies m, m.fs
    ensures m.Valid() && Onwards(old(m.sys), m.sys, gid, id)
    ensures found <==> FileDirThere(Owner(m.sys, gid, id).req.post, Owner(m.sys, gid, id).pc)
  {
    Wait(m, gid, id);
    PartsThere(m.sys, gid, id);
    found := IsDir(m.fs.tree, MsgDir(gid, mid) + ["FILE"]);
  }

  /** What the body of the loop sends for a message it meets at the stages `met`. */
  function Sent(mid: string, p: Post, met: Met): string {
    if Survives(p, met) then RecordText(Record(mid, Printed(p, met)))
    else if met.author.Author? || !TextThere(met.text) then ""
    else Header(mid, Printed(p, met))
  }

  /** The author, when both files can be opened. */
  method WriteHeader(m: Machine, fd: Socket, gid: string, mid: string, ghost id: nat)
      returns (size: Option<nat>, ghost met: Met)
    requires m.Valid() && 1 <= id <= |LogOf(m.sys, gid)| && mid == Mid(id)
    modifies m, m.fs, fd`sent
    ensures m.Valid() && Onwards(old(m.sys), m.sys, gid, id)
    ensures var c, pc := Owner(old(m.sys), gid, id), Owner(m.sys, gid, id).pc; var p := c.req.post;
      && InOrder(c.pc, met, pc) && MetOk(p, met) && (size.None? <==> met.author.Author? || !TextThere(met.text))
      && (size.Some? ==> met.size == met.dir == pc && TextThere(pc) && size.value == |TextSoFar(p, pc)|)
      && fd.sent == old(fd.sent) + if size.Some? then Header(mid, Printed(p, met)) else ""
  {
    ghost var s0, a, p := m.sys, Owner(m.sys, gid, id).pc, Owner(m.sys, gid, id).req.post;
    OnwardsItself(s0, gid, id);
    assert fd.sent + "" == fd.sent;
    met := Met(a, a, seq(5 - |AuthorSoFar(p, a)|, _ => ' '), a, a, a, a, a);
    size := None;
    var found := OpenAuthor(m, gid, mid, id);
    if found {
      ghost var junk;
      var uid;
      uid, junk := ReadAuthor(m, gid, mid, id);
      ghost var s1, u := m.sys, Owner(m.sys, gid, id).pc;
      found := OpenText(m, gid, mid, id);
      ghost var s2, t := m.sys, Owner(m.sys, gid, id).pc;
      OnwardsTransitive(s0, s1, s2, gid, id);
      met := Met(a, u, junk, t, t, t, t, t);
      if found {
        var n := SizeText(m, gid, mid, id);
        ghost var z := Owner(m.sys, gid, id).pc;
        OnwardsTransitive(s0, s2, m.sys, gid, id);
        met := Met(a, u, junk, t, z, z, z, z);
        fd.Write(" " + mid + " " + uid + " " + Dec(1, n) + " ");
        size := Some(n);
      }
    }
  }

  /** A header is followed by the text, and by the file that was found. */
  lemma SentThen(before: string, mid: string, p: Post, met: Met, found: bool, ok: bool)
    requires !met.author.Author? && TextThere(met.text) && MetOk(p, met)
    requires found <==> FileDirThere(p, met.dir)
    requires found ==> (ok <==> !met.list.Data?) && p.file.Some?
    requires !found ==> ok
    ensures ok <==> Survives(p, met)
    ensures before + Header(mid, Printed(p, met))
              + (if !found then TextSoFar(p, met.size)
                 else if ok then
                   TextSoFar(p, met.size) + FilePart(Some(Attachment(p.file.value.name, DataSoFar(p, met.data))), "")
                 else "")
         == before + Sent(mid, p, met)
  {
    var q := Printed(p, met);
    HeaderThen(mid, q);
    assert q.text + "" == q.text && before + Header(mid, q) + "" == before + Header(mid, q);
    Assoc(before, Header(mid, q), q.text + FilePart(q.file, ""));
  }

  /** Without a file, the text alone. */
  method WriteText(fd: Socket, text: string)
    modifies fd`sent
    ensures fd.sent == old(fd.sent) + text
  {
    WriteAll(fd, text, |text|);
    assert text[..|text|] == text;
  }

  /** After the header: the text, and the file if there is one by now. */
  method WriteRest(m: Machine, fd: Socket, gid: string, mid: string, size: nat, ghost id: nat)
      returns (found: bool, ok: bool, ghost dir: Pc, ghost list: Pc, ghost data: Pc)
    requires m.Valid() && 1 <= id <= |LogOf(m.sys, gid)| && mid == Mid(id) && TextThere(Owner(m.sys, gid, id).pc)
    requires size == |TextSoFar(Owner(m.sys, gid, id).req.post, Owner(m.sys, gid, id).pc)|
    modifies m, m.fs, fd`sent
    ensures m.Valid() && Onwards(old(m.sys), m.sys, gid, id)
    ensures var c := Owner(old(m.sys), gid, id); var p := c.req.post;
      && NotBefore(c.pc, dir) && NotBefore(dir, list) && NotBefore(list, data)
      && NotBefore(data, Owner(m.sys, gid, id).pc) && StageOk(p, dir) && StageOk(p, list) && StageOk(p, data)
      && (found <==> FileDirThere(p, dir)) && (found ==> (ok <==> !list.Data?) && p.file.Some?) && (!found ==> ok)
      && fd.sent == old(fd.sent) +
           if !found then TextSoFar(p, c.pc)
           else if ok then
             TextSoFar(p, c.pc) + FilePart(Some(Attachment(p.file.value.name, DataSoFar(p, data))), "")
           else ""
  {
    ghost var s0 := m.sys;
    var text := ReadText(m, gid, mid, size, id);
    ghost var s1 := m.sys;
    found := LookForFile(m, gid, mid, id);
    ghost var s2 := m.sys;
    OnwardsTransitive(s0, s1, s2, gid, id);
    dir := Owner(s2, gid, id).pc;
    list, data, ok := dir, dir, true;
    if found {
      ok, list, data := WriteTextAndFile(m, fd, gid, mid, text, id);
      OnwardsTransitive(s0, s2, m.sys, gid, id);
    } else {
      WriteText(fd, text);
    }
  }

  /**
   * The body of the server's loop, for message `id` at whatever stages it is met. The child
   * survives, and prints of the post what was there, exactly as these stages say.
   */
  method WriteRecord(m: Machine, fd: Socket, gid: string, mid: string, ghost id: nat)
      returns (ok: bool, ghost met: Met)
    requires m.Valid() && 1 <= id <= |LogOf(m.sys, gid)| && mid == Mid(id)
    modifies m, m.fs, fd`sent
    ensures m.Valid() && Onwards(old(m.sys), m.sys, gid, id)
    ensures var c := Owner(old(m.sys), gid, id); var p := c.req.post;
      && InOrder(c.pc, met, Owner(m.sys, gid, id).pc) && MetOk(p, met)
      && (ok <==> Survives(p, met)) && fd.sent == old(fd.sent) + Sent(mid, p, met)
  {
    ghost var s0, p := m.sys, Owner(m.sys, gid, id).req.post;
    var size;
    size, met := WriteHeader(m, fd, gid, mid, id);
    if size.None? {
      return false, met;
    }
    ghost var s1, dir, list, data := m.sys, met.dir, met.list, met.data;
    var found;
    found, ok, dir, list, data := WriteRest(m, fd, gid, mid, size.value, id);
    OnwardsTransitive(s0, s1, m.sys, gid, id);
    met := met.(dir := dir, list := list, data := data);
    SentThen(old(fd.sent), mid, p, met, found, ok);
  }
}
