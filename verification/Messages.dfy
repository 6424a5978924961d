/** Where messages live in the tree, and the windows in which they are retrieved. */
module Messages {
  import opened Tree
  import opened Wire

  function GroupDir(gid: string): (p: Path)
    ensures |p| == 2 && p[0] == "GROUPS" && p[1] == gid
  {
    ["GROUPS", gid]
  }

  function GroupEntry(gid: string, name: string): (p: Path)
    ensures |p| == 3 && p[0] == "GROUPS" && p[1] == gid && p[2] == name
  {
    ["GROUPS", gid, name]
  }

  function MsgsDir(gid: string): Path {
    GroupEntry(gid, "MSG")
  }

  function MsgDir(gid: string, mid: string): (p: Path)
    ensures |p| == 4 && p[0] == "GROUPS" && p[1] == gid && p[2] == "MSG" && p[3] == mid
  {
    ["GROUPS", gid, "MSG", mid]
  }

  /** The part of the tree at and below `d`. */
  function Sub(t: Tree, d: Path): Tree {
    map q | q in t && Below(d, q) :: t[q]
  }

  lemma SubUpdate(t: Tree, p: Path, e: Entry, d: Path)
    ensures Below(d, p) ==> Sub(t[p := e], d) == Sub(t, d)[p := e]
    ensures !Below(d, p) ==> Sub(t[p := e], d) == Sub(t, d)
  {
  }

  // ---- a message directory, stage by stage ----

  function WithAuthor(d: Path, uid: string): Tree {
    map[d := Dir, d + ["author.txt"] := File(uid)]
  }

  function WithText(d: Path, p: Post): Tree {
    WithAuthor(d, p.uid)[d + ["text.txt"] := File(p.text)]
  }

  function WithFileDir(d: Path, p: Post): Tree {
    WithText(d, p)[d + ["FILE"] := Dir]
  }

  /** The whole subtree of a message that has been stored. */
  function Stored(d: Path, p: Post): Tree {
    match p.file
    case None => WithText(d, p)
    case Some(f) => WithFileDir(d, p)[d + ["FILE", f.name] := File(f.data)]
  }

  /** Message `mid` of group `gid` is completely stored as `p`. */
  ghost predicate HasMessage(t: Tree, gid: string, mid: string, p: Post) {
    Sub(t, MsgDir(gid, mid)) == Stored(MsgDir(gid, mid), p)
  }

  lemma StoredEntry(t: Tree, d: Path, p: Post, q: Path)
    requires Sub(t, d) == Stored(d, p) && Below(d, q)
    ensures q in t <==> q in Stored(d, p)
    ensures q in t ==> t[q] == Stored(d, p)[q]
  {
    assert q in t <==> q in Sub(t, d);
  }

  /** What `retrieve` finds when it opens the parts of a stored message. */
  lemma StoredParts(t: Tree, gid: string, mid: string, p: Post)
    requires HasMessage(t, gid, mid, p) && ValidFile(p.file)
    ensures var d := MsgDir(gid, mid);
      && d + ["author.txt"] in t && t[d + ["author.txt"]] == File(p.uid)
      && d + ["text.txt"] in t && t[d + ["text.txt"]] == File(p.text)
      && (IsDir(t, d + ["FILE"]) <==> p.file.Some?)
      && (p.file.Some? ==>
            && Files(t, d + ["FILE"]) == {p.file.value.name}
            && d + ["FILE"] + [p.file.value.name] in t
            && t[d + ["FILE"] + [p.file.value.name]] == File(p.file.value.data))
  {
    var d := MsgDir(gid, mid);
    StoredEntry(t, d, p, d + ["author.txt"]);
    StoredEntry(t, d, p, d + ["text.txt"]);
    StoredEntry(t, d, p, d + ["FILE"]);
    if p.file.Some? {
      StoredEntry(t, d, p, d + ["FILE", p.file.value.name]);
      assert d + ["FILE", p.file.value.name] == d + ["FILE"] + [p.file.value.name];
      StoredFiles(t, d, p);
    }
  }

  lemma StoredFiles(t: Tree, d: Path, p: Post)
    requires Sub(t, d) == Stored(d, p) && ValidFile(p.file) && p.file.Some?
    ensures Files(t, d + ["FILE"]) == {p.file.value.name}
  {
    StoredEntry(t, d, p, d + ["FILE"]);
    forall x ensures d + ["FILE"] + [x] in t <==> x == p.file.value.name {
      var q := d + ["FILE", x];
      assert q == d + ["FILE"] + [x];
      StoredEntry(t, d, p, q);
      assert |q| == |d| + 2 && q[|d| + 1] == x;
    }
    StoredEntry(t, d, p, d + ["FILE", p.file.value.name]);
    assert d + ["FILE", p.file.value.name] == d + ["FILE"] + [p.file.value.name];
  }
}
