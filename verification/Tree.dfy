/** The server's directory tree and the operations of file_management.c on it. */
module Tree {
  import opened CText
  import opened StrList
  import opened Sorting

  type Path = seq<string>

  datatype Entry = Dir | File(data: string)

  type Tree = map<Path, Entry>

  predicate IsDir(t: Tree, p: Path) {
    p in t && t[p].Dir?
  }

  predicate IsFile(t: Tree, p: Path) {
    p in t && t[p].File?
  }

  /** `q` is `p` or lies somewhere under it. */
  predicate Below(p: Path, q: Path) {
    |p| <= |q| && q[..|p|] == p
  }

  function Parent(p: Path): Path
    requires p != []
  {
    p[..|p| - 1]
  }

  /** Every entry hangs from a directory. */
  ghost predicate Rooted(t: Tree) {
    forall q {:trigger Parent(q)} :: q in t && q != [] ==> IsDir(t, Parent(q))
  }

  predicate Hidden(name: string) {
    name != [] && name[0] == '.'
  }

  function Names(t: Tree, p: Path): (r: set<string>)
    ensures forall x :: x in r <==> p + [x] in t
  {
    var r := set q | q in t && |q| == |p| + 1 && q[..|p|] == p :: q[|p|];
    assert forall x :: p + [x] in t ==> (p + [x])[..|p|] == p && (p + [x])[|p|] == x;
    assert forall q :: q in t && |q| == |p| + 1 && q[..|p|] == p ==> q == p + [q[|p|]];
    r
  }

  /** The subdirectories `list_subdirectories` reports: those whose name has no leading '.'. */
  function SubDirs(t: Tree, p: Path): set<string> {
    if IsDir(t, p) then set x | x in Names(t, p) && t[p + [x]].Dir? && !Hidden(x) else {}
  }

  /** The plain files `list_files` reports. */
  function Files(t: Tree, p: Path): set<string> {
    if IsDir(t, p) then set x | x in Names(t, p) && t[p + [x]].File? && x != "." && x != ".." else {}
  }

  /** A name `readdir` yields, and whether `d_type` says it is a directory. */
  datatype Dirent = Dirent(name: string, isDir: bool)

  /** What `readdir` yields for a directory, in no particular order: "." and ".." included. */
  function Entries(t: Tree, path: Path): set<Dirent> {
    if IsDir(t, path) then
      (set x | x in Names(t, path) && x != "." && x != ".." :: Dirent(x, t[path + [x]].Dir?))
      + {Dirent(".", true), Dirent("..", true)}
    else {}
  }

  /** What the loops of `list_subdirectories` and `list_subdirectories_ord` keep. */
  function DirsIn(es: set<Dirent>): set<string> {
    set e | e in es && e.isDir && !Hidden(e.name) :: e.name
  }

  /** What the loop of `list_files` keeps. */
  function FilesIn(es: set<Dirent>): set<string> {
    set e | e in es && !e.isDir :: e.name
  }

  lemma EntryListed(t: Tree, p: Path, x: string)
    ensures Dirent(x, true) in Entries(t, p) && !Hidden(x) <==> x in SubDirs(t, p)
    ensures Dirent(x, false) in Entries(t, p) <==> x in Files(t, p)
  {
  }

  lemma ListedAll(t: Tree, p: Path)
    ensures DirsIn(Entries(t, p)) == SubDirs(t, p) && FilesIn(Entries(t, p)) == Files(t, p)
  {
    forall x ensures x in DirsIn(Entries(t, p)) <==> x in SubDirs(t, p) {
      EntryListed(t, p, x);
      assert x in DirsIn(Entries(t, p)) <==> Dirent(x, true) in Entries(t, p) && !Hidden(x);
    }
    forall x ensures x in FilesIn(Entries(t, p)) <==> x in Files(t, p) {
      EntryListed(t, p, x);
      assert x in FilesIn(Entries(t, p)) <==> Dirent(x, false) in Entries(t, p);
    }
  }

  /** One more entry `e` after the entries `done`. */
  lemma DirsStep(done: set<Dirent>, e: Dirent)
    requires e !in done
    ensures multiset(DirsIn(done + {e}))
         == multiset(DirsIn(done)) + if e.isDir && !Hidden(e.name) then multiset{e.name} else multiset{}
  {
    if e.isDir && !Hidden(e.name) {
      assert e.name !in DirsIn(done) by {
        assert forall d :: d in done && d.isDir && d.name == e.name ==> d == e;
      }
      assert DirsIn(done + {e}) == DirsIn(done) + {e.name};
    } else {
      assert DirsIn(done + {e}) == DirsIn(done);
    }
  }

  lemma FilesStep(done: set<Dirent>, e: Dirent)
    requires e !in done
    ensures multiset(FilesIn(done + {e}))
         == multiset(FilesIn(done)) + if !e.isDir then multiset{e.name} else multiset{}
  {
    if !e.isDir {
      assert e.name !in FilesIn(done) by {
        assert forall d :: d in done && !d.isDir && d.name == e.name ==> d == e;
      }
      assert FilesIn(done + {e}) == FilesIn(done) + {e.name};
    } else {
      assert FilesIn(done + {e}) == FilesIn(done);
    }
  }

  lemma OneLess(es: set<Dirent>, todo: set<Dirent>, e: Dirent)
    requires e in todo && todo <= es
    ensures es - (todo - {e}) == es - todo + {e} && e !in es - todo
  {
  }

  /** The loop of `list_subdirectories_ord` over what `readdir` yields, in any order. */
  method ListDirsOrd(es: set<Dirent>) returns (list: Node?, ghost xs: seq<string>, ghost repr: set<Node>)
    ensures fresh(repr) && Holds(list, xs, repr)
    ensures Sorted(Strcmp, xs) && multiset(xs) == multiset(DirsIn(es))
  {
    list, xs, repr := null, [], {};
    ghost var arrived: seq<string> := [];
    var todo := es;
    assert es - todo == {};
    while todo != {}
      invariant todo <= es && fresh(repr) && Holds(list, xs, repr)
      invariant xs == InsertAll(arrived) && multiset(arrived) == multiset(DirsIn(es - todo))
      decreases todo
    {
      var e :| e in todo;
      OneLess(es, todo, e);
      DirsStep(es - todo, e);
      todo := todo - {e};
      if !Hidden(e.name) && e.isDir {
        InsertAllStep(arrived, e.name);
        arrived := arrived + [e.name];
        list, repr := AppendOrd(list, e.name, Strcmp, xs, repr);
        xs := InsertOrd(Strcmp, xs, e.name);
      }
    }
    assert es - todo == es;
    InsertAllSorts(arrived);
  }

  /** The loop of `list_subdirectories`. */
  method ListDirs(es: set<Dirent>) returns (list: Node?, ghost xs: seq<string>, ghost repr: set<Node>)
    ensures fresh(repr) && Holds(list, xs, repr)
    ensures multiset(xs) == multiset(DirsIn(es))
  {
    list, xs, repr := null, [], {};
    var todo := es;
    assert es - todo == {};
    while todo != {}
      invariant todo <= es && fresh(repr) && Holds(list, xs, repr)
      invariant multiset(xs) == multiset(DirsIn(es - todo))
      decreases todo
    {
      var e :| e in todo;
      OneLess(es, todo, e);
      DirsStep(es - todo, e);
      todo := todo - {e};
      if !Hidden(e.name) && e.isDir {
        list, repr := Push(list, e.name, xs, repr);
        xs := [e.name] + xs;
      }
    }
    assert es - todo == es;
  }

  /** The loop of `list_files`. */
  method ListFilesOf(es: set<Dirent>) returns (list: Node?, ghost xs: seq<string>, ghost repr: set<Node>)
    ensures fresh(repr) && Holds(list, xs, repr)
    ensures multiset(xs) == multiset(FilesIn(es))
  {
    list, xs, repr := null, [], {};
    var todo := es;
    assert es - todo == {};
    while todo != {}
      invariant todo <= es && fresh(repr) && Holds(list, xs, repr)
      invariant multiset(xs) == multiset(FilesIn(es - todo))
      decreases todo
    {
      var e :| e in todo;
      OneLess(es, todo, e);
      FilesStep(es - todo, e);
      todo := todo - {e};
      if !e.isDir {
        list, repr := Append(list, e.name, xs, repr);
        xs := xs + [e.name];
      }
    }
    assert es - todo == es;
  }

  ghost predicate DotFree(t: Tree, p: Path) {
    forall q, i :: q in t && Below(p, q) && |p| <= i < |q| ==> !Hidden(q[i])
  }

  function Without(t: Tree, p: Path): Tree {
    map q | q in t && !Below(p, q) :: t[q]
  }

  ghost function Under(t: Tree, p: Path): set<Path> {
    set q | q in t && Below(p, q)
  }

  /** In a rooted tree, an entry below `p` passes through an entry of `p`. */
  lemma {:induction false} ThroughChild(t: Tree, p: Path, q: Path)
    requires Rooted(t) && q in t && Below(p, q) && q != p
    ensures q[..|p| + 1] in t && q[..|p| + 1] == p + [q[|p|]]
    decreases |q|
  {
    if |q| > |p| + 1 {
      var up := Parent(q);
      ThroughChild(t, p, up);
      assert up[..|p| + 1] == q[..|p| + 1];
    } else {
      assert q[..|p| + 1] == q;
    }
  }

  lemma ChildBelow(p: Path, x: string, q: Path)
    ensures Below(p + [x], q) <==> Below(p, q) && q != p && q[|p|] == x
  {
    if Below(p + [x], q) {
      assert q[..|p|] == (p + [x])[..|p|] && q[|p|] == (p + [x])[|p|];
    }
  }

  lemma DotFreeChild(t: Tree, p: Path, x: string)
    requires DotFree(t, p) && x in Names(t, p)
    ensures !Hidden(x) && DotFree(t, p + [x])
  {
    ChildBelow(p, x, p + [x]);
    assert (p + [x])[|p|] == x;
    forall q, i | q in t && Below(p + [x], q) && |p + [x]| <= i < |q| ensures !Hidden(q[i]) {
      ChildBelow(p, x, q);
    }
  }

  lemma DotFreeParent(t: Tree, p: Path)
    requires Rooted(t)
    requires forall x :: x in Names(t, p) ==> !Hidden(x) && DotFree(t, p + [x])
    ensures DotFree(t, p)
  {
    forall q, i | q in t && Below(p, q) && |p| <= i < |q| ensures !Hidden(q[i]) {
      ThroughChild(t, p, q);
      ChildBelow(p, q[|p|], q);
      assert q[|p|] in Names(t, p);
    }
  }

  /** `t` after the children `done` of `p` went, each with all it holds. */
  ghost function Pruned(t: Tree, p: Path, done: set<string>): Tree {
    map q | q in t && !(Below(p, q) && q != p && q[|p|] in done) :: t[q]
  }

  lemma PrunedRooted(t: Tree, p: Path, done: set<string>)
    requires Rooted(t)
    ensures Rooted(Pruned(t, p, done))
  {
    var u := Pruned(t, p, done);
    forall q | q in u && q != [] ensures IsDir(u, Parent(q)) {
      var up := Parent(q);
      assert IsDir(t, up);
      if Below(p, up) && up != p {
        assert q[..|p|] == up[..|p|];
      }
    }
  }

  /** Removing one more child subtree (a single entry, when the child is a file). */
  lemma PruneChild(t: Tree, p: Path, done: set<string>, x: string)
    requires Rooted(t) && p + [x] in t && x !in done
    ensures p + [x] in Pruned(t, p, done) && Pruned(t, p, done)[p + [x]] == t[p + [x]]
    ensures Without(Pruned(t, p, done), p + [x]) == Pruned(t, p, done + {x})
    ensures t[p + [x]].File? ==> Pruned(t, p, done) - {p + [x]} == Pruned(t, p, done + {x})
    ensures t[p + [x]].File? ==> DotFree(t, p + [x])
  {
    ChildBelow(p, x, p + [x]);
    forall q ensures Below(p + [x], q) <==> Below(p, q) && q != p && q[|p|] == x {
      ChildBelow(p, x, q);
    }
    if t[p + [x]].File? {
      forall q | q in t && Below(p + [x], q) ensures q == p + [x] {
        if q != p + [x] {
          FileIsLeaf(t, p + [x], q);
        }
      }
    }
  }

  lemma PruneDotFree(t: Tree, p: Path, done: set<string>, x: string)
    requires x !in done
    ensures DotFree(Pruned(t, p, done), p + [x]) <==> DotFree(t, p + [x])
  {
    forall q | q in t && Below(p + [x], q) ensures q in Pruned(t, p, done) {
      ChildBelow(p, x, q);
    }
  }

  lemma {:induction false} FileIsLeaf(t: Tree, c: Path, q: Path)
    requires Rooted(t) && q in t && Below(c, q) && q != c
    ensures IsDir(t, c)
    decreases |q|
  {
    var up := Parent(q);
    assert IsDir(t, up);
    if up != c {
      assert Below(c, up);
      FileIsLeaf(t, c, up);
    }
  }

  lemma PrunedNames(t: Tree, p: Path, done: set<string>)
    requires p in t
    ensures p in Pruned(t, p, done) && Pruned(t, p, done)[p] == t[p]
    ensures Names(Pruned(t, p, done), p) == Names(t, p) - done
  {
    var u := Pruned(t, p, done);
    forall x ensures x in Names(u, p) <==> x in Names(t, p) && x !in done {
      assert Below(p, p + [x]) && (p + [x])[|p|] == x;
      assert x in Names(u, p) <==> p + [x] in u;
    }
  }

  lemma PruneAll(t: Tree, p: Path, done: set<string>)
    requires forall q :: q in t && Below(p, q) && q != p ==> q[|p|] in done
    ensures Pruned(t, p, done) - {p} == Without(t, p)
  {
  }

  /** What a `delete_directory` loop that has removed `done` needs to know about child `x`. */
  lemma SweepStep(t: Tree, p: Path, done: set<string>, x: string)
    requires Rooted(t) && p in t && x in Names(t, p) && x !in done
    ensures Rooted(Pruned(t, p, done))
    ensures p + [x] in Pruned(t, p, done) && Pruned(t, p, done)[p + [x]] == t[p + [x]]
    ensures Without(Pruned(t, p, done), p + [x]) == Pruned(t, p, done + {x})
    ensures t[p + [x]].File? ==> Pruned(t, p, done) - {p + [x]} == Pruned(t, p, done + {x})
    ensures t[p + [x]].File? ==> DotFree(t, p + [x])
    ensures DotFree(Pruned(t, p, done), p + [x]) <==> DotFree(t, p + [x])
    ensures !DotFree(t, p + [x]) ==> !DotFree(t, p)
    ensures Under(Pruned(t, p, done), p + [x]) < Under(t, p)
  {
    PruneChild(t, p, done, x);
    PrunedRooted(t, p, done);
    PruneDotFree(t, p, done, x);
    if DotFree(t, p) {
      DotFreeChild(t, p, x);
    }
    forall q | Below(p + [x], q) ensures Below(p, q) {
      ChildBelow(p, x, q);
    }
    assert p in Under(t, p) && p !in Under(Pruned(t, p, done), p + [x]);
  }

  /** When only hidden names are left, the directory is empty iff nothing below it was hidden. */
  lemma SweepEnd(t: Tree, p: Path, done: set<string>)
    requires Rooted(t) && IsDir(t, p) && done <= Names(t, p)
    requires forall x :: x in Names(t, p) && x !in done ==> Hidden(x)
    requires forall x :: x in done ==> !Hidden(x) && DotFree(t, p + [x])
    ensures IsDir(Pruned(t, p, done), p)
    ensures Names(Pruned(t, p, done), p) == {} <==> DotFree(t, p)
    ensures DotFree(t, p) ==> Pruned(t, p, done) - {p} == Without(t, p)
  {
    PrunedNames(t, p, done);
    if done == Names(t, p) {
      DotFreeParent(t, p);
      forall q | q in t && Below(p, q) && q != p ensures q[|p|] in done {
        ThroughChild(t, p, q);
      }
      PruneAll(t, p, done);
    } else {
      var x :| x in Names(t, p) && x !in done;
      if DotFree(t, p) {
        DotFreeChild(t, p, x);
      }
    }
  }

  class FileSystem {
    var tree: Tree

    constructor (t: Tree)
      ensures tree == t
    {
      tree := t;
    }

    /** `mkdir` creates the name atomically and fails if it is taken or has no parent. */
    method CreateDirectory(path: Path) returns (ok: bool)
      requires path != []
      modifies this
      ensures ok <==> path !in old(tree) && IsDir(old(tree), Parent(path))
      ensures tree == if ok then old(tree)[path := Dir] else old(tree)
    {
      ok := path !in tree && IsDir(tree, Parent(path));
      if ok {
        tree := tree[path := Dir];
      }
    }

    method CreateFile(dir: Path, name: string, data: string) returns (ok: bool)
      modifies this
      ensures ok <==> IsDir(old(tree), dir) && !IsDir(old(tree), dir + [name])
      ensures tree == if ok then old(tree)[dir + [name] := File(data)] else old(tree)
    {
      ok := IsDir(tree, dir) && !IsDir(tree, dir + [name]);
      if ok {
        tree := tree[dir + [name] := File(data)];
      }
    }

    /** `remove`: a file, or an empty directory. */
    method Remove(path: Path) returns (ok: bool)
      modifies this
      ensures ok <==> path in old(tree) && (old(tree)[path].File? || Names(old(tree), path) == {})
      ensures tree == if ok then old(tree) - {path} else old(tree)
    {
      ok := path in tree && (tree[path].File? || Names(tree, path) == {});
      if ok {
        tree := tree - {path};
      }
    }

    /** `list_subdirectories` while nothing else happens. */
    method ListSubdirectories(path: Path)
        returns (list: Node?, ghost xs: seq<string>, ghost repr: set<Node>)
      ensures fresh(repr) && Holds(list, xs, repr)
      ensures multiset(xs) == multiset(SubDirs(tree, path))
      ensures forall x :: x in SubDirs(tree, path) <==>
        IsDir(tree, path) && IsDir(tree, path + [x]) && (x == "" || x[0] != '.')
    {
      ListedAll(tree, path);
      list, xs, repr := ListDirs(Entries(tree, path));
    }

    /** `list_files` while nothing else happens. */
    method ListFiles(path: Path)
        returns (list: Node?, ghost xs: seq<string>, ghost repr: set<Node>)
      ensures fresh(repr) && Holds(list, xs, repr)
      ensures multiset(xs) == multiset(Files(tree, path))
      ensures forall x :: x in Files(tree, path) <==>
        IsDir(tree, path) && IsFile(tree, path + [x]) && x != "." && x != ".."
    {
      ListedAll(tree, path);
      list, xs, repr := ListFilesOf(Entries(tree, path));
    }

    /**
     * The recursive `delete_directory` removes exactly the subtree at `path`, in whatever order
     * `readdir` reports it. It fails iff there is no such directory or a hidden name is below it.
     */
    method DeleteDirectory(path: Path) returns (ok: bool)
      requires Rooted(tree)
      modifies this
      ensures ok <==> IsDir(old(tree), path) && DotFree(old(tree), path)
      ensures ok ==> forall q :: q in old(tree) && Below(path, q) ==>
        forall i :: |path| <= i < |q| ==> q[i] == "" || q[i][0] != '.'
      ensures ok ==> tree == Without(old(tree), path)
      decreases Under(tree, path)
    {
      if !IsDir(tree, path) {
        return false;
      }
      ghost var was := tree;
      var todo := Names(tree, path);
      ghost var done: set<string> := {};
      assert tree == Pruned(was, path, done);
      while todo != {}
        invariant todo !! done && todo + done <= Names(was, path)
        invariant forall x :: x in Names(was, path) && x !in todo && x !in done ==> Hidden(x)
        invariant forall x :: x in done ==> !Hidden(x) && DotFree(was, path + [x])
        invariant tree == Pruned(was, path, done)
        decreases todo
      {
        var name :| name in todo;
        todo := todo - {name};
        if Hidden(name) {
          continue;
        }
        SweepStep(was, path, done, name);
        if IsDir(tree, path + [name]) {
          var removed := DeleteDirectory(path + [name]);
          if !removed {
            return false;
          }
        } else {
          var _ := Remove(path + [name]);
        }
        done := done + {name};
      }
      SweepEnd(was, path, done);
      ok := Remove(path);
    }
  }
}
