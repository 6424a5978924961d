/**
 * The machine as one process of the server sees it: between any two of its own steps, the other
 * processes may run as far as the transition system lets them.
 */
module Host {
  import opened Sorting
  import opened Tree
  import opened Messages
  import opened PostProtocol
  import opened PostSafety
  import opened PostTheorems

  /** Only forked children take these steps: the main process is busy with a command of its own. */
  ghost predicate ByChildren(run: seq<Action>) {
    forall a :: a in run ==> !Serial(a) && !a.Fork?
  }

  /** Some run leads from `s` to `s'`; a run of children alone, if the main process looks on. */
  ghost predicate Reaches(s: Sys, s': Sys, main: bool) {
    exists run :: IsRun(s, run) && After(s, run) == s' && (main ==> ByChildren(run))
  }

  lemma {:induction false} ChildrenLeaveServer(s: Sys, run: seq<Action>)
    requires IsRun(s, run) && ByChildren(run)
    ensures After(s, run).server == s.server && After(s, run).making == s.making
    decreases |run|
  {
    if run != [] {
      assert run[0] in run;
      ChildLeavesServer(s, run[0]);
      ChildrenLeaveServer(Next(s, run[0]), run[1..]);
    }
  }

  lemma ReachesLater(s: Sys, s': Sys, main: bool)
    requires Inv(s) && Reaches(s, s', main)
    ensures Inv(s') && Later(s, s')
    ensures main ==> s'.server == s.server && s'.making == s.making
  {
    var run :| IsRun(s, run) && After(s, run) == s' && (main ==> ByChildren(run));
    RunLater(s, run);
    if main {
      ChildrenLeaveServer(s, run);
    }
  }

  lemma ReachesItself(s: Sys, main: bool)
    ensures Reaches(s, s, main) && Later(s, s)
  {
    assert IsRun(s, []) && After(s, []) == s;
  }

  lemma ReachesNext(s: Sys, a: Action)
    requires Enabled(s, a)
    ensures Reaches(s, Next(s, a), false)
  {
    var s' := Next(s, a);
    assert IsRun(s', []) && After(s', []) == s';
    RunOf(s, a, []);
    assert IsRun(s, [a] + []) && After(s, [a] + []) == s';
  }

  lemma ReachesTransitive(s: Sys, s': Sys, s'': Sys, main: bool)
    requires Reaches(s, s', main) && Reaches(s', s'', main)
    ensures Reaches(s, s'', main)
  {
    var first :| IsRun(s, first) && After(s, first) == s' && (main ==> ByChildren(first));
    var later :| IsRun(s', later) && After(s', later) == s'' && (main ==> ByChildren(later));
    RunAppend(s, first, later);
  }

  // ---- scanning a directory ----

  /** `e` is an entry of the directory in every state of the run. */
  ghost predicate Throughout(s: Sys, run: seq<Action>, path: Path, e: Dirent)
    requires IsRun(s, run)
    decreases |run|
  {
    e in Entries(s.tree, path) && (run != [] ==> Throughout(Next(s, run[0]), run[1..], path, e))
  }

  /** `e` is an entry of the directory in some state of the run. */
  ghost predicate Sometime(s: Sys, run: seq<Action>, path: Path, e: Dirent)
    requires IsRun(s, run)
    decreases |run|
  {
    e in Entries(s.tree, path) || (run != [] && Sometime(Next(s, run[0]), run[1..], path, e))
  }

  /**
   * What a scan may yield that takes as long as `run`: nothing if there is no directory to open;
   * else every entry that is there throughout, and no entry that is never there.
   */
  ghost predicate Scanned(s: Sys, run: seq<Action>, path: Path, es: set<Dirent>)
    requires IsRun(s, run)
  {
    if !IsDir(s.tree, path) then es == {}
    else
      && (forall e :: Throughout(s, run, path, e) ==> e in es)
      && (forall e :: e in es ==> Sometime(s, run, path, e))
  }

  /** The directories of MSG only become more. */
  lemma MsgsGrow(s: Sys, s': Sys, gid: string)
    requires PostsOk(s) && PostsOk(s') && LogOf(s, gid) <= LogOf(s', gid)
    ensures SubDirs(s.tree, MsgsDir(gid)) <= SubDirs(s'.tree, MsgsDir(gid))
  {
    MsgsOk(s, gid);
    MsgsOk(s', gid);
  }

  lemma {:induction false} MsgsThroughout(s: Sys, run: seq<Action>, gid: string, x: string)
    requires Inv(s) && IsRun(s, run) && x in SubDirs(s.tree, MsgsDir(gid))
    ensures Throughout(s, run, MsgsDir(gid), Dirent(x, true))
    decreases |run|
  {
    EntryListed(s.tree, MsgsDir(gid), x);
    if run != [] {
      StepKeepsInv(s, run[0]);
      StepLater(s, run[0]);
      MsgsGrow(s, Next(s, run[0]), gid);
      MsgsThroughout(Next(s, run[0]), run[1..], gid, x);
    }
  }

  lemma {:induction false} MsgsSometime(s: Sys, run: seq<Action>, gid: string, x: string)
    requires Inv(s) && IsRun(s, run) && Sometime(s, run, MsgsDir(gid), Dirent(x, true)) && !Hidden(x)
    ensures Inv(After(s, run)) && x in SubDirs(After(s, run).tree, MsgsDir(gid))
    decreases |run|
  {
    EntryListed(s.tree, MsgsDir(gid), x);
    RunLater(s, run);
    MsgsGrow(s, After(s, run), gid);
    if run != [] && x !in SubDirs(s.tree, MsgsDir(gid)) {
      StepKeepsInv(s, run[0]);
      MsgsSometime(Next(s, run[0]), run[1..], gid, x);
    }
  }

  /** A scan of MSG sees what was there at its start and nothing that is not there at its end. */
  lemma MsgsScanned(s: Sys, run: seq<Action>, gid: string, es: set<Dirent>)
    requires Inv(s) && IsRun(s, run) && Scanned(s, run, MsgsDir(gid), es)
    ensures SubDirs(s.tree, MsgsDir(gid)) <= DirsIn(es) <= SubDirs(After(s, run).tree, MsgsDir(gid))
  {
    forall x | x in SubDirs(s.tree, MsgsDir(gid)) ensures x in DirsIn(es) {
      MsgsThroughout(s, run, gid, x);
      EntryListed(s.tree, MsgsDir(gid), x);
    }
    forall x | x in DirsIn(es) ensures x in SubDirs(After(s, run).tree, MsgsDir(gid)) {
      MsgsSometime(s, run, gid, x);
    }
  }

  class Machine {
    const fs: FileSystem
    ghost var sys: Sys

    ghost predicate Valid()
      reads this, fs
    {
      Inv(sys) && fs.tree == sys.tree
    }

    constructor (fs: FileSystem, ghost s: Sys)
      requires Inv(s) && fs.tree == s.tree
      ensures Valid() && this.fs == fs && sys == s
    {
      this.fs := fs;
      sys := s;
    }

    /** Other processes run; none but children, if the caller is the main process. */
    method Others(ghost main: bool)
      requires Valid()
      modifies this, fs
      ensures Valid() && Reaches(old(sys), sys, main)
    {
      ReachesItself(sys, main);
    }

    /** `opendir`, and `readdir` to the end, while other processes run. */
    method ReadDir(path: Path, ghost main: bool) returns (es: set<Dirent>, ghost run: seq<Action>)
      requires Valid()
      modifies this, fs
      ensures Valid() && Reaches(old(sys), sys, main)
      ensures IsRun(old(sys), run) && sys == After(old(sys), run) && Scanned(old(sys), run, path, es)
      ensures main ==> ByChildren(run)
    {
      es, run := Entries(fs.tree, path), [];
      ReachesItself(sys, main);
    }
  }

  lemma MsgsListed(s: Sys, s': Sys, gid: string, seen: set<string>)
    requires PostsOk(s) && PostsOk(s')
    requires SubDirs(s.tree, MsgsDir(gid)) <= seen <= SubDirs(s'.tree, MsgsDir(gid))
    ensures Ids(4, |LogOf(s, gid)|) <= seen <= Ids(4, |LogOf(s', gid)|) && |LogOf(s', gid)| <= MAX_MID
  {
    MsgsOk(s, gid);
    MsgsOk(s', gid);
  }

  /** MSG is opened and read to its end, while others run. */
  method ScanMessages(m: Machine, gid: string, ghost main: bool) returns (es: set<Dirent>)
    requires m.Valid()
    modifies m, m.fs
    ensures m.Valid() && Reaches(old(m.sys), m.sys, main)
    ensures Ids(4, |LogOf(old(m.sys), gid)|) <= DirsIn(es) <= Ids(4, |LogOf(m.sys, gid)|)
    ensures |LogOf(m.sys, gid)| <= MAX_MID
  {
    ghost var s, run := m.sys, [];
    es, run := m.ReadDir(MsgsDir(gid), main);
    MsgsScanned(s, run, gid, es);
    MsgsListed(s, m.sys, gid, DirsIn(es));
  }
}
