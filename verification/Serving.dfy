/**
 * The commands that the main process serves in a run of the whole system: whatever the children do
 * between them, its replies are those of the commands alone.
 */
module Serving {
  import opened CText
  import opened Wire
  import opened PostProtocol
  import opened PostSafety
  import opened PostTheorems
  import Server
  import opened Requests
  import opened History

  /** The command whose service an action begins, if any. */
  function Begun(a: Action): seq<Server.Command> {
    match a
    case Serve(c, _) => [c]
    case BeginGroup(uid, gname) => [Server.Gsr(uid, "00", gname)]
    case _ => []
  }

  function Commands(run: seq<Action>): seq<Server.Command> {
    if run == [] then [] else Begun(run[0]) + Commands(run[1..])
  }

  /** The state when the group that is being made is there, with its first subscriber. */
  function Served(s: Sys): Server.State {
    match s.making
    case None => s.server
    case Some(m) =>
      if m.stage.Named? then
        if m.gid in s.server.groups then Server.Subscribed(s.server, m.uid, m.gid) else s.server
      else Server.Subscribed(Server.NewGroup(s.server, m.gid, m.gname), m.uid, m.gid)
  }

  lemma StepServes(s: Sys, a: Action)
    requires Enabled(s, a)
    ensures Served(Next(s, a)) == Server.Run(Served(s), Begun(a))
  {
    if a.Serve? {
      OneCommand(s.server, a.command);
    } else if a.BeginGroup? {
      BeginServes(s, a);
    } else if Serial(a) {
      MakingServes(s, a);
    } else {
      ChildServes(s, a);
    }
  }

  lemma BeginServes(s: Sys, a: Action)
    requires a.BeginGroup? && EnabledSerial(s, a)
    ensures Served(NextSerial(s, a)) == Server.Run(Served(s), Begun(a))
  {
    var c := Server.Gsr(a.uid, "00", a.gname);
    OneCommand(s.server, c);
    Server.NewOutcome(s.server, c);
  }

  lemma MakingServes(s: Sys, a: Action)
    requires Serial(a) && EnabledSerial(s, a) && !a.Serve? && !a.BeginGroup?
    ensures Served(NextSerial(s, a)) == Served(s)
  {
    match a
    case AddMsgs =>
    case AddName =>
    case WriteName(_) =>
    case CloseName =>
    case AddFirstSub =>
  }

  lemma ChildServes(s: Sys, a: Action)
    requires !Serial(a) && Enabled(s, a)
    ensures Served(Next(s, a)) == Served(s)
  {
    ChildLeavesServer(s, a);
  }

  lemma OneCommand(s: Server.State, c: Server.Command)
    ensures Server.Run(s, [c]) == Server.Exec(s, c).0
  {
    assert [c][1..] == [];
    assert Server.Run(Server.Exec(s, c).0, []) == Server.Exec(s, c).0;
  }

  lemma {:induction false} RunAfter(s: Server.State, cs: seq<Server.Command>, ds: seq<Server.Command>)
    ensures Server.Run(s, cs + ds) == Server.Run(Server.Run(s, cs), ds)
    decreases |cs|
  {
    if cs == [] {
      assert [] + ds == ds;
    } else {
      assert (cs + ds)[0] == cs[0] && (cs + ds)[1..] == cs[1..] + ds;
      RunAfter(Server.Exec(s, cs[0]).0, cs[1..], ds);
    }
  }

  lemma {:induction false} RunServes(s: Sys, run: seq<Action>)
    requires Inv(s) && IsRun(s, run)
    ensures Served(After(s, run)) == Server.Run(Served(s), Commands(run))
    decreases |run|
  {
    if run != [] {
      StepServes(s, run[0]);
      StepKeepsInv(s, run[0]);
      RunServes(Next(s, run[0]), run[1..]);
      RunAfter(Served(s), Begun(run[0]), Commands(run[1..]));
    }
  }

  lemma {:induction false} CommandsAreNamed(s: Sys, run: seq<Action>)
    requires Inv(s) && IsRun(s, run)
    ensures forall c :: c in Commands(run) ==> Server.NamedGroup(c)
    decreases |run|
  {
    if run != [] {
      StepKeepsInv(s, run[0]);
      CommandsAreNamed(Next(s, run[0]), run[1..]);
    }
  }

  /**
   * From the start, and beside any number of `post` and `retrieve` children: the reply to the next
   * command is the one that the exchanges so far make one expect.
   */
  lemma RunAnswers(run: seq<Action>, c: Server.Command)
    requires IsRun(START, run) && After(START, run).making.None?
    ensures ReplyTo(After(START, run).server, c)
         == Expected(Exchanges(Server.INITIAL, Commands(run)), c)
  {
    StartInv();
    RunServes(START, run);
    CommandsAreNamed(START, run);
    RepliesAreExpected(Commands(run), c);
  }
}
