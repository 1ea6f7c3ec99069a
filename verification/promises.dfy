// What the lifecycle promises over whole runs (main.c:218-240, yar.h:91-94), and
// exactly where the code falls short of it.
module Promises {
  import opened Text
  import opened Lifecycle
  import Ready

  // ---- Runs ----

  ghost predicate Admitted(s: State, evs: seq<Event>)
    decreases |evs|, 0
  {
    evs == [] || (Admitted(s, evs[..|evs| - 1]) && Enabled(Run(s, evs[..|evs| - 1]), evs[|evs| - 1]))
  }

  ghost function Run(s: State, evs: seq<Event>): State
    requires Admitted(s, evs)
    decreases |evs|, 1
  {
    if evs == [] then s else Step(Run(s, evs[..|evs| - 1]), evs[|evs| - 1])
  }

  // ---- What each event does to running, open and deletable ----

  // Only the named command changes, and not its flags.
  ghost predicate OnlyAt(s: State, t: State, n: string) {
    && t.flags == s.flags && t.bcst == s.bcst && t.order == s.order
    && t.cmds.Keys == s.cmds.Keys && n in s.cmds
    && (forall m | m in s.cmds && m != n :: t.cmds[m] == s.cmds[m])
    && t.cmds[n].deleteonexit == s.cmds[n].deleteonexit
    && t.cmds[n].restart == s.cmds[n].restart
  }

  // All commands keep their client ttys and their flags.
  ghost predicate AllSame(s: State, t: State) {
    && t.flags == s.flags && t.cmds.Keys == s.cmds.Keys && t.order == s.order
    && forall n | n in s.cmds :: t.cmds[n].clt == s.cmds[n].clt
         && t.cmds[n].deleteonexit == s.cmds[n].deleteonexit && t.cmds[n].restart == s.cmds[n].restart
  }

  // One open less, and never fewer than none.
  function Fewer(t: Tty): (r: Tty)
    ensures r.inq == t.inq && (t.opens > 0 ==> r.opens == t.opens - 1) && (t.opens == 0 ==> r.opens == 0)
  {
    if t.opens == 0 then t else Tty(t.opens - 1, t.inq)
  }

  ghost predicate Effect(s: State, e: Event, t: State) {
    match e
    case CmdWrite(n, b) =>
      OnlyAt(s, t, n) && t.cmds[n] == s.cmds[n].(queue := s.cmds[n].queue + [b])
    case CmdEvent(n) =>
      && t.flags == s.flags.(aborted := t.flags.aborted)
      && OnlyAt(s.(flags := t.flags), t, n) && t.cmds[n].clt == s.cmds[n].clt && t.cmds[n].pid == s.cmds[n].pid
      && s.cmds[n].queue != [] && t.cmds[n].queue == s.cmds[n].queue[1..]
      && t.cmds[n].seen == s.cmds[n].seen + [s.cmds[n].queue[0]]
    case CmdNotify(_, _) => t == s
    case CltOpen(n, pid) =>
      OnlyAt(s, t, n) && t.cmds[n].clt == Tty(s.cmds[n].clt.opens + 1, s.cmds[n].clt.inq)
      && Running(t.cmds[n]) && t.cmds[n].pid == if Running(s.cmds[n]) then s.cmds[n].pid else pid
    case CltClose(n) =>
      OnlyAt(s, t, n) && t.cmds[n].clt == Fewer(s.cmds[n].clt)
      && (Running(t.cmds[n]) <==> Running(s.cmds[n]) && !(Idle(t.cmds[n].clt) && Idle(s.bcst)))
    case CltWrite(n, c) =>
      OnlyAt(s, t, n) && t.cmds[n].clt == Tty(s.cmds[n].clt.opens, s.cmds[n].clt.inq + [c])
      && t.cmds[n].pid == s.cmds[n].pid
    case CltEvent(n, due) =>
      OnlyAt(s, t, n) && s.cmds[n].clt.inq != ""
      && var forwards := (ReadyStr(s) == "" || s.cmds[n].readycnt == |ReadyStr(s)|) && due;
      && t.cmds[n].clt == Tty(s.cmds[n].clt.opens, if forwards then s.cmds[n].clt.inq[1..] else s.cmds[n].clt.inq)
      && (Running(t.cmds[n]) <==> Running(s.cmds[n]) && !(forwards && Idle(t.cmds[n].clt) && Idle(s.bcst)))
    case BcstOpen(pids) =>
      AllSame(s, t) && t.bcst == Tty(s.bcst.opens + 1, s.bcst.inq)
      && forall n | n in s.cmds ::
           Running(t.cmds[n]) && n in pids && t.cmds[n].pid == if Running(s.cmds[n]) then s.cmds[n].pid else pids[n]
    case BcstClose =>
      AllSame(s, t) && t.bcst == Fewer(s.bcst)
      && forall n | n in s.cmds ::
           Running(t.cmds[n]) <==> Running(s.cmds[n]) && !(Idle(s.cmds[n].clt) && Idle(t.bcst))
    case BcstWrite(c) =>
      t.flags == s.flags && t.cmds == s.cmds && t.bcst == Tty(s.bcst.opens, s.bcst.inq + [c])
    case BcstEvent(due) =>
      t.flags == s.flags && t.cmds == s.cmds && s.bcst.inq != ""
      && t.bcst == if BcstBlocked(s) || !due then s.bcst else Tty(s.bcst.opens, s.bcst.inq[1..])
    case Exit(n, pid) =>
      n in s.cmds && Running(s.cmds[n])
      && if s.cmds[n].deleteonexit then
           Deleted(s, t, n) && t.children == s.children - {s.cmds[n].pid}
         else
           OnlyAt(s, t, n) && t.cmds[n].clt == s.cmds[n].clt
           && (Running(t.cmds[n]) <==> s.flags.restart && s.cmds[n].restart)
           && (Running(t.cmds[n]) ==> t.cmds[n].pid == pid)
    case Add(n, _) =>
      if n in s.cmds then t == s else Added(s, t, n)
    case Del(n) => if n in s.cmds then Deleted(s, t, n) else t == s
    case IdleExit =>
      && t.flags == s.flags.(exitonidle := true, cmddelonexit := true, exited := t.flags.exited)
      && t.bcst == s.bcst && t.cmds.Keys == s.cmds.Keys
      && (forall n | n in s.cmds :: t.cmds[n] == s.cmds[n].(deleteonexit := true))
      && (t.flags.exited <==> s.cmds == map[])
    case Terminate => t.cmds == map[] && t.flags.exited && t.flags == s.flags.(exited := true)
  }

  ghost predicate Added(s: State, t: State, n: string) {
    && t.flags == s.flags.(bcstflg := s.flags.bcstflg || |t.cmds| > 1)
    && t.bcst == (if !s.flags.bcstflg && |t.cmds| > 1 then Tty(0, "") else s.bcst)
    && t.cmds.Keys == s.cmds.Keys + {n} && t.order == s.order + [n]
    && (forall m | m in s.cmds && m != n :: t.cmds[m] == s.cmds[m])
    && t.cmds[n].clt == Tty(0, "") && t.cmds[n].deleteonexit == s.flags.cmddelonexit && t.cmds[n].restart
    && (Running(t.cmds[n]) <==> s.bcst.opens > 0 && !(!s.flags.bcstflg && |t.cmds| > 1))
  }

  ghost predicate Deleted(s: State, t: State, n: string) {
    && t.flags == s.flags.(exited := t.flags.exited) && t.bcst == s.bcst
    && t.cmds == s.cmds - {n} && t.order == Without(s.order, n)
    && (t.flags.exited <==> s.flags.exitonidle && t.cmds == map[])
  }

  lemma EmptyMap(m: map<string, Cmd>)
    ensures |m| == 0 <==> m == map[]
  {}

  // The primitives.

  lemma SetOnly(s: State, n: string, t: Tty)
    requires n in s.cmds
    ensures OnlyAt(s, SetClt(s, n, t), n)
    ensures SetClt(s, n, t).cmds[n] == s.cmds[n].(clt := t)
  {}

  lemma StartOnly(s: State, n: string, pid: int)
    requires n in s.cmds
    ensures OnlyAt(s, Start(s, n, pid), n)
    ensures Start(s, n, pid).cmds[n].clt == s.cmds[n].clt
    ensures Start(s, n, pid).cmds[n].pid == if Running(s.cmds[n]) then s.cmds[n].pid else pid
  {}

  lemma StopOnly(s: State, n: string, force: bool)
    requires n in s.cmds
    ensures OnlyAt(s, Stop(s, n, force), n)
    ensures Stop(s, n, force).cmds[n].clt == s.cmds[n].clt
    ensures Running(Stop(s, n, force).cmds[n]) <==> Running(s.cmds[n]) && !Stops(s.cmds[n], s.bcst, force)
  {}

  lemma OnlyTwice(s: State, t: State, u: State, n: string)
    requires OnlyAt(s, t, n) && OnlyAt(t, u, n)
    ensures OnlyAt(s, u, n)
  {}

  lemma {:induction false} StartAllEffect(s: State, order: seq<string>, pids: map<string, int>)
    ensures var t := StartAll(s, order, pids);
      && AllSame(s, t) && t.bcst == s.bcst
      && (forall n | n in s.cmds && Running(s.cmds[n]) :: t.cmds[n].pid == s.cmds[n].pid)
      && (forall n | n in s.cmds && !Running(s.cmds[n]) ::
            t.cmds[n].pid == if n in order && n in pids && pids[n] != NOPID then pids[n] else NOPID)
  {
    hide Start;
    if order != [] {
      var n, front := order[|order| - 1], order[..|order| - 1];
      StartAllEffect(s, front, pids);
      if n in s.cmds && n in pids { StartOnly(StartAll(s, front, pids), n, pids[n]); }
    }
  }

  lemma {:induction false} StopAllEffect(s: State, order: seq<string>, force: bool)
    ensures var t := StopAll(s, order, force);
      && AllSame(s, t) && t.bcst == s.bcst
      && (forall n | n in s.cmds ::
            Running(t.cmds[n]) <==> Running(s.cmds[n]) && !(n in order && Stops(s.cmds[n], s.bcst, force)))
  {
    hide Stop;
    if order != [] {
      var n, front := order[|order| - 1], order[..|order| - 1];
      StopAllEffect(s, front, force);
      if n in s.cmds { StopOnly(StopAll(s, front, force), n, force); }
    }
  }

  lemma BcstOpenEffect(s: State, pids: map<string, int>)
    requires Listed(s) && FreshPids(s, pids)
    ensures Effect(s, BcstOpen(pids), BcstNotifyOpen(s, pids))
  {
    hide StartAll;
    StartAllEffect(s.(bcst := Opened(s.bcst)), s.order, pids);
  }

  lemma BcstCloseEffect(s: State)
    requires Listed(s)
    ensures Effect(s, BcstClose, BcstNotifyClose(s))
  {
    hide StopAll;
    StopAllEffect(s.(bcst := Closed(s.bcst)), s.order, false);
  }

  lemma CltOpenEffect(s: State, n: string, pid: int)
    requires n in s.cmds && pid > 0
    ensures Effect(s, CltOpen(n, pid), CltNotifyOpen(s, n, pid))
  {
    hide Start;
    hide SetClt;
    var t := SetClt(s, n, Opened(s.cmds[n].clt));
    SetOnly(s, n, Opened(s.cmds[n].clt));
    StartOnly(t, n, pid);
    OnlyTwice(s, t, Start(t, n, pid), n);
  }

  lemma CltCloseEffect(s: State, n: string)
    requires n in s.cmds
    ensures Effect(s, CltClose(n), CltNotifyClose(s, n))
  {
    hide Stop;
    hide SetClt;
    var t := SetClt(s, n, Closed(s.cmds[n].clt));
    SetOnly(s, n, Closed(s.cmds[n].clt));
    StopOnly(t, n, false);
    OnlyTwice(s, t, Stop(t, n, false), n);
  }

  lemma CltReadableEffect(s: State, n: string, due: bool)
    requires n in s.cmds && s.cmds[n].clt.inq != ""
    ensures Effect(s, CltEvent(n, due), CltReadable(s, n, due))
  {
    hide Stop;
    hide SetClt;
    var q := s.cmds[n].clt;
    var t := SetClt(s, n, q.(inq := q.inq[1..]));
    SetOnly(s, n, q.(inq := q.inq[1..]));
    StopOnly(t, n, false);
    OnlyTwice(s, t, Stop(t, n, false), n);
  }

  lemma WrittenEffect(s: State, n: string, b: Byte)
    requires n in s.cmds
    ensures Effect(s, CmdWrite(n, b), Written(s, n, b))
  {}

  lemma ReadEffect(s: State, n: string)
    requires n in s.cmds && s.cmds[n].queue != []
    ensures Effect(s, CmdEvent(n), Read(s, n))
  {}

  lemma CltWrittenEffect(s: State, n: string, c: char)
    requires n in s.cmds
    ensures Effect(s, CltWrite(n, c), CltWritten(s, n, c))
  {}

  lemma ReapOnly(s: State, n: string)
    requires n in s.cmds
    ensures OnlyAt(s, Reap(s, n), n)
    ensures Reap(s, n).cmds[n].clt == s.cmds[n].clt && !Running(Reap(s, n).cmds[n])
    ensures Reap(s, n).children == s.children - {s.cmds[n].pid}
  {}

  lemma QuitEffect(s: State, t: State, n: string)
    requires !s.flags.exited && n in s.cmds && OnlyAt(s, t, n)
    ensures Deleted(s, QuitIfEmpty(Remove(t, n)), n)
    ensures QuitIfEmpty(Remove(t, n)).children == t.children
  {
    EmptyMap(Remove(t, n).cmds);
  }

  lemma PidEventEffect(s: State, n: string, pid: int)
    requires n in s.cmds && Running(s.cmds[n]) && (pid == s.cmds[n].pid || pid > 0) && !s.flags.exited
    ensures Effect(s, Exit(n, pid), PidEvent(s, n, pid))
  {
    hide Reap;
    hide Start;
    hide QuitIfEmpty;
    var t := Reap(s, n);
    ReapOnly(s, n);
    if s.cmds[n].deleteonexit {
      QuitEffect(s, t, n);
    } else {
      StartOnly(t, n, pid);
      OnlyTwice(s, t, Start(t, n, pid), n);
    }
  }

  lemma InsertOnly(s: State, n: string)
    requires n !in s.cmds
    ensures Insert(s, n).cmds == s.cmds[n := NewCmd(s.flags.cmddelonexit)]
    ensures Insert(s, n).flags == s.flags && Insert(s, n).bcst == s.bcst && Insert(s, n).order == s.order + [n]
  {}

  lemma AddedBy(s: State, t: State, u: State, n: string)
    requires n !in s.cmds && t.cmds == s.cmds[n := NewCmd(s.flags.cmddelonexit)] && t.order == s.order + [n]
    requires t.flags == s.flags && t.bcst == s.bcst && OnlyAt(t, u, n) && (s.flags.bcstflg || |t.cmds| <= 1)
    requires u.cmds[n].clt == t.cmds[n].clt && (Running(u.cmds[n]) <==> s.bcst.opens > 0)
    ensures Added(s, u, n)
  {
    KeysSize(t, u);
    assert t.cmds[n] == NewCmd(s.flags.cmddelonexit);
  }

  lemma KeysSize(s: State, t: State)
    requires s.cmds.Keys == t.cmds.Keys
    ensures |s.cmds| == |t.cmds|
  {
    assert |s.cmds| == |s.cmds.Keys| && |t.cmds| == |t.cmds.Keys|;
  }

  lemma OnlySelf(s: State, n: string)
    requires n in s.cmds
    ensures OnlyAt(s, s, n)
  {}

  lemma AddedBcst(s: State, t: State, n: string)
    requires n !in s.cmds && t.cmds == s.cmds[n := NewCmd(s.flags.cmddelonexit)] && t.order == s.order + [n]
    requires t.flags == s.flags && !s.flags.bcstflg && |t.cmds| > 1
    ensures Added(s, t.(flags := t.flags.(bcstflg := true), bcst := Tty(0, "")), n)
  {}

  lemma AddEffect(s: State, n: string, pid: int, t: State)
    requires if n in s.cmds then t == s else Added(s, t, n)
    ensures Effect(s, Add(n, pid), t)
  {}

  lemma MonAddEffect(s: State, n: string, pid: int)
    requires pid > 0
    ensures Effect(s, Add(n, pid), MonAdd(s, n, pid))
  {
    if n !in s.cmds { MonAddIs(s, n, pid); }
    hide Added, Effect, Insert, Start;
    AddEffect(s, n, pid, MonAdd(s, n, pid));
  }

  lemma MonAddIs(s: State, n: string, pid: int)
    requires pid > 0 && n !in s.cmds
    ensures Added(s, MonAdd(s, n, pid), n)
  {
    hide Start, Insert, Added, OnlyAt, Effect;
    var t := Insert(s, n);
    InsertOnly(s, n);
    StartOnly(t, n, pid);
    if !s.flags.bcstflg && |t.cmds| > 1 {
      AddedBcst(s, t, n);
    } else if s.bcst.opens > 0 {
      AddedBy(s, t, Start(t, n, pid), n);
    } else {
      OnlySelf(t, n);
      AddedBy(s, t, t, n);
    }
  }

  lemma MonDelEffect(s: State, n: string)
    requires !s.flags.exited
    ensures Effect(s, Del(n), MonDel(s, n))
  {
    hide Stop;
    hide QuitIfEmpty;
    if n in s.cmds {
      StopOnly(s, n, true);
      QuitEffect(s, Stop(s, n, true), n);
    }
  }

  lemma MonIdleExitEffect(s: State)
    requires !s.flags.exited
    ensures Effect(s, IdleExit, MonIdleExit(s))
  {
    EmptyMap(s.cmds);
  }

  lemma CleanupEffect(s: State)
    ensures Effect(s, Terminate, Cleanup(s))
  {
    hide StopAll;
    StopAllEffect(s, s.order, true);
  }

  lemma NotifyEffect(s: State, e: Event)
    requires e.CmdNotify?
    ensures Effect(s, e, s)
  {}

  lemma StepEffect(s: State, e: Event)
    requires Enabled(s, e) && Listed(s)
    ensures Effect(s, e, Step(s, e))
  {
    hide Effect;
    hide Listed;
    match e
    case CmdWrite(n, b) => WrittenEffect(s, n, b);
    case CmdEvent(n) => ReadEffect(s, n);
    case CmdNotify(_, _) => NotifyEffect(s, e);
    case CltOpen(n, pid) => CltOpenEffect(s, n, pid);
    case CltClose(n) => CltCloseEffect(s, n);
    case CltWrite(n, c) => CltWrittenEffect(s, n, c);
    case CltEvent(n, due) => CltReadableEffect(s, n, due);
    case BcstOpen(pids) => BcstOpenEffect(s, pids);
    case BcstClose => BcstCloseEffect(s);
    case BcstWrite(c) => BcstTtyEffect(s, c, true);
    case BcstEvent(due) => BcstTtyEffect(s, 'x', due);
    case Exit(n, pid) => PidEventEffect(s, n, pid);
    case Add(n, pid) => MonAddEffect(s, n, pid);
    case Del(n) => MonDelEffect(s, n);
    case IdleExit => MonIdleExitEffect(s);
    case Terminate => CleanupEffect(s);
  }

  lemma BcstTtyEffect(s: State, c: char, due: bool)
    ensures Effect(s, BcstWrite(c), s.(bcst := s.bcst.(inq := s.bcst.inq + [c])))
    ensures s.bcst.inq != "" ==> Effect(s, BcstEvent(due), BcstReadable(s, due))
  {}

  // ---- Kept running while open ----

  ghost predicate Open(s: State, n: string)
    requires n in s.cmds
  {
    s.cmds[n].clt.opens > 0 || s.bcst.opens > 0
  }

  ghost predicate KeptRunning(s: State) {
    forall n | n in s.cmds && Open(s, n) :: Running(s.cmds[n])
  }

  // The process of an open command exits and policy says not to restart it.
  ghost predicate LeftDown(s: State, e: Event) {
    e.Exit? && e.name in s.cmds && Open(s, e.name)
    && !s.cmds[e.name].deleteonexit && !(s.flags.restart && s.cmds[e.name].restart)
  }

  lemma KeepEffect(s: State, e: Event, t: State)
    requires Effect(s, e, t) && KeptRunning(s) && (!s.flags.bcstflg ==> s.bcst == Tty(0, ""))
    ensures KeptRunning(t) <==> !LeftDown(s, e)
  {
    if LeftDown(s, e) { assert Open(t, e.name); }
  }

  // Every step keeps open commands running, except exactly the exit of an open command
  // that neither is deleted nor restarted.
  lemma KeepStep(s: State, e: Event)
    requires Core(s) && Enabled(s, e) && KeptRunning(s)
    ensures KeptRunning(Step(s, e)) <==> !LeftDown(s, e)
  {
    StepEffect(s, e);
    hide Step;
    KeepEffect(s, e, Step(s, e));
  }

  // ---- No idle process ----

  ghost predicate Wanted(s: State, n: string)
    requires n in s.cmds
  {
    !Idle(s.cmds[n].clt) || !Idle(s.bcst)
  }

  ghost predicate NoIdle(s: State) {
    forall n | n in s.cmds && Running(s.cmds[n]) :: Wanted(s, n)
  }

  // bcstttyEvent reads the last byte of a closed broadcast tty; it calls no cmdStop.
  ghost predicate LastBroadcastByte(s: State, e: Event) {
    && e.BcstEvent? && e.due && !BcstBlocked(s)
    && s.bcst.opens == 0 && |s.bcst.inq| == 1
    && exists n :: n in s.cmds && Running(s.cmds[n]) && Idle(s.cmds[n].clt)
  }

  lemma NoIdleEffect(s: State, e: Event, t: State)
    requires Effect(s, e, t) && NoIdle(s) && (!s.flags.bcstflg ==> s.bcst == Tty(0, ""))
    ensures NoIdle(t) <==> !LastBroadcastByte(s, e)
  {
    if LastBroadcastByte(s, e) {
      var n :| n in s.cmds && Running(s.cmds[n]) && Idle(s.cmds[n].clt);
      assert !Wanted(t, n);
    } else {
      forall n | n in t.cmds && Running(t.cmds[n]) ensures Wanted(t, n) {
        if n in s.cmds && Running(s.cmds[n]) { assert Wanted(s, n); }
      }
    }
  }

  // A process runs only while one of its ttys is open or has unread bytes; the only
  // step that breaks this is the one above.
  lemma NoIdleStep(s: State, e: Event)
    requires Core(s) && Enabled(s, e) && NoIdle(s)
    ensures NoIdle(Step(s, e)) <==> !LastBroadcastByte(s, e)
  {
    StepEffect(s, e);
    hide Step;
    NoIdleEffect(s, e, Step(s, e));
  }

  // ---- Idle exit ----

  // After monIdleExit: every command goes away with its process.
  ghost predicate Draining(s: State) {
    && s.flags.exitonidle && s.flags.cmddelonexit
    && (forall n | n in s.cmds :: s.cmds[n].deleteonexit)
    && (s.flags.exited <==> s.cmds == map[])
  }

  lemma IdleExitDrains(s: State)
    requires Core(s) && Enabled(s, IdleExit)
    ensures Draining(Step(s, IdleExit))
  {
    StepEffect(s, IdleExit);
    hide Step;
    assert Step(s, IdleExit).cmds == map[] <==> s.cmds.Keys == {};
  }

  // How many commands an event takes out of the table while draining.
  ghost function Gone(s: State, e: Event): nat {
    match e
    case Exit(_, _) => 1
    case Del(n) => if n in s.cmds then 1 else 0
    case _ => 0
  }

  lemma TableKept(s: State, e: Event, t: State)
    requires Effect(s, e, t) && Draining(s) && !s.flags.exited
    requires !e.Exit? && !e.Del? && !e.Add? && !e.Terminate?
    ensures t.cmds.Keys == s.cmds.Keys && t.flags.exitonidle && t.flags.cmddelonexit && !t.flags.exited
    ensures forall n | n in s.cmds :: s.cmds[n].deleteonexit ==> t.cmds[n].deleteonexit
  {
    hide Idle, Opened, Closed, BcstBlocked;
  }

  lemma DrainingFrom(s: State, t: State)
    requires Draining(s) && !s.flags.exited && t.cmds.Keys == s.cmds.Keys
    requires t.flags.exitonidle && t.flags.cmddelonexit && !t.flags.exited
    requires forall n | n in s.cmds :: s.cmds[n].deleteonexit ==> t.cmds[n].deleteonexit
    ensures Draining(t)
  {
    assert t.cmds == map[] <==> t.cmds.Keys == {};
  }

  lemma DrainingEffect(s: State, e: Event, t: State)
    requires Effect(s, e, t) && Draining(s) && !s.flags.exited
    ensures Draining(t)
    ensures e.Exit? ==> t.cmds == s.cmds - {e.name} && t.children == s.children - {s.cmds[e.name].pid}
    ensures !e.Exit? && !e.Del? && !e.Add? && !e.Terminate? ==> t.cmds.Keys == s.cmds.Keys
    ensures e.Del? ==> t.cmds == s.cmds - {e.name}
  {
    if e.Exit? || e.Del? {
      DrainingLess(s, e, t);
      hide *;
    } else if e.Add? || e.Terminate? {
      DrainingMore(s, e, t);
      hide *;
    } else {
      TableKept(s, e, t);
      hide *;
      DrainingFrom(s, t);
    }
  }

  lemma DrainingLess(s: State, e: Event, t: State)
    requires Effect(s, e, t) && Draining(s) && !s.flags.exited && (e.Exit? || e.Del?)
    ensures Draining(t) && t.cmds == s.cmds - {e.name}
    ensures e.Exit? ==> t.children == s.children - {s.cmds[e.name].pid}
  {
    assert s.cmds.Keys != {};
    assert t.cmds == map[] <==> t.cmds.Keys == {};
  }

  lemma DrainingMore(s: State, e: Event, t: State)
    requires Effect(s, e, t) && Draining(s) && !s.flags.exited && (e.Add? || e.Terminate?)
    ensures Draining(t)
  {
    assert t.cmds == map[] <==> t.cmds.Keys == {};
  }

  // Draining lasts: yar has exited exactly when the table is empty, commands added
  // meanwhile go the same way, and an exit removes its command and starts nothing.
  lemma DrainingStep(s: State, e: Event)
    requires Core(s) && Enabled(s, e) && Draining(s)
    ensures Draining(Step(s, e))
    ensures e.Exit? ==>
      Step(s, e).cmds == s.cmds - {e.name}
      && Step(s, e).children == s.children - {s.cmds[e.name].pid}
    ensures !e.Add? && !e.Terminate? ==> |Step(s, e).cmds| == |s.cmds| - Gone(s, e)
  {
    StepEffect(s, e);
    hide Step, Effect, Core;
    var t := Step(s, e);
    DrainingEffect(s, e, t);
    assert |s.cmds| == |s.cmds.Keys| && |t.cmds| == |t.cmds.Keys|;
    if e.Exit? || e.Del? { assert t.cmds.Keys == s.cmds.Keys - {e.name}; }
  }

  ghost function GoneIn(s: State, evs: seq<Event>): nat
    requires Admitted(s, evs)
  {
    if evs == [] then 0
    else GoneIn(s, evs[..|evs| - 1]) + Gone(Run(s, evs[..|evs| - 1]), evs[|evs| - 1])
  }

  ghost predicate Quiet(evs: seq<Event>) {
    forall e | e in evs :: !e.Add? && !e.Terminate?
  }

  // Convergence: with no further additions, yar exits exactly when as many exits and
  // deletions have happened as there were commands, and never before.
  lemma {:induction false} Converges(s: State, evs: seq<Event>)
    requires Core(s) && Draining(s) && Admitted(s, evs) && Quiet(evs)
    ensures Core(Run(s, evs)) && Draining(Run(s, evs))
    ensures |Run(s, evs).cmds| == |s.cmds| - GoneIn(s, evs)
    ensures Run(s, evs).flags.exited <==> GoneIn(s, evs) == |s.cmds|
  {
    if evs != [] {
      var front, e := evs[..|evs| - 1], evs[|evs| - 1];
      Converges(s, front);
      StepCore(Run(s, front), e);
      DrainingStep(Run(s, front), e);
    }
    EmptyMap(Run(s, evs).cmds);
  }

  // ---- Over whole runs ----

  lemma {:induction false} PolicyFixed(s: State, evs: seq<Event>)
    requires Core(s) && Admitted(s, evs)
    ensures Core(Run(s, evs))
    ensures Run(s, evs).flags.readystr == s.flags.readystr && Run(s, evs).flags.restart == s.flags.restart
    ensures (forall n | n in s.cmds :: s.cmds[n].restart) ==> (forall n | n in Run(s, evs).cmds :: Run(s, evs).cmds[n].restart)
  {
    if evs != [] {
      var front, e := evs[..|evs| - 1], evs[|evs| - 1];
      PolicyFixed(s, front);
      StepCore(Run(s, front), e);
      StepEffect(Run(s, front), e);
      PolicyEffect(Run(s, front), e, Run(s, evs));
    }
  }

  lemma RestartKept(s: State, e: Event, t: State, n: string)
    requires Effect(s, e, t) && n in t.cmds
    ensures if n in s.cmds then t.cmds[n].restart == s.cmds[n].restart else t.cmds[n].restart
  {
    if e.Add? || e.Del? || e.Exit? {
      RestartTable(s, e, t, n);
      hide *;
    } else {
      RestartSame(s, e, t, n);
      hide *;
    }
  }

  lemma RestartTable(s: State, e: Event, t: State, n: string)
    requires Effect(s, e, t) && n in t.cmds && (e.Add? || e.Del? || e.Exit?)
    ensures if n in s.cmds then t.cmds[n].restart == s.cmds[n].restart else t.cmds[n].restart
  {
    hide Without, Running;
  }

  lemma RestartSame(s: State, e: Event, t: State, n: string)
    requires Effect(s, e, t) && n in t.cmds && !e.Add? && !e.Del? && !e.Exit?
    ensures if n in s.cmds then t.cmds[n].restart == s.cmds[n].restart else t.cmds[n].restart
  {
    hide Idle, Opened, Closed, BcstBlocked, Running, Without, IsReady;
  }

  lemma FlagsKept(s: State, e: Event, t: State)
    requires Effect(s, e, t)
    ensures t.flags.readystr == s.flags.readystr && t.flags.restart == s.flags.restart
  {
    ReadystrKept(s, e, t);
    GlobalRestartKept(s, e, t);
    hide *;
  }

  lemma ReadystrKept(s: State, e: Event, t: State)
    requires Effect(s, e, t)
    ensures t.flags.readystr == s.flags.readystr
  {
    hide Idle, Opened, Closed, BcstBlocked, Running, Without;
  }

  lemma GlobalRestartKept(s: State, e: Event, t: State)
    requires Effect(s, e, t)
    ensures t.flags.restart == s.flags.restart
  {
    hide Idle, Opened, Closed, BcstBlocked, Running, Without;
  }

  lemma PolicyEffect(s: State, e: Event, t: State)
    requires Effect(s, e, t)
    ensures t.flags.readystr == s.flags.readystr && t.flags.restart == s.flags.restart
    ensures (forall n | n in s.cmds :: s.cmds[n].restart) ==> (forall n | n in t.cmds :: t.cmds[n].restart)
  {
    hide *;
    FlagsKept(s, e, t);
    forall n | n in t.cmds && forall m | m in s.cmds :: s.cmds[m].restart ensures t.cmds[n].restart {
      RestartKept(s, e, t, n);
    }
  }

  // Kept running while open: in every run in which commands are restarted globally, a
  // command of the table runs whenever its client tty or the broadcast tty is open.
  lemma {:induction false} KeptRunningRun(s: State, evs: seq<Event>)
    requires Init(s) && s.flags.restart && Admitted(s, evs)
    ensures KeptRunning(Run(s, evs))
  {
    InitInv(s);
    if evs != [] {
      var front, e := evs[..|evs| - 1], evs[|evs| - 1];
      KeptRunningRun(s, front);
      PolicyFixed(s, front);
      KeepStep(Run(s, front), e);
    }
  }

  ghost predicate NoLastBroadcastByte(s: State, evs: seq<Event>)
    requires Admitted(s, evs)
  {
    evs == [] || (NoLastBroadcastByte(s, evs[..|evs| - 1])
                  && !LastBroadcastByte(Run(s, evs[..|evs| - 1]), evs[|evs| - 1]))
  }

  // No idle process in any run that never takes the step that forgets to stop; runs
  // without a broadcast tty are among them.
  lemma {:induction false} NoIdleRun(s: State, evs: seq<Event>)
    requires Init(s) && Admitted(s, evs) && NoLastBroadcastByte(s, evs)
    ensures NoIdle(Run(s, evs))
  {
    InitInv(s);
    if evs != [] {
      var front, e := evs[..|evs| - 1], evs[|evs| - 1];
      NoIdleRun(s, front);
      PolicyFixed(s, front);
      NoIdleStep(Run(s, front), e);
    }
  }

  // ---- Single instance ----

  // cmdStop does nothing a second time.
  lemma StopTwice(s: State, n: string, force: bool)
    requires n in s.cmds
    ensures Stop(Stop(s, n, force), n, force) == Stop(s, n, force)
  {}
}
