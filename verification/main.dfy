// The event handlers of cmd.c and main.c over the whole table, each proved to take the
// heap from a lifecycle state s to the one its step gives.
module Main {
  import opened Text
  import opened Ttys
  import opened Cmds
  import opened Wires
  import L = Lifecycle

  twostate lemma SidesSame(g: Globals)
    requires g.cmds == old(g.cmds)
    requires forall n | n in g.cmds :: g.cmds[n].Side() == old(g.cmds[n].Side())
    ensures g.Sides() == old(g.Sides())
  {
    hide Cmd.Side;
  }

  twostate lemma SentsSame(g: Globals)
    requires g.cmds == old(g.cmds)
    requires forall n | n in g.cmds :: g.cmds[n].Sent() == old(g.cmds[n].Sent())
    ensures g.Sents() == old(g.Sents())
  {
    hide Cmd.Sent;
  }

  // What a method on c alone needs to know, and what keeps it from the others.
  lemma OneCommand(g: Globals, c: Cmd, s: L.State)
    requires g.Table() && c.name in g.cmds && g.cmds[c.name] == c && g.Is(s)
    ensures g.Alone(c) && g.Isolated(c)
    ensures c.name in s.cmds && c.Proc() == s.cmds[c.name] && g.children == s.children && g.cmdsreadycnt == s.cmdsreadycnt
    ensures forall n | n in g.cmds && n != c.name ::
      && g.cmds[n] != c && g.cmds[n].cmdtty != c.cmdtty && g.cmds[n].cmdtty != c.clttty
      && g.cmds[n].buf != c.buf && g.cmds[n].buf != c.cmdtty.discards && g.cmds[n].buf != c.clttty.discards
    ensures c.cmdtty != c.clttty
  {}

  // A command the table lists is under its own name.
  lemma NameIs(g: Globals, n: string)
    requires g.Table() && n in g.cmds
    ensures g.cmds[n].name == n && g.cmds[g.cmds[n].name] == g.cmds[n]
  {}

  // ---- One command at a time: the heap follows any state t that moves only c ----

  method StartTo(g: Globals, c: Cmd, child: int, ghost s: L.State, ghost t: L.State)
    requires child > 0 && g.Is(s) && g.Alone(c)
    requires var o := c.Proc();
      L.Moves(s, t, c.name, if L.Running(o) then o else L.Launch(o, child), s.cmdsreadycnt,
              if L.Running(o) then s.children else s.children[child := c.name], s.flags.aborted)
    modifies c`pid, c`readycnt, c`seen, c`life, g`children
    ensures g.Is(t)
  {
    hide Cmd.Proc, L.Moves, L.Halt, L.Launch, L.Opened, L.Closed, L.Counts, L.Stops, L.One, L.IsReady, L.Running, Due, Cmd.Side;
    var started := c.Start(g, child);
    g.Settle(s, t, c.name);
  }

  method OpenTo(g: Globals, c: Cmd, child: int, ghost s: L.State, ghost t: L.State)
    requires child > 0 && g.Is(s) && g.Alone(c)
    requires var o := c.Proc().(clt := L.Opened(c.Proc().clt));
      L.Moves(s, t, c.name, if L.Running(o) then o else L.Launch(o, child), s.cmdsreadycnt,
              if L.Running(o) then s.children else s.children[child := c.name], s.flags.aborted)
    modifies c`pid, c`readycnt, c`seen, c`life, g`children, c.clttty`opens
    ensures g.Is(t)
  {
    hide Cmd.Proc, L.Moves, L.Halt, L.Launch, L.Opened, L.Closed, L.Counts, L.Stops, L.One, L.IsReady, L.Running, Due, Cmd.Side;
    c.OpenClient(g, child);
    g.Settle(s, t, c.name);
  }

  // The step that ends in a command p that cmdStop has stopped or left alone.
  ghost predicate StopMoves(s: L.State, t: L.State, n: string, p: L.Cmd, stops: bool) {
    var ready := L.ReadyStr(s);
    L.Moves(s, t, n, if stops then L.Halt(ready, p) else p, s.cmdsreadycnt - L.One(stops && L.Counts(ready, p)),
            if stops then s.children - {p.pid} else s.children, s.flags.aborted)
  }

  // The heap has followed it.
  lemma SettleStop(g: Globals, c: Cmd, s: L.State, t: L.State, p: L.Cmd, stops: bool)
    requires g.IsBut(s, c.name) && c.name in g.cmds && g.cmds[c.name] == c && g.aborted == s.flags.aborted
    requires StopMoves(s, t, c.name, p, stops) && c.Settled(g, p, stops, s.cmdsreadycnt, s.children)
    requires g.Ready() == L.ReadyStr(s)
    ensures g.Is(t)
  {
    hide Cmd.Proc, L.Moves, L.Halt, L.Counts, L.One, Globals.IsBut;
    g.Settle(s, t, c.name);
  }

  // What the heap holds beside c.
  lemma BesideIs(g: Globals, c: Cmd, s: L.State)
    requires g.Is(s) && c.name in g.cmds && g.cmds[c.name] == c
    ensures g.IsBut(s, c.name) && g.aborted == s.flags.aborted && g.Ready() == L.ReadyStr(s)
    ensures s.bcst == L.Tty(g.bcsttty.opens, g.bcsttty.inq)
    ensures s.cmdsreadycnt == g.cmdsreadycnt && s.children == g.children
  {}

  method CloseTo(g: Globals, c: Cmd, now: real, ghost s: L.State, ghost t: L.State)
    requires g.Is(s) && g.Alone(c) && c.Counted(g)
    requires var o := c.Proc().(clt := L.Closed(c.Proc().clt));
      StopMoves(s, t, c.name, o, L.Stops(o, s.bcst, false))
    modifies c`pid, c`readycnt, c`life, c`lastwrite, c`log, g`cmdsreadycnt, g`children, c.clttty`opens, c.cmdtty, c.cmdtty.discards
    ensures g.Is(t)
    ensures c.Side() == old(c.Side())
    ensures var stopped := old(c.IsRunning()) && !c.IsRunning();
      c.Sent() == if stopped then old(c.Sent()).Plus(c.StopText(g), Delivery(now, StopString)) else old(c.Sent())
  {
    hide Cmd.Proc, L.Moves, L.Halt, L.Launch, L.Opened, L.Closed, L.Counts, L.Stops, L.One, L.IsReady, L.Running, Due, Cmd.Side;
    hide Cmd.Sent, Cmd.Counted, Cmd.StopText, Sending.Plus;
    BesideIs(g, c, s);
    hide StopMoves, Cmd.Settled, Globals.Is;
    ghost var o := c.Proc().(clt := L.Closed(c.Proc().clt));
    c.CloseClient(g, now);
    SettleStop(g, c, s, t, o, L.Stops(o, s.bcst, false));
  }

  method StopTo(g: Globals, c: Cmd, force: bool, now: real, ghost s: L.State, ghost t: L.State)
    requires g.Is(s) && g.Alone(c) && c.Counted(g)
    requires StopMoves(s, t, c.name, c.Proc(), L.Stops(c.Proc(), s.bcst, force))
    modifies c`pid, c`readycnt, c`life, c`lastwrite, c`log, g`cmdsreadycnt, g`children, c.cmdtty, c.cmdtty.discards
    ensures g.Is(t)
    ensures c.Side() == old(c.Side())
    ensures var stopped := old(c.IsRunning()) && !c.IsRunning();
      c.Sent() == if stopped then old(c.Sent()).Plus(c.StopText(g), Delivery(now, StopString)) else old(c.Sent())
  {
    hide Cmd.Proc, L.Moves, L.Halt, L.Launch, L.Opened, L.Closed, L.Counts, L.Stops, L.One, L.IsReady, L.Running, Due, Cmd.Side;
    hide Cmd.Sent, Cmd.Counted, Cmd.StopText, Sending.Plus;
    BesideIs(g, c, s);
    hide StopMoves, Cmd.Settled, Globals.Is;
    ghost var o := c.Proc();
    var stopped := c.Stop(g, force, now);
    SettleStop(g, c, s, t, o, L.Stops(o, s.bcst, force));
  }

  lemma ForwardsIs(s: L.State, n: string, due: bool)
    requires n in s.cmds
    ensures L.Forwards(s, n, due) <==> L.IsReady(L.ReadyStr(s), s.cmds[n]) && due
  {}

  lemma WaitsIs(c: Cmd)
    ensures c.Proc().clt.inq == c.clttty.inq
  {}

  method ReadTo(g: Globals, c: Cmd, now: real, ghost s: L.State, ghost t: L.State)
    requires g.Is(s) && g.Alone(c) && c.Counted(g) && c.clttty.inq != ""
    requires var o := c.Proc();
      if L.IsReady(L.ReadyStr(s), o) && Due(c.lastwrite, c.delay, now) then
        var r := o.(clt := o.clt.(inq := o.clt.inq[1..]));
        StopMoves(s, t, c.name, r, L.Stops(r, s.bcst, false))
      else StopMoves(s, t, c.name, o, false)
    modifies c`pid, c`readycnt, c`life, c`lastwrite, c`log, g`cmdsreadycnt, g`children, c.clttty, c.cmdtty, c.cmdtty.discards
    ensures g.Is(t)
    ensures !L.Forwards(s, c.name, Due(old(c.lastwrite), c.delay, now)) ==> c.Sent() == old(c.Sent())
    ensures L.Forwards(s, c.name, Due(old(c.lastwrite), c.delay, now)) ==>
      var stopped := old(c.IsRunning()) && !c.IsRunning();
      c.Sent() == old(c.Sent()).Plus([old(c.clttty.inq)[0]], Delivery(now, Client))
                               .Plus(if stopped then c.StopText(g) else "", Delivery(now, StopString))
    ensures c.Side() == old(c.Side())
    ensures !L.Forwards(s, c.name, Due(old(c.lastwrite), c.delay, now)) ==> c.IsRunning() == old(c.IsRunning())
  {
    hide Cmd.Proc, L.Moves, L.Halt, L.Launch, L.Opened, L.Closed, L.Counts, L.Stops, L.One, L.IsReady, L.Running, Due, Cmd.Side;
    hide Cmd.Sent, Cmd.Counted, Cmd.StopText, Sending.Plus;
    assert L.IsReady(L.ReadyStr(s), s.cmds[c.name]) == L.IsReady(g.Ready(), c.Proc());
    ForwardsIs(s, c.name, Due(c.lastwrite, c.delay, now));
    BesideIs(g, c, s);
    hide L.Forwards, StopMoves, Cmd.Settled, Globals.Is;
    ghost var o, due := c.Proc(), Due(c.lastwrite, c.delay, now);
    assert o.clt.inq != "" by { WaitsIs(c); }
    ghost var r := o.(clt := o.clt.(inq := o.clt.inq[1..]));
    var byte := c.ReadClient(g, now);
    if L.IsReady(g.Ready(), o) && due {
      SettleStop(g, c, s, t, r, L.Stops(r, s.bcst, false));
    } else {
      SettleStop(g, c, s, t, o, false);
    }
  }

  // ---- The handlers of one command ----

  lemma StartMove(s: L.State, n: string, child: int)
    requires n in s.cmds
    ensures var o := s.cmds[n];
      L.Moves(s, L.Start(s, n, child), n, if L.Running(o) then o else L.Launch(o, child), s.cmdsreadycnt,
              if L.Running(o) then s.children else s.children[child := n], s.flags.aborted)
  {}

  lemma OpenMove(s: L.State, n: string, child: int)
    requires n in s.cmds
    ensures var o := s.cmds[n].(clt := L.Opened(s.cmds[n].clt));
      L.Moves(s, L.CltNotifyOpen(s, n, child), n, if L.Running(o) then o else L.Launch(o, child), s.cmdsreadycnt,
              if L.Running(o) then s.children else s.children[child := n], s.flags.aborted)
  {}

  lemma StopMove(s: L.State, n: string, force: bool)
    requires n in s.cmds
    ensures StopMoves(s, L.Stop(s, n, force), n, s.cmds[n], L.Stops(s.cmds[n], s.bcst, force))
  {}

  lemma CloseMove(s: L.State, n: string)
    requires n in s.cmds
    ensures var o := s.cmds[n].(clt := L.Closed(s.cmds[n].clt));
      StopMoves(s, L.CltNotifyClose(s, n), n, o, L.Stops(o, s.bcst, false))
  {
    StopMove(L.SetClt(s, n, L.Closed(s.cmds[n].clt)), n, false);
  }

  lemma ReadMove(s: L.State, n: string, due: bool)
    requires n in s.cmds && s.cmds[n].clt.inq != ""
    ensures var o := s.cmds[n];
      if L.IsReady(L.ReadyStr(s), o) && due then
        var r := o.(clt := o.clt.(inq := o.clt.inq[1..]));
        StopMoves(s, L.CltReadable(s, n, due), n, r, L.Stops(r, s.bcst, false))
      else StopMoves(s, L.CltReadable(s, n, due), n, o, false)
  {
    var q := s.cmds[n].clt;
    StopMove(L.SetClt(s, n, q.(inq := q.inq[1..])), n, false);
  }

  // The global count is at least the number of ready commands.
  lemma CountedByCore(g: Globals, c: Cmd, s: L.State)
    requires g.Is(s) && c.name in g.cmds && g.cmds[c.name] == c && L.Core(s)
    ensures c.Counted(g)
  {
    if |g.Ready()| > 0 && c.readycnt == |g.Ready()| {
      assert c.name in L.ReadySet(s);
    }
  }

  lemma PidIs(s: L.State, child: int)
    requires L.FreshPid(s, child)
    ensures child > 0
  {}

  // ttyNotifyEvent and cmdCltttyNotify
  method CltttyOpen(g: Globals, c: Cmd, child: int, ghost s: L.State)
    requires g.Table() && c.name in g.cmds && g.cmds[c.name] == c
    requires g.Is(s) && L.FreshPid(s, child)
    modifies c`pid, c`readycnt, c`seen, c`life, g`children, c.clttty`opens
    ensures g.Is(L.CltNotifyOpen(s, c.name, child)) && g.Sides() == old(g.Sides()) && g.Sents() == old(g.Sents())
  {
    hide *;
    PidIs(s, child);
    OneCommand(g, c, s);
    OpenMove(s, c.name, child);
    OpenTo(g, c, child, s, L.CltNotifyOpen(s, c.name, child));
    SidesSame(g);
    SentsSame(g);
  }

  method CltttyClose(g: Globals, c: Cmd, now: real, ghost s: L.State)
    requires g.Table() && c.name in g.cmds && g.cmds[c.name] == c
    requires g.Is(s) && L.Core(s)
    modifies c`pid, c`readycnt, c`life, c`lastwrite, c`log, g`cmdsreadycnt, g`children, c.clttty`opens, c.cmdtty, c.cmdtty.discards
    ensures g.Is(L.CltNotifyClose(s, c.name)) && g.Sides() == old(g.Sides())
    ensures var stopped := old(c.IsRunning()) && !c.IsRunning();
      c.Sent() == if stopped then old(c.Sent()).Plus(c.StopText(g), Delivery(now, StopString)) else old(c.Sent())
    ensures g.Sents() == old(g.Sents())[c.name := c.Sent()]
  {
    hide *;
    OneCommand(g, c, s);
    SentsAt(g);
    CountedByCore(g, c, s);
    CloseMove(s, c.name);
    CloseTo(g, c, now, s, L.CltNotifyClose(s, c.name));
    SidesSame(g);
    SentsAre(g, old(g.Sents())[c.name := c.Sent()]);
  }

  // cmdCltttyEvent
  method CltttyEvent(g: Globals, c: Cmd, now: real, ghost s: L.State)
    requires g.Table() && c.name in g.cmds && g.cmds[c.name] == c
    requires g.Is(s) && L.Core(s) && c.clttty.inq != ""
    modifies c`pid, c`readycnt, c`life, c`lastwrite, c`log, g`cmdsreadycnt, g`children, c.clttty, c.cmdtty, c.cmdtty.discards
    ensures g.Is(L.CltReadable(s, c.name, Due(old(c.lastwrite), c.delay, now))) && g.Sides() == old(g.Sides())
    ensures g.Sents() == old(g.Sents())[c.name := c.Sent()]
    ensures !L.Forwards(s, c.name, Due(old(c.lastwrite), c.delay, now)) ==> c.Sent() == old(c.Sent())
    ensures L.Forwards(s, c.name, Due(old(c.lastwrite), c.delay, now)) ==>
      var stopped := old(c.IsRunning()) && !c.IsRunning();
      c.Sent() == old(c.Sent()).Plus([old(c.clttty.inq)[0]], Delivery(now, Client))
                               .Plus(if stopped then c.StopText(g) else "", Delivery(now, StopString))
    ensures !L.Forwards(s, c.name, Due(old(c.lastwrite), c.delay, now)) ==> c.IsRunning() == old(c.IsRunning())
  {
    hide *;
    OneCommand(g, c, s);
    SentsAt(g);
    CountedByCore(g, c, s);
    WaitingIs(g, c, s);
    ReadMove(s, c.name, Due(c.lastwrite, c.delay, now));
    ReadTo(g, c, now, s, L.CltReadable(s, c.name, Due(c.lastwrite, c.delay, now)));
    SidesSame(g);
    SentsAre(g, old(g.Sents())[c.name := c.Sent()]);
  }

  lemma WaitingIs(g: Globals, c: Cmd, s: L.State)
    requires g.Table() && c.name in g.cmds && g.cmds[c.name] == c && g.Is(s)
    ensures c.name in s.cmds && s.cmds[c.name].clt.inq == c.clttty.inq
  {}

  // ---- The handlers that loop over the table ----

  lemma StartAllNext(s: L.State, order: seq<string>, i: nat, pids: map<string, int>)
    requires i < |order| && order[i] in s.cmds && order[i] in pids
    ensures L.StartAll(s, order[..i + 1], pids) == L.Start(L.StartAll(s, order[..i], pids), order[i], pids[order[i]])
  {
    assert order[..i + 1][..i] == order[..i];
  }

  lemma StopAllNext(s: L.State, order: seq<string>, i: nat, force: bool)
    requires i < |order| && order[i] in s.cmds
    ensures L.StopAll(s, order[..i + 1], force) == L.Stop(L.StopAll(s, order[..i], force), order[i], force)
  {
    assert order[..i + 1][..i] == order[..i];
  }

  method StartNext(g: Globals, c: Cmd, child: int, ghost s: L.State)
    requires g.Table() && c.name in g.cmds && g.cmds[c.name] == c && g.Is(s) && child > 0
    modifies c`pid, c`readycnt, c`seen, c`life, g`children
    ensures g.Is(L.Start(s, c.name, child)) && g.Sides() == old(g.Sides()) && g.Sents() == old(g.Sents())
  {
    hide *;
    OneCommand(g, c, s);
    StartMove(s, c.name, child);
    StartTo(g, c, child, s, L.Start(s, c.name, child));
    SidesSame(g);
    SentsSame(g);
  }

  method StopNext(g: Globals, c: Cmd, force: bool, now: real, ghost s: L.State)
    requires g.Table() && c.name in g.cmds && g.cmds[c.name] == c && g.Is(s) && L.Core(s)
    modifies c`pid, c`readycnt, c`life, c`lastwrite, c`log, g`children, g`cmdsreadycnt, c.cmdtty, c.cmdtty.discards
    ensures g.Is(L.Stop(s, c.name, force)) && g.Sides() == old(g.Sides())
    ensures var stopped := old(c.IsRunning()) && !c.IsRunning();
      c.Sent() == if stopped then old(c.Sent()).Plus(c.StopText(g), Delivery(now, StopString)) else old(c.Sent())
    ensures g.Sents() == old(g.Sents())[c.name := c.Sent()]
  {
    hide *;
    OneCommand(g, c, s);
    SentsAt(g);
    CountedByCore(g, c, s);
    StopMove(s, c.name, force);
    StopTo(g, c, force, now, s, L.Stop(s, c.name, force));
    SidesSame(g);
    SentsAre(g, old(g.Sents())[c.name := c.Sent()]);
  }

  // The objects that handlers and loops over the table may write.
  ghost predicate CoversCmd(c: Cmd, objs: set<object>) {
    && c in objs && c.buf in objs && c.cmdtty in objs && c.cmdtty.discards in objs
    && c.clttty in objs && c.clttty.discards in objs
  }

  ghost predicate Covers(g: Globals, objs: set<object>)
    reads g`cmds
  {
    && (forall n | n in g.cmds :: CoversCmd(g.cmds[n], objs))
    && g !in objs && g.bcsttty !in objs && g.bcsttty.discards !in objs
  }

  lemma Covered(g: Globals, objs: set<object>, n: string)
    requires g.Table() && Covers(g, objs) && n in g.cmds
    ensures g !in objs && g.bcsttty !in objs && g.bcsttty.discards !in objs
    ensures var c := g.cmds[n];
      && CoversCmd(c, objs) && c.name == n
      && c in objs && c.buf in objs && c.cmdtty in objs && c.cmdtty.discards in objs
      && c.clttty in objs && c.clttty.discards in objs
  {}

  lemma Uncovered(g: Globals, objs: set<object>)
    requires Covers(g, objs)
    ensures g !in objs && g.bcsttty !in objs && g.bcsttty.discards !in objs
  {}

  lemma StartAllNone(s: L.State, pids: map<string, int>)
    ensures L.StartAll(s, [], pids) == s
  {}

  // for every command: cmdStart (main.c:552-556)
  method StartEach(g: Globals, order: seq<string>, pids: map<string, int>, ghost objs: set<object>, ghost s: L.State)
    requires g.Table() && g.Is(s) && Covers(g, objs)
    requires forall n | n in order :: n in g.cmds && n in pids && pids[n] > 0
    modifies objs, g`children
    ensures g.Is(L.StartAll(s, order, pids)) && g.Sides() == old(g.Sides()) && g.Sents() == old(g.Sents())
  {
    hide *;
    StartAllNone(s, pids);
    Flags(g, s);
    Uncovered(g, objs);
    ghost var t := s;
    for i := 0 to |order|
      invariant t == L.StartAll(s, order[..i], pids) && g.Is(t) && g.Sides() == old(g.Sides()) && g.Sents() == old(g.Sents())
    {
      var n := order[i];
      Covered(g, objs, n);
      StartAllNext(s, order, i, pids);
      StartNext(g, g.cmds[n], pids[n], t);
      t := L.StartAll(s, order[..i + 1], pids);
    }
    assert order[..|order|] == order;
  }

  lemma StopAllNone(s: L.State, force: bool)
    ensures L.StopAll(s, [], force) == s
  {}

  lemma StopKeeps(s: L.State, n: string, force: bool)
    requires L.Core(s) && n in s.cmds
    ensures L.Core(L.Stop(s, n, force)) && L.Stop(s, n, force).cmds.Keys == s.cmds.Keys
  {
    L.StopFollows(s, n, force);
  }

  // Stopping starts nothing.
  ghost predicate NoneStarted(s: L.State, t: L.State) {
    t.cmds.Keys == s.cmds.Keys && forall n | n in s.cmds && L.Running(t.cmds[n]) :: L.Running(s.cmds[n])
  }

  lemma StopsNone(g: Globals, s: L.State, now: real)
    requires g.Is(s)
    ensures NoneStarted(s, s) && StopSents(g.Sents(), g.Texts(), s, s, now) == g.Sents()
  {
    hide Cmd.Sent, Cmd.Proc;
  }

  lemma TextIs(g: Globals, n: string)
    requires n in g.cmds
    ensures n in g.Texts() && g.Texts()[n] == g.cmds[n].StopText(g)
  {}

  lemma StopsNext(sents: map<string, Sending>, texts: map<string, string>, s: L.State, t: L.State, n: string,
                  force: bool, now: real)
    requires NoneStarted(s, t) && n in s.cmds && n in sents && n in texts
    ensures var u, before := L.Stop(t, n, force), StopSents(sents, texts, s, t, now);
      && NoneStarted(s, u)
      && StopSents(sents, texts, s, u, now) ==
         before[n := if Halted(t, u, n) then before[n].Plus(texts[n], Delivery(now, StopString)) else before[n]]
  {
    hide Sending.Plus, L.Halt;
  }

  lemma RunningIs(g: Globals, c: Cmd, s: L.State)
    requires g.Is(s) && c.name in g.cmds && g.cmds[c.name] == c
    ensures c.name in s.cmds && (c.IsRunning() <==> L.Running(s.cmds[c.name]))
  {}

  method StopStep(g: Globals, c: Cmd, force: bool, now: real, ghost s: L.State, ghost t: L.State, ghost sents: map<string, Sending>)
    requires g.Table() && c.name in g.cmds && g.cmds[c.name] == c && g.Is(t) && L.Core(t) && NoneStarted(s, t)
    requires sents.Keys == g.cmds.Keys && g.Sents() == StopSents(sents, g.Texts(), s, t, now)
    modifies c`pid, c`readycnt, c`life, c`lastwrite, c`log, g`children, g`cmdsreadycnt, c.cmdtty, c.cmdtty.discards
    ensures g.Is(L.Stop(t, c.name, force)) && g.Sides() == old(g.Sides()) && NoneStarted(s, L.Stop(t, c.name, force))
    ensures g.Sents() == StopSents(sents, g.Texts(), s, L.Stop(t, c.name, force), now)
  {
    hide *;
    RunningIs(g, c, t);
    TextIs(g, c.name);
    SentsAt(g);
    SameKeys(s, t);
    StopsNext(sents, g.Texts(), s, t, c.name, force, now);
    StopNext(g, c, force, now, t);
    RunningIs(g, c, L.Stop(t, c.name, force));
    HaltedIs(t, L.Stop(t, c.name, force), c.name);
  }

  lemma SameKeys(s: L.State, t: L.State)
    requires NoneStarted(s, t)
    ensures s.cmds.Keys == t.cmds.Keys
  {}

  lemma HaltedIs(s: L.State, t: L.State, n: string)
    requires n in s.cmds && n in t.cmds
    ensures Halted(s, t, n) <==> L.Running(s.cmds[n]) && !L.Running(t.cmds[n])
  {}

  // for every command: cmdStop (main.c:565-569, main.c:1320-1322)
  method StopEach(g: Globals, order: seq<string>, force: bool, now: real, ghost objs: set<object>, ghost s: L.State)
    requires g.Table() && g.Is(s) && L.Core(s) && Covers(g, objs)
    requires forall n | n in order :: n in g.cmds
    modifies objs, g`children, g`cmdsreadycnt
    ensures g.Is(L.StopAll(s, order, force)) && g.Sides() == old(g.Sides())
    ensures g.Sents() == StopSents(old(g.Sents()), g.Texts(), s, L.StopAll(s, order, force), now)
  {
    hide *;
    StopAllNone(s, force);
    Flags(g, s);
    Uncovered(g, objs);
    ghost var t, sents := s, g.Sents();
    StopsNone(g, s, now);
    SentsAt(g);
    for i := 0 to |order|
      invariant t == L.StopAll(s, order[..i], force) && g.Is(t) && L.Core(t) && t.cmds.Keys == s.cmds.Keys
      invariant g.Sides() == old(g.Sides()) && NoneStarted(s, t)
      invariant g.Sents() == StopSents(sents, g.Texts(), s, t, now)
    {
      var n := order[i];
      Covered(g, objs, n);
      StopAllNext(s, order, i, force);
      StopKeeps(t, n, force);
      StopStep(g, g.cmds[n], force, now, s, t, sents);
      t := L.StopAll(s, order[..i + 1], force);
    }
    assert order[..|order|] == order;
  }

  method Notify(g: Globals, isOpen: bool, ghost s: L.State)
    requires g.Is(s) && forall n | n in g.cmds :: g.cmds[n].cmdtty != g.bcsttty && g.cmds[n].clttty != g.bcsttty
    modifies g.bcsttty`opens
    ensures g.bcsttty.opens == if isOpen then old(g.bcsttty.opens) + 1 else if old(g.bcsttty.opens) > 0 then old(g.bcsttty.opens) - 1 else 0
    ensures g.Is(s.(bcst := if isOpen then L.Opened(s.bcst) else L.Closed(s.bcst))) && g.Sides() == old(g.Sides())
  {
    hide Cmd.Side, Cmd.Proc;
    g.bcsttty.NotifyEvent(isOpen);
  }

  // ttyNotifyEvent on the broadcast tty.
  method BcstNotify(g: Globals, isOpen: bool, ghost s: L.State)
    requires g.Table() && g.Is(s)
    modifies g.bcsttty`opens
    ensures g.bcsttty.opens == if isOpen then old(g.bcsttty.opens) + 1 else if old(g.bcsttty.opens) > 0 then old(g.bcsttty.opens) - 1 else 0
    ensures g.Is(s.(bcst := if isOpen then L.Opened(s.bcst) else L.Closed(s.bcst))) && g.Sides() == old(g.Sides()) && g.Sents() == old(g.Sents())
  {
    hide *;
    BcstApart(g);
    Notify(g, isOpen, s);
    SentsSame(g);
  }

  // bcstttyNotify, IN_OPEN (main.c:546-558)
  method BcstttyOpen(g: Globals, pids: map<string, int>, ghost objs: set<object>, ghost s: L.State)
    requires g.Table() && g.Is(s) && L.Listed(s) && L.FreshPids(s, pids)
    requires Covers(g, objs)
    modifies g.bcsttty`opens, objs, g`children
    ensures g.Is(L.BcstNotifyOpen(s, pids)) && g.Sides() == old(g.Sides()) && g.Sents() == old(g.Sents())
  {
    assert forall n | n in g.order :: n in g.cmds && n in pids && pids[n] > 0;
    Uncovered(g, objs);
    hide L.FreshPids, L.Listed, L.StartAll, Globals.Table, Cmd.Proc, Globals.Sides, Globals.Sents, Covers;
    BcstNotify(g, true, s);
    StartEach(g, g.order, pids, objs, s.(bcst := L.Opened(s.bcst)));
  }

  lemma SameHalted(sents: map<string, Sending>, texts: map<string, string>, s: L.State, now: real)
    ensures StopSents(sents, texts, s.(bcst := L.Closed(s.bcst)), L.BcstNotifyClose(s), now)
      == StopSents(sents, texts, s, L.BcstNotifyClose(s), now)
  {
    hide Sending.Plus, L.StopAll;
  }

  // bcstttyNotify, IN_CLOSE_WRITE and IN_CLOSE_NOWRITE (main.c:559-571)
  method BcstttyClose(g: Globals, now: real, ghost objs: set<object>, ghost s: L.State)
    requires g.Table() && g.Is(s) && L.Core(s) && s.flags.bcstflg
    requires Covers(g, objs)
    modifies g.bcsttty`opens, objs, g`children, g`cmdsreadycnt
    ensures g.Is(L.BcstNotifyClose(s)) && g.Sides() == old(g.Sides())
    ensures g.Sents() == StopSents(old(g.Sents()), g.Texts(), s, L.BcstNotifyClose(s), now)
  {
    L.SetBcstFollows(s, L.Closed(s.bcst));
    assert forall n | n in g.order :: n in g.cmds;
    Uncovered(g, objs);
    hide L.Core, L.StopAll, Globals.Table, Cmd.Proc, Globals.Sides, Globals.Sents, Globals.Texts, Covers;
    BcstNotify(g, false, s);
    StopEach(g, g.order, false, now, objs, s.(bcst := L.Closed(s.bcst)));
    SameHalted(old(g.Sents()), g.Texts(), s, now);
  }

  method WriteTo(g: Globals, c: Cmd, ch: char, now: real, ghost s: L.State)
    requires g.Is(s) && g.Alone(c) && g.Isolated(c)
    modifies c`lastwrite, c`log, c.cmdtty, c.cmdtty.discards
    ensures g.Is(s)
    ensures c.Sent() == old(c.Sent()).Plus([ch], Delivery(now, Bcst))
    ensures forall m | m in g.cmds && m != c.name :: g.cmds[m].Sent() == old(g.cmds[m].Sent())
    ensures c.Side() == old(c.Side())
  {
    hide Cmd.Proc, Cmd.Side, Cmd.Sent, Sending.Plus;
    c.WriteChar(ch, now, Bcst);
  }

  method WriteNext(g: Globals, c: Cmd, ch: char, now: real, ghost s: L.State)
    requires g.Table() && c.name in g.cmds && g.cmds[c.name] == c && g.Is(s)
    modifies c`lastwrite, c`log, c.cmdtty, c.cmdtty.discards
    ensures g.Is(s) && g.Sides() == old(g.Sides())
    ensures c.Sent() == old(c.Sent()).Plus([ch], Delivery(now, Bcst))
    ensures forall m | m in g.cmds && m != c.name :: g.cmds[m].Sent() == old(g.cmds[m].Sent())
  {
    hide *;
    OneCommand(g, c, s);
    WriteTo(g, c, ch, now, s);
    SidesSame(g);
  }

  lemma DistinctIs(order: seq<string>)
    requires L.Distinct(order)
    ensures forall i, j | 0 <= i < j < |order| :: order[i] != order[j]
  {}

  // The commands of order are written the byte, once each.
  method WriteAlong(g: Globals, order: seq<string>, ch: char, now: real, ghost objs: set<object>, ghost s: L.State)
    requires g.Table() && g.Is(s) && L.Distinct(order) && Covers(g, objs)
    requires forall n | n in order :: n in g.cmds
    modifies objs
    ensures g.Is(s) && g.Sides() == old(g.Sides())
    ensures forall j | 0 <= j < |order| :: g.cmds[order[j]].Sent() == old(g.cmds[order[j]].Sent()).Plus([ch], Delivery(now, Bcst))
  {
    hide *;
    DistinctIs(order);
    Uncovered(g, objs);
    for i := 0 to |order|
      invariant g.Is(s) && g.Sides() == old(g.Sides())
      invariant forall j | 0 <= j < |order| ::
        g.cmds[order[j]].Sent() ==
        if j < i then old(g.cmds[order[j]].Sent()).Plus([ch], Delivery(now, Bcst)) else old(g.cmds[order[j]].Sent())
    {
      Covered(g, objs, order[i]);
      WriteNext(g, g.cmds[order[i]], ch, now, s);
    }
  }

  // GBLSCmdsWriteChar (main.c:488-502): every command is written the byte, once.
  method WriteEach(g: Globals, ch: char, now: real, ghost objs: set<object>, ghost s: L.State)
    requires g.Table() && g.Is(s) && L.Listed(s) && Covers(g, objs)
    modifies objs
    ensures g.Is(s) && g.Sides() == old(g.Sides())
    ensures g.Sents() == PlusAll(old(g.Sents()), [ch], Delivery(now, Bcst))
  {
    Order(g, s);
    Uncovered(g, objs);
    hide Globals.Table, Globals.Is, L.Listed, Cmd.Sent, Sending.Plus, Covers, Globals.Sides;
    WriteAlong(g, g.order, ch, now, objs, s);
    forall n | n in g.cmds ensures g.cmds[n].Sent() == old(g.cmds[n].Sent()).Plus([ch], Delivery(now, Bcst)) {
      var j :| 0 <= j < |g.order| && g.order[j] == n;
    }
  }

  lemma Order(g: Globals, s: L.State)
    requires g.Is(s) && L.Listed(s)
    ensures L.Distinct(g.order) && forall n :: n in g.order <==> n in g.cmds
  {}

  // bcstttyEvent (main.c:589-613)
  method BcstttyEvent(g: Globals, now: real, ghost objs: set<object>, ghost s: L.State) returns (c: Option<char>)
    requires g.Table() && g.Is(s) && L.Listed(s) && g.bcsttty.inq != "" && g.slowestcmd != null
    requires Covers(g, objs)
    modifies objs, g.bcsttty
    ensures g.Sides() == old(g.Sides()) && g.bcsttty.offered == old(g.bcsttty.offered)
    ensures var due := Due(old(g.slowestcmd.lastwrite), g.slowestcmd.delay, now);
      && g.Is(L.BcstReadable(s, due))
      && (c.Some? <==> !L.BcstBlocked(s) && due)
    ensures c.Some? ==> c.value == old(g.bcsttty.inq)[0]
    ensures g.Sents() == if c.Some? then PlusAll(old(g.Sents()), [c.value], Delivery(now, Bcst)) else old(g.Sents())
  {
    SameSize(g, s);
    BlockedBy(g, s);
    ListedStill(s);
    Uncovered(g, objs);
    hide Cmd.Proc, Globals.Sides, Globals.Sents, PlusAll, Globals.Is, Globals.Table, L.Listed, L.BcstBlocked, Covers;
    if g.readystr.Some? && g.cmdsreadycnt < |g.cmds| {
      return None;
    }
    var n, ch := ReadBcst(g, now, s);
    if n != 0 {
      WriteEach(g, ch, now, objs, s.(bcst := s.bcst.(inq := s.bcst.inq[1..])));
      return Some(ch);
    }
    return None;
  }

  lemma ListedStill(s: L.State)
    requires L.Listed(s) && s.bcst.inq != ""
    ensures L.Listed(s.(bcst := s.bcst.(inq := s.bcst.inq[1..])))
  {}

  lemma SameSize(g: Globals, s: L.State)
    requires g.Is(s)
    ensures |g.cmds| == |s.cmds|
  {
    assert |g.cmds| == |g.cmds.Keys| && |s.cmds| == |s.cmds.Keys|;
  }

  lemma BlockedBy(g: Globals, s: L.State)
    requires g.Is(s) && |g.cmds| == |s.cmds|
    ensures L.BcstBlocked(s) <==> g.readystr.Some? && g.cmdsreadycnt < |g.cmds|
    ensures s.bcst.inq == g.bcsttty.inq
  {}

  method ReadBcst(g: Globals, now: real, ghost s: L.State) returns (n: int, ch: char)
    requires g.Table() && g.Is(s) && g.bcsttty.inq != "" && g.slowestcmd != null
    modifies g.bcsttty
    ensures n == if Due(g.slowestcmd.lastwrite, g.slowestcmd.delay, now) then 1 else 0
    ensures g.Sents() == old(g.Sents()) && g.Sides() == old(g.Sides()) && g.bcsttty.offered == old(g.bcsttty.offered)
    ensures n == 0 ==> g.Is(s)
    ensures n == 1 ==> ch == old(g.bcsttty.inq)[0] && g.Is(s.(bcst := s.bcst.(inq := s.bcst.inq[1..])))
  {
    hide *;
    BcstApart(g);
    DueIs(g.slowestcmd.lastwrite, g.slowestcmd.delay, now);
    n, ch := TakeBcst(g, now, s);
    SidesSame(g);
    SentsSame(g);
  }

  lemma DueIs(last: real, delay: real, now: real)
    ensures Due(last, delay, now) <==> delay <= 0.0 || now - last >= delay
  {}

  method TakeBcst(g: Globals, now: real, ghost s: L.State) returns (n: int, ch: char)
    requires forall m | m in g.cmds :: g.cmds[m].cmdtty != g.bcsttty && g.cmds[m].clttty != g.bcsttty
    requires g.Is(s) && g.bcsttty.inq != "" && g.slowestcmd != null
    modifies g.bcsttty
    ensures n == if g.slowestcmd.delay <= 0.0 || now - g.slowestcmd.lastwrite >= g.slowestcmd.delay then 1 else 0
    ensures g.bcsttty.offered == old(g.bcsttty.offered)
    ensures n == 0 ==> g.Is(s)
    ensures n == 1 ==> ch == old(g.bcsttty.inq)[0] && g.Is(s.(bcst := s.bcst.(inq := s.bcst.inq[1..])))
  {
    hide Cmd.Side, Cmd.Proc, Cmd.Sent;
    n, ch := g.bcsttty.ReadChar(Some(g.slowestcmd.lastwrite), g.slowestcmd.delay, now);
  }

  // ---- The handlers that change the table ----

  lemma ReapMove(s: L.State, n: string)
    requires n in s.cmds
    ensures StopMoves(s, L.Reap(s, n), n, s.cmds[n], true)
  {}

  method ReapTo(g: Globals, c: Cmd, ghost s: L.State, ghost t: L.State)
    requires g.Is(s) && g.Alone(c) && c.IsRunning() && c.Counted(g)
    requires StopMoves(s, t, c.name, c.Proc(), true)
    modifies c`pid, c`readycnt, c`life, g`cmdsreadycnt, g`children
    ensures g.Is(t)
  {
    BesideIs(g, c, s);
    hide StopMoves, Cmd.Settled, Globals.Is, Globals.IsBut, Cmd.Proc, Cmd.Counted, Cmd.Formed, Cmd.Apart, Cmd.Side, Cmd.Sent;
    ghost var o := c.Proc();
    c.Forget(g);
    SettleStop(g, c, s, t, o, true);
  }

  method Unlist(g: Globals, n: string, ghost s: L.State)
    requires g.Table() && g.Is(s)
    modifies g`cmds, g`order
    ensures g.Table() && g.Is(L.Remove(s, n)) && g.cmds == old(g.cmds) - {n}
  {
    TableLess(g, n);
    hide Cmd.Proc, L.Without, TableOf;
    g.cmds := g.cmds - {n};
    g.order := L.Without(g.order, n);
  }

  // HASH_DEL
  method Drop(g: Globals, n: string, ghost s: L.State)
    requires g.Table() && g.Is(s)
    modifies g`cmds, g`order
    ensures g.Table() && g.Is(L.Remove(s, n))
    ensures g.cmds == old(g.cmds) - {n} && g.Sides() == old(g.Sides()) - {n} && g.Sents() == old(g.Sents()) - {n}
  {
    hide *;
    ghost var sides, sents := g.Sides(), g.Sents();
    SidesAt(g);
    SentsAt(g);
    Unlist(g, n, s);
    SidesAre(g, sides - {n});
    SentsAre(g, sents - {n});
  }

  lemma SidesAt(g: Globals)
    ensures g.Sides().Keys == g.cmds.Keys && forall n | n in g.cmds :: g.Sides()[n] == g.cmds[n].Side()
  {}

  lemma SentsAt(g: Globals)
    ensures g.Sents().Keys == g.cmds.Keys && forall n | n in g.cmds :: g.Sents()[n] == g.cmds[n].Sent()
  {}

  lemma SentsAre(g: Globals, sents: map<string, Sending>)
    requires sents.Keys == g.cmds.Keys && forall n | n in g.cmds :: sents[n] == g.cmds[n].Sent()
    ensures g.Sents() == sents
  {
    hide Cmd.Sent;
  }

  lemma TableLess(g: Globals, n: string)
    requires g.Table()
    ensures TableOf(g.cmds - {n}, g.bcsttty)
  {
    TableRemove(g.cmds, g.bcsttty, n);
  }

  lemma SidesAre(g: Globals, sides: map<string, Side>)
    requires sides.Keys == g.cmds.Keys && forall n | n in g.cmds :: sides[n] == g.cmds[n].Side()
    ensures g.Sides() == sides
  {
    hide Cmd.Side;
  }

  // HASH_DEL, then exit when the table is empty (cmd.c:265-270, main.c:748-753).
  method DeleteFrom(g: Globals, n: string, ghost s: L.State)
    requires g.Table() && g.Is(s)
    modifies g`cmds, g`order, g`exited
    ensures g.Table() && g.Is(L.QuitIfEmpty(L.Remove(s, n)))
    ensures g.cmds == old(g.cmds) - {n} && g.Sides() == old(g.Sides()) - {n} && g.Sents() == old(g.Sents()) - {n}
  {
    hide *;
    Drop(g, n, s);
    QuitEmpty(g, L.Remove(s, n));
  }

  method QuitEmpty(g: Globals, ghost s: L.State)
    requires g.Table() && g.Is(s)
    modifies g`exited
    ensures g.Table() && g.Is(L.QuitIfEmpty(s)) && g.Sides() == old(g.Sides()) && g.Sents() == old(g.Sents())
  {
    SameSize(g, s);
    hide Cmd.Proc, Cmd.Side, Cmd.Sent, TableOf;
    if |g.cmds| == 0 && g.exitonidle {
      g.exited := true;
    }
  }

  lemma PidEventCases(s: L.State, n: string, child: int)
    requires n in s.cmds
    ensures var c, s1 := s.cmds[n], L.Reap(s, n);
      L.PidEvent(s, n, child) ==
      if c.deleteonexit then L.QuitIfEmpty(L.Remove(s1, n))
      else if s.flags.restart && c.restart then L.Start(s1, n, child)
      else s1
    ensures n in L.Reap(s, n).cmds
  {}

  lemma InTable(s: L.State, t: L.State, n: string, p: L.Cmd, stops: bool)
    requires StopMoves(s, t, n, p, stops)
    ensures n in t.cmds
  {}

  lemma Listing(g: Globals, c: Cmd)
    requires g.Alone(c)
    ensures c.name in g.cmds && g.cmds[c.name] == c
  {}

  method PidEventTo(g: Globals, c: Cmd, child: int, ghost s: L.State, ghost s1: L.State)
    requires g.Table() && g.Alone(c) && g.Is(s) && c.IsRunning() && c.Counted(g) && child > 0
    requires StopMoves(s, s1, c.name, c.Proc(), true)
    modifies c`pid, c`readycnt, c`seen, c`life, c`restartcnt, g`cmdsreadycnt, g`children, g`cmds, g`order, g`exited
    ensures g.Table()
    ensures old(c.deleteonexit) ==> g.Is(L.QuitIfEmpty(L.Remove(s1, c.name)))
    ensures old(c.deleteonexit) ==> g.cmds == old(g.cmds) - {c.name} && g.Sides() == old(g.Sides()) - {c.name}
    ensures old(c.deleteonexit) ==> g.Sents() == old(g.Sents()) - {c.name}
    ensures !old(c.deleteonexit) ==> g.cmds == old(g.cmds) && g.Sides() == old(g.Sides()) && g.Sents() == old(g.Sents())
    ensures !old(c.deleteonexit) ==>
      c.name in s1.cmds && g.Is(if g.restart && old(c.restart) then L.Start(s1, c.name, child) else s1)
  {
    hide *;
    InTable(s, s1, c.name, c.Proc(), true);
    Listing(g, c);
    ReapTo(g, c, s, s1);
    SidesSame(g);
    SentsSame(g);
    if c.deleteonexit {
      DeleteFrom(g, c.name, s1);
    } else if g.restart && c.restart {
      StartNext(g, c, child, s1);
      Restarted(g, c, L.Start(s1, c.name, child));
    }
  }

  // cmdPidEvent
  method PidEvent(g: Globals, c: Cmd, child: int, ghost s: L.State)
    requires g.Table() && c.name in g.cmds && g.cmds[c.name] == c
    requires g.Is(s) && L.Core(s) && c.IsRunning() && child > 0
    modifies c`pid, c`readycnt, c`seen, c`life, c`restartcnt, g`cmdsreadycnt, g`children, g`cmds, g`order, g`exited
    ensures g.Table() && g.Is(L.PidEvent(s, c.name, child))
    ensures var gone := if old(c.deleteonexit) then {c.name} else {};
      g.cmds == old(g.cmds) - gone && g.Sides() == old(g.Sides()) - gone && g.Sents() == old(g.Sents()) - gone
  {
    hide *;
    OneCommand(g, c, s);
    CountedByCore(g, c, s);
    ReapMove(s, c.name);
    PidEventCases(s, c.name, child);
    Policies(g, c, s);
    PidEventTo(g, c, child, s, L.Reap(s, c.name));
    Whole(old(g.cmds), old(g.Sides()), old(g.Sents()));
  }

  lemma Policies(g: Globals, c: Cmd, s: L.State)
    requires g.Is(s) && c.name in g.cmds && g.cmds[c.name] == c
    ensures c.name in s.cmds && s.flags.restart == g.restart
    ensures s.cmds[c.name].deleteonexit == c.deleteonexit && s.cmds[c.name].restart == c.restart
  {}

  lemma Whole(cmds: map<string, Cmd>, sides: map<string, Side>, sents: map<string, Sending>)
    ensures cmds - {} == cmds && sides - {} == sides && sents - {} == sents
  {}

  method Restarted(g: Globals, c: Cmd, ghost s: L.State)
    requires g.Is(s)
    modifies c`restartcnt
    ensures g.Is(s) && c.restartcnt == old(c.restartcnt) + 1 && g.Sides() == old(g.Sides()) && g.Sents() == old(g.Sents())
  {
    hide Cmd.Proc, Cmd.Side, Cmd.Sent;
    c.restartcnt := c.restartcnt + 1;
  }

  lemma Unchanged(cmds: map<string, Cmd>, sides: map<string, Side>, sents: map<string, Sending>, n: string)
    requires n !in cmds && sides.Keys == cmds.Keys && sents.Keys == cmds.Keys
    ensures cmds - {n} == cmds && sides - {n} == sides && sents - {n} == sents
  {}

  lemma Downed(g: Globals, c: Cmd, s: L.State)
    requires c.name in s.cmds && g.Is(L.Stop(s, c.name, true)) && c.name in g.cmds && g.cmds[c.name] == c
    ensures !c.IsRunning()
  {}

  method Withdraw(g: Globals, c: Cmd, now: real, ghost s: L.State)
    requires g.Table() && c.name in g.cmds && g.cmds[c.name] == c && g.Is(s) && L.Core(s)
    modifies c, c.cmdtty, c.cmdtty.discards, g`cmdsreadycnt, g`children, g`cmds, g`order, g`exited
    ensures g.Table() && g.Is(L.QuitIfEmpty(L.Remove(L.Stop(s, c.name, true), c.name)))
    ensures g.cmds == old(g.cmds) - {c.name} && g.Sides() == old(g.Sides()) - {c.name}
    ensures g.Sents() == old(g.Sents()) - {c.name} && !c.IsRunning()
    ensures c.Sent() == if old(c.IsRunning()) then old(c.Sent()).Plus(c.StopText(g), Delivery(now, StopString)) else old(c.Sent())
  {
    hide *;
    Flags(g, s);
    ghost var sents := g.Sents();
    StopNext(g, c, true, now, s);
    Downed(g, c, s);
    LessOne(sents, c.name, c.Sent());
    DeleteFrom(g, c.name, L.Stop(s, c.name, true));
  }

  lemma LessOne(sents: map<string, Sending>, n: string, sent: Sending)
    ensures sents[n := sent] - {n} == sents - {n}
  {}

  // monDel (main.c:740-754): the command is stopped, with its stop string, before it goes.
  method MonDel(g: Globals, name: string, now: real, ghost s: L.State) returns (found: bool)
    requires g.Table() && g.Is(s) && L.Core(s)
    modifies if name in g.cmds then {g.cmds[name], g.cmds[name].cmdtty, g.cmds[name].cmdtty.discards} else {}
    modifies g`cmdsreadycnt, g`children, g`cmds, g`order, g`exited
    ensures g.Table() && g.Is(L.MonDel(s, name)) && (found <==> name in s.cmds)
    ensures g.cmds == old(g.cmds) - {name} && g.Sides() == old(g.Sides()) - {name}
    ensures g.Sents() == old(g.Sents()) - {name}
    ensures found ==>
      var c := old(g.cmds[name]);
      !c.IsRunning() && c.Sent() == if old(g.cmds[name].IsRunning())
                                    then old(g.cmds[name].Sent()).Plus(c.StopText(g), Delivery(now, StopString))
                                    else old(g.cmds[name].Sent())
  {
    hide *;
    Flags(g, s);
    MonDelCases(s, name);
    SidesAt(g);
    SentsAt(g);
    if name !in g.cmds {
      Unchanged(g.cmds, g.Sides(), g.Sents(), name);
      return false;
    }
    NameIs(g, name);
    Withdraw(g, g.cmds[name], now, s);
    found := true;
  }

  lemma MonDelCases(s: L.State, name: string)
    ensures L.MonDel(s, name) == if name in s.cmds then L.QuitIfEmpty(L.Remove(L.Stop(s, name, true), name)) else s
  {}

  method Empty(g: Globals, ghost s: L.State)
    requires g.Is(s)
    modifies g
    ensures g.Is(s.(cmds := map[], order := [], flags := s.flags.(exited := true)))
    ensures g.children == old(g.children) && g.cmds == map[] && g.Sides() == map[] && g.Sents() == map[] && g.slowestcmd == null
    ensures g.bcstflg == old(g.bcstflg) && g.linebufferbcst == old(g.linebufferbcst) && g.prefixbcst == old(g.prefixbcst)
  {
    g.cmds, g.order, g.exited, g.slowestcmd := map[], [], true, null;
  }

  // cleanup, the part over the commands (main.c:1318-1327)
  method Cleanup(g: Globals, now: real, ghost objs: set<object>, ghost s: L.State)
    requires g.Table() && g.Is(s) && L.Core(s) && Covers(g, objs)
    modifies objs, g
    ensures g.Is(L.Cleanup(s)) && L.Cleanup(s).children == map[] && g.cmds == map[] && g.Sides() == map[]
    ensures g.bcstflg == old(g.bcstflg) && g.linebufferbcst == old(g.linebufferbcst) && g.prefixbcst == old(g.prefixbcst)
    ensures g.Sents() == map[] && g.slowestcmd == null
    ensures forall n | n in old(g.cmds) ::
      var c := old(g.cmds[n]);
      c.Sent() == if old(g.cmds[n].IsRunning()) then old(g.cmds[n].Sent()).Plus(c.StopText(g), Delivery(now, StopString))
                  else old(g.cmds[n].Sent())
  {
    hide *;
    L.CleanupInv(s);
    CleanupIs(g, s);
    Uncovered(g, objs);
    AllHalted(g, s, now);
    SentsAt(g);
    StopEach(g, g.order, true, now, objs, s);
    SentsAt(g);
    Empty(g, L.StopAll(s, s.order, true));
  }

  lemma AllHalted(g: Globals, s: L.State, now: real)
    requires g.Is(s) && L.Core(s)
    ensures var sents := StopSents(g.Sents(), g.Texts(), s, L.StopAll(s, s.order, true), now);
      sents.Keys == g.cmds.Keys && forall n | n in g.cmds ::
        sents[n] == if g.cmds[n].IsRunning() then g.cmds[n].Sent().Plus(g.cmds[n].StopText(g), Delivery(now, StopString))
                    else g.cmds[n].Sent()
  {
    AllStopped(s);
    SentsAt(g);
    assert forall n | n in g.cmds :: n in s.cmds && (g.cmds[n].IsRunning() <==> L.Running(s.cmds[n]));
    hide Cmd.Sent, Sending.Plus, L.StopAll, Cmd.StopText, L.Core, Globals.Is, Globals.Sents, Halted;
  }

  lemma AllStopped(s: L.State)
    requires L.Core(s)
    ensures var t := L.StopAll(s, s.order, true);
      forall n | n in s.cmds :: Halted(s, t, n) <==> L.Running(s.cmds[n])
  {
    L.StopAllFollows(s, s.order, true);
    hide L.StopAll, L.Follows;
  }

  lemma CleanupIs(g: Globals, s: L.State)
    requires g.Is(s) && L.Core(s)
    ensures s.order == g.order && forall n | n in g.order :: n in g.cmds
    ensures var t := L.StopAll(s, s.order, true);
      L.Cleanup(s) == t.(cmds := map[], order := [], flags := t.flags.(exited := true))
  {}

  // ---- monAdd and monIdleExit ----

  // HASH_ADD_KEYPTR (main.c:477)
  method Put(g: Globals, c: Cmd, ghost s: L.State)
    requires g.Table() && g.Is(s) && c.name !in g.cmds && c.Proc() == L.NewCmd(s.flags.cmddelonexit)
    requires TableOf(g.cmds[c.name := c], g.bcsttty)
    modifies g`cmds, g`order
    ensures g.Table() && g.Is(L.Insert(s, c.name)) && g.cmds == old(g.cmds)[c.name := c]
    ensures g.Sides() == old(g.Sides())[c.name := c.Side()] && g.Sents() == old(g.Sents())[c.name := c.Sent()]
  {
    hide *;
    ghost var sides, sents := g.Sides(), g.Sents();
    SidesAt(g);
    SentsAt(g);
    Enlist(g, c, s);
    SidesAre(g, sides[c.name := c.Side()]);
    SentsAre(g, sents[c.name := c.Sent()]);
  }

  method Enlist(g: Globals, c: Cmd, ghost s: L.State)
    requires g.Table() && g.Is(s) && c.name !in g.cmds && c.Proc() == L.NewCmd(s.flags.cmddelonexit)
    requires TableOf(g.cmds[c.name := c], g.bcsttty)
    modifies g`cmds, g`order
    ensures g.Table() && g.Is(L.Insert(s, c.name)) && g.cmds == old(g.cmds)[c.name := c]
  {
    hide TableOf, Cmd.Proc, Cmd.Side;
    g.cmds := g.cmds[c.name := c];
    g.order := g.order + [c.name];
  }

  twostate predicate NewObjects(new c: Cmd) {
    && fresh(c) && fresh(c.buf) && fresh(c.cmdtty) && fresh(c.cmdtty.discards)
    && fresh(c.clttty) && fresh(c.clttty.discards)
  }

  method Build(name: string, cmdline: string, stopstr: Option<string>, delay: real, deleteonexit: bool) returns (c: Cmd)
    ensures NewObjects(c) && c.Formed() && c.Side().Empty()
    ensures c.name == name && c.Spec() == Request(cmdline, stopstr, delay) && c.Proc() == L.NewCmd(deleteonexit)
    ensures c.Sent() == Silent
  {
    var cmdtty := new Tty();
    var clttty := new Tty();
    c := new Cmd(name, cmdline, stopstr, delay, deleteonexit, cmdtty, clttty);
  }

  twostate lemma Enters(g: Globals, new c: Cmd)
    requires g.Table() && c.name !in g.cmds && g.cmds == old(g.cmds) && NewObjects(c) && c.Formed()
    ensures TableOf(g.cmds[c.name := c], g.bcsttty)
  {
    TableInsert(g.cmds, g.bcsttty, c);
  }

  // cmdInit and cmdCreate: all parts are new.
  method MakeCmd(g: Globals, name: string, cmdline: string, stopstr: Option<string>, delay: real, ghost s: L.State)
    returns (c: Cmd)
    requires g.Table() && g.Is(s) && name !in g.cmds
    ensures g.Is(s) && TableOf(g.cmds[name := c], g.bcsttty) && NewObjects(c)
    ensures c.Side().Empty() && g.Sides() == old(g.Sides()) && g.Sents() == old(g.Sents())
    ensures c.name == name && c.Spec() == Request(cmdline, stopstr, delay) && c.Proc() == L.NewCmd(g.cmddelonexit)
    ensures c.Sent() == Silent
  {
    hide *;
    c := Build(name, cmdline, stopstr, delay, g.cmddelonexit);
    Enters(g, c);
  }

  lemma SpecIs(c: Cmd)
    ensures c.Spec().cmdline == c.cmdline && c.Spec().stopstr == c.stopstr && c.Spec().delay == c.delay
  {}

  // GBLSAddCmd, once the spec is parsed and its name is new (main.c:456-478).
  method AddCmd(g: Globals, name: string, cmdline: string, stopstr: Option<string>, delay: real, ghost s: L.State)
    returns (c: Cmd)
    requires g.Table() && g.Is(s) && name !in g.cmds
    modifies g`cmds, g`order, g`slowestcmd
    ensures g.Table() && g.Is(L.Insert(s, name)) && g.cmds == old(g.cmds)[name := c] && NewObjects(c)
    ensures fresh(c) && c.Side().Empty() && g.Sides() == old(g.Sides())[name := c.Side()]
    ensures c.name == name && c.cmdline == cmdline && c.stopstr == stopstr && c.delay == delay
    ensures c.Sent() == Silent && g.Sents() == old(g.Sents())[name := Silent]
    ensures g.slowestcmd == if old(g.slowestcmd) == null || delay > old(g.slowestcmd).delay then c else old(g.slowestcmd)
  {
    Flags(g, s);
    hide *;
    c := MakeCmd(g, name, cmdline, stopstr, delay, s);
    SpecIs(c);
    UpdateSlowest(g, c, s);
    Put(g, c, s);
    SpecIs(c);
  }

  lemma Flags(g: Globals, s: L.State)
    requires g.Is(s)
    ensures g.cmds.Keys == s.cmds.Keys
    ensures g.cmddelonexit == s.flags.cmddelonexit && g.bcstflg == s.flags.bcstflg
    ensures g.bcsttty.opens == s.bcst.opens && g.bcsttty.inq == s.bcst.inq
  {}

  // main.c:472-476
  method UpdateSlowest(g: Globals, c: Cmd, ghost s: L.State)
    requires g.Table() && g.Is(s)
    modifies g`slowestcmd
    ensures g.Table() && g.Is(s) && g.Sides() == old(g.Sides()) && g.Sents() == old(g.Sents())
    ensures g.slowestcmd == if old(g.slowestcmd) == null || c.delay > old(g.slowestcmd).delay then c else old(g.slowestcmd)
  {
    hide TableOf, Cmd.Proc, Cmd.Side, Cmd.Sent;
    if g.slowestcmd != null {
      if c.delay > g.slowestcmd.delay { g.slowestcmd := c; }
    } else {
      g.slowestcmd := c;
    }
  }

  lemma BcstApart(g: Globals)
    requires g.Table()
    ensures forall n | n in g.cmds :: g.cmds[n].cmdtty != g.bcsttty && g.cmds[n].clttty != g.bcsttty
  {}

  method SetBcst(g: Globals, ghost s: L.State)
    requires g.Table() && g.Is(s)
    modifies g`bcstflg
    ensures g.Table() && g.Is(s.(flags := s.flags.(bcstflg := true)))
  {
    hide TableOf, Cmd.Proc;
    g.bcstflg := true;
  }

  method NewBcst(g: Globals, ghost s: L.State)
    requires g.Is(s) && forall n | n in g.cmds :: g.cmds[n].cmdtty != g.bcsttty && g.cmds[n].clttty != g.bcsttty
    modifies g.bcsttty`opens, g.bcsttty`inq, g.bcsttty`rbytes, g.bcsttty`wbytes
    ensures g.Is(s.(bcst := L.Tty(0, "")))
  {
    hide Cmd.Proc;
    g.bcsttty.Create();
  }

  // bcstttyCreate (main.c:641-648)
  method BcstttyCreate(g: Globals, ghost s: L.State)
    requires g.Table() && g.Is(s)
    modifies g`bcstflg, g.bcsttty`opens, g.bcsttty`inq, g.bcsttty`rbytes, g.bcsttty`wbytes
    ensures g.Table() && g.Is(s.(flags := s.flags.(bcstflg := true), bcst := L.Tty(0, "")))
    ensures g.Sides() == old(g.Sides()) && g.Sents() == old(g.Sents())
  {
    hide *;
    BcstApart(g);
    SetBcst(g, s);
    NewBcst(g, s.(flags := s.flags.(bcstflg := true)));
    SidesSame(g);
    SentsSame(g);
  }

  lemma MonAddKnown(s: L.State, n: string, child: int)
    requires n in s.cmds
    ensures L.MonAdd(s, n, child) == s
  {}

  // The three ways monAdd ends for a new name.
  lemma MonAddCases(s: L.State, n: string, child: int)
    requires n !in s.cmds
    ensures var s1 := L.Insert(s, n);
      && n in s1.cmds && s1.bcst == s.bcst && s1.flags == s.flags
      && L.MonAdd(s, n, child) ==
         if !s.flags.bcstflg && |s1.cmds| > 1 then
           s1.(flags := s1.flags.(bcstflg := true), bcst := L.Tty(0, ""))
         else if s.bcst.opens > 0 then L.Start(s1, n, child)
         else s1
  {}

  // The rest of monAdd for a new command (main.c:700-713).
  method Welcome(g: Globals, c: Cmd, child: int, ghost s: L.State)
    requires g.Table() && c.name in g.cmds && g.cmds[c.name] == c && g.Is(s) && child > 0
    modifies c`pid, c`readycnt, c`seen, c`life, g`bcstflg, g`children,
      g.bcsttty`opens, g.bcsttty`inq, g.bcsttty`rbytes, g.bcsttty`wbytes
    ensures g.Table() && g.Sides() == old(g.Sides()) && g.Sents() == old(g.Sents())
    ensures g.Is(if !s.flags.bcstflg && |s.cmds| > 1 then s.(flags := s.flags.(bcstflg := true), bcst := L.Tty(0, ""))
                 else if s.bcst.opens > 0 then L.Start(s, c.name, child)
                 else s)
  {
    hide *;
    Flags(g, s);
    SameSize(g, s);
    if !g.bcstflg && |g.cmds| > 1 {
      BcstttyCreate(g, s);
    } else {
      if g.bcsttty.opens > 0 {
        StartNext(g, c, child, s);
      }
    }
  }

  // monAdd (main.c:695-713)
  method MonAdd(g: Globals, name: string, cmdline: string, stopstr: Option<string>, delay: real, child: int, ghost s: L.State)
    returns (added: bool)
    requires g.Table() && g.Is(s) && child > 0
    modifies g`cmds, g`order, g`slowestcmd, g`bcstflg, g`children,
      g.bcsttty`opens, g.bcsttty`inq, g.bcsttty`rbytes, g.bcsttty`wbytes
    ensures g.Table() && g.Is(L.MonAdd(s, name, child)) && (added <==> name !in s.cmds)
    ensures !added ==> g.cmds == old(g.cmds) && g.Sides() == old(g.Sides()) && g.Sents() == old(g.Sents()) && g.slowestcmd == old(g.slowestcmd)
    ensures added ==>
      && name in g.cmds && g.cmds == old(g.cmds)[name := g.cmds[name]] && NewObjects(g.cmds[name])
      && g.cmds[name].Side().Empty() && g.Sides() == old(g.Sides())[name := g.cmds[name].Side()]
      && g.Sents() == old(g.Sents())[name := Silent]
      && g.cmds[name].cmdline == cmdline && g.cmds[name].stopstr == stopstr && g.cmds[name].delay == delay
      && g.slowestcmd == if old(g.slowestcmd) == null || delay > old(g.slowestcmd).delay then g.cmds[name] else old(g.slowestcmd)
  {
    hide *;
    Flags(g, s);
    if name in g.cmds {
      MonAddKnown(s, name, child);
      return false;
    }
    MonAddCases(s, name, child);
    var c := AddCmd(g, name, cmdline, stopstr, delay, s);
    Welcome(g, c, child, L.Insert(s, name));
    SidesAt(g);
    added := true;
  }

  ghost function Mark(c: L.Cmd): L.Cmd { c.(deleteonexit := true) }

  ghost function Marked(s: L.State, done: seq<string>): L.State {
    s.(cmds := map n | n in s.cmds :: if n in done then Mark(s.cmds[n]) else s.cmds[n])
  }

  lemma MarkNext(s: L.State, order: seq<string>, i: nat)
    requires i < |order| && order[i] in s.cmds
    ensures var t, n := Marked(s, order[..i]), order[i];
      L.Moves(t, Marked(s, order[..i + 1]), n, Mark(t.cmds[n]), t.cmdsreadycnt, t.children, t.flags.aborted)
  {
    assert order[..i + 1] == order[..i] + [order[i]];
  }

  lemma MarkEnds(s: L.State)
    ensures Marked(s, []) == s
    ensures L.Listed(s) && |s.cmds| != 0 ==>
      L.MonIdleExit(s) == Marked(s.(flags := s.flags.(exitonidle := true, cmddelonexit := true)), s.order)
  {
    assert Marked(s, []).cmds == s.cmds;
    if L.Listed(s) && |s.cmds| != 0 {
      assert L.MonIdleExit(s).cmds == Marked(s, s.order).cmds;
    }
  }

  method MarkTo(g: Globals, c: Cmd, ghost s: L.State, ghost t: L.State)
    requires g.Is(s) && g.Alone(c) && L.Moves(s, t, c.name, Mark(c.Proc()), s.cmdsreadycnt, s.children, s.flags.aborted)
    modifies c`deleteonexit
    ensures g.Is(t)
  {
    hide L.Moves, Cmd.Side;
    c.deleteonexit := true;
    g.Settle(s, t, c.name);
  }

  method MarkOne(g: Globals, c: Cmd, ghost s: L.State, ghost t: L.State)
    requires g.Table() && g.Is(s) && c.name in g.cmds && g.cmds[c.name] == c && c.name in s.cmds
    requires L.Moves(s, t, c.name, Mark(s.cmds[c.name]), s.cmdsreadycnt, s.children, s.flags.aborted)
    modifies c`deleteonexit
    ensures g.Is(t) && g.Sides() == old(g.Sides()) && g.Sents() == old(g.Sents())
  {
    hide *;
    OneCommand(g, c, s);
    MarkTo(g, c, s, t);
    SidesSame(g);
    SentsSame(g);
  }

  method MarkEach(g: Globals, order: seq<string>, ghost s: L.State, ghost objs: set<object>)
    requires g.Table() && g.Is(s) && Covers(g, objs)
    requires forall n | n in order :: n in g.cmds && n in s.cmds
    modifies objs
    ensures g.Is(Marked(s, order)) && g.Sides() == old(g.Sides()) && g.Sents() == old(g.Sents())
  {
    hide *;
    MarkEnds(s);
    MarkKeys(s);
    Uncovered(g, objs);
    for i := 0 to |order|
      invariant g.Is(Marked(s, order[..i])) && g.Sides() == old(g.Sides()) && g.Sents() == old(g.Sents())
    {
      Covered(g, objs, order[i]);
      MarkNext(s, order, i);
      MarkOne(g, g.cmds[order[i]], Marked(s, order[..i]), Marked(s, order[..i + 1]));
    }
    assert order[..|order|] == order;
  }

  lemma MarkKeys(s: L.State)
    ensures forall done :: Marked(s, done).cmds.Keys == s.cmds.Keys
  {}

  // monIdleExit (main.c:658-673)
  method MonIdleExit(g: Globals, ghost s: L.State, ghost objs: set<object>)
    requires g.Table() && g.Is(s) && L.Listed(s) && Covers(g, objs)
    modifies objs, g`exitonidle, g`cmddelonexit, g`exited
    ensures g.Is(L.MonIdleExit(s)) && g.Sides() == old(g.Sides()) && g.Sents() == old(g.Sents())
  {
    hide *;
    Uncovered(g, objs);
    MarkEnds(s);
    IdleIs(g, s);
    SameSize(g, s);
    SetIdle(g, s);
    if |g.cmds| == 0 {
      Quit(g, s.(flags := s.flags.(exitonidle := true, cmddelonexit := true)));
    } else {
      MarkEach(g, g.order, s.(flags := s.flags.(exitonidle := true, cmddelonexit := true)), objs);
    }
  }

  lemma IdleIs(g: Globals, s: L.State)
    requires g.Is(s) && L.Listed(s)
    ensures s.order == g.order && forall n | n in g.order :: n in g.cmds && n in s.cmds
    ensures |s.cmds| == 0 ==>
      L.MonIdleExit(s) == s.(flags := s.flags.(exitonidle := true, cmddelonexit := true, exited := true))
  {}

  method Quit(g: Globals, ghost s: L.State)
    requires g.Is(s)
    modifies g`exited
    ensures g.Is(s.(flags := s.flags.(exited := true))) && g.Sides() == old(g.Sides()) && g.Sents() == old(g.Sents())
  {
    hide Cmd.Proc, Cmd.Side, Cmd.Sent;
    g.exited := true;
  }

  method SetIdle(g: Globals, ghost s: L.State)
    requires g.Table() && g.Is(s)
    modifies g`exitonidle, g`cmddelonexit
    ensures g.Table() && g.Is(s.(flags := s.flags.(exitonidle := true, cmddelonexit := true)))
    ensures g.Sides() == old(g.Sides()) && g.Sents() == old(g.Sents())
  {
    hide TableOf, Cmd.Proc, Cmd.Side, Cmd.Sent;
    g.exitonidle := true;
    g.cmddelonexit := true;
  }
}
