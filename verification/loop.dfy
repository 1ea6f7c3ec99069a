// theLoop (main.c:1144-1191): events come one after the other, and each is handled on the
// heap as the lifecycle step and the relay step say, whatever is queued and whoever runs.
module Loop {
  import opened Text
  import opened Ttys
  import opened Cmds
  import opened Wires
  import Drains
  import L = Lifecycle
  import Main
  import Promises
  import Ready
  import Relay
  import Ring

  // ---- The relay beside the lifecycle ----

  // What a step means for the relay: a byte that is read is relayed, unless its match
  // stops yar; a new command starts with nothing buffered.
  function RelayStep(mode: Relay.Mode, s: L.State, r: Relay.State, e: L.Event): Relay.State
    requires L.Enabled(s, e)
  {
    match e
    case CmdEvent(n) => if L.Fires(s, n) then r else Relay.Step(mode, r, Relay.Out(n, s.cmds[n].queue[0].c))
    case Add(n, _) => if n in s.cmds then r else r.(pending := r.pending[n := ""])
    case _ => r
  }

  // r describes the buffered lines and the broadcast stream.
  ghost predicate Relays(mode: Relay.Mode, sides: map<string, Side>, bcst: string, r: Relay.State) {
    && r.bcst == bcst
    && forall n | n in sides :: sides[n].Sound(mode) && n in r.pending && r.pending[n] == sides[n].Pending()
  }

  // The heap is in lifecycle state s and relay state r. Line buffering is not switched on
  // by a broadcast tty that is created later.
  ghost predicate Heap(g: Globals, s: L.State, r: Relay.State, objs: set<object>)
    reads g, g.bcsttty, set n | n in g.cmds :: g.cmds[n], set n | n in g.cmds :: g.cmds[n].clttty,
      set n | n in g.cmds :: g.cmds[n].cmdtty, set n | n in g.cmds :: g.cmds[n].buf
  {
    && g.Table() && g.Is(s) && L.Core(s) && Main.Covers(g, objs)
    && Relays(g.Mode(), g.Sides(), g.bcsttty.offered, r)
    && (g.bcstflg || !g.linebufferbcst)
  }

  lemma Unfold(g: Globals, s: L.State, r: Relay.State, objs: set<object>)
    requires Heap(g, s, r, objs)
    ensures g.Table() && g.Is(s) && L.Core(s) && L.Listed(s) && Main.Covers(g, objs)
    ensures Relays(g.Mode(), g.Sides(), g.bcsttty.offered, r)
    ensures g.bcstflg || !g.linebufferbcst
    ensures g !in objs && g.bcsttty !in objs && g.bcsttty.discards !in objs
    ensures g.cmds.Keys == s.cmds.Keys
  {}

  lemma Together(g: Globals, s: L.State, r: Relay.State, objs: set<object>)
    requires g.Table() && g.Is(s) && L.Core(s) && Main.Covers(g, objs)
    requires Relays(g.Mode(), g.Sides(), g.bcsttty.offered, r)
    requires g.bcstflg || !g.linebufferbcst
    ensures Heap(g, s, r, objs)
  {}

  // ---- The client ttys ----

  lemma CltIs(s: L.State, e: L.Event)
    requires L.Enabled(s, e) && L.Core(s)
    ensures e.CltOpen? ==> e.name in s.cmds && L.FreshPid(s, e.pid) && L.Step(s, e) == L.CltNotifyOpen(s, e.name, e.pid)
    ensures e.CltClose? ==> e.name in s.cmds && L.Step(s, e) == L.CltNotifyClose(s, e.name)
    ensures e.CltWrite? ==> e.name in s.cmds && L.Step(s, e) == L.CltWritten(s, e.name, e.c)
    ensures e.CltEvent? ==> e.name in s.cmds && s.cmds[e.name].clt.inq != "" && L.Step(s, e) == L.CltReadable(s, e.name, e.due)
  {}

  method CltOpened(g: Globals, n: string, pid: int, ghost objs: set<object>, ghost s: L.State, ghost r: Relay.State)
    requires Heap(g, s, r, objs) && L.Enabled(s, L.CltOpen(n, pid))
    modifies objs, g`children
    ensures Heap(g, L.Step(s, L.CltOpen(n, pid)), r, objs)
    ensures g.Sents() == old(g.Sents())
  {
    hide *;
    Unfold(g, s, r, objs);
    CltIs(s, L.CltOpen(n, pid));
    Main.Covered(g, objs, n);
    Main.CltttyOpen(g, g.cmds[n], pid, s);
    L.StepCore(s, L.CltOpen(n, pid));
    Together(g, L.Step(s, L.CltOpen(n, pid)), r, objs);
  }

  method CltClosed(g: Globals, n: string, now: real, ghost objs: set<object>, ghost s: L.State, ghost r: Relay.State)
    requires Heap(g, s, r, objs) && L.Enabled(s, L.CltClose(n))
    modifies objs, g`children, g`cmdsreadycnt
    ensures Heap(g, L.Step(s, L.CltClose(n)), r, objs)
    ensures g.Sents() == StopSents(old(g.Sents()), g.Texts(), s, L.Step(s, L.CltClose(n)), now)
  {
    hide *;
    Unfold(g, s, r, objs);
    CltIs(s, L.CltClose(n));
    Main.Covered(g, objs, n);
    var c := g.cmds[n];
    ghost var t := L.CltNotifyClose(s, n);
    Main.SentsAt(g);
    Main.TextIs(g, n);
    Main.RunningIs(g, c, s);
    OneHalts(g.Sents(), g.Texts(), s, L.CltClose(n), n, now);
    Main.CltttyClose(g, c, now, s);
    Main.RunningIs(g, c, t);
    Main.HaltedIs(s, t, n);
    L.StepCore(s, L.CltClose(n));
    Together(g, L.Step(s, L.CltClose(n)), r, objs);
  }

  // A step of one command stops no other.
  lemma OneHalts(sents: map<string, Sending>, texts: map<string, string>, s: L.State, e: L.Event, n: string, now: real)
    requires L.Enabled(s, e) && (e.CltClose? || e.CltEvent?) && e.name == n && n in sents && n in texts
    ensures var t := L.Step(s, e);
      StopSents(sents, texts, s, t, now) ==
      sents[n := if Halted(s, t, n) then sents[n].Plus(texts[n], Delivery(now, StopString)) else sents[n]]
  {
    hide Sending.Plus, L.Halt;
  }

  // Clients write a byte.
  method CltArrives(g: Globals, c: Cmd, ch: char, ghost s: L.State)
    requires g.Table() && c.name in g.cmds && g.cmds[c.name] == c && g.Is(s)
    modifies c.clttty`inq
    ensures c.name in s.cmds && g.Is(L.CltWritten(s, c.name, ch)) && g.Sides() == old(g.Sides())
    ensures g.Sents() == old(g.Sents())
  {
    hide *;
    Main.OneCommand(g, c, s);
    CltWrittenMove(g, c, ch, s);
    CltArriveTo(g, c, ch, s, L.CltWritten(s, c.name, ch));
    Main.SidesSame(g);
    Main.SentsSame(g);
  }

  lemma CltWrittenMove(g: Globals, c: Cmd, ch: char, s: L.State)
    requires g.Is(s) && c.name in g.cmds && g.cmds[c.name] == c && c.name in s.cmds
    ensures L.Moves(s, L.CltWritten(s, c.name, ch), c.name, c.Proc().(clt := L.Tty(c.clttty.opens, c.clttty.inq + [ch])),
                    s.cmdsreadycnt, s.children, s.flags.aborted)
  {}

  method CltArriveTo(g: Globals, c: Cmd, ch: char, ghost s: L.State, ghost t: L.State)
    requires g.Alone(c) && g.Is(s)
    requires L.Moves(s, t, c.name, c.Proc().(clt := L.Tty(c.clttty.opens, c.clttty.inq + [ch])),
                     s.cmdsreadycnt, s.children, s.flags.aborted)
    modifies c.clttty`inq
    ensures g.Is(t)
  {
    assert g.IsBut(s, c.name);
    assert g.cmdsreadycnt == s.cmdsreadycnt && g.children == s.children && g.aborted == s.flags.aborted;
    hide L.Moves, Globals.Is, Globals.IsBut;
    c.clttty.inq := c.clttty.inq + [ch];
    g.Settle(s, t, c.name);
  }

  method CltWritten(g: Globals, n: string, ch: char, ghost objs: set<object>, ghost s: L.State, ghost r: Relay.State)
    requires Heap(g, s, r, objs) && L.Enabled(s, L.CltWrite(n, ch))
    modifies objs
    ensures Heap(g, L.Step(s, L.CltWrite(n, ch)), r, objs)
    ensures g.Sents() == old(g.Sents())
  {
    hide *;
    Unfold(g, s, r, objs);
    CltIs(s, L.CltWrite(n, ch));
    Main.Covered(g, objs, n);
    CltArrives(g, g.cmds[n], ch, s);
    L.StepCore(s, L.CltWrite(n, ch));
    Together(g, L.Step(s, L.CltWrite(n, ch)), r, objs);
  }

  // What a readable client tty sends.
  ghost function CltSents(sents: map<string, Sending>, texts: map<string, string>, s: L.State, n: string, due: bool, now: real)
    : map<string, Sending>
    requires L.Enabled(s, L.CltEvent(n, due))
  {
    if L.Forwards(s, n, due) && n in sents then
      StopSents(sents[n := sents[n].Plus([s.cmds[n].clt.inq[0]], Delivery(now, Client))], texts, s, L.Step(s, L.CltEvent(n, due)), now)
    else sents
  }

  lemma CltSentsIs(sents: map<string, Sending>, texts: map<string, string>, s: L.State, n: string, due: bool, now: real)
    requires L.Enabled(s, L.CltEvent(n, due)) && n in sents && n in texts
    ensures CltSents(sents, texts, s, n, due, now) ==
      if L.Forwards(s, n, due) then
        var sent := sents[n].Plus([s.cmds[n].clt.inq[0]], Delivery(now, Client));
        sents[n := sent.Plus(if Halted(s, L.Step(s, L.CltEvent(n, due)), n) then texts[n] else "", Delivery(now, StopString))]
      else sents[n := sents[n]]
  {
    var sent := sents[n].Plus([s.cmds[n].clt.inq[0]], Delivery(now, Client));
    sent.PlusNone(Delivery(now, StopString));
    OneHalts(sents[n := sent], texts, s, L.CltEvent(n, due), n, now);
    hide L.Step, L.Forwards, Sending.Plus, Halted;
  }

  // The timestamp decides whether the byte is read now.
  method CltReady(g: Globals, n: string, now: real, ghost objs: set<object>, ghost s: L.State, ghost r: Relay.State)
    returns (due: bool)
    requires Heap(g, s, r, objs) && L.Enabled(s, L.CltEvent(n, true))
    modifies objs, g`children, g`cmdsreadycnt
    ensures n in old(g.cmds) && var c := old(g.cmds[n]);
      due <==> c.delay <= 0.0 || now - old(g.cmds[n].lastwrite) >= c.delay
    ensures g.Sents() == CltSents(old(g.Sents()), g.Texts(), s, n, due, now)
    ensures L.Enabled(s, L.CltEvent(n, due)) && Heap(g, L.Step(s, L.CltEvent(n, due)), r, objs)
  {
    hide *;
    Unfold(g, s, r, objs);
    CltAnyTime(s, n, true);
    Main.Covered(g, objs, n);
    var c := g.cmds[n];
    due := Due(c.lastwrite, c.delay, now);
    CltAnyTime(s, n, due);
    CltIs(s, L.CltEvent(n, due));
    Main.WaitingIs(g, c, s);
    ghost var t := L.Step(s, L.CltEvent(n, due));
    Main.SentsAt(g);
    Main.TextIs(g, n);
    Main.RunningIs(g, c, s);
    CltSentsIs(g.Sents(), g.Texts(), s, n, due, now);
    Main.DueIs(c.lastwrite, c.delay, now);
    Main.CltttyEvent(g, c, now, s);
    Main.RunningIs(g, c, t);
    Main.HaltedIs(s, t, n);
    L.StepCore(s, L.CltEvent(n, due));
    Together(g, L.Step(s, L.CltEvent(n, due)), r, objs);
  }

  lemma CltAnyTime(s: L.State, n: string, due: bool)
    requires L.Enabled(s, L.CltEvent(n, true))
    ensures L.Enabled(s, L.CltEvent(n, due)) && n in s.cmds
  {}

  // ---- The broadcast tty ----

  lemma BcstIs(s: L.State, e: L.Event)
    requires L.Enabled(s, e) && L.Core(s)
    ensures e.BcstOpen? ==> L.FreshPids(s, e.pids) && L.Step(s, e) == L.BcstNotifyOpen(s, e.pids)
    ensures e.BcstClose? ==> s.flags.bcstflg && L.Step(s, e) == L.BcstNotifyClose(s)
    ensures e.BcstWrite? ==> L.Step(s, e) == s.(bcst := s.bcst.(inq := s.bcst.inq + [e.c]))
    ensures e.BcstEvent? ==> s.bcst.inq != "" && L.Step(s, e) == L.BcstReadable(s, e.due) && L.Enabled(s, L.BcstEvent(!e.due))
  {}

  method BcstOpened(g: Globals, pids: map<string, int>, ghost objs: set<object>, ghost s: L.State, ghost r: Relay.State)
    requires Heap(g, s, r, objs) && L.Enabled(s, L.BcstOpen(pids))
    modifies g.bcsttty`opens, objs, g`children
    ensures Heap(g, L.Step(s, L.BcstOpen(pids)), r, objs)
    ensures g.Sents() == old(g.Sents())
  {
    hide *;
    Unfold(g, s, r, objs);
    BcstIs(s, L.BcstOpen(pids));
    Main.BcstttyOpen(g, pids, objs, s);
    L.StepCore(s, L.BcstOpen(pids));
    Together(g, L.Step(s, L.BcstOpen(pids)), r, objs);
  }

  method BcstClosed(g: Globals, now: real, ghost objs: set<object>, ghost s: L.State, ghost r: Relay.State)
    requires Heap(g, s, r, objs) && L.Enabled(s, L.BcstClose)
    modifies g.bcsttty`opens, objs, g`children, g`cmdsreadycnt
    ensures Heap(g, L.Step(s, L.BcstClose), r, objs)
    ensures g.Sents() == StopSents(old(g.Sents()), g.Texts(), s, L.Step(s, L.BcstClose), now)
  {
    hide *;
    Unfold(g, s, r, objs);
    BcstIs(s, L.BcstClose);
    Main.BcstttyClose(g, now, objs, s);
    L.StepCore(s, L.BcstClose);
    Together(g, L.Step(s, L.BcstClose), r, objs);
  }

  // Clients write a byte.
  method BcstArrives(g: Globals, ch: char, ghost s: L.State)
    requires g.Is(s) && forall n | n in g.cmds :: g.cmds[n].cmdtty != g.bcsttty && g.cmds[n].clttty != g.bcsttty
    modifies g.bcsttty`inq
    ensures g.Is(s.(bcst := s.bcst.(inq := s.bcst.inq + [ch])))
  {
    hide Cmd.Proc;
    g.bcsttty.inq := g.bcsttty.inq + [ch];
  }

  method BcstWritten(g: Globals, ch: char, ghost objs: set<object>, ghost s: L.State, ghost r: Relay.State)
    requires Heap(g, s, r, objs) && L.Enabled(s, L.BcstWrite(ch))
    modifies g.bcsttty`inq
    ensures Heap(g, L.Step(s, L.BcstWrite(ch)), r, objs)
    ensures g.Sents() == old(g.Sents())
  {
    hide *;
    Unfold(g, s, r, objs);
    BcstIs(s, L.BcstWrite(ch));
    Main.BcstApart(g);
    BcstArrives(g, ch, s);
    Main.SidesSame(g);
    Main.SentsSame(g);
    L.StepCore(s, L.BcstWrite(ch));
    Together(g, L.Step(s, L.BcstWrite(ch)), r, objs);
  }

  method BcstReady(g: Globals, now: real, ghost objs: set<object>, ghost s: L.State, ghost r: Relay.State)
    returns (due: bool)
    requires Heap(g, s, r, objs) && L.Enabled(s, L.BcstEvent(true)) && g.slowestcmd != null
    modifies objs, g.bcsttty
    ensures var slow := g.slowestcmd; due <==> slow.delay <= 0.0 || now - old(g.slowestcmd.lastwrite) >= slow.delay
    ensures g.Sents() == if L.BcstBlocked(s) || !due then old(g.Sents())
                         else PlusAll(old(g.Sents()), [s.bcst.inq[0]], Delivery(now, Bcst))
    ensures L.Enabled(s, L.BcstEvent(due)) && Heap(g, L.Step(s, L.BcstEvent(due)), r, objs)
  {
    hide *;
    Unfold(g, s, r, objs);
    BcstIs(s, L.BcstEvent(true));
    Main.DueIs(g.slowestcmd.lastwrite, g.slowestcmd.delay, now);
    Main.Flags(g, s);
    due := Due(g.slowestcmd.lastwrite, g.slowestcmd.delay, now);
    BcstIs(s, L.BcstEvent(due));
    var c := Main.BcstttyEvent(g, now, objs, s);
    L.StepCore(s, L.BcstEvent(due));
    Together(g, L.Step(s, L.BcstEvent(due)), r, objs);
  }

  // ---- The table ----

  lemma TableIs(s: L.State, e: L.Event)
    requires L.Enabled(s, e) && L.Core(s)
    ensures e.Exit? ==>
      e.name in s.cmds && L.Running(s.cmds[e.name]) && e.pid > 0 && L.Step(s, e) == L.PidEvent(s, e.name, e.pid)
    ensures e.Add? ==> e.pid > 0 && L.Step(s, e) == L.MonAdd(s, e.name, e.pid)
    ensures e.Del? ==> L.Step(s, e) == L.MonDel(s, e.name)
    ensures e.IdleExit? ==> L.Step(s, e) == L.MonIdleExit(s)
    ensures e.Terminate? ==> L.Step(s, e) == L.Cleanup(s)
  {
    if e.Exit? { assert L.CmdInv(L.ReadyStr(s), s.cmds[e.name]); }
  }

  // Some commands are gone.
  lemma Less(g: Globals, was: map<string, Cmd>, objs: set<object>, mode: Relay.Mode, sides: map<string, Side>,
              gone: set<string>, r: Relay.State)
    requires g.cmds == was - gone && Relays(mode, sides, g.bcsttty.offered, r)
    requires forall n | n in was :: Main.CoversCmd(was[n], objs)
    requires g !in objs && g.bcsttty !in objs && g.bcsttty.discards !in objs
    ensures Main.Covers(g, objs) && Relays(mode, sides - gone, g.bcsttty.offered, r)
  {
    hide Main.CoversCmd, Side.Sound;
  }

  lemma CoversAll(g: Globals, objs: set<object>)
    requires Main.Covers(g, objs)
    ensures forall n | n in g.cmds :: Main.CoversCmd(g.cmds[n], objs)
  {}

  method Exited(g: Globals, n: string, pid: int, ghost objs: set<object>, ghost s: L.State, ghost r: Relay.State)
    requires Heap(g, s, r, objs) && L.Enabled(s, L.Exit(n, pid))
    modifies objs, g`cmdsreadycnt, g`children, g`cmds, g`order, g`exited
    ensures Heap(g, L.Step(s, L.Exit(n, pid)), r, objs)
    ensures g.Sents() == old(g.Sents()) - (if s.cmds[n].deleteonexit then {n} else {})
    ensures g.cmds == old(g.cmds) - (if s.cmds[n].deleteonexit then {n} else {})
  {
    hide *;
    Unfold(g, s, r, objs);
    TableIs(s, L.Exit(n, pid));
    Main.Covered(g, objs, n);
    CoversAll(g, objs);
    var c := g.cmds[n];
    Main.RunningIs(g, c, s);
    Main.Policies(g, c, s);
    ghost var was, sides, gone := g.cmds, g.Sides(), if c.deleteonexit then {n} else {};
    Main.PidEvent(g, c, pid, s);
    Less(g, was, objs, g.Mode(), sides, gone, r);
    L.StepCore(s, L.Exit(n, pid));
    Together(g, L.Step(s, L.Exit(n, pid)), r, objs);
  }

  method Deleted(g: Globals, n: string, now: real, ghost objs: set<object>, ghost s: L.State, ghost r: Relay.State)
    requires Heap(g, s, r, objs) && L.Enabled(s, L.Del(n))
    modifies objs, g`cmdsreadycnt, g`children, g`cmds, g`order, g`exited
    ensures Heap(g, L.Step(s, L.Del(n)), r, objs)
    ensures g.cmds == old(g.cmds) - {n} && g.Sents() == old(g.Sents()) - {n}
  {
    hide *;
    Unfold(g, s, r, objs);
    TableIs(s, L.Del(n));
    if n in g.cmds { Main.Covered(g, objs, n); }
    CoversAll(g, objs);
    ghost var was, sides := g.cmds, g.Sides();
    var found := Main.MonDel(g, n, now, s);
    Less(g, was, objs, g.Mode(), sides, {n}, r);
    L.StepCore(s, L.Del(n));
    Together(g, L.Step(s, L.Del(n)), r, objs);
  }

  method Idled(g: Globals, ghost objs: set<object>, ghost s: L.State, ghost r: Relay.State)
    requires Heap(g, s, r, objs) && L.Enabled(s, L.IdleExit)
    modifies objs, g`exitonidle, g`cmddelonexit, g`exited
    ensures Heap(g, L.Step(s, L.IdleExit), r, objs)
    ensures g.Sents() == old(g.Sents())
  {
    hide *;
    Unfold(g, s, r, objs);
    TableIs(s, L.IdleExit);
    Main.MonIdleExit(g, s, objs);
    L.StepCore(s, L.IdleExit);
    Together(g, L.Step(s, L.IdleExit), r, objs);
  }

  method Terminated(g: Globals, now: real, ghost objs: set<object>, ghost s: L.State, ghost r: Relay.State)
    requires Heap(g, s, r, objs) && L.Enabled(s, L.Terminate)
    modifies objs, g
    ensures Heap(g, L.Step(s, L.Terminate), r, objs)
    ensures g.linebufferbcst == old(g.linebufferbcst) && g.prefixbcst == old(g.prefixbcst)
    ensures g.cmds == map[] && g.Sents() == map[] && g.slowestcmd == null
  {
    hide *;
    Unfold(g, s, r, objs);
    TableIs(s, L.Terminate);
    Main.Cleanup(g, now, objs, s);
    NoTable(g, r, objs);
    L.StepCore(s, L.Terminate);
    Together(g, L.Step(s, L.Terminate), r, objs);
  }

  lemma NoTable(g: Globals, r: Relay.State, objs: set<object>)
    requires g.cmds == map[] && g.Sides() == map[] && r.bcst == g.bcsttty.offered && g.bcsttty.Sized()
    requires g !in objs && g.bcsttty !in objs && g.bcsttty.discards !in objs
    ensures g.Table() && Main.Covers(g, objs) && Relays(g.Mode(), g.Sides(), g.bcsttty.offered, r)
  {}

  // A command is added: its parts are new, and nothing is buffered for it.
  method Added(g: Globals, n: string, pid: int, spec: Request, ghost objs: set<object>, ghost s: L.State, ghost r: Relay.State)
    returns (ghost objs': set<object>)
    requires Heap(g, s, r, objs) && L.Enabled(s, L.Add(n, pid))
    modifies g`cmds, g`order, g`slowestcmd, g`bcstflg, g`children,
      g.bcsttty`opens, g.bcsttty`inq, g.bcsttty`rbytes, g.bcsttty`wbytes
    ensures Heap(g, L.Step(s, L.Add(n, pid)), RelayStep(g.Mode(), s, r, L.Add(n, pid)), objs')
    ensures objs <= objs' && fresh(objs' - objs)
    ensures n !in s.cmds ==>
      && g.Sents() == old(g.Sents())[n := Silent] && n in g.cmds && g.cmds == old(g.cmds)[n := g.cmds[n]] && fresh(g.cmds[n])
      && g.cmds[n].cmdline == spec.cmdline && g.cmds[n].stopstr == spec.stopstr && g.cmds[n].delay == spec.delay
      && g.slowestcmd == if old(g.slowestcmd) == null || spec.delay > old(g.slowestcmd).delay then g.cmds[n] else old(g.slowestcmd)
    ensures n in s.cmds ==> g.cmds == old(g.cmds) && g.Sents() == old(g.Sents()) && g.slowestcmd == old(g.slowestcmd)
  {
    hide *;
    Unfold(g, s, r, objs);
    TableIs(s, L.Add(n, pid));
    CoversAll(g, objs);
    ghost var was, sides, mode := g.cmds, g.Sides(), g.Mode();
    Main.Flags(g, s);
    ModeIs(g);
    var added := Main.MonAdd(g, n, spec.cmdline, spec.stopstr, spec.delay, pid, s);
    L.StepCore(s, L.Add(n, pid));
    AddFlags(g, s, n, pid);
    AddMode(g, old(g.bcstflg), mode);
    objs' := objs;
    if added {
      NewIs(g.cmds[n]);
      ApartIs(g, n);
      objs' := objs + Objects(g.cmds[n]);
      More(g, was, objs, sides, n, mode, r);
      Remode(mode, g.Mode(), g.Sides(), g.bcsttty.offered, r.(pending := r.pending[n := ""]));
    } else {
      Main.Whole(was, sides, g.Sents());
      Less(g, was, objs, mode, sides, {}, r);
      Remode(mode, g.Mode(), g.Sides(), g.bcsttty.offered, r);
    }
    RelayAdd(g.Mode(), s, r, n, pid);
    Together(g, L.Step(s, L.Add(n, pid)), RelayStep(g.Mode(), s, r, L.Add(n, pid)), objs');
  }

  lemma RelayAdd(mode: Relay.Mode, s: L.State, r: Relay.State, n: string, pid: int)
    requires L.Enabled(s, L.Add(n, pid))
    ensures RelayStep(mode, s, r, L.Add(n, pid)) == if n in s.cmds then r else r.(pending := r.pending[n := ""])
  {}

  lemma AddFlags(g: Globals, s: L.State, n: string, pid: int)
    requires g.Is(L.MonAdd(s, n, pid))
    ensures s.flags.bcstflg ==> g.bcstflg
  {}

  lemma ModeIs(g: Globals)
    ensures g.Mode() ==
      if !g.bcstflg then Relay.Off else if !g.linebufferbcst then Relay.Raw else Relay.Line(g.prefixbcst)
  {}

  lemma AddMode(g: Globals, flag: bool, mode: Relay.Mode)
    requires mode == if !flag then Relay.Off else if !g.linebufferbcst then Relay.Raw else Relay.Line(g.prefixbcst)
    requires (flag ==> g.bcstflg) && (flag || !g.linebufferbcst)
    ensures g.Mode().Line? ==> g.Mode() == mode
  {}

  // Without line buffering no mode asks for more than another.
  lemma Remode(mode: Relay.Mode, mode': Relay.Mode, sides: map<string, Side>, bcst: string, r: Relay.State)
    requires Relays(mode, sides, bcst, r) && (mode'.Line? ==> mode' == mode)
    ensures Relays(mode', sides, bcst, r)
  {
    forall n | n in sides ensures sides[n].Sound(mode') { assert sides[n].Sound(mode); }
  }

  lemma ApartIs(g: Globals, n: string)
    requires g.Table() && n in g.cmds
    ensures g.cmds[n].Apart(g.bcsttty) && g.cmds[n].buf != g.bcsttty.discards
  {}

  ghost function Objects(c: Cmd): set<object> {
    {c, c.buf, c.cmdtty, c.cmdtty.discards, c.clttty, c.clttty.discards}
  }

  twostate lemma NewIs(new c: Cmd)
    requires Main.NewObjects(c)
    ensures fresh(Objects(c)) && Main.CoversCmd(c, Objects(c))
  {}

  lemma More(g: Globals, was: map<string, Cmd>, objs: set<object>, sides: map<string, Side>, n: string,
             mode: Relay.Mode, r: Relay.State)
    requires n in g.cmds && g.cmds == was[n := g.cmds[n]] && Relays(mode, sides, g.bcsttty.offered, r)
    requires g.Sides() == sides[n := g.cmds[n].Side()] && g.cmds[n].Side().Empty()
    requires forall m | m in was :: Main.CoversCmd(was[m], objs)
    requires g !in objs && g.bcsttty !in objs && g.bcsttty.discards !in objs
    requires g.cmds[n].Apart(g.bcsttty) && g.cmds[n].buf != g.bcsttty.discards
    ensures Main.Covers(g, objs + Objects(g.cmds[n]))
    ensures Relays(mode, g.Sides(), g.bcsttty.offered, r.(pending := r.pending[n := ""]))
  {
    RelaysMore(mode, sides, g.bcsttty.offered, r, n, g.cmds[n].Side());
    hide Relays, Side.Empty, Globals.Sides;
  }

  lemma RelaysMore(mode: Relay.Mode, sides: map<string, Side>, bcst: string, r: Relay.State, n: string, side: Side)
    requires Relays(mode, sides, bcst, r) && side.Empty()
    ensures Relays(mode, sides[n := side], bcst, r.(pending := r.pending[n := ""]))
  {
    assert side.Sound(mode) && side.Pending() == "";
    hide Side.Sound, Side.Pending, Side.Empty;
  }

  // ---- The commands' own ttys ----

  lemma CmdIs(s: L.State, e: L.Event)
    requires L.Enabled(s, e)
    ensures e.CmdNotify? ==> e.name in s.cmds && L.Step(s, e) == s
    ensures e.CmdWrite? ==> e.name in s.cmds && L.Step(s, e) == L.Written(s, e.name, e.b)
    ensures e.CmdEvent? ==> e.name in s.cmds && s.cmds[e.name].queue != [] && L.Step(s, e) == L.Read(s, e.name)
    ensures !s.flags.aborted
  {}

  // A byte is written to the tty of c.
  method CmdArrives(g: Globals, c: Cmd, b: L.Byte, ghost s: L.State)
    requires g.Table() && c.name in g.cmds && g.cmds[c.name] == c && g.Is(s)
    modifies c.cmdtty`inq, c`queue
    ensures c.name in s.cmds && g.Is(L.Written(s, c.name, b)) && g.Sides().Keys == old(g.Sides()).Keys
    ensures g.Sides() == old(g.Sides())[c.name := old(c.Side()).(queue := old(c.Side()).queue + [b], unread := old(c.Side()).unread + [b.c])]
    ensures g.Sents() == old(g.Sents())
  {
    hide *;
    Main.OneCommand(g, c, s);
    Main.SidesAt(g);
    ghost var sides := g.Sides();
    WrittenMove(g, c, b, s);
    CmdArriveTo(g, c, b, s, L.Written(s, c.name, b));
    Main.SentsSame(g);
    Main.SidesAre(g, sides[c.name := sides[c.name].(queue := sides[c.name].queue + [b], unread := sides[c.name].unread + [b.c])]);
  }

  lemma WrittenMove(g: Globals, c: Cmd, b: L.Byte, s: L.State)
    requires g.Is(s) && c.name in g.cmds && g.cmds[c.name] == c && c.name in s.cmds
    ensures L.Moves(s, L.Written(s, c.name, b), c.name, c.Proc().(queue := c.Proc().queue + [b]),
                    s.cmdsreadycnt, s.children, s.flags.aborted)
  {}

  method CmdArriveTo(g: Globals, c: Cmd, b: L.Byte, ghost s: L.State, ghost t: L.State)
    requires g.Alone(c) && g.Is(s)
    requires L.Moves(s, t, c.name, c.Proc().(queue := c.Proc().queue + [b]), s.cmdsreadycnt, s.children, s.flags.aborted)
    modifies c.cmdtty`inq, c`queue
    ensures g.Is(t)
    ensures c.Side() == old(c.Side()).(queue := old(c.Side()).queue + [b], unread := old(c.Side()).unread + [b.c])
  {
    hide *;
    AloneIs(g, c, s);
    Enqueue(c, b);
    g.Settle(s, t, c.name);
  }

  method Enqueue(c: Cmd, b: L.Byte)
    requires c.cmdtty != c.clttty
    modifies c.cmdtty`inq, c`queue
    ensures c.Proc() == old(c.Proc()).(queue := old(c.Proc()).queue + [b])
    ensures c.Side() == old(c.Side()).(queue := old(c.Side()).queue + [b], unread := old(c.Side()).unread + [b.c])
  {
    c.cmdtty.inq := c.cmdtty.inq + [b.c];
    c.queue := c.queue + [b];
  }

  lemma AloneIs(g: Globals, c: Cmd, s: L.State)
    requires g.Alone(c) && g.Is(s)
    ensures g.IsBut(s, c.name) && c.name in g.cmds && g.cmds[c.name] == c
    ensures g.cmdsreadycnt == s.cmdsreadycnt && g.children == s.children && g.aborted == s.flags.aborted
    ensures c.cmdtty != c.clttty && c.cmdtty != g.bcsttty && c.clttty != g.bcsttty
    ensures forall m | m in g.cmds && m != c.name ::
      g.cmds[m] != c && g.cmds[m].clttty != c.cmdtty && g.cmds[m].clttty != c.clttty
  {}

  lemma WrittenRelays(mode: Relay.Mode, sides: map<string, Side>, bcst: string, r: Relay.State, n: string, b: L.Byte)
    requires Relays(mode, sides, bcst, r) && n in sides
    ensures Relays(mode, sides[n := sides[n].(queue := sides[n].queue + [b], unread := sides[n].unread + [b.c])], bcst, r)
  {
    var x := sides[n].(queue := sides[n].queue + [b], unread := sides[n].unread + [b.c]);
    assert sides[n].Sound(mode) && x.Sound(mode);
    assert x.Pending() == sides[n].Pending();
    hide Side.Sound, Side.Pending;
  }

  method CmdWritten(g: Globals, n: string, b: L.Byte, ghost objs: set<object>, ghost s: L.State, ghost r: Relay.State)
    requires Heap(g, s, r, objs) && L.Enabled(s, L.CmdWrite(n, b))
    modifies objs
    ensures Heap(g, L.Step(s, L.CmdWrite(n, b)), r, objs)
    ensures g.Sents() == old(g.Sents())
  {
    hide *;
    Unfold(g, s, r, objs);
    CmdIs(s, L.CmdWrite(n, b));
    Main.Covered(g, objs, n);
    Main.SidesAt(g);
    WrittenRelays(g.Mode(), g.Sides(), g.bcsttty.offered, r, n, b);
    CmdArrives(g, g.cmds[n], b, s);
    L.StepCore(s, L.CmdWrite(n, b));
    Together(g, L.Step(s, L.CmdWrite(n, b)), r, objs);
  }

  // ttyNotifyEvent on the command's own tty: only the open count moves.
  method CmdNotifies(g: Globals, c: Cmd, isOpen: bool, ghost s: L.State)
    requires g.Table() && c.name in g.cmds && g.cmds[c.name] == c && g.Is(s)
    modifies c.cmdtty`opens
    ensures g.Is(s) && g.Sides() == old(g.Sides()) && g.Sents() == old(g.Sents())[c.name := old(c.Sent()).Notified(isOpen)]
  {
    hide *;
    Main.OneCommand(g, c, s);
    AloneIs(g, c, s);
    Main.SentsAt(g);
    NotifyTo(g, c, isOpen, s);
    Main.SidesSame(g);
    Main.SentsAre(g, old(g.Sents())[c.name := old(c.Sent()).Notified(isOpen)]);
  }

  method NotifyTo(g: Globals, c: Cmd, isOpen: bool, ghost s: L.State)
    requires g.Is(s) && c.cmdtty != g.bcsttty && forall m | m in g.cmds :: g.cmds[m].clttty != c.cmdtty
    modifies c.cmdtty`opens
    ensures g.Is(s) && c.Sent() == old(c.Sent()).Notified(isOpen)
  {
    hide Cmd.Proc;
    c.cmdtty.NotifyEvent(isOpen);
  }

  method CmdNotified(g: Globals, n: string, isOpen: bool, ghost objs: set<object>, ghost s: L.State, ghost r: Relay.State)
    requires Heap(g, s, r, objs) && L.Enabled(s, L.CmdNotify(n, isOpen))
    modifies objs
    ensures Heap(g, L.Step(s, L.CmdNotify(n, isOpen)), r, objs)
    ensures n in g.cmds && g.Sents() == old(g.Sents())[n := old(g.cmds[n].Sent()).Notified(isOpen)]
  {
    hide *;
    Unfold(g, s, r, objs);
    CmdIs(s, L.CmdNotify(n, isOpen));
    Main.Covered(g, objs, n);
    CmdNotifies(g, g.cmds[n], isOpen, s);
    L.StepCore(s, L.CmdNotify(n, isOpen));
    Together(g, L.Step(s, L.CmdNotify(n, isOpen)), r, objs);
  }

  // No other command's buffer is touched when c's output is processed.
  ghost predicate BufferAlone(g: Globals, c: Cmd)
    reads g`cmds
  {
    && g.Alone(c)
    && forall m | m in g.cmds && m != c.name ::
         && g.cmds[m] != c && g.cmds[m].buf != c.buf && g.cmds[m].buf != c.clttty.discards
         && g.cmds[m].buf != g.bcsttty.discards
         && g.cmds[m].cmdtty != c.cmdtty && g.cmds[m].cmdtty != c.clttty && g.cmds[m].cmdtty != g.bcsttty
         && g.cmds[m].clttty != g.bcsttty
  }

  lemma BufferAloneInTable(g: Globals, c: Cmd)
    requires g.Table() && c.name in g.cmds && g.cmds[c.name] == c
    ensures BufferAlone(g, c)
  {}

  lemma SoundIs(g: Globals, c: Cmd)
    ensures c.Side().Sound(g.Mode()) <==>
      c.buf.Length == CMD_BUFSIZE && c.RingOK() && c.bufstart <= c.bufn && c.QueueOK() && (g.Mode().Line? ==> c.LineOK())
    ensures c.Side().Sound(g.Mode()) ==> c.Side().Pending() == c.Pending()
  {}

  // What reading one byte leaves: the relay step, or nothing if yar is stopped by it.
  ghost predicate Passed(g: Globals, c: Cmd, ch: char, pending: string, bcst: string)
    reads c, c.buf, c.cmdtty, g, g.bcsttty
  {
    && c.Side().Sound(g.Mode())
    && c.Side().Pending() == (if g.aborted then pending else Relay.Keep(g.Mode(), pending, ch))
    && g.bcsttty.offered == if g.aborted then bcst else bcst + Relay.Offer(g.Mode(), c.name, pending, ch)
  }

  // c as it was: its state, its buffer, what it was sent; the global count and the stream.
  ghost predicate Was(g: Globals, c: Cmd, o: L.Cmd, side: Side, sent: Sending, count: int, bcst: string)
    reads c, c.buf, c.cmdtty, c.clttty, g, g.bcsttty
  {
    o == c.Proc() && side == c.Side() && sent == c.Sent() && count == g.cmdsreadycnt && bcst == g.bcsttty.offered
  }

  // The byte has been matched and, unless that stopped yar, passed on.
  ghost predicate Processed(g: Globals, c: Cmd, o: L.Cmd, side: Side, sent: Sending, count: int, bcst: string)
    reads c, c.buf, c.cmdtty, c.clttty, g, g.bcsttty
  {
    && side.unread != "" && side.bufstart <= |side.history|
    && Passed(g, c, side.unread[0], side.Pending(), bcst)
    && o.queue != [] && c.Proc() == L.Take(g.Ready(), o) && c.Sent() == sent
    && g.cmdsreadycnt == count + L.One(L.Completing(g.Ready(), o))
    && (g.aborted <==> L.Completing(g.Ready(), o) && count + 1 > |g.cmds|)
  }

  method Process(g: Globals, c: Cmd, ghost o: L.Cmd, ghost side: Side, ghost sent: Sending, ghost count: int, ghost bcst: string)
    requires Was(g, c, o, side, sent, count, bcst)
    requires c.Formed() && c.Apart(g.bcsttty) && c.Side().Sound(g.Mode()) && c.Side().unread != "" && !g.aborted
    modifies c, c.buf, c.cmdtty, c.clttty, c.clttty.discards, g`cmdsreadycnt, g`aborted, g.bcsttty, g.bcsttty.discards
    ensures Processed(g, c, o, side, sent, count, bcst)
    ensures g.bcsttty.opens == old(g.bcsttty.opens) && g.bcsttty.inq == old(g.bcsttty.inq)
  {
    hide Ring.Holds, L.Take, L.Completing, Relay.Keep, Relay.Offer, Relay.Carried, L.Chars;
    SoundIs(g, c);
    var n := c.ProcessOutput(g);
    SoundIs(g, c);
  }

  method ReadTo(g: Globals, c: Cmd, ghost s: L.State, ghost t: L.State)
    requires BufferAlone(g, c) && g.Is(s) && c.Side().Sound(g.Mode()) && c.Side().unread != "" && !g.aborted
    requires L.Moves(s, t, c.name, L.Take(g.Ready(), c.Proc()),
                     s.cmdsreadycnt + L.One(L.Completing(g.Ready(), c.Proc())), s.children,
                     L.Completing(g.Ready(), c.Proc()) && g.cmdsreadycnt + 1 > |g.cmds|)
    modifies c, c.buf, c.cmdtty, c.clttty, c.clttty.discards, g`cmdsreadycnt, g`aborted, g.bcsttty, g.bcsttty.discards
    ensures g.Is(t) && Passed(g, c, old(c.Side()).unread[0], old(c.Side()).Pending(), old(g.bcsttty.offered))
    ensures c.Sent() == old(c.Sent())
  {
    hide *;
    BufferFacts(g, c);
    AloneIs(g, c, s);
    ghost var o, side, sent, count, bcst := c.Proc(), c.Side(), c.Sent(), g.cmdsreadycnt, g.bcsttty.offered;
    WasNow(g, c);
    ProcessBut(g, c, s, o, side, sent, count, bcst);
    ProcessedIs(g, c, o, side, sent, count, bcst);
    g.Settle(s, t, c.name);
  }

  lemma WasNow(g: Globals, c: Cmd)
    ensures Was(g, c, c.Proc(), c.Side(), c.Sent(), g.cmdsreadycnt, g.bcsttty.offered)
  {}

  lemma ProcessedIs(g: Globals, c: Cmd, o: L.Cmd, side: Side, sent: Sending, count: int, bcst: string)
    requires Processed(g, c, o, side, sent, count, bcst)
    ensures side.unread != "" && side.bufstart <= |side.history|
    ensures Passed(g, c, side.unread[0], side.Pending(), bcst) && c.Sent() == sent
    ensures c.Proc() == L.Take(g.Ready(), o) && g.cmdsreadycnt == count + L.One(L.Completing(g.Ready(), o))
    ensures g.aborted <==> L.Completing(g.Ready(), o) && count + 1 > |g.cmds|
  {}

  lemma BufferFacts(g: Globals, c: Cmd)
    requires BufferAlone(g, c)
    ensures g.Alone(c) && c.Formed() && c.Apart(g.bcsttty)
  {}

  // The other commands and the broadcast clients see nothing of it.
  method ProcessBut(g: Globals, c: Cmd, ghost s: L.State,
                    ghost o: L.Cmd, ghost side: Side, ghost sent: Sending, ghost count: int, ghost bcst: string)
    requires Was(g, c, o, side, sent, count, bcst)
    requires BufferAlone(g, c) && g.IsBut(s, c.name) && c.Side().Sound(g.Mode()) && c.Side().unread != "" && !g.aborted
    modifies c, c.buf, c.cmdtty, c.clttty, c.clttty.discards, g`cmdsreadycnt, g`aborted, g.bcsttty, g.bcsttty.discards
    ensures g.IsBut(s, c.name)
    ensures Processed(g, c, o, side, sent, count, bcst)
  {
    hide *;
    BufferFacts(g, c);
    TtysApart(g, c);
    ButIs(g, s, c.name);
    Process(g, c, o, side, sent, count, bcst);
    ButIs(g, s, c.name);
  }

  lemma TtysApart(g: Globals, c: Cmd)
    requires BufferAlone(g, c)
    ensures forall m | m in g.cmds && m != c.name ::
      && g.cmds[m] != c && g.cmds[m].clttty != c.cmdtty && g.cmds[m].clttty != c.clttty && g.cmds[m].clttty != g.bcsttty
  {}

  lemma ButIs(g: Globals, s: L.State, n: string)
    ensures g.IsBut(s, n) <==>
      && s.cmds.Keys == g.cmds.Keys && (forall m | m in g.cmds && m != n :: s.cmds[m] == g.cmds[m].Proc())
      && s.order == g.order && s.bcst == L.Tty(g.bcsttty.opens, g.bcsttty.inq)
      && s.flags == L.Flags(g.bcstflg, g.restart, g.exitonidle, g.cmddelonexit, g.readystr, g.exited, s.flags.aborted)
  {
    hide Cmd.Proc;
  }

  lemma TakeMove(g: Globals, c: Cmd, s: L.State)
    requires g.Is(s) && c.name in g.cmds && g.cmds[c.name] == c && c.name in s.cmds && s.cmds[c.name].queue != []
    requires !s.flags.aborted
    ensures !g.aborted && c.Proc().queue != []
    ensures var fires := L.Completing(g.Ready(), c.Proc()) && g.cmdsreadycnt + 1 > |g.cmds|;
      && (L.Fires(s, c.name) <==> fires)
      && L.Moves(s, L.Read(s, c.name), c.name, L.Take(g.Ready(), c.Proc()),
                 s.cmdsreadycnt + L.One(L.Completing(g.Ready(), c.Proc())), s.children, fires)
  {
    Main.SameSize(g, s);
    hide L.Completing, L.Take, L.One;
  }

  // The other commands' buffers are apart from what reading for c writes.
  lemma OthersApart(g: Globals, c: Cmd)
    requires BufferAlone(g, c)
    ensures c.name in g.cmds && g.cmds[c.name] == c
    ensures forall m | m in g.cmds && m != c.name ::
      && g.cmds[m] != c && g.cmds[m].buf != c.buf && g.cmds[m].buf != c.clttty.discards
      && g.cmds[m].buf != g.bcsttty.discards
      && g.cmds[m].cmdtty != c.cmdtty && g.cmds[m].cmdtty != c.clttty && g.cmds[m].cmdtty != g.bcsttty
  {}

  // The waiting bytes are those of the lifecycle state.
  lemma HeadIs(g: Globals, s: L.State, r: Relay.State, n: string)
    requires g.Is(s) && n in g.cmds && n in s.cmds && s.cmds[n].queue != []
    requires Relays(g.Mode(), g.Sides(), g.bcsttty.offered, r)
    ensures var side := g.cmds[n].Side();
      && side.Sound(g.Mode()) && side.unread != "" && side.unread[0] == s.cmds[n].queue[0].c
      && n in r.pending && side.Pending() == Relay.Pending(r, n) && r.bcst == g.bcsttty.offered
  {
    assert g.Sides()[n] == g.cmds[n].Side();
    assert g.cmds[n].Side().queue == s.cmds[n].queue;
  }

  lemma ReadRelays(mode: Relay.Mode, sides: map<string, Side>, r: Relay.State, n: string, ch: char,
                   side: Side, bcst: string, stopped: bool)
    requires Relays(mode, sides, r.bcst, r) && n in sides && side.Sound(mode)
    requires var p := Relay.Pending(r, n);
      && side.Pending() == (if stopped then p else Relay.Keep(mode, p, ch))
      && bcst == if stopped then r.bcst else r.bcst + Relay.Offer(mode, n, p, ch)
    ensures Relays(mode, sides[n := side], bcst, if stopped then r else Relay.Step(mode, r, Relay.Out(n, ch)))
  {
    hide Side.Sound, Side.Pending, Relay.Offer, Relay.Keep;
  }

  lemma PassedIs(g: Globals, c: Cmd, ch: char, pending: string, bcst: string)
    requires Passed(g, c, ch, pending, bcst)
    ensures c.Side().Sound(g.Mode())
    ensures c.Side().Pending() == if g.aborted then pending else Relay.Keep(g.Mode(), pending, ch)
    ensures g.bcsttty.offered == if g.aborted then bcst else bcst + Relay.Offer(g.Mode(), c.name, pending, ch)
  {}

  method ReadOne(g: Globals, c: Cmd, ghost s: L.State, ghost ch: char, ghost pending: string, ghost bcst: string)
    requires BufferAlone(g, c) && g.Is(s) && c.name in g.cmds && g.cmds[c.name] == c
    requires c.name in s.cmds && s.cmds[c.name].queue != [] && !s.flags.aborted
    requires c.Side().Sound(g.Mode()) && c.Side().unread != "" && c.Side().unread[0] == ch
    requires c.Side().Pending() == pending && g.bcsttty.offered == bcst
    modifies c, c.buf, c.cmdtty, c.clttty, c.clttty.discards, g`cmdsreadycnt, g`aborted, g.bcsttty, g.bcsttty.discards
    ensures g.Is(L.Read(s, c.name)) && c.Side().Sound(g.Mode())
    ensures c.Side().Pending() == if g.aborted then pending else Relay.Keep(g.Mode(), pending, ch)
    ensures g.bcsttty.offered == if g.aborted then bcst else bcst + Relay.Offer(g.Mode(), c.name, pending, ch)
    ensures c.Sent() == old(c.Sent())
  {
    hide *;
    TakeMove(g, c, s);
    ReadTo(g, c, s, L.Read(s, c.name));
    PassedIs(g, c, ch, pending, bcst);
  }

  method ReadAside(g: Globals, c: Cmd, ghost s: L.State, ghost ch: char, ghost pending: string, ghost bcst: string)
    requires BufferAlone(g, c) && g.Is(s) && c.name in g.cmds && g.cmds[c.name] == c
    requires c.name in s.cmds && s.cmds[c.name].queue != [] && !s.flags.aborted
    requires c.Side().Sound(g.Mode()) && c.Side().unread != "" && c.Side().unread[0] == ch
    requires c.Side().Pending() == pending && g.bcsttty.offered == bcst
    modifies c, c.buf, c.cmdtty, c.clttty, c.clttty.discards, g`cmdsreadycnt, g`aborted, g.bcsttty, g.bcsttty.discards
    ensures g.Is(L.Read(s, c.name)) && c.Side().Sound(g.Mode()) && g.Sides() == old(g.Sides())[c.name := c.Side()]
    ensures c.Side().Pending() == if g.aborted then pending else Relay.Keep(g.Mode(), pending, ch)
    ensures g.bcsttty.offered == if g.aborted then bcst else bcst + Relay.Offer(g.Mode(), c.name, pending, ch)
    ensures g.Sents() == old(g.Sents())
  {
    hide *;
    OthersApart(g, c);
    ghost var sides := g.Sides();
    Main.SidesAt(g);
    ReadOne(g, c, s, ch, pending, bcst);
    Main.SidesAre(g, sides[c.name := c.Side()]);
    Main.SentsSame(g);
  }

  // cmdCmdttyEvent, EPOLLIN (cmd.c:323-324).
  method CmdReady(g: Globals, n: string, ghost objs: set<object>, ghost s: L.State, ghost r: Relay.State)
    requires Heap(g, s, r, objs) && L.Enabled(s, L.CmdEvent(n))
    modifies objs, g`cmdsreadycnt, g`aborted, g.bcsttty, g.bcsttty.discards
    ensures Heap(g, L.Step(s, L.CmdEvent(n)), RelayStep(g.Mode(), s, r, L.CmdEvent(n)), objs)
    ensures g.Sents() == old(g.Sents())
  {
    hide *;
    Unfold(g, s, r, objs);
    CmdIs(s, L.CmdEvent(n));
    Main.Covered(g, objs, n);
    Main.SidesAt(g);
    var c := g.cmds[n];
    ghost var sides, ch := g.Sides(), c.Side().unread;
    BufferAloneInTable(g, c);
    OthersApart(g, c);
    HeadIs(g, s, r, n);
    ReadAside(g, c, s, ch[0], Relay.Pending(r, n), r.bcst);
    ReadRelays(g.Mode(), sides, r, n, ch[0], c.Side(), g.bcsttty.offered, g.aborted);
    StoppedIs(g, s, n);
    RelayRead(g.Mode(), s, r, n);
    L.StepCore(s, L.CmdEvent(n));
    Together(g, L.Step(s, L.CmdEvent(n)), RelayStep(g.Mode(), s, r, L.CmdEvent(n)), objs);
  }

  lemma StoppedIs(g: Globals, s: L.State, n: string)
    requires n in s.cmds && s.cmds[n].queue != [] && g.Is(L.Read(s, n)) && !s.flags.aborted
    ensures g.aborted <==> L.Fires(s, n)
  {}

  lemma RelayRead(mode: Relay.Mode, s: L.State, r: Relay.State, n: string)
    requires L.Enabled(s, L.CmdEvent(n))
    ensures n in s.cmds && s.cmds[n].queue != []
    ensures RelayStep(mode, s, r, L.CmdEvent(n)) ==
      if L.Fires(s, n) then r else Relay.Step(mode, r, Relay.Out(n, s.cmds[n].queue[0].c))
  {}

  // ---- One event after the other ----

  function ModeOf(flag: bool, line: bool, prefix: bool): Relay.Mode {
    if !flag then Relay.Off else if !line then Relay.Raw else Relay.Line(prefix)
  }

  // Whether the pacing lets the byte through is decided by the clock.
  function Timed(e: L.Event, due: bool): L.Event {
    match e
    case CltEvent(n, _) => L.CltEvent(n, due)
    case BcstEvent(_) => L.BcstEvent(due)
    case _ => e
  }

  // The slowest command is in the table. After its deletion the source follows a pointer
  // to freed memory, or NULL.
  predicate SlowestListed(g: Globals)
    reads g`cmds, g`slowestcmd
  {
    g.slowestcmd != null && g.slowestcmd.name in g.cmds && g.cmds[g.slowestcmd.name] == g.slowestcmd
  }

  // The heap is as w says: what each command was sent and added with, and the slowest.
  ghost function Specs(g: Globals): map<string, Request>
    reads g`cmds
  {
    map n | n in g.cmds :: g.cmds[n].Spec()
  }

  ghost predicate SlowIs(g: Globals, slow: Option<Slow>)
    reads g`cmds, g`slowestcmd
  {
    match slow
    case None => g.slowestcmd == null
    case Some(x) =>
      && g.slowestcmd != null && g.slowestcmd.name == x.name && g.slowestcmd.delay == x.delay
      && (x.listed <==> x.name in g.cmds && g.cmds[x.name] == g.slowestcmd)
  }

  ghost predicate WireIs(g: Globals, w: Wire)
    reads g`cmds, g`slowestcmd, set n | n in g.cmds :: g.cmds[n], set n | n in g.cmds :: g.cmds[n].cmdtty
  {
    w.sents == g.Sents() && w.specs == Specs(g) && SlowIs(g, w.slow) && w.stopstr == g.stopstr
  }

  lemma WireFacts(g: Globals, w: Wire)
    requires WireIs(g, w)
    ensures w.sents == g.Sents() && w.specs == Specs(g) && SlowIs(g, w.slow) && w.stopstr == g.stopstr
    ensures w.Texts() == g.Texts() && w.sents.Keys == g.cmds.Keys && w.specs.Keys == g.cmds.Keys
  {
    assert w.Texts().Keys == g.Texts().Keys;
    forall n | n in g.cmds ensures w.Texts()[n] == g.Texts()[n] {}
  }

  // The clock's verdict is that of the timestamps.
  lemma DueOf(g: Globals, w: Wire, e: L.Event, now: real)
    requires g.Table() && WireIs(g, w)
    ensures e.CltEvent? && e.name in g.cmds ==>
      var c := g.cmds[e.name];
      DueAt(w, e, now) <==> c.delay <= 0.0 || now - c.lastwrite >= c.delay
    ensures e.BcstEvent? && SlowestListed(g) ==>
      (DueAt(w, e, now) <==> g.slowestcmd.delay <= 0.0 || now - g.slowestcmd.lastwrite >= g.slowestcmd.delay)
    ensures !e.CltEvent? && !e.BcstEvent? ==> DueAt(w, e, now)
    ensures SlowestListed(g) <==> w.slow.Some? && w.slow.value.listed
  {
    if e.CltEvent? && e.name in g.cmds {
      assert w.sents[e.name] == g.cmds[e.name].Sent() && w.specs[e.name] == g.cmds[e.name].Spec();
    }
    if SlowestListed(g) { assert w.sents[g.slowestcmd.name] == g.slowestcmd.Sent(); }
  }

  lemma ModeNow(g: Globals, s: L.State, r: Relay.State, objs: set<object>)
    requires Heap(g, s, r, objs)
    ensures g.Mode() == ModeOf(s.flags.bcstflg, g.linebufferbcst, g.prefixbcst)
    ensures g !in objs && g.Table() && g.Is(s)
  {}

  lemma RelayOther(mode: Relay.Mode, s: L.State, r: Relay.State, e: L.Event)
    requires L.Enabled(s, e)
    ensures !e.CmdEvent? && !e.Add? ==> RelayStep(mode, s, r, e) == r
    ensures e.Add? ==> forall m :: RelayStep(m, s, r, e) == RelayStep(mode, s, r, e)
  {}

  lemma WireClt(w: Wire, s: L.State, e: L.Event, spec: Request, now: real)
    requires L.Enabled(s, e)
    ensures e.CltOpen? || e.CltWrite? ==> Wires.Step(w, s, e, spec, now) == w
    ensures e.CltClose? ==> Wires.Step(w, s, e, spec, now) == w.(sents := StopSents(w.sents, w.Texts(), s, L.Step(s, e), now))
    ensures e.CltEvent? ==> Wires.Step(w, s, e, spec, now) == w.(sents := CltSents(w.sents, w.Texts(), s, e.name, e.due, now))
  {}

  // Only what was sent changes.
  lemma Resent(g: Globals, w: Wire, sents: map<string, Sending>)
    requires w.specs == Specs(g) && SlowIs(g, w.slow) && w.stopstr == g.stopstr && sents == g.Sents()
    ensures WireIs(g, w.(sents := sents))
  {}

  method HandleClt(g: Globals, e: L.Event, now: real, ghost objs: set<object>, ghost s: L.State, ghost r: Relay.State, ghost w: Wire)
    returns (due: bool)
    requires Heap(g, s, r, objs) && L.Enabled(s, e) && (e.CltOpen? || e.CltClose? || e.CltWrite? || e.CltEvent?)
    requires WireIs(g, w)
    modifies objs, g`children, g`cmdsreadycnt
    ensures due == DueAt(w, e, now)
    ensures L.Enabled(s, Timed(e, due)) && Heap(g, L.Step(s, Timed(e, due)), r, objs)
    ensures forall spec :: WireIs(g, Wires.Step(w, s, Timed(e, due), spec, now))
  {
    hide *;
    WireFacts(g, w);
    ModeNow(g, s, r, objs);
    DueOf(g, w, e, now);
    due := true;
    match e {
      case CltOpen(n, pid) => CltOpened(g, n, pid, objs, s, r);
      case CltClose(n) => CltClosed(g, n, now, objs, s, r);
      case CltWrite(n, c) => CltWritten(g, n, c, objs, s, r);
      case CltEvent(n, d) =>
        EitherTime(s, n, d);
        due := CltReady(g, n, now, objs, s, r);
    }
    TimedIs(e, due);
    forall spec ensures WireIs(g, Wires.Step(w, s, Timed(e, due), spec, now)) {
      WireClt(w, s, Timed(e, due), spec, now);
      Resent(g, w, g.Sents());
    }
  }

  lemma EitherTime(s: L.State, n: string, due: bool)
    requires L.Enabled(s, L.CltEvent(n, due))
    ensures L.Enabled(s, L.CltEvent(n, true)) && n in s.cmds
  {}

  lemma EitherBcst(s: L.State, due: bool)
    requires L.Enabled(s, L.BcstEvent(due))
    ensures L.Enabled(s, L.BcstEvent(true)) && s.bcst.inq != ""
  {}

  lemma WireBcst(w: Wire, s: L.State, e: L.Event, spec: Request, now: real)
    requires L.Enabled(s, e)
    ensures e.BcstOpen? || e.BcstWrite? ==> Wires.Step(w, s, e, spec, now) == w
    ensures e.BcstClose? ==> Wires.Step(w, s, e, spec, now) == w.(sents := StopSents(w.sents, w.Texts(), s, L.Step(s, e), now))
    ensures e.BcstEvent? ==>
      s.bcst.inq != "" && Wires.Step(w, s, e, spec, now) ==
        w.(sents := if L.BcstBlocked(s) || !e.due then w.sents else PlusAll(w.sents, [s.bcst.inq[0]], Delivery(now, Bcst)))
  {}

  method HandleBcst(g: Globals, e: L.Event, now: real, ghost objs: set<object>, ghost s: L.State, ghost r: Relay.State, ghost w: Wire)
    returns (due: bool)
    requires Heap(g, s, r, objs) && L.Enabled(s, e) && (e.BcstOpen? || e.BcstClose? || e.BcstWrite? || e.BcstEvent?)
    requires (e.BcstEvent? ==> SlowestListed(g)) && WireIs(g, w)
    modifies objs, g`children, g`cmdsreadycnt, g.bcsttty
    ensures due == DueAt(w, e, now)
    ensures L.Enabled(s, Timed(e, due)) && Heap(g, L.Step(s, Timed(e, due)), r, objs)
    ensures forall spec :: WireIs(g, Wires.Step(w, s, Timed(e, due), spec, now))
  {
    hide *;
    WireFacts(g, w);
    ModeNow(g, s, r, objs);
    DueOf(g, w, e, now);
    SlowestThere(g);
    due := true;
    match e {
      case BcstOpen(pids) => BcstOpened(g, pids, objs, s, r);
      case BcstClose => BcstClosed(g, now, objs, s, r);
      case BcstWrite(c) => BcstWritten(g, c, objs, s, r);
      case BcstEvent(d) =>
        EitherBcst(s, d);
        due := BcstReady(g, now, objs, s, r);
    }
    TimedIs(e, due);
    forall spec ensures WireIs(g, Wires.Step(w, s, Timed(e, due), spec, now)) {
      WireBcst(w, s, Timed(e, due), spec, now);
      Resent(g, w, g.Sents());
    }
  }

  lemma WireCmd(w: Wire, s: L.State, e: L.Event, spec: Request, now: real)
    requires L.Enabled(s, e)
    ensures e.CmdWrite? || e.CmdEvent? || e.IdleExit? ==> Wires.Step(w, s, e, spec, now) == w
    ensures e.CmdNotify? && e.name in w.sents ==>
      Wires.Step(w, s, e, spec, now) == w.(sents := w.sents[e.name := w.sents[e.name].Notified(e.isOpen)])
  {}

  method HandleCmd(g: Globals, e: L.Event, ghost objs: set<object>, ghost s: L.State, ghost r: Relay.State, ghost w: Wire)
    requires Heap(g, s, r, objs) && L.Enabled(s, e) && (e.CmdWrite? || e.CmdNotify? || e.CmdEvent? || e.IdleExit?)
    requires WireIs(g, w)
    modifies objs, g`cmdsreadycnt, g`aborted, g`exited, g`exitonidle, g`cmddelonexit, g.bcsttty, g.bcsttty.discards
    ensures Heap(g, L.Step(s, e), RelayStep(g.Mode(), s, r, e), objs)
    ensures forall spec, now :: WireIs(g, Wires.Step(w, s, e, spec, now))
  {
    hide *;
    WireFacts(g, w);
    ModeNow(g, s, r, objs);
    RelayOther(g.Mode(), s, r, e);
    Main.SentsAt(g);
    match e {
      case CmdWrite(n, b) => CmdWritten(g, n, b, objs, s, r);
      case CmdNotify(n, isOpen) => CmdNotified(g, n, isOpen, objs, s, r);
      case CmdEvent(n) => CmdReady(g, n, objs, s, r);
      case IdleExit => Idled(g, objs, s, r);
    }
    forall spec, now ensures WireIs(g, Wires.Step(w, s, e, spec, now)) {
      WireCmd(w, s, e, spec, now);
      Resent(g, w, g.Sents());
    }
  }

  // Taking commands out of the table.
  lemma Withdrawn(g: Globals, was: map<string, Cmd>, slowest: Cmd?, w: Wire, n: string)
    requires g.cmds == was - {n} && g.slowestcmd == slowest && g.Sents() == w.sents - {n} && w.stopstr == g.stopstr
    requires w.specs == (map m | m in was :: was[m].Spec())
    requires match w.slow
      case None => slowest == null
      case Some(x) =>
        && slowest != null && slowest.name == x.name && slowest.delay == x.delay
        && (x.listed <==> x.name in was && was[x.name] == slowest)
    ensures WireIs(g, w.Without(n))
  {
    assert Specs(g) == w.specs - {n};
  }

  lemma WireTable(w: Wire, s: L.State, e: L.Event, spec: Request, now: real)
    requires L.Enabled(s, e)
    ensures e.Exit? ==> e.name in s.cmds && Wires.Step(w, s, e, spec, now) == if s.cmds[e.name].deleteonexit then w.Without(e.name) else w
    ensures e.Del? ==> Wires.Step(w, s, e, spec, now) == w.Without(e.name)
    ensures e.Terminate? ==> Wires.Step(w, s, e, spec, now) == Wire(map[], map[], None, w.stopstr)
    ensures e.Add? ==>
      Wires.Step(w, s, e, spec, now) ==
      if e.name in s.cmds then w
      else w.(sents := w.sents[e.name := Silent], specs := w.specs[e.name := spec],
              slow := if w.slow.None? || spec.delay > w.slow.value.delay then Some(Slow(e.name, spec.delay, true)) else w.slow)
  {}

  lemma Unwired(g: Globals, w: Wire)
    requires WireIs(g, w)
    ensures w.specs == (map m | m in g.cmds :: g.cmds[m].Spec())
    ensures match w.slow
      case None => g.slowestcmd == null
      case Some(x) =>
        && g.slowestcmd != null && g.slowestcmd.name == x.name && g.slowestcmd.delay == x.delay
        && (x.listed <==> x.name in g.cmds && g.cmds[x.name] == g.slowestcmd)
  {}

  method HandleEnd(g: Globals, e: L.Event, now: real, ghost objs: set<object>, ghost s: L.State, ghost r: Relay.State, ghost w: Wire)
    requires Heap(g, s, r, objs) && L.Enabled(s, e) && (e.Exit? || e.Del?) && WireIs(g, w)
    modifies objs, g`cmdsreadycnt, g`children, g`cmds, g`order, g`exited
    ensures Heap(g, L.Step(s, e), r, objs)
    ensures forall spec :: WireIs(g, Wires.Step(w, s, e, spec, now))
  {
    hide *;
    WireFacts(g, w);
    Unwired(g, w);
    Unfold(g, s, r, objs);
    TableIs(s, e);
    ghost var was, sents := g.cmds, g.Sents();
    match e {
      case Exit(n, pid) => Exited(g, n, pid, objs, s, r);
      case Del(n) => Deleted(g, n, now, objs, s, r);
    }
    Main.Whole(was, map[], sents);
    forall spec ensures WireIs(g, Wires.Step(w, s, e, spec, now)) {
      WireTable(w, s, e, spec, now);
      if e.Del? || s.cmds[e.name].deleteonexit {
        Withdrawn(g, was, g.slowestcmd, w, e.name);
      } else {
        Resent(g, w, g.Sents());
      }
    }
  }

  lemma AddedWire(g: Globals, was: map<string, Cmd>, slowest: Cmd?, w: Wire, n: string, spec: Request)
    requires n in g.cmds && n !in was && g.cmds == was[n := g.cmds[n]] && g.Sents() == w.sents[n := Silent] && w.stopstr == g.stopstr
    requires g.cmds[n].name == n && g.cmds[n].Spec() == spec && g.cmds[n] != slowest
    requires w.specs == (map m | m in was :: was[m].Spec())
    requires g.slowestcmd == if slowest == null || spec.delay > slowest.delay then g.cmds[n] else slowest
    requires match w.slow
      case None => slowest == null
      case Some(x) =>
        && slowest != null && slowest.name == x.name && slowest.delay == x.delay
        && (x.listed <==> x.name in was && was[x.name] == slowest)
    ensures WireIs(g, w.(sents := w.sents[n := Silent], specs := w.specs[n := spec],
      slow := if w.slow.None? || spec.delay > w.slow.value.delay then Some(Slow(n, spec.delay, true)) else w.slow))
  {
    assert Specs(g) == w.specs[n := spec];
  }

  lemma SpecOf(c: Cmd, spec: Request)
    requires c.cmdline == spec.cmdline && c.stopstr == spec.stopstr && c.delay == spec.delay
    ensures c.Spec() == spec
  {}

  method HandleAdd(g: Globals, e: L.Event, spec: Request, now: real, ghost objs: set<object>, ghost s: L.State, ghost r: Relay.State,
                   ghost w: Wire)
    returns (ghost objs': set<object>)
    requires Heap(g, s, r, objs) && L.Enabled(s, e) && e.Add? && WireIs(g, w)
    modifies g`cmds, g`order, g`slowestcmd, g`bcstflg, g`children,
      g.bcsttty`opens, g.bcsttty`inq, g.bcsttty`rbytes, g.bcsttty`wbytes
    ensures Heap(g, L.Step(s, e), RelayStep(g.Mode(), s, r, e), objs')
    ensures WireIs(g, Wires.Step(w, s, e, spec, now))
    ensures objs <= objs' && fresh(objs' - objs)
  {
    hide *;
    WireFacts(g, w);
    Unwired(g, w);
    ModeNow(g, s, r, objs);
    Main.Flags(g, s);
    WireTable(w, s, e, spec, now);
    ghost var was, slowest := g.cmds, g.slowestcmd;
    objs' := Added(g, e.name, e.pid, spec, objs, s, r);
    ModeNow(g, L.Step(s, e), RelayStep(g.Mode(), s, r, e), objs');
    if e.name in s.cmds {
      Resent(g, w, g.Sents());
    } else {
      Main.NameIs(g, e.name);
      SpecOf(g.cmds[e.name], spec);
      AddedWire(g, was, slowest, w, e.name, spec);
    }
  }

  method HandleTerminate(g: Globals, now: real, ghost objs: set<object>, ghost s: L.State, ghost r: Relay.State, ghost w: Wire)
    requires Heap(g, s, r, objs) && L.Enabled(s, L.Terminate) && WireIs(g, w)
    modifies objs, g
    ensures Heap(g, L.Step(s, L.Terminate), r, objs)
    ensures forall spec :: WireIs(g, Wires.Step(w, s, L.Terminate, spec, now))
    ensures g.linebufferbcst == old(g.linebufferbcst) && g.prefixbcst == old(g.prefixbcst)
  {
    hide *;
    WireFacts(g, w);
    Terminated(g, now, objs, s, r);
    forall spec ensures WireIs(g, Wires.Step(w, s, L.Terminate, spec, now)) {
      WireTable(w, s, L.Terminate, spec, now);
      NoWire(g, w.stopstr);
    }
  }

  lemma NoWire(g: Globals, stopstr: Option<string>)
    requires g.cmds == map[] && g.Sents() == map[] && g.slowestcmd == null && stopstr == g.stopstr
    ensures WireIs(g, Wire(map[], map[], None, stopstr))
  {
    assert Specs(g) == map[];
  }

  // One event: every enabled step of the lifecycle is taken on the heap by the handler,
  // and what it sends is what the step sends at that time. Waiting bytes are taken exactly
  // when the delay is over or there is none.
  method Handle(g: Globals, e: L.Event, spec: Request, now: real, ghost objs: set<object>, ghost s: L.State, ghost r: Relay.State,
                ghost w: Wire)
    returns (due: bool, ghost objs': set<object>)
    requires Heap(g, s, r, objs) && WireIs(g, w) && L.Enabled(s, e) && (e.BcstEvent? ==> SlowestListed(g))
    modifies objs, g, g.bcsttty, g.bcsttty.discards
    ensures L.Enabled(s, Timed(e, due)) && due == DueAt(w, e, now)
    ensures e.CltEvent? ==> e.name in old(g.cmds) && var c := old(g.cmds[e.name]);
      due <==> c.delay <= 0.0 || now - old(g.cmds[e.name].lastwrite) >= c.delay
    ensures e.BcstEvent? ==> var slow := old(g.slowestcmd);
      due <==> slow.delay <= 0.0 || now - old(g.slowestcmd.lastwrite) >= slow.delay
    ensures var mode := ModeOf(s.flags.bcstflg, g.linebufferbcst, g.prefixbcst);
      Heap(g, L.Step(s, Timed(e, due)), RelayStep(mode, s, r, Timed(e, due)), objs')
    ensures WireIs(g, Wires.Step(w, s, Timed(e, due), spec, now))
    ensures objs <= objs' && fresh(objs' - objs)
    ensures g.linebufferbcst == old(g.linebufferbcst) && g.prefixbcst == old(g.prefixbcst)
  {
    hide *;
    due, objs' := true, objs;
    ModeNow(g, s, r, objs);
    ghost var mode := g.Mode();
    TimedIs(e, due);
    DueOf(g, w, e, now);
    SlowestThere(g);
    Known(g, s, e);
    if e.CmdWrite? || e.CmdNotify? || e.CmdEvent? || e.IdleExit? {
      HandleCmd(g, e, objs, s, r, w);
    } else if e.Add? {
      RelayOther(mode, s, r, e);
      objs' := HandleAdd(g, e, spec, now, objs, s, r, w);
    } else if e.CltOpen? || e.CltClose? || e.CltWrite? || e.CltEvent? {
      due := HandleClt(g, e, now, objs, s, r, w);
      TimedIs(e, due);
      RelayOther(mode, s, r, Timed(e, due));
    } else if e.BcstOpen? || e.BcstClose? || e.BcstWrite? || e.BcstEvent? {
      due := HandleBcst(g, e, now, objs, s, r, w);
      TimedIs(e, due);
      RelayOther(mode, s, r, Timed(e, due));
    } else if e.Terminate? {
      RelayOther(mode, s, r, e);
      HandleTerminate(g, now, objs, s, r, w);
    } else {
      RelayOther(mode, s, r, e);
      HandleEnd(g, e, now, objs, s, r, w);
    }
  }

  lemma Known(g: Globals, s: L.State, e: L.Event)
    requires g.Is(s) && L.Enabled(s, e)
    ensures e.CltEvent? ==> e.name in g.cmds
  {}

  lemma TimedIs(e: L.Event, due: bool)
    ensures !e.CltEvent? && !e.BcstEvent? ==> Timed(e, due) == e
    ensures e.CltEvent? ==> Timed(e, due) == L.CltEvent(e.name, due)
    ensures e.BcstEvent? ==> Timed(e, due) == L.BcstEvent(due)
  {}

  // ---- Runs ----

  // An event offered at a time; spec describes the command if one is added.
  datatype Item = Item(e: L.Event, spec: Request, now: real)

  // The lifecycle, the relay and what is sent, side by side.
  datatype World = World(life: L.State, relay: Relay.State, wire: Wire, line: bool, prefix: bool)

  // An event happens when its handler can be called, except that a broadcast byte waits
  // for a slowest command that exists.
  ghost predicate Happens(x: World, i: Item) {
    L.Enabled(x.life, i.e) && (i.e.BcstEvent? ==> x.wire.slow.Some? && x.wire.slow.value.listed)
  }

  // The event as the clock makes it.
  ghost function Met(x: World, i: Item): (e: L.Event)
    ensures L.Enabled(x.life, i.e) ==> L.Enabled(x.life, e)
  {
    Timed(i.e, DueAt(x.wire, i.e, i.now))
  }

  ghost function Next(x: World, i: Item): World {
    if Happens(x, i) then
      var e := Met(x, i);
      World(L.Step(x.life, e), RelayStep(ModeOf(x.life.flags.bcstflg, x.line, x.prefix), x.life, x.relay, e),
            Wires.Step(x.wire, x.life, e, i.spec, i.now), x.line, x.prefix)
    else x
  }

  ghost function Course(x: World, script: seq<Item>): World {
    if script == [] then x else Next(Course(x, script[..|script| - 1]), script[|script| - 1])
  }

  // What happens of a script.
  ghost function Events(x: World, script: seq<Item>): seq<L.Event> {
    if script == [] then []
    else
      var front, i := script[..|script| - 1], script[|script| - 1];
      Events(x, front) + if Happens(Course(x, front), i) then [Met(Course(x, front), i)] else []
  }

  lemma CourseNext(x: World, script: seq<Item>, i: nat)
    requires i < |script|
    ensures Course(x, script[..i + 1]) == Next(Course(x, script[..i]), script[i])
  {
    assert script[..i + 1][..i] == script[..i];
  }

  lemma CourseNone(x: World, script: seq<Item>)
    ensures Course(x, script[..0]) == x && script[..|script|] == script
  {}

  lemma {:induction false} CourseFixed(x: World, script: seq<Item>)
    ensures Course(x, script).line == x.line && Course(x, script).prefix == x.prefix
  {
    if script != [] { CourseFixed(x, script[..|script| - 1]); }
  }

  lemma HappensIs(g: Globals, x: World, i: Item, objs: set<object>)
    requires Heap(g, x.life, x.relay, objs) && WireIs(g, x.wire)
    ensures Happens(x, i) <==> L.Enabled(x.life, i.e) && (i.e.BcstEvent? ==> SlowestListed(g))
  {
    DueOf(g, x.wire, i.e, i.now);
    hide L.Enabled;
  }

  lemma NextIs(x: World, i: Item)
    ensures !Happens(x, i) ==> Next(x, i) == x
    ensures Happens(x, i) ==>
      var e, t := Timed(i.e, DueAt(x.wire, i.e, i.now)), Next(x, i);
      && L.Enabled(x.life, i.e) && L.Enabled(x.life, e) && t.life == L.Step(x.life, e)
      && t.relay == RelayStep(ModeOf(x.life.flags.bcstflg, x.line, x.prefix), x.life, x.relay, e)
      && t.wire == Wires.Step(x.wire, x.life, e, i.spec, i.now)
  {}

  // theLoop: the world offers one event after the other, and those that can happen are
  // handled. The heap ends where the script takes the lifecycle, the relay and what is
  // sent; s is kept beside it to decide what can happen.
  method TheLoop(g: Globals, script: seq<Item>, s0: L.State, ghost x0: World, ghost objs0: set<object>)
    returns (s: L.State, ghost objs: set<object>)
    requires s0 == x0.life && x0.line == g.linebufferbcst && x0.prefix == g.prefixbcst
    requires Heap(g, x0.life, x0.relay, objs0) && WireIs(g, x0.wire)
    modifies objs0, g, g.bcsttty, g.bcsttty.discards
    ensures var x := Course(x0, script); s == x.life && Heap(g, x.life, x.relay, objs) && WireIs(g, x.wire)
  {
    hide *;
    s, objs := s0, objs0;
    ghost var x := x0;
    CourseNone(x0, script);
    for i := 0 to |script|
      invariant x == Course(x0, script[..i]) && s == x.life
      invariant Heap(g, x.life, x.relay, objs) && WireIs(g, x.wire)
      invariant g.linebufferbcst == x0.line && g.prefixbcst == x0.prefix && fresh(objs - objs0)
    {
      CourseNext(x0, script, i);
      CourseFixed(x0, script[..i]);
      HappensIs(g, x, script[i], objs);
      NextIs(x, script[i]);
      if L.Enabled(s, script[i].e) && (script[i].e.BcstEvent? ==> SlowestListed(g)) {
        var due;
        due, objs := Handle(g, script[i].e, script[i].spec, script[i].now, objs, s, x.relay, x.wire);
        s := L.Step(s, Timed(script[i].e, due));
        x := Next(x, script[i]);
      }
    }
  }

  lemma SlowestThere(g: Globals)
    ensures SlowestListed(g) ==> g.slowestcmd != null
  {}

  // What happens is a run of the lifecycle, and the relay follows it.
  lemma {:induction false} CourseRun(x: World, script: seq<Item>)
    ensures var evs, t := Events(x, script), Course(x, script);
      && Promises.Admitted(x.life, evs) && t.life == Promises.Run(x.life, evs)
      && t.relay == RelayRun(x.line, x.prefix, x.life, x.relay, evs)
  {
    if script != [] {
      var front, i := script[..|script| - 1], script[|script| - 1];
      CourseRun(x, front);
      CourseFixed(x, front);
      NextIs(Course(x, front), i);
      var evs := Events(x, front);
      if Happens(Course(x, front), i) {
        var e := Met(Course(x, front), i);
        hide L.Step, L.Enabled, RelayStep, Wires.Step, Timed, DueAt;
        RunNext(x.line, x.prefix, x.life, x.relay, evs, e);
        assert Events(x, script) == evs + [e];
      } else {
        assert Events(x, script) == evs;
      }
    }
  }

  // The relay along a run.
  ghost function RelayRun(line: bool, prefix: bool, s: L.State, r: Relay.State, evs: seq<L.Event>): Relay.State
    requires Promises.Admitted(s, evs)
  {
    if evs == [] then r
    else
      var front := evs[..|evs| - 1];
      var t := Promises.Run(s, front);
      RelayStep(ModeOf(t.flags.bcstflg, line, prefix), t, RelayRun(line, prefix, s, r, front), evs[|evs| - 1])
  }

  lemma RunNext(line: bool, prefix: bool, s: L.State, r: Relay.State, evs: seq<L.Event>, e: L.Event)
    requires Promises.Admitted(s, evs) && L.Enabled(Promises.Run(s, evs), e)
    ensures var t := Promises.Run(s, evs);
      && Promises.Admitted(s, evs + [e]) && Promises.Run(s, evs + [e]) == L.Step(t, e)
      && RelayRun(line, prefix, s, r, evs + [e]) ==
         RelayStep(ModeOf(t.flags.bcstflg, line, prefix), t, RelayRun(line, prefix, s, r, evs), e)
  {
    assert (evs + [e])[..|evs|] == evs;
  }

  // ---- The relay of a run as the interleaving of what was read ----

  ghost function Outs(s: L.State, evs: seq<L.Event>): seq<Relay.Out>
    requires Promises.Admitted(s, evs)
  {
    if evs == [] then []
    else
      var front, e := evs[..|evs| - 1], evs[|evs| - 1];
      var t := Promises.Run(s, front);
      if e.CmdEvent? && !L.Fires(t, e.name) then Outs(s, front) + [Relay.Out(e.name, t.cmds[e.name].queue[0].c)]
      else Outs(s, front)
  }

  // No name is used again after a deletion that left part of a line behind.
  ghost predicate NewNames(line: bool, prefix: bool, s: L.State, r: Relay.State, evs: seq<L.Event>)
    requires Promises.Admitted(s, evs)
  {
    evs == [] ||
    (var front, e := evs[..|evs| - 1], evs[|evs| - 1];
     NewNames(line, prefix, s, r, front)
     && (e.Add? && e.name !in Promises.Run(s, front).cmds ==> Relay.Pending(RelayRun(line, prefix, s, r, front), e.name) == ""))
  }

  // Two relay states that no step tells apart.
  ghost predicate Alike(r: Relay.State, q: Relay.State) {
    r.bcst == q.bcst && forall n :: Relay.Pending(r, n) == Relay.Pending(q, n)
  }

  lemma SameStep(mode: Relay.Mode, r: Relay.State, q: Relay.State, o: Relay.Out)
    requires Alike(r, q)
    ensures Alike(Relay.Step(mode, r, o), Relay.Step(mode, q, o))
  {
    var r', q' := Relay.Step(mode, r, o), Relay.Step(mode, q, o);
    assert Relay.Pending(r, o.name) == Relay.Pending(q, o.name);
    forall n ensures Relay.Pending(r', n) == Relay.Pending(q', n) {
      assert Relay.Pending(r, n) == Relay.Pending(q, n);
    }
  }

  lemma StepFlag(s: L.State, e: L.Event)
    requires L.Core(s) && L.Enabled(s, e) && s.flags.bcstflg
    ensures L.Step(s, e).flags.bcstflg
  {
    if !e.Add? {
      Promises.StepEffect(s, e);
      hide L.Step;
    }
  }

  lemma {:induction false} BcstStays(s: L.State, evs: seq<L.Event>)
    requires L.Core(s) && s.flags.bcstflg && Promises.Admitted(s, evs)
    ensures L.Core(Promises.Run(s, evs)) && Promises.Run(s, evs).flags.bcstflg
  {
    if evs != [] {
      var front, e := evs[..|evs| - 1], evs[|evs| - 1];
      BcstStays(s, front);
      L.StepCore(Promises.Run(s, front), e);
      StepFlag(Promises.Run(s, front), e);
      hide L.Core, L.Step;
    }
  }

  lemma OneStep(mode: Relay.Mode, t: L.State, e: L.Event, r: Relay.State, q: Relay.State, outs: seq<Relay.Out>, r0: Relay.State)
    requires L.Enabled(t, e) && Alike(r, q) && q == Relay.Run(mode, r0, outs)
    requires e.Add? && e.name !in t.cmds ==> Relay.Pending(r, e.name) == ""
    ensures var outs' := if e.CmdEvent? && !L.Fires(t, e.name) then outs + [Relay.Out(e.name, t.cmds[e.name].queue[0].c)] else outs;
      Alike(RelayStep(mode, t, r, e), Relay.Run(mode, r0, outs'))
  {
    if e.CmdEvent? && !L.Fires(t, e.name) {
      var o := Relay.Out(e.name, t.cmds[e.name].queue[0].c);
      assert (outs + [o])[..|outs|] == outs;
      SameStep(mode, r, q, o);
    }
  }

  // With a broadcast tty from the start, what the heap's run relays is what the plain-text
  // relay makes of the interleaving of the bytes read.
  lemma {:induction false} RelayIsRun(line: bool, prefix: bool, s: L.State, r: Relay.State, evs: seq<L.Event>)
    requires L.Core(s) && s.flags.bcstflg && Promises.Admitted(s, evs) && NewNames(line, prefix, s, r, evs)
    ensures Alike(RelayRun(line, prefix, s, r, evs), Relay.Run(ModeOf(true, line, prefix), r, Outs(s, evs)))
  {
    if evs != [] {
      var front, e := evs[..|evs| - 1], evs[|evs| - 1];
      RelayIsRun(line, prefix, s, r, front);
      BcstStays(s, front);
      var t, mode := Promises.Run(s, front), ModeOf(true, line, prefix);
      hide L.Step, L.Core, L.Enabled, Relay.Run, RelayStep, Alike;
      OneStep(mode, t, e, RelayRun(line, prefix, s, r, front), Relay.Run(mode, r, Outs(s, front)), Outs(s, front), r);
    }
  }
}
